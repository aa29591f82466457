/**
 * DefaultAopProxyFactory: the choice between a JDK dynamic proxy and a CGLIB
 * subclass proxy for an advised configuration. The factory keeps no state, so
 * the choice is a function of the configuration alone.
 */
module AopProxy {
  import opened Results

  /** What the factory asks of a class by reflection. */
  datatype ClassInfo = ClassInfo(
    name: string,
    isInterface: bool,        // Class.isInterface
    isJdkProxyClass: bool,    // Proxy.isProxyClass
    isSpringProxy: bool)      // SpringProxy.class.isAssignableFrom(this class)

  /** The parts of AdvisedSupport the decision reads. */
  datatype AdvisedConfig = AdvisedConfig(
    optimize: bool,
    proxyTargetClass: bool,
    proxiedInterfaces: seq<ClassInfo>,
    targetClass: Option<ClassInfo>)   // None: the target source cannot determine its class

  /** The proxy strategies; each wraps the configuration it was created for. */
  datatype AopProxy = JdkDynamicAopProxy(config: AdvisedConfig) | ObjenesisCglibAopProxy(config: AdvisedConfig)

  /** AopConfigException: neither an interface nor a target class to proxy. */
  datatype AopConfigError = CannotDetermineTargetClass

  /** The user named no proxy interface beyond, at most, the SpringProxy marker. */
  function HasNoUserSuppliedProxyInterfaces(config: AdvisedConfig): (b: bool)
    ensures b <==> config.proxiedInterfaces == [] || (|config.proxiedInterfaces| == 1 && config.proxiedInterfaces[0].isSpringProxy)
    ensures |config.proxiedInterfaces| >= 2 ==> !b
  {
    var ifcs := config.proxiedInterfaces;
    |ifcs| == 0 || (|ifcs| == 1 && ifcs[0].isSpringProxy)
  }

  /** The configuration asks for a class-based proxy if the target allows it. */
  predicate PrefersClassProxy(config: AdvisedConfig) {
    config.optimize || config.proxyTargetClass || HasNoUserSuppliedProxyInterfaces(config)
  }

  /** createAopProxy. */
  function CreateAopProxy(config: AdvisedConfig): (r: Result<AopProxy, AopConfigError>)
    ensures r.Failure? <==> PrefersClassProxy(config) && config.targetClass.None?
    ensures r.Success? ==> r.value.config == config
    ensures r.Success? && r.value.ObjenesisCglibAopProxy? <==>
      && PrefersClassProxy(config)
      && config.targetClass.Some?
      && !config.targetClass.value.isInterface
      && !config.targetClass.value.isJdkProxyClass
  {
    if PrefersClassProxy(config) then
      match config.targetClass
      case None => Failure(CannotDetermineTargetClass)
      case Some(targetClass) =>
        if targetClass.isInterface || targetClass.isJdkProxyClass then Success(JdkDynamicAopProxy(config))
        else Success(ObjenesisCglibAopProxy(config))
    else Success(JdkDynamicAopProxy(config))
  }

  /**
   * With user-supplied interfaces and neither flag set the result is always a
   * JDK proxy, whatever the target class, even an unknown one.
   */
  lemma InterfacesWithoutFlagsGiveJdk(config: AdvisedConfig)
    requires !config.optimize && !config.proxyTargetClass
    requires |config.proxiedInterfaces| >= 2 || (|config.proxiedInterfaces| == 1 && !config.proxiedInterfaces[0].isSpringProxy)
    ensures CreateAopProxy(config) == Success(JdkDynamicAopProxy(config))
  {
  }

  /**
   * Naming only the SpringProxy marker interface is the same as naming none:
   * the decision is the one taken for an empty interface list.
   */
  lemma MarkerInterfaceCountsAsNone(config: AdvisedConfig, marker: ClassInfo)
    requires marker.isSpringProxy
    ensures CreateAopProxy(config.(proxiedInterfaces := [marker])).Failure?
            == CreateAopProxy(config.(proxiedInterfaces := [])).Failure?
    ensures CreateAopProxy(config.(proxiedInterfaces := [marker])).Success? ==>
              CreateAopProxy(config.(proxiedInterfaces := [marker])).value.ObjenesisCglibAopProxy?
              == CreateAopProxy(config.(proxiedInterfaces := [])).value.ObjenesisCglibAopProxy?
  {
  }

  /**
   * An interface or a JDK proxy class as the target class always gets a JDK
   * proxy; proxyTargetClass cannot force a subclass of it.
   */
  lemma InterfaceTargetGivesJdk(config: AdvisedConfig)
    requires config.targetClass.Some?
    requires config.targetClass.value.isInterface || config.targetClass.value.isJdkProxyClass
    ensures CreateAopProxy(config) == Success(JdkDynamicAopProxy(config))
  {
  }
}

/**
 * The bean factory the bootstrap works on: an insertion-ordered registry of named
 * bean definitions, its singletons, its ordered list of bean post-processors
 * (interceptors), the names of beans currently in creation, and a record of the
 * post-processor callbacks run against it.
 */
module Registry {
  import opened Results
  import opened Seqs
  import opened Ordering

  /** BeanDefinition.ROLE_APPLICATION, ROLE_SUPPORT, ROLE_INFRASTRUCTURE. */
  datatype Role = ApplicationRole | SupportRole | InfrastructureRole

  /** The capability a bean's type implements, classified once. */
  datatype Kind =
    | PlainBean
    | RegistryHook                                  // BeanDefinitionRegistryPostProcessor
    | FactoryHook                                   // BeanFactoryPostProcessor only
    | Interceptor(mergedDefinitionHook: bool)       // BeanPostProcessor; flag: MergedBeanDefinitionPostProcessor
    | AdvisorBean                                   // Advisor

  /** The types the bootstrap asks the factory for with getBeanNamesForType. */
  datatype TypeQuery = RegistryHookType | FactoryHookType | InterceptorType | AdvisorType

  /** Value of the configuration-class attribute: absent, "lite" or "full". */
  datatype ConfigAttr = NoConfigAttr | LiteConfig | FullConfig

  datatype BeanDefinition = BeanDefinition(
    className: string,            // getBeanClassName()
    classResolved: bool,          // hasBeanClass()
    kind: Kind,
    tier: Tier,                   // PriorityOrdered / Ordered / neither
    order: int,                   // getOrder() when Ordered; @Order value for configuration classes
    role: Role,
    configAttr: ConfigAttr,
    hasFactoryMethod: bool,       // AnnotatedBeanDefinition with factory-method metadata (@Bean method)
    isAbstractDefinition: bool,   // stored in an AbstractBeanDefinition subclass
    preserveTargetClass: bool     // AutoProxyUtils.PRESERVE_TARGET_CLASS_ATTRIBUTE set to true
  )

  /** A type match: a registry post-processor is also a bean factory post-processor. */
  predicate MatchesType(d: BeanDefinition, t: TypeQuery) {
    match t
    case RegistryHookType => d.kind.RegistryHook?
    case FactoryHookType => d.kind.RegistryHook? || d.kind.FactoryHook?
    case InterceptorType => d.kind.Interceptor?
    case AdvisorType => d.kind.AdvisorBean?
  }

  /** Bean definition names in registration order and the definitions they name. */
  datatype RegistryState = RegistryState(names: seq<string>, defs: map<string, BeanDefinition>)

  ghost predicate WellFormed(r: RegistryState) {
    && NoDup(r.names)
    && (forall n :: n in r.defs <==> n in r.names)
  }

  /** getBeanNamesForType: the names whose definition matches `t`, in registration order. */
  function BeanNamesForType(r: RegistryState, t: TypeQuery): (s: seq<string>)
    ensures forall n :: n in s <==> n in r.names && n in r.defs && MatchesType(r.defs[n], t)
    ensures NoDup(r.names) ==> NoDup(s)
  {
    var s := Filter(r.names, n => n in r.defs && MatchesType(r.defs[n], t));
    assert NoDup(r.names) ==> NoDup(s) by {
      if NoDup(r.names) { FilterNoDup(r.names, n => n in r.defs && MatchesType(r.defs[n], t)); }
    }
    s
  }

  /** The tier of the bean named `n`; an unknown name is neither Ordered nor PriorityOrdered. */
  function TierOf(r: RegistryState, n: string): Tier {
    if n in r.defs then r.defs[n].tier else PlainTier
  }

  /** The order-comparator key of the bean named `n`. */
  function KeyIn(r: RegistryState): string -> OrderKey {
    n => if n in r.defs then KeyOf(r.defs[n].tier, r.defs[n].order) else KeyOf(PlainTier, 0)
  }

  /** registerBeanDefinition: a new name goes to the end; re-registering a name overwrites it in place. */
  function Register(r: RegistryState, name: string, d: BeanDefinition): (r': RegistryState)
    ensures WellFormed(r) ==> WellFormed(r')
    ensures r'.defs == r.defs[name := d]
    ensures r.names <= r'.names
    ensures Elems(r'.names) == Elems(r.names) + {name}
    ensures WellFormed(r) && name in r.defs ==> r'.names == r.names
  {
    if name in r.names then RegistryState(r.names, r.defs[name := d])
    else
      var r' := RegistryState(r.names + [name], r.defs[name := d]);
      assert Elems(r'.names) == Elems(r.names) + {name};
      assert NoDup(r.names) ==> NoDup(r'.names) by {
        if NoDup(r.names) { AppendNoDup(r.names, [name]); }
      }
      r'
  }

  /** One definition registered under a name. */
  datatype Registration = Registration(name: string, definition: BeanDefinition)

  ghost function RegistrationNames(regs: seq<Registration>): set<string> {
    set i | 0 <= i < |regs| :: regs[i].name
  }

  /** Registers `regs` one after the other. */
  function RegisterAll(r: RegistryState, regs: seq<Registration>): (r': RegistryState)
    ensures WellFormed(r) ==> WellFormed(r')
    ensures r.names <= r'.names
    ensures Elems(r'.names) == Elems(r.names) + RegistrationNames(regs)
  {
    if regs == [] then r
    else
      var init := regs[..|regs| - 1];
      var last := regs[|regs| - 1];
      assert RegistrationNames(regs) == RegistrationNames(init) + {last.name} by {
        forall x | x in RegistrationNames(regs) ensures x in RegistrationNames(init) + {last.name} {
          var i :| 0 <= i < |regs| && regs[i].name == x;
          if i < |regs| - 1 { assert init[i] == regs[i]; }
        }
        forall x | x in RegistrationNames(init) ensures x in RegistrationNames(regs) {
          var i :| 0 <= i < |init| && init[i].name == x;
          assert regs[i] == init[i];
        }
      }
      Register(RegisterAll(r, init), last.name, last.definition)
  }

  /** Which callback of a post-processor ran. */
  datatype Phase = RegistryPhase | FactoryPhase

  /** A post-processor callback run against the factory: the phase and the post-processor's id. */
  datatype Callback = Callback(phase: Phase, hookId: string)

  function Calls(phase: Phase, ids: seq<string>): (r: seq<Callback>)
    ensures |r| == |ids|
    ensures forall i :: 0 <= i < |ids| ==> r[i] == Callback(phase, ids[i])
  {
    if ids == [] then [] else Calls(phase, ids[..|ids| - 1]) + [Callback(phase, ids[|ids| - 1])]
  }

  lemma CallsAppend(phase: Phase, a: seq<string>, b: seq<string>)
    ensures Calls(phase, a + b) == Calls(phase, a) + Calls(phase, b)
  {
  }

  lemma CallsExtend(log: seq<Callback>, phase: Phase, a: seq<string>, b: seq<string>)
    ensures log + Calls(phase, a) + Calls(phase, b) == log + Calls(phase, a + b)
  {
    CallsAppend(phase, a, b);
  }

  /** An entry of the factory's bean post-processor list. */
  datatype Interceptor =
    | Checker(targetCount: int)       // BeanPostProcessorChecker
    | BeanInterceptor(name: string)   // a BeanPostProcessor bean, identified by its bean name
    | ImportAwareProcessor            // ImportAwareBeanPostProcessor
    | ListenerDetector                // ApplicationListenerDetector
    | OtherProcessor(id: int)         // any other instance added with addBeanPostProcessor (ApplicationContextAwareProcessor, ...)

  /**
   * addBeanPostProcessor: an interceptor already in the list is removed first,
   * so adding moves it to the end.
   */
  function AddInterceptor(l: seq<Interceptor>, p: Interceptor): (r: seq<Interceptor>)
    ensures |r| > 0 && r[|r| - 1] == p
    ensures Elems(r) == Elems(l) + {p}
    ensures NoDup(l) ==> NoDup(r)
  {
    var r := Without(l, {p}) + [p];
    assert Elems(r) == Elems(l) + {p} by {
      forall x | x in l ensures x in r {
        var i :| 0 <= i < |l| && l[i] == x;
      }
    }
    assert NoDup(l) ==> NoDup(r) by {
      if NoDup(l) { WithoutNoDup(l, {p}); AppendNoDup(Without(l, {p}), [p]); }
    }
    r
  }

  /** Adds `ps` one after the other. */
  function AddAll(l: seq<Interceptor>, ps: seq<Interceptor>): (r: seq<Interceptor>)
    ensures Elems(r) == Elems(l) + Elems(ps)
    ensures NoDup(l) ==> NoDup(r)
  {
    if ps == [] then l
    else
      var init := ps[..|ps| - 1];
      assert ps == init + [ps[|ps| - 1]];
      AddInterceptor(AddAll(l, init), ps[|ps| - 1])
  }

  lemma {:induction false} WithoutAppend<T>(a: seq<T>, b: seq<T>, xs: set<T>)
    ensures Without(a + b, xs) == Without(a, xs) + Without(b, xs)
  {
    if b == [] {
      assert a + b == a;
    } else {
      var binit := b[..|b| - 1];
      var last := b[|b| - 1];
      WithoutAppend(a, binit, xs);
      assert (a + b)[..|a + b| - 1] == a + binit;
      assert (a + b)[|a + b| - 1] == last;
      var tail := if last in xs then [] else [last];
      calc {
        Without(a + b, xs);
        Without(a + binit, xs) + tail;
        Without(a, xs) + Without(binit, xs) + tail;
        Without(a, xs) + (Without(binit, xs) + tail);
        Without(a, xs) + Without(b, xs);
      }
    }
  }

  lemma WithoutTwice<T>(s: seq<T>, xs: set<T>, ys: set<T>)
    ensures Without(Without(s, xs), ys) == Without(s, xs + ys)
  {
    if s != [] {
      var init := s[..|s| - 1];
      WithoutTwice(init, xs, ys);
      WithoutAppend(Without(init, xs), if s[|s| - 1] in xs then [] else [s[|s| - 1]], ys);
    }
  }

  lemma WithoutNone<T>(s: seq<T>, xs: set<T>)
    requires forall i :: 0 <= i < |s| ==> s[i] !in xs
    ensures Without(s, xs) == s
  {
    if s != [] {
      WithoutNone(s[..|s| - 1], xs);
    }
  }

  /**
   * Adding distinct interceptors leaves the earlier list without them,
   * followed by them in the order they were added.
   */
  lemma {:induction false} AddAllDistinct(l: seq<Interceptor>, ps: seq<Interceptor>)
    requires NoDup(ps)
    ensures AddAll(l, ps) == Without(l, Elems(ps)) + ps
  {
    if ps == [] {
      WithoutNone(l, {});
      assert Elems(ps) == {};
    } else {
      var init := ps[..|ps| - 1];
      var p := ps[|ps| - 1];
      assert ps == init + [p];
      NoDupInit(ps);
      NoDupNotBefore(ps, |ps| - 1);
      AddAllDistinct(l, init);
      AddAllLast(l, ps);
      MoveToEnd(l, init, p);
    }
  }

  lemma MoveToEnd<T>(l: seq<T>, init: seq<T>, p: T)
    requires p !in init
    ensures Without(Without(l, Elems(init)) + init, {p}) + [p] == Without(l, Elems(init + [p])) + (init + [p])
  {
    var rest := Without(l, Elems(init));
    WithoutAppend(rest, init, {p});
    WithoutTwice(l, Elems(init), {p});
    WithoutNone(init, {p});
    ElemsSnoc(init, p);
  }

  lemma NoDupInit<T>(s: seq<T>)
    requires NoDup(s) && s != []
    ensures NoDup(s[..|s| - 1])
  {
    var init := s[..|s| - 1];
    forall i, j | 0 <= i < j < |init| ensures init[i] != init[j] {
      assert init[i] == s[i] && init[j] == s[j];
    }
  }

  lemma ElemsSnoc<T>(s: seq<T>, x: T)
    ensures Elems(s + [x]) == Elems(s) + {x}
  {
  }

  lemma AddAllLast(l: seq<Interceptor>, ps: seq<Interceptor>)
    requires ps != []
    ensures AddAll(l, ps) == Without(AddAll(l, ps[..|ps| - 1]), {ps[|ps| - 1]}) + [ps[|ps| - 1]]
  {
  }

  /** What the factory holds as a singleton. */
  datatype Singleton = ImportRegistry(configurationClasses: seq<string>) | OtherSingleton(description: string)

  class BeanFactory {
    /** System.identityHashCode of the factory (collisions are not modelled). */
    const id: int
    /** Whether the factory is also a BeanDefinitionRegistry. */
    const isRegistry: bool
    var names: seq<string>
    var definitions: map<string, BeanDefinition>
    var singletons: map<string, Singleton>
    var interceptors: seq<Interceptor>
    var inCreation: set<string>
    /** The post-processor callbacks run against this factory, in order. */
    var callbacks: seq<Callback>

    function Registry(): RegistryState
      reads this`names, this`definitions
    {
      RegistryState(names, definitions)
    }

    ghost predicate Valid()
      reads this`names, this`definitions, this`interceptors
    {
      WellFormed(Registry()) && NoDup(interceptors)
    }

    constructor (id: int, isRegistry: bool, initial: RegistryState)
      requires WellFormed(initial)
      ensures Valid()
      ensures this.id == id && this.isRegistry == isRegistry && Registry() == initial
      ensures singletons == map[] && interceptors == [] && inCreation == {} && callbacks == []
    {
      this.id := id;
      this.isRegistry := isRegistry;
      names := initial.names;
      definitions := initial.defs;
      singletons := map[];
      interceptors := [];
      inCreation := {};
      callbacks := [];
    }

    method RegisterBeanDefinition(name: string, d: BeanDefinition)
      requires Valid()
      modifies this`names, this`definitions
      ensures Valid()
      ensures Registry() == Register(old(Registry()), name, d)
    {
      var r := Register(Registry(), name, d);
      names, definitions := r.names, r.defs;
    }

    method AddBeanPostProcessor(p: Interceptor)
      requires Valid()
      modifies this`interceptors
      ensures Valid()
      ensures interceptors == AddInterceptor(old(interceptors), p)
    {
      interceptors := AddInterceptor(interceptors, p);
    }
  }
}

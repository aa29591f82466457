/**
 * registerBeanPostProcessors: the bean post-processors (interceptors) of the
 * factory are added to its interceptor list behind a checker, PriorityOrdered
 * ones first, then Ordered ones, then the rest; the merged-definition ones are
 * added once more at the end, and the listener detector comes last. The
 * checker logs beans created while that list is still incomplete.
 */
module BeanPostProcessorRegistration {
  import opened Results
  import opened Seqs
  import opened Ordering
  import opened Registry
  import opened PostProcessorDelegate

  /** getBean for a bean post-processor: the interceptor the bean named `n` is. */
  function Beans(names: seq<string>): (bs: seq<Interceptor>)
    ensures |bs| == |names|
    ensures forall i :: 0 <= i < |names| ==> bs[i] == BeanInterceptor(names[i])
  {
    seq(|names|, i requires 0 <= i < |names| => BeanInterceptor(names[i]))
  }

  /** The bean named `n` is a MergedBeanDefinitionPostProcessor. */
  predicate IsMergedHook(r: RegistryState, n: string) {
    n in r.defs && r.defs[n].kind.Interceptor? && r.defs[n].kind.mergedDefinitionHook
  }

  /** The merged-definition post-processors among `names`, in their order. */
  function MergedHooks(r: RegistryState, names: seq<string>): seq<string> {
    if names == [] then []
    else
      var last := names[|names| - 1];
      MergedHooks(r, names[..|names| - 1]) + (if IsMergedHook(r, last) then [last] else [])
  }

  /**
   * The internal post-processors, registered again at the end: the
   * merged-definition ones of each tier in discovery order, then sorted.
   */
  function InternalOrder(r: RegistryState, names: seq<string>): seq<string> {
    Sort(MergedHooks(r, Unprocessed(r, names, {}, {PriorityTier}))
         + MergedHooks(r, Unprocessed(r, names, {}, {OrderedTier}))
         + MergedHooks(r, Unprocessed(r, names, {}, {PlainTier})), KeyIn(r))
  }

  /** The checker's target: the interceptors there will be once the beans are added. */
  function TargetCount(l: seq<Interceptor>, r: RegistryState): int {
    |l| + 1 + |BeanNamesForType(r, InterceptorType)|
  }

  /** The interceptor list registerBeanPostProcessors leaves, from the list `l` it started with. */
  function InterceptorRegistrations(l: seq<Interceptor>, r: RegistryState): seq<Interceptor> {
    var names := BeanNamesForType(r, InterceptorType);
    var withChecker := AddInterceptor(l, Checker(TargetCount(l, r)));
    var withBeans := AddAll(withChecker, Beans(TierOrder(r, names, {})));
    AddInterceptor(AddAll(withBeans, Beans(InternalOrder(r, names))), ListenerDetector)
  }

  // ---------------------------------------------------------------------------
  // registerBeanPostProcessors
  // ---------------------------------------------------------------------------

  /** The first-pass lists after the names `seen`. */
  ghost predicate PartitionedSoFar(r: RegistryState, seen: seq<string>, priority: seq<string>, internal: seq<string>,
                                   ordered: seq<string>, nonOrdered: seq<string>)
  {
    && priority == Unprocessed(r, seen, {}, {PriorityTier})
    && internal == MergedHooks(r, priority)
    && ordered == Unprocessed(r, seen, {}, {OrderedTier})
    && nonOrdered == Unprocessed(r, seen, {}, {PlainTier})
  }

  /**
   * The first pass over the bean post-processor names: the PriorityOrdered ones
   * (instantiated at once, the merged-definition ones among them also kept as
   * internal), the Ordered names and the other names, each in discovery order.
   */
  method PartitionInterceptors(r: RegistryState, postProcessorNames: seq<string>)
    returns (priority: seq<string>, internal: seq<string>, ordered: seq<string>, nonOrdered: seq<string>)
    ensures priority == Unprocessed(r, postProcessorNames, {}, {PriorityTier})
    ensures internal == MergedHooks(r, priority)
    ensures ordered == Unprocessed(r, postProcessorNames, {}, {OrderedTier})
    ensures nonOrdered == Unprocessed(r, postProcessorNames, {}, {PlainTier})
  {
    priority, internal, ordered, nonOrdered := [], [], [], [];
    for i := 0 to |postProcessorNames|
      invariant PartitionedSoFar(r, postProcessorNames[..i], priority, internal, ordered, nonOrdered)
    {
      var ppName := postProcessorNames[i];
      assert postProcessorNames[..i + 1] == postProcessorNames[..i] + [ppName];
      ghost var seen := postProcessorNames[..i];
      PartitionStep(r, seen, ppName, priority, internal, ordered, nonOrdered);
      // PriorityOrdered beans are instantiated at once, the others only remembered by name
      var tier := TierOf(r, ppName);
      priority := if tier == PriorityTier then priority + [ppName] else priority;
      internal := if tier == PriorityTier && IsMergedHook(r, ppName) then internal + [ppName] else internal;
      ordered := if tier == OrderedTier then ordered + [ppName] else ordered;
      nonOrdered := if tier == PlainTier then nonOrdered + [ppName] else nonOrdered;
    }
    assert postProcessorNames[..|postProcessorNames|] == postProcessorNames;
  }

  lemma PartitionStep(r: RegistryState, seen: seq<string>, x: string, priority: seq<string>, internal: seq<string>,
                      ordered: seq<string>, nonOrdered: seq<string>)
    requires PartitionedSoFar(r, seen, priority, internal, ordered, nonOrdered)
    ensures var t := TierOf(r, x);
      PartitionedSoFar(r, seen + [x],
        if t == PriorityTier then priority + [x] else priority,
        if t == PriorityTier && IsMergedHook(r, x) then internal + [x] else internal,
        if t == OrderedTier then ordered + [x] else ordered,
        if t == PlainTier then nonOrdered + [x] else nonOrdered)
  {
    UnprocessedSnoc(r, seen, x, {PriorityTier});
    UnprocessedSnoc(r, seen, x, {OrderedTier});
    UnprocessedSnoc(r, seen, x, {PlainTier});
    MergedHooksSnoc(r, priority, x);
  }

  /** Instantiating `names` in order, keeping the merged-definition ones as internal. */
  method CollectMergedHooks(r: RegistryState, names: seq<string>, internal: seq<string>) returns (internal': seq<string>)
    ensures internal' == internal + MergedHooks(r, names)
  {
    internal' := internal;
    for i := 0 to |names|
      invariant internal' == internal + MergedHooks(r, names[..i])
    {
      assert names[..i + 1] == names[..i] + [names[i]];
      MergedHooksSnoc(r, names[..i], names[i]);
      if IsMergedHook(r, names[i]) {
        internal' := internal' + [names[i]];
      }
    }
    assert names[..|names|] == names;
  }

  /** The private registerBeanPostProcessors: adds the beans named `names`, in order. */
  method RegisterInterceptors(factory: BeanFactory, names: seq<string>)
    requires factory.Valid()
    modifies factory`interceptors
    ensures factory.Valid()
    ensures factory.interceptors == AddAll(old(factory.interceptors), Beans(names))
  {
    for i := 0 to |names|
      invariant factory.Valid()
      invariant factory.interceptors == AddAll(old(factory.interceptors), Beans(names[..i]))
    {
      assert Beans(names[..i + 1])[..i] == Beans(names[..i]);
      factory.AddBeanPostProcessor(BeanInterceptor(names[i]));
    }
    assert names[..|names|] == names;
  }

  /**
   * The three tiers of bean post-processors, each registered in turn; returns
   * the internal (merged-definition) ones met on the way, in discovery order.
   */
  method RegisterTiers(factory: BeanFactory, r: RegistryState, postProcessorNames: seq<string>)
    returns (internal: seq<string>)
    requires factory.Valid()
    modifies factory`interceptors
    ensures factory.Valid()
    ensures factory.interceptors == AddAll(old(factory.interceptors), Beans(TierOrder(r, postProcessorNames, {})))
    ensures Sort(internal, KeyIn(r)) == InternalOrder(r, postProcessorNames)
  {
    ghost var l := factory.interceptors;
    var priority, ordered, nonOrdered;
    priority, internal, ordered, nonOrdered := PartitionInterceptors(r, postProcessorNames);
    var sortedPriority := Sort(priority, KeyIn(r));
    RegisterInterceptors(factory, sortedPriority);
    internal := CollectMergedHooks(r, ordered, internal);
    var sortedOrdered := Sort(ordered, KeyIn(r));
    RegisterInterceptors(factory, sortedOrdered);
    internal := CollectMergedHooks(r, nonOrdered, internal);
    RegisterInterceptors(factory, nonOrdered);
    AddAllThree(l, sortedPriority, sortedOrdered, nonOrdered);
  }

  /** registerBeanPostProcessors. */
  method RegisterBeanPostProcessors(factory: BeanFactory)
    requires factory.Valid()
    modifies factory`interceptors
    ensures factory.Valid()
    ensures factory.interceptors == InterceptorRegistrations(old(factory.interceptors), factory.Registry())
  {
    var r := factory.Registry();
    ghost var l := factory.interceptors;
    var postProcessorNames := BeanNamesForType(r, InterceptorType);
    var beanProcessorTargetCount := |factory.interceptors| + 1 + |postProcessorNames|;
    factory.AddBeanPostProcessor(Checker(beanProcessorTargetCount));
    assert factory.interceptors == AddInterceptor(l, Checker(TargetCount(l, r)));
    RegisterAfterChecker(factory, r, postProcessorNames);
    assert factory.Registry() == r;
  }

  /**
   * The part of registerBeanPostProcessors after the checker: the three tiers,
   * the internal ones again, then the listener detector.
   */
  method RegisterAfterChecker(factory: BeanFactory, r: RegistryState, postProcessorNames: seq<string>)
    requires factory.Valid()
    modifies factory`interceptors
    ensures factory.Valid()
    ensures factory.interceptors == AddInterceptor(
      AddAll(AddAll(old(factory.interceptors), Beans(TierOrder(r, postProcessorNames, {}))), Beans(InternalOrder(r, postProcessorNames))),
      ListenerDetector)
  {
    var internal := RegisterTiers(factory, r, postProcessorNames);
    ghost var withBeans := factory.interceptors;
    var sortedInternal := Sort(internal, KeyIn(r));
    RegisterInterceptors(factory, sortedInternal);
    ghost var withInternal := factory.interceptors;
    assert withInternal == AddAll(withBeans, Beans(InternalOrder(r, postProcessorNames)));
    factory.AddBeanPostProcessor(ListenerDetector);
  }

  // ---------------------------------------------------------------------------
  // Helpers about adding interceptors
  // ---------------------------------------------------------------------------

  lemma UnprocessedSnoc(r: RegistryState, s: seq<string>, x: string, tiers: set<Tier>)
    ensures Unprocessed(r, s + [x], {}, tiers)
         == Unprocessed(r, s, {}, tiers) + (if TierOf(r, x) in tiers then [x] else [])
  {
    FilterSnoc(s, x, n => n !in {} && TierOf(r, n) in tiers);
  }

  lemma MergedHooksSnoc(r: RegistryState, s: seq<string>, x: string)
    ensures MergedHooks(r, s + [x]) == MergedHooks(r, s) + (if IsMergedHook(r, x) then [x] else [])
  {
    assert (s + [x])[..|s|] == s;
  }

  lemma BeansAppend(a: seq<string>, b: seq<string>)
    ensures Beans(a + b) == Beans(a) + Beans(b)
  {
  }

  lemma {:induction false} AddAllAppend(l: seq<Interceptor>, a: seq<Interceptor>, b: seq<Interceptor>)
    ensures AddAll(AddAll(l, a), b) == AddAll(l, a + b)
  {
    if b != [] {
      var init := b[..|b| - 1];
      AddAllAppend(l, a, init);
      InitOfAppend(a, b);
    } else {
      assert a + b == a;
    }
  }

  lemma AddAllThree(l: seq<Interceptor>, a: seq<string>, b: seq<string>, c: seq<string>)
    ensures AddAll(AddAll(AddAll(l, Beans(a)), Beans(b)), Beans(c)) == AddAll(l, Beans(a + b + c))
  {
    AddAllAppend(l, Beans(a), Beans(b));
    AddAllAppend(l, Beans(a) + Beans(b), Beans(c));
    BeansAppend(a, b);
    BeansAppend(a + b, c);
  }

  // ---------------------------------------------------------------------------
  // What registration leaves behind
  // ---------------------------------------------------------------------------

  lemma {:induction false} MergedHooksContents(r: RegistryState, s: seq<string>)
    ensures forall n :: n in MergedHooks(r, s) <==> n in s && IsMergedHook(r, n)
    ensures NoDup(s) ==> NoDup(MergedHooks(r, s))
  {
    if s != [] {
      var init := s[..|s| - 1];
      var last := s[|s| - 1];
      MergedHooksContents(r, init);
      assert s == init + [last];
      if NoDup(s) {
        NoDupInit(s);
        NoDupNotBefore(s, |s| - 1);
        AppendNoDup(MergedHooks(r, init), if IsMergedHook(r, last) then [last] else []);
      }
    }
  }

  /**
   * The internal post-processors registered again at the end are exactly the
   * merged-definition ones among the names, each once, in order-key order.
   */
  lemma InternalOrderContents(r: RegistryState, names: seq<string>)
    requires NoDup(names)
    ensures NoDup(InternalOrder(r, names))
    ensures forall n :: n in InternalOrder(r, names) <==> n in names && IsMergedHook(r, n)
    ensures SortedBy(InternalOrder(r, names), KeyIn(r))
  {
    var p := Unprocessed(r, names, {}, {PriorityTier});
    var o := Unprocessed(r, names, {}, {OrderedTier});
    var c := Unprocessed(r, names, {}, {PlainTier});
    MergedHooksContents(r, p);
    MergedHooksContents(r, o);
    MergedHooksContents(r, c);
    var mp, mo, mc := MergedHooks(r, p), MergedHooks(r, o), MergedHooks(r, c);
    AppendNoDup(mp, mo);
    AppendNoDup(mp + mo, mc);
    SortElems(mp + mo + mc, KeyIn(r));
    SortSorted(mp + mo + mc, KeyIn(r));
    forall n ensures n in InternalOrder(r, names) <==> n in names && IsMergedHook(r, n) {
      assert n in InternalOrder(r, names) <==> n in Elems(mp + mo + mc);
      InAllTiers(TierOf(r, n));
    }
  }

  lemma BeansContents(names: seq<string>)
    ensures forall x: Interceptor :: x in Beans(names) <==> x.BeanInterceptor? && x.name in names
    ensures NoDup(names) ==> NoDup(Beans(names))
  {
    var bs := Beans(names);
    forall x: Interceptor | x.BeanInterceptor? && x.name in names ensures x in bs {
      var i :| 0 <= i < |names| && names[i] == x.name;
      assert bs[i] == x;
    }
  }

  /** Removing elements none of `b` is among leaves `b` in place. */
  lemma WithoutKeeps<T>(a: seq<T>, b: seq<T>, xs: set<T>)
    requires forall i :: 0 <= i < |b| ==> b[i] !in xs
    ensures Without(a + b, xs) == Without(a, xs) + b
  {
    WithoutAppend(a, b, xs);
    WithoutNone(b, xs);
  }

  /** Adding the checker, then `order`, then `internal` again, then the listener detector. */
  lemma RegistrationShape(l: seq<Interceptor>, c: Interceptor, order: seq<Interceptor>, internal: seq<Interceptor>)
    requires NoDup(order) && NoDup(internal)
    requires Elems(internal) <= Elems(order)
    requires c !in order && ListenerDetector !in order && c != ListenerDetector
    ensures AddInterceptor(AddAll(AddAll(AddInterceptor(l, c), order), internal), ListenerDetector)
         == Without(l, {c} + Elems(order) + {ListenerDetector})
            + [c] + Without(order, Elems(internal)) + internal + [ListenerDetector]
  {
    var x := Without(l, {c} + Elems(order));
    var s2 := AddAll(AddInterceptor(l, c), order);
    TiersAfterChecker(l, c, order);
    var w := Without(order, Elems(internal));
    var s3 := AddAll(s2, internal);
    InternalAfterTiers(x, c, order, internal);
    forall i | 0 <= i < |w| ensures w[i] != ListenerDetector {
      assert w[i] in order;
    }
    forall i | 0 <= i < |internal| ensures internal[i] != ListenerDetector {
      assert internal[i] in Elems(internal);
    }
    DetectorLast(l, {c} + Elems(order), c, w, internal);
  }

  lemma DetectorLast(l: seq<Interceptor>, moved: set<Interceptor>, c: Interceptor, w: seq<Interceptor>, internal: seq<Interceptor>)
    requires c != ListenerDetector
    requires forall i :: 0 <= i < |w| ==> w[i] != ListenerDetector
    requires forall i :: 0 <= i < |internal| ==> internal[i] != ListenerDetector
    ensures AddInterceptor(Without(l, moved) + [c] + w + internal, ListenerDetector)
         == Without(l, moved + {ListenerDetector}) + [c] + w + internal + [ListenerDetector]
  {
    var x := Without(l, moved);
    WithoutKeeps(x + [c] + w, internal, {ListenerDetector});
    WithoutKeeps(x + [c], w, {ListenerDetector});
    WithoutKeeps(x, [c], {ListenerDetector});
    WithoutTwice(l, moved, {ListenerDetector});
  }

  lemma TiersAfterChecker(l: seq<Interceptor>, c: Interceptor, order: seq<Interceptor>)
    requires NoDup(order) && c !in order
    ensures AddAll(AddInterceptor(l, c), order) == Without(l, {c} + Elems(order)) + [c] + order
  {
    var s1 := AddInterceptor(l, c);
    assert s1 == Without(l, {c}) + [c];
    AddAllDistinct(s1, order);
    WithoutKeeps(Without(l, {c}), [c], Elems(order));
    WithoutTwice(l, {c}, Elems(order));
  }

  lemma InternalAfterTiers(x: seq<Interceptor>, c: Interceptor, order: seq<Interceptor>, internal: seq<Interceptor>)
    requires NoDup(internal) && Elems(internal) <= Elems(order)
    requires forall i :: 0 <= i < |x| ==> x[i] !in Elems(order)
    requires c !in order
    ensures AddAll(x + [c] + order, internal) == x + [c] + Without(order, Elems(internal)) + internal
  {
    AddAllDistinct(x + [c] + order, internal);
    WithoutAppend(x + [c], order, Elems(internal));
    WithoutKeeps(x, [c], Elems(internal));
    WithoutNone(x, Elems(internal));
  }

  /**
   * The interceptor list after registration: what was there before, less the
   * entries registration moves; then the checker; then the bean post-processors
   * in tier order, less the internal ones; then the internal ones sorted; and
   * the listener detector last.
   */
  lemma InterceptorOrder(l: seq<Interceptor>, r: RegistryState)
    requires WellFormed(r)
    ensures var names := BeanNamesForType(r, InterceptorType);
      var order := Beans(TierOrder(r, names, {}));
      var internal := Beans(InternalOrder(r, names));
      var checker := Checker(TargetCount(l, r));
      InterceptorRegistrations(l, r)
        == Without(l, {checker} + Elems(order) + {ListenerDetector})
           + [checker] + Without(order, Elems(internal)) + internal + [ListenerDetector]
  {
    var names := BeanNamesForType(r, InterceptorType);
    var order := Beans(TierOrder(r, names, {}));
    var internal := Beans(InternalOrder(r, names));
    var c := Checker(TargetCount(l, r));
    OrderedBeans(r, names);
    InternalWithinOrder(r, names);
    RegistrationShape(l, c, order, internal);
  }

  /** The bean interceptors of the tier order: distinct beans, one per name. */
  lemma OrderedBeans(r: RegistryState, names: seq<string>)
    requires NoDup(names)
    ensures var order := Beans(TierOrder(r, names, {}));
      && NoDup(order) && |order| == |names|
      && forall i :: 0 <= i < |order| ==> order[i].BeanInterceptor?
  {
    TierOrderContents(r, names, {});
    SameElemsSameLength(TierOrder(r, names, {}), names);
    BeansContents(TierOrder(r, names, {}));
  }

  /** The internal ones are distinct and among the beans of the tier order. */
  lemma InternalWithinOrder(r: RegistryState, names: seq<string>)
    requires NoDup(names)
    ensures NoDup(Beans(InternalOrder(r, names)))
    ensures Elems(Beans(InternalOrder(r, names))) <= Elems(Beans(TierOrder(r, names, {})))
  {
    InternalOrderContents(r, names);
    TierOrderContents(r, names, {});
    BeansContents(InternalOrder(r, names));
    BeansContents(TierOrder(r, names, {}));
    forall x | x in Elems(Beans(InternalOrder(r, names))) ensures x in Elems(Beans(TierOrder(r, names, {}))) {
      assert x.BeanInterceptor? && x.name in InternalOrder(r, names);
    }
  }

  /**
   * The list registration starts from holds no bean post-processor bean of the
   * registry and not the checker registration adds: whatever else it holds
   * (other checkers, processors added by hand, the listener detector) stays.
   */
  ghost predicate FreshForRegistration(l: seq<Interceptor>, r: RegistryState) {
    && Checker(TargetCount(l, r)) !in l
    && forall i :: 0 <= i < |l| && l[i].BeanInterceptor? ==> l[i].name !in BeanNamesForType(r, InterceptorType)
  }

  /**
   * Registration leaves exactly the checker's target count of interceptors, or
   * one more when the listener detector was not yet registered, provided the
   * list held none of the entries registration adds (other than the detector).
   */
  lemma RegistrationCount(l: seq<Interceptor>, r: RegistryState)
    requires WellFormed(r) && NoDup(l)
    requires FreshForRegistration(l, r)
    ensures |InterceptorRegistrations(l, r)| == TargetCount(l, r) + (if ListenerDetector in l then 0 else 1)
  {
    var names := BeanNamesForType(r, InterceptorType);
    var order := Beans(TierOrder(r, names, {}));
    var internal := Beans(InternalOrder(r, names));
    var c := Checker(TargetCount(l, r));
    InterceptorOrder(l, r);
    var moved := {c} + Elems(order) + {ListenerDetector};
    TierOrderContents(r, names, {});
    BeansContents(TierOrder(r, names, {}));
    forall i | 0 <= i < |l| ensures l[i] !in order {
      assert l[i].BeanInterceptor? ==> l[i].name !in TierOrder(r, names, {});
    }
    OnlyDetectorMoved(l, c, order);
    OrderedBeans(r, names);
    InternalWithinOrder(r, names);
    ShapeLength(l, moved, c, order, internal);
  }

  /** Of the entries registration moves, only the listener detector can already be in a fresh list. */
  lemma OnlyDetectorMoved(l: seq<Interceptor>, c: Interceptor, order: seq<Interceptor>)
    requires c !in l
    requires forall i :: 0 <= i < |l| ==> l[i] !in order
    ensures Elems(l) * ({c} + Elems(order) + {ListenerDetector})
         == (if ListenerDetector in l then {ListenerDetector} else {})
  {
    forall x | x in Elems(l) * ({c} + Elems(order) + {ListenerDetector}) ensures x == ListenerDetector {
      var i :| 0 <= i < |l| && l[i] == x;
    }
  }

  lemma ShapeLength(l: seq<Interceptor>, moved: set<Interceptor>, c: Interceptor,
                    order: seq<Interceptor>, internal: seq<Interceptor>)
    requires NoDup(l) && NoDup(order) && NoDup(internal)
    requires Elems(internal) <= Elems(order)
    requires Elems(l) * moved == (if ListenerDetector in l then {ListenerDetector} else {})
    ensures |Without(l, moved) + [c] + Without(order, Elems(internal)) + internal + [ListenerDetector]|
         == |l| + 1 + |order| + (if ListenerDetector in l then 0 else 1)
  {
    WithoutCount(l, moved);
    assert Elems(order) * Elems(internal) == Elems(internal);
    WithoutCount(order, Elems(internal));
    NoDupCardinality(internal);
  }

  // ---------------------------------------------------------------------------
  // BeanPostProcessorChecker
  // ---------------------------------------------------------------------------

  /** A bean instance as the checker sees it: its class name and whether it is a bean post-processor. */
  datatype BeanInstance = BeanInstance(typeName: string, isInterceptor: bool)

  /** What the checker's after-initialization callback returns, and whether it logs the info message. */
  datatype CheckResult = CheckResult(bean: BeanInstance, logged: bool)

  /** isInfrastructureBean: a known bean whose definition has the infrastructure role. */
  function IsInfrastructureBean(r: RegistryState, beanName: Option<string>): (b: bool)
    ensures b ==> beanName.Some? && beanName.value in r.defs
  {
    match beanName
    case None => false
    case Some(n) => n in r.defs && r.defs[n].role == InfrastructureRole
  }

  /** postProcessBeforeInitialization: the checker passes every bean through. */
  function PostProcessBeforeInitialization(bean: BeanInstance, beanName: Option<string>): (b: BeanInstance)
    ensures b == bean
  {
    bean
  }

  /**
   * postProcessAfterInitialization, against the factory's registry `r` and its
   * current interceptor count: the bean passes through, and a bean that is
   * neither a post-processor nor infrastructure is reported when fewer than
   * `targetCount` interceptors are registered.
   */
  function PostProcessAfterInitialization(targetCount: int, r: RegistryState, count: int,
                                          bean: BeanInstance, beanName: Option<string>): (res: CheckResult)
    ensures res.bean == bean
  {
    CheckResult(bean, !bean.isInterceptor && !IsInfrastructureBean(r, beanName) && count < targetCount)
  }

  /**
   * Once registration is over, the checker registered by it stays silent:
   * the factory holds at least as many interceptors as it was told to expect.
   */
  lemma CheckerSilentAfterRegistration(l: seq<Interceptor>, r: RegistryState, bean: BeanInstance, beanName: Option<string>)
    requires WellFormed(r) && NoDup(l)
    requires FreshForRegistration(l, r)
    ensures !PostProcessAfterInitialization(TargetCount(l, r), r, |InterceptorRegistrations(l, r)|, bean, beanName).logged
  {
    RegistrationCount(l, r);
  }

  /**
   * While registration is still running, an application bean that is not a
   * post-processor is reported: right after the checker is added the count is
   * below the target whenever some bean post-processor is still to come.
   */
  lemma CheckerReportsEarlyBeans(l: seq<Interceptor>, r: RegistryState, bean: BeanInstance, beanName: Option<string>)
    requires NoDup(l) && Checker(TargetCount(l, r)) !in l
    requires BeanNamesForType(r, InterceptorType) != []
    requires !bean.isInterceptor && !IsInfrastructureBean(r, beanName)
    ensures PostProcessAfterInitialization(TargetCount(l, r), r, |AddInterceptor(l, Checker(TargetCount(l, r)))|,
                                           bean, beanName).logged
  {
    var c := Checker(TargetCount(l, r));
    WithoutNone(l, {c});
  }
}

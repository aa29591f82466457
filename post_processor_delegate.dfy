/**
 * The two bootstrap steps of an application context that run post-processors:
 * invoking the bean factory post-processors (registry post-processors first, in
 * waves, until no new one appears) and registering the bean post-processors
 * (interceptors) in their order.
 */
module PostProcessorDelegate {
  import opened Results
  import opened Seqs
  import opened Ordering
  import opened Registry

  /**
   * A post-processor object the caller hands over (not a bean): its identity and
   * whether it is a BeanDefinitionRegistryPostProcessor.
   */
  datatype Hook = Hook(id: string, mutatesRegistry: bool)

  /**
   * What each post-processor registers when its registry callback runs; this is
   * the post-processor's own code, so the model takes it as data.
   */
  type Effects = map<string, seq<Registration>>

  function EffectOf(effects: Effects, id: string): seq<Registration> {
    if id in effects then effects[id] else []
  }

  /** Every name some post-processor may register. */
  ghost function EffectNames(effects: Effects): set<string> {
    set id, reg | id in effects && reg in effects[id] :: reg.name
  }

  /** The registry after the registry callbacks of `ids` have run in order. */
  function ApplyHooks(r: RegistryState, ids: seq<string>, effects: Effects): (r': RegistryState)
    ensures WellFormed(r) ==> WellFormed(r')
    ensures r.names <= r'.names
    ensures Elems(r'.names) <= Elems(r.names) + EffectNames(effects)
  {
    if ids == [] then r
    else
      var r1 := ApplyHooks(r, ids[..|ids| - 1], effects);
      var regs := EffectOf(effects, ids[|ids| - 1]);
      assert RegistrationNames(regs) <= EffectNames(effects) by {
        forall x | x in RegistrationNames(regs) ensures x in EffectNames(effects) {
          var i :| 0 <= i < |regs| && regs[i].name == x;
          assert regs[i] in effects[ids[|ids| - 1]];
        }
      }
      RegisterAll(r1, regs)
  }

  /** The ids of the caller's registry post-processors, in list order. */
  function RegistryHookIds(hooks: seq<Hook>): seq<string> {
    if hooks == [] then []
    else RegistryHookIds(hooks[..|hooks| - 1]) + (if hooks[|hooks| - 1].mutatesRegistry then [hooks[|hooks| - 1].id] else [])
  }

  /** The ids of the caller's other post-processors, in list order. */
  function RegularHookIds(hooks: seq<Hook>): seq<string> {
    if hooks == [] then []
    else RegularHookIds(hooks[..|hooks| - 1]) + (if hooks[|hooks| - 1].mutatesRegistry then [] else [hooks[|hooks| - 1].id])
  }

  /** The ids of all the caller's post-processors, in list order. */
  function HookIds(hooks: seq<Hook>): seq<string> {
    if hooks == [] then [] else HookIds(hooks[..|hooks| - 1]) + [hooks[|hooks| - 1].id]
  }

  /** Every tier: the last wave takes any registry post-processor not yet run. */
  const AllTiers: set<Tier> := {PriorityTier, OrderedTier, PlainTier}

  /**
   * The tiers a registry wave selects: PriorityOrdered first, then Ordered (which
   * PriorityOrdered extends, so both tiers match), then everything.
   */
  function WaveTiers(i: nat): set<Tier> {
    if i == 0 then {PriorityTier} else if i == 1 then {PriorityTier, OrderedTier} else AllTiers
  }

  lemma InAllTiers(t: Tier)
    ensures t in AllTiers
  {
    match t
    case PriorityTier =>
    case OrderedTier =>
    case PlainTier =>
  }

  /** Every wave after the Ordered one takes all tiers. */
  lemma LaterWaveTiers(i: nat)
    requires i >= 2
    ensures WaveTiers(i) == AllTiers
  {
  }

  /** The candidates not yet processed whose tier is one of `tiers`, in candidate order. */
  function Unprocessed(r: RegistryState, candidates: seq<string>, processed: set<string>, tiers: set<Tier>): (s: seq<string>)
    ensures forall n :: n in s <==> n in candidates && n !in processed && TierOf(r, n) in tiers
    ensures NoDup(candidates) ==> NoDup(s)
  {
    var s := Filter(candidates, n => n !in processed && TierOf(r, n) in tiers);
    assert NoDup(candidates) ==> NoDup(s) by {
      if NoDup(candidates) { FilterNoDup(candidates, n => n !in processed && TierOf(r, n) in tiers); }
    }
    s
  }

  /** The registry post-processors one wave runs against `r`, sorted. */
  function Wave(r: RegistryState, processed: set<string>, tiers: set<Tier>): seq<string> {
    Sort(Unprocessed(r, BeanNamesForType(r, RegistryHookType), processed, tiers), KeyIn(r))
  }

  /**
   * `waves` are the registry waves run so far and `snapshots` the registry each
   * of them started from: wave i is chosen from its snapshot, skipping every
   * name run by an earlier wave, and the next snapshot is the registry after it.
   */
  ghost predicate WavesFollow(start: RegistryState, waves: seq<seq<string>>, snapshots: seq<RegistryState>, effects: Effects) {
    && |waves| == |snapshots|
    && (|snapshots| > 0 ==> snapshots[0] == start)
    && (forall i :: 0 <= i < |waves| ==> WaveChosen(waves, snapshots, i))
    && (forall i :: 0 <= i < |waves| - 1 ==> SnapshotFollows(waves, snapshots, effects, i))
  }

  /** The registry once the waves have run: `start` if there were none. */
  ghost function AfterWaves(start: RegistryState, waves: seq<seq<string>>, snapshots: seq<RegistryState>, effects: Effects): RegistryState
    requires |waves| == |snapshots|
  {
    if waves == [] then start else ApplyHooks(snapshots[|snapshots| - 1], waves[|waves| - 1], effects)
  }

  /** Wave `i` is what its snapshot offers, less every name an earlier wave ran. */
  ghost predicate WaveChosen(waves: seq<seq<string>>, snapshots: seq<RegistryState>, i: int)
    requires 0 <= i < |waves| == |snapshots|
  {
    waves[i] == Wave(snapshots[i], Elems(Flatten(waves[..i])), WaveTiers(i))
  }

  /** Snapshot `i + 1` is the registry after wave `i` ran. */
  ghost predicate SnapshotFollows(waves: seq<seq<string>>, snapshots: seq<RegistryState>, effects: Effects, i: int)
    requires 0 <= i < |waves| - 1 && |waves| == |snapshots|
  {
    snapshots[i + 1] == ApplyHooks(snapshots[i], waves[i], effects)
  }

  /**
   * A complete registry phase from `start` to `final`: the PriorityOrdered
   * wave, the Ordered wave, then waves of everything left, repeated until one
   * finds nothing; `final` is the registry that last, empty wave saw.
   */
  ghost predicate RegistryPhaseRun(start: RegistryState, waves: seq<seq<string>>, snapshots: seq<RegistryState>, effects: Effects, final: RegistryState) {
    && WavesFollow(start, waves, snapshots, effects)
    && |waves| >= 3
    && waves[|waves| - 1] == []
    && (forall i :: 2 <= i < |waves| - 1 ==> waves[i] != [])
    && final == snapshots[|snapshots| - 1]
  }

  /**
   * The unprocessed `names` in the order they are run: the PriorityOrdered ones
   * sorted, then the Ordered ones sorted, then the rest in discovery order.
   */
  function TierOrder(r: RegistryState, names: seq<string>, processed: set<string>): seq<string> {
    Sort(Unprocessed(r, names, processed, {PriorityTier}), KeyIn(r))
    + Sort(Unprocessed(r, names, processed, {OrderedTier}), KeyIn(r))
    + Unprocessed(r, names, processed, {PlainTier})
  }

  /** The bean factory post-processors that only get their factory callback, in invocation order. */
  function FactoryOnlyOrder(r: RegistryState, processed: set<string>): seq<string> {
    TierOrder(r, BeanNamesForType(r, FactoryHookType), processed)
  }

  /**
   * The callbacks invokeBeanFactoryPostProcessors runs on a registry, given the
   * registry waves and the registry they left: the registry callbacks of the
   * caller's registry post-processors and of the waves, then the factory
   * callbacks of the same, of the caller's other post-processors and of the
   * bean factory post-processors the waves did not run.
   */
  ghost function RegistryCallbacks(callerHooks: seq<Hook>, waves: seq<seq<string>>, final: RegistryState): seq<Callback> {
    Calls(RegistryPhase, RegistryHookIds(callerHooks) + Flatten(waves))
    + Calls(FactoryPhase, RegistryHookIds(callerHooks) + Flatten(waves) + RegularHookIds(callerHooks)
                          + FactoryOnlyOrder(final, Elems(Flatten(waves))))
  }

  /** The callbacks invokeBeanFactoryPostProcessors runs on a factory that is not a registry. */
  ghost function PlainFactoryCallbacks(callerHooks: seq<Hook>, r: RegistryState): seq<Callback> {
    Calls(FactoryPhase, HookIds(callerHooks) + FactoryOnlyOrder(r, {}))
  }

  // ---------------------------------------------------------------------------
  // invokeBeanFactoryPostProcessors
  // ---------------------------------------------------------------------------

  /** One pass over the candidate names, keeping the unprocessed ones of the given tiers. */
  method SelectWave(r: RegistryState, candidates: seq<string>, processed: set<string>, tiers: set<Tier>)
    returns (current: seq<string>, processed': set<string>)
    requires NoDup(candidates)
    ensures current == Unprocessed(r, candidates, processed, tiers)
    ensures processed' == processed + Elems(current)
  {
    current := [];
    processed' := processed;
    for i := 0 to |candidates|
      invariant current == Unprocessed(r, candidates[..i], processed, tiers)
      invariant processed' == processed + Elems(current)
    {
      UnprocessedStep(r, candidates, processed, tiers, i);
      NoDupNotBefore(candidates, i);
      var n := candidates[i];
      assert n !in Elems(current);
      if n !in processed' && TierOf(r, n) in tiers {
        current := current + [n];
        processed' := processed' + {n};
      }
    }
    assert candidates[..|candidates|] == candidates;
  }

  /** Runs the registry callback of one post-processor. */
  method InvokeRegistryHook(factory: BeanFactory, id: string, effects: Effects)
    requires factory.Valid()
    modifies factory`names, factory`definitions, factory`callbacks
    ensures factory.Valid()
    ensures factory.Registry() == RegisterAll(old(factory.Registry()), EffectOf(effects, id))
    ensures factory.callbacks == old(factory.callbacks) + [Callback(RegistryPhase, id)]
  {
    factory.callbacks := factory.callbacks + [Callback(RegistryPhase, id)];
    var regs := EffectOf(effects, id);
    for j := 0 to |regs|
      invariant factory.Valid()
      invariant factory.Registry() == RegisterAll(old(factory.Registry()), regs[..j])
      invariant factory.callbacks == old(factory.callbacks) + [Callback(RegistryPhase, id)]
    {
      assert regs[..j + 1][..j] == regs[..j];
      factory.RegisterBeanDefinition(regs[j].name, regs[j].definition);
    }
    assert regs[..|regs|] == regs;
  }

  /** invokeBeanDefinitionRegistryPostProcessors: the registry callbacks of `ids`, in order. */
  method InvokeRegistryHooks(factory: BeanFactory, ids: seq<string>, effects: Effects)
    requires factory.Valid()
    modifies factory`names, factory`definitions, factory`callbacks
    ensures factory.Valid()
    ensures factory.Registry() == ApplyHooks(old(factory.Registry()), ids, effects)
    ensures factory.callbacks == old(factory.callbacks) + Calls(RegistryPhase, ids)
  {
    for i := 0 to |ids|
      invariant factory.Valid()
      invariant factory.Registry() == ApplyHooks(old(factory.Registry()), ids[..i], effects)
      invariant factory.callbacks == old(factory.callbacks) + Calls(RegistryPhase, ids[..i])
    {
      assert ids[..i + 1][..i] == ids[..i];
      InvokeRegistryHook(factory, ids[i], effects);
    }
    assert ids[..|ids|] == ids;
  }

  /** invokeBeanFactoryPostProcessors (the private helper): the factory callbacks of `ids`, in order. */
  method InvokeFactoryHooks(factory: BeanFactory, ids: seq<string>)
    modifies factory`callbacks
    ensures factory.callbacks == old(factory.callbacks) + Calls(FactoryPhase, ids)
  {
    for i := 0 to |ids|
      invariant factory.callbacks == old(factory.callbacks) + Calls(FactoryPhase, ids[..i])
    {
      assert ids[..i + 1][..i] == ids[..i];
      factory.callbacks := factory.callbacks + [Callback(FactoryPhase, ids[i])];
    }
    assert ids[..|ids|] == ids;
  }

  /**
   * The caller's post-processors in list order: a registry post-processor gets
   * its registry callback at once and is kept for the factory callbacks; the
   * others are kept for later.
   */
  method InvokeCallerRegistryHooks(factory: BeanFactory, hooks: seq<Hook>, effects: Effects)
    returns (registryProcessors: seq<string>, regular: seq<string>)
    requires factory.Valid()
    modifies factory`names, factory`definitions, factory`callbacks
    ensures factory.Valid()
    ensures registryProcessors == RegistryHookIds(hooks) && regular == RegularHookIds(hooks)
    ensures factory.Registry() == ApplyHooks(old(factory.Registry()), registryProcessors, effects)
    ensures factory.callbacks == old(factory.callbacks) + Calls(RegistryPhase, registryProcessors)
  {
    registryProcessors, regular := [], [];
    ghost var start, log := factory.Registry(), factory.callbacks;
    for i := 0 to |hooks|
      invariant factory.Valid()
      invariant registryProcessors == RegistryHookIds(hooks[..i]) && regular == RegularHookIds(hooks[..i])
      invariant factory.Registry() == ApplyHooks(start, registryProcessors, effects)
      invariant factory.callbacks == log + Calls(RegistryPhase, registryProcessors)
    {
      HookIdsStep(hooks, i);
      var h := hooks[i];
      if h.mutatesRegistry {
        InvokeRegistryHook(factory, h.id, effects);
        ApplyHooksSnoc(start, registryProcessors, h.id, effects);
        CallsSnoc(RegistryPhase, registryProcessors, h.id);
        AppendAssoc(log, Calls(RegistryPhase, registryProcessors), [Callback(RegistryPhase, h.id)]);
        registryProcessors := registryProcessors + [h.id];
      } else {
        regular := regular + [h.id];
      }
    }
    assert hooks[..|hooks|] == hooks;
  }

  /** The caller's post-processors up to `i + 1`, split by kind. */
  lemma HookIdsStep(hooks: seq<Hook>, i: int)
    requires 0 <= i < |hooks|
    ensures RegistryHookIds(hooks[..i + 1]) == RegistryHookIds(hooks[..i]) + (if hooks[i].mutatesRegistry then [hooks[i].id] else [])
    ensures RegularHookIds(hooks[..i + 1]) == RegularHookIds(hooks[..i]) + (if hooks[i].mutatesRegistry then [] else [hooks[i].id])
  {
    assert hooks[..i + 1][..i] == hooks[..i];
  }

  /** Running one more registry callback registers its definitions. */
  lemma ApplyHooksSnoc(r: RegistryState, ids: seq<string>, id: string, effects: Effects)
    ensures ApplyHooks(r, ids + [id], effects) == RegisterAll(ApplyHooks(r, ids, effects), EffectOf(effects, id))
  {
    assert (ids + [id])[..|ids|] == ids;
  }

  lemma CallsSnoc(phase: Phase, ids: seq<string>, id: string)
    ensures Calls(phase, ids + [id]) == Calls(phase, ids) + [Callback(phase, id)]
  {
    assert (ids + [id])[..|ids|] == ids;
  }

  /**
   * The post-processors of one wave: the registry post-processors of `r` whose
   * tier is one of `tiers` and that no earlier wave ran, sorted; they are marked
   * processed.
   */
  method CollectWave(r: RegistryState, processed: set<string>, tiers: set<Tier>)
    returns (wave: seq<string>, processed': set<string>)
    requires WellFormed(r)
    ensures wave == Wave(r, processed, tiers)
    ensures NoDup(wave)
    ensures Elems(wave) <= Elems(r.names) - processed
    ensures processed' == processed + Elems(wave)
  {
    var postProcessorNames := BeanNamesForType(r, RegistryHookType);
    var current;
    current, processed' := SelectWave(r, postProcessorNames, processed, tiers);
    wave := Sort(current, KeyIn(r));
    SortElems(current, KeyIn(r));
  }

  /**
   * The registry phase after `waves`: the factory is valid, the waves followed
   * one another from `start`, the factory holds the registry the last of them
   * left, `processed` and `registryProcessors` (after the `earlier` ones) hold
   * what they ran, the log holds their registry callbacks after `log`, and
   * every name is one `start` had or one a post-processor registers.
   */
  ghost predicate PhaseSoFar(factory: BeanFactory, start: RegistryState, effects: Effects, log: seq<Callback>, earlier: seq<string>,
                             waves: seq<seq<string>>, snapshots: seq<RegistryState>, processed: set<string>, registryProcessors: seq<string>)
    reads factory`names, factory`definitions, factory`interceptors, factory`callbacks
  {
    && factory.Valid()
    && WavesFollow(start, waves, snapshots, effects)
    && factory.Registry() == AfterWaves(start, waves, snapshots, effects)
    && processed == Elems(Flatten(waves))
    && registryProcessors == earlier + Flatten(waves)
    && factory.callbacks == log + Calls(RegistryPhase, Flatten(waves))
    && Elems(factory.names) <= Elems(start.names) + EffectNames(effects)
  }

  /**
   * One wave: select from the current registry, sort, keep the post-processors
   * in `registryProcessors` and run their registry callbacks. The ghost `waves`
   * and `snapshots` are the waves run before it.
   */
  method RunRegistryWave(factory: BeanFactory, tiers: set<Tier>, effects: Effects, processed: set<string>, registryProcessors: seq<string>,
                         ghost start: RegistryState, ghost log: seq<Callback>, ghost earlier: seq<string>,
                         ghost waves: seq<seq<string>>, ghost snapshots: seq<RegistryState>)
    returns (wave: seq<string>, processed': set<string>, registryProcessors': seq<string>)
    requires PhaseSoFar(factory, start, effects, log, earlier, waves, snapshots, processed, registryProcessors)
    requires tiers == WaveTiers(|waves|)
    modifies factory`names, factory`definitions, factory`callbacks
    ensures PhaseSoFar(factory, start, effects, log, earlier, waves + [wave], snapshots + [old(factory.Registry())], processed', registryProcessors')
    ensures Elems(wave) <= Elems(old(factory.names)) - processed
    ensures processed' == processed + Elems(wave)
  {
    var r := factory.Registry();
    wave, processed' := CollectWave(r, processed, tiers);
    registryProcessors' := registryProcessors + wave;
    InvokeRegistryHooks(factory, wave, effects);
    WavesExtend(start, waves, snapshots, effects, r, processed, tiers, wave);
    FlattenSnoc(waves, wave);
    ElemsAppend(Flatten(waves), wave);
    WaveBookkeeping(log, earlier, waves, wave);
  }

  /**
   * Splits the bean factory post-processor names not yet processed into the
   * PriorityOrdered ones, the Ordered ones and the rest, keeping discovery order.
   */
  method PartitionFactoryHooks(r: RegistryState, postProcessorNames: seq<string>, processed: set<string>)
    returns (priority: seq<string>, ordered: seq<string>, nonOrdered: seq<string>)
    ensures priority == Unprocessed(r, postProcessorNames, processed, {PriorityTier})
    ensures ordered == Unprocessed(r, postProcessorNames, processed, {OrderedTier})
    ensures nonOrdered == Unprocessed(r, postProcessorNames, processed, {PlainTier})
  {
    priority, ordered, nonOrdered := [], [], [];
    for i := 0 to |postProcessorNames|
      invariant priority == Unprocessed(r, postProcessorNames[..i], processed, {PriorityTier})
      invariant ordered == Unprocessed(r, postProcessorNames[..i], processed, {OrderedTier})
      invariant nonOrdered == Unprocessed(r, postProcessorNames[..i], processed, {PlainTier})
    {
      UnprocessedStep(r, postProcessorNames, processed, {PriorityTier}, i);
      UnprocessedStep(r, postProcessorNames, processed, {OrderedTier}, i);
      UnprocessedStep(r, postProcessorNames, processed, {PlainTier}, i);
      var ppName := postProcessorNames[i];
      if ppName in processed {
        // already ran in the registry phase
      } else if TierOf(r, ppName) == PriorityTier {
        priority := priority + [ppName];
      } else if TierOf(r, ppName) == OrderedTier {
        ordered := ordered + [ppName];
      } else {
        nonOrdered := nonOrdered + [ppName];
      }
    }
    assert postProcessorNames[..|postProcessorNames|] == postProcessorNames;
  }

  /** Taking one more candidate adds it at the end if it is unprocessed and of one of `tiers`. */
  lemma UnprocessedStep(r: RegistryState, candidates: seq<string>, processed: set<string>, tiers: set<Tier>, i: int)
    requires 0 <= i < |candidates|
    ensures Unprocessed(r, candidates[..i + 1], processed, tiers)
         == Unprocessed(r, candidates[..i], processed, tiers)
            + (if candidates[i] !in processed && TierOf(r, candidates[i]) in tiers then [candidates[i]] else [])
  {
    assert candidates[..i + 1] == candidates[..i] + [candidates[i]];
    FilterSnoc(candidates[..i], candidates[i], n => n !in processed && TierOf(r, n) in tiers);
  }

  /** The factory callbacks of the bean factory post-processors not processed yet. */
  method InvokeFactoryOnlyHooks(factory: BeanFactory, processed: set<string>)
    modifies factory`callbacks
    ensures factory.callbacks == old(factory.callbacks) + Calls(FactoryPhase, FactoryOnlyOrder(factory.Registry(), processed))
  {
    var r := factory.Registry();
    var postProcessorNames := BeanNamesForType(r, FactoryHookType);
    var priority, ordered, nonOrdered := PartitionFactoryHooks(r, postProcessorNames, processed);
    var sortedPriority := Sort(priority, KeyIn(r));
    var sortedOrdered := Sort(ordered, KeyIn(r));
    assert sortedPriority + sortedOrdered + nonOrdered == FactoryOnlyOrder(r, processed);
    InvokeFactoryHookTiers(factory, sortedPriority, sortedOrdered, nonOrdered);
    assert factory.Registry() == r;
  }

  /** The factory callbacks of the three tiers, one tier after the other. */
  method InvokeFactoryHookTiers(factory: BeanFactory, sortedPriority: seq<string>, sortedOrdered: seq<string>, nonOrdered: seq<string>)
    modifies factory`callbacks
    ensures factory.callbacks == old(factory.callbacks) + Calls(FactoryPhase, sortedPriority + sortedOrdered + nonOrdered)
  {
    ghost var log := factory.callbacks;
    InvokeFactoryHooks(factory, sortedPriority);
    InvokeFactoryHooks(factory, sortedOrdered);
    CallsExtend(log, FactoryPhase, sortedPriority, sortedOrdered);
    InvokeFactoryHooks(factory, nonOrdered);
    CallsExtend(log, FactoryPhase, sortedPriority + sortedOrdered, nonOrdered);
  }

  lemma WavesExtend(start: RegistryState, waves: seq<seq<string>>, snapshots: seq<RegistryState>, effects: Effects,
                    s: RegistryState, processed: set<string>, tiers: set<Tier>, w: seq<string>)
    requires WavesFollow(start, waves, snapshots, effects)
    requires s == AfterWaves(start, waves, snapshots, effects)
    requires processed == Elems(Flatten(waves))
    requires tiers == WaveTiers(|waves|)
    requires w == Wave(s, processed, tiers)
    ensures WavesFollow(start, waves + [w], snapshots + [s], effects)
  {
    WavesChosenExtend(waves, snapshots, s, w);
    SnapshotsFollowExtend(waves, snapshots, effects, s, w);
  }

  lemma WavesChosenExtend(waves: seq<seq<string>>, snapshots: seq<RegistryState>, s: RegistryState, w: seq<string>)
    requires |waves| == |snapshots|
    requires forall i :: 0 <= i < |waves| ==> WaveChosen(waves, snapshots, i)
    requires w == Wave(s, Elems(Flatten(waves)), WaveTiers(|waves|))
    ensures forall i :: 0 <= i < |waves| + 1 ==> WaveChosen(waves + [w], snapshots + [s], i)
  {
    var waves' := waves + [w];
    var snapshots' := snapshots + [s];
    forall i | 0 <= i < |waves'|
      ensures WaveChosen(waves', snapshots', i)
    {
      PrefixOfSnoc(waves, w, i);
      if i < |waves| {
        assert WaveChosen(waves, snapshots, i);
      } else {
        assert waves[..i] == waves;
      }
    }
  }

  lemma SnapshotsFollowExtend(waves: seq<seq<string>>, snapshots: seq<RegistryState>, effects: Effects, s: RegistryState, w: seq<string>)
    requires |waves| == |snapshots|
    requires forall i :: 0 <= i < |waves| - 1 ==> SnapshotFollows(waves, snapshots, effects, i)
    requires waves != [] ==> s == ApplyHooks(snapshots[|snapshots| - 1], waves[|waves| - 1], effects)
    ensures forall i :: 0 <= i < |waves| ==> SnapshotFollows(waves + [w], snapshots + [s], effects, i)
  {
    forall i | 0 <= i < |waves|
      ensures SnapshotFollows(waves + [w], snapshots + [s], effects, i)
    {
      if i < |waves| - 1 {
        assert SnapshotFollows(waves, snapshots, effects, i);
      }
    }
  }

  /** A wave that runs something leaves fewer names of `universe` unprocessed. */
  lemma WaveShrinks(universe: set<string>, processed: set<string>, names: seq<string>, w: seq<string>)
    requires Elems(names) <= universe
    requires Elems(w) <= Elems(names) - processed && w != []
    ensures |universe - (processed + Elems(w))| < |universe - processed|
  {
    var n := w[0];
    var smaller := universe - (processed + Elems(w));
    assert n in universe - processed && n !in smaller;
    StrictSubsetCard(smaller, universe - processed, n);
  }

  /**
   * The PriorityOrdered wave and the Ordered wave of registry post-processors.
   * The two passes differ only in the tiers they select, so they are one loop
   * here; the ghost `waves` and `snapshots` record them.
   */
  method RunOrderedWaves(factory: BeanFactory, registryProcessors: seq<string>, effects: Effects)
    returns (registryProcessors': seq<string>, processedBeans: set<string>, ghost waves: seq<seq<string>>, ghost snapshots: seq<RegistryState>)
    requires factory.Valid()
    modifies factory`names, factory`definitions, factory`callbacks
    ensures PhaseSoFar(factory, old(factory.Registry()), effects, old(factory.callbacks), registryProcessors,
                       waves, snapshots, processedBeans, registryProcessors')
    ensures |waves| == 2
  {
    ghost var start := factory.Registry();
    ghost var log := factory.callbacks;
    waves, snapshots := [], [];
    processedBeans := {};
    registryProcessors' := registryProcessors;
    NoWaves(log, registryProcessors);
    for pass := 0 to 2
      invariant PhaseSoFar(factory, start, effects, log, registryProcessors, waves, snapshots, processedBeans, registryProcessors')
      invariant |waves| == pass
    {
      ghost var before := factory.Registry();
      var current;
      current, processedBeans, registryProcessors' :=
        RunRegistryWave(factory, WaveTiers(pass), effects, processedBeans, registryProcessors', start, log, registryProcessors, waves, snapshots);
      waves, snapshots := waves + [current], snapshots + [before];
    }
  }

  /**
   * The waves of every registry post-processor not yet run, repeated until one
   * finds nothing new: each wave may register further registry post-processors.
   */
  method RunRemainingWaves(factory: BeanFactory, effects: Effects, ghost start: RegistryState, ghost log: seq<Callback>,
                           ghost earlier: seq<string>, ghost waves0: seq<seq<string>>, ghost snapshots0: seq<RegistryState>,
                           processed0: set<string>, registryProcessors0: seq<string>)
    returns (processedBeans: set<string>, registryProcessors: seq<string>, ghost waves: seq<seq<string>>, ghost snapshots: seq<RegistryState>)
    requires PhaseSoFar(factory, start, effects, log, earlier, waves0, snapshots0, processed0, registryProcessors0)
    requires |waves0| == 2
    modifies factory`names, factory`definitions, factory`callbacks
    ensures PhaseSoFar(factory, start, effects, log, earlier, waves, snapshots, processedBeans, registryProcessors)
    ensures RegistryPhaseRun(start, waves, snapshots, effects, factory.Registry())
  {
    ghost var universe := Elems(start.names) + EffectNames(effects);
    waves, snapshots := waves0, snapshots0;
    processedBeans, registryProcessors := processed0, registryProcessors0;
    var reiterate := true;
    while reiterate
      invariant PhaseSoFar(factory, start, effects, log, earlier, waves, snapshots, processedBeans, registryProcessors)
      invariant |waves| >= 2
      invariant forall i :: 2 <= i < |waves| - 1 ==> waves[i] != []
      invariant reiterate ==> |waves| == 2 || waves[|waves| - 1] != []
      invariant !reiterate ==> |waves| >= 3 && waves[|waves| - 1] == []
      decreases if reiterate then |universe - processedBeans| + 1 else 0
    {
      ghost var before := factory.Registry();
      var current, processed';
      current, processed', registryProcessors :=
        RunLaterWave(factory, effects, start, log, earlier, waves, snapshots, processedBeans, registryProcessors);
      reiterate := current != [];
      processedBeans := processed';
      waves, snapshots := waves + [current], snapshots + [before];
    }
  }

  /** One pass of the repeated wave: every registry post-processor not yet run. */
  method RunLaterWave(factory: BeanFactory, effects: Effects, ghost start: RegistryState, ghost log: seq<Callback>,
                      ghost earlier: seq<string>, ghost waves: seq<seq<string>>, ghost snapshots: seq<RegistryState>,
                      processed: set<string>, registryProcessors: seq<string>)
    returns (wave: seq<string>, processed': set<string>, registryProcessors': seq<string>)
    requires PhaseSoFar(factory, start, effects, log, earlier, waves, snapshots, processed, registryProcessors)
    requires |waves| >= 2 && (|waves| == 2 || waves[|waves| - 1] != [])
    requires forall i :: 2 <= i < |waves| - 1 ==> waves[i] != []
    modifies factory`names, factory`definitions, factory`callbacks
    ensures PhaseSoFar(factory, start, effects, log, earlier, waves + [wave], snapshots + [old(factory.Registry())], processed', registryProcessors')
    ensures forall i :: 2 <= i < |waves + [wave]| - 1 ==> (waves + [wave])[i] != []
    ensures wave != [] ==>
      |Elems(start.names) + EffectNames(effects) - processed'| < |Elems(start.names) + EffectNames(effects) - processed|
  {
    ghost var names := factory.names;
    LaterWaveTiers(|waves|);
    wave, processed', registryProcessors' :=
      RunRegistryWave(factory, AllTiers, effects, processed, registryProcessors, start, log, earlier, waves, snapshots);
    if wave != [] {
      WaveShrinks(Elems(start.names) + EffectNames(effects), processed, names, wave);
    }
    LaterWavesRan(waves, wave);
  }

  /**
   * The registry waves of invokeBeanFactoryPostProcessors, run against the
   * registry as the caller's registry post-processors left it: the waves are
   * recorded in the ghost `waves`, each with the registry it started from in
   * `snapshots`; every post-processor run is appended to `registryProcessors`.
   */
  method RunRegistryWaves(factory: BeanFactory, registryProcessors: seq<string>, effects: Effects)
    returns (registryProcessors': seq<string>, processedBeans: set<string>, ghost waves: seq<seq<string>>, ghost snapshots: seq<RegistryState>)
    requires factory.Valid()
    modifies factory`names, factory`definitions, factory`callbacks
    ensures factory.Valid()
    ensures RegistryPhaseRun(old(factory.Registry()), waves, snapshots, effects, factory.Registry())
    ensures processedBeans == Elems(Flatten(waves))
    ensures registryProcessors' == registryProcessors + Flatten(waves)
    ensures factory.callbacks == old(factory.callbacks) + Calls(RegistryPhase, Flatten(waves))
  {
    ghost var start := factory.Registry();
    ghost var log := factory.callbacks;
    registryProcessors', processedBeans, waves, snapshots := RunOrderedWaves(factory, registryProcessors, effects);
    processedBeans, registryProcessors', waves, snapshots :=
      RunRemainingWaves(factory, effects, start, log, registryProcessors, waves, snapshots, processedBeans, registryProcessors');
  }

  /** The waves after the second all ran something, as long as the last of them did. */
  lemma LaterWavesRan(waves: seq<seq<string>>, w: seq<string>)
    requires forall i :: 2 <= i < |waves| - 1 ==> waves[i] != []
    requires |waves| >= 2 && (|waves| == 2 || waves[|waves| - 1] != [])
    ensures forall i :: 2 <= i < |waves + [w]| - 1 ==> (waves + [w])[i] != []
  {
    forall i | 2 <= i < |waves + [w]| - 1
      ensures (waves + [w])[i] != []
    {
      assert (waves + [w])[i] == waves[i];
    }
  }

  lemma NoWaves(log: seq<Callback>, registryProcessors: seq<string>)
    ensures Elems(Flatten<string>([])) == {}
    ensures registryProcessors == registryProcessors + Flatten([])
    ensures log == log + Calls(RegistryPhase, Flatten([]))
  {
  }

  /** The callback log and the registry post-processor list after one more wave. */
  lemma WaveBookkeeping(log: seq<Callback>, registryProcessors: seq<string>, waves: seq<seq<string>>, w: seq<string>)
    ensures registryProcessors + Flatten(waves) + w == registryProcessors + Flatten(waves + [w])
    ensures log + Calls(RegistryPhase, Flatten(waves)) + Calls(RegistryPhase, w) == log + Calls(RegistryPhase, Flatten(waves + [w]))
  {
    FlattenSnoc(waves, w);
    CallsExtend(log, RegistryPhase, Flatten(waves), w);
  }

  /**
   * invokeBeanFactoryPostProcessors on a factory that is a registry: the
   * caller's registry post-processors, the registry waves, then the factory
   * callbacks of every registry post-processor, of the caller's other
   * post-processors and of the bean factory post-processors not yet run.
   */
  method InvokeOnRegistry(factory: BeanFactory, callerHooks: seq<Hook>, effects: Effects)
    returns (ghost waves: seq<seq<string>>, ghost snapshots: seq<RegistryState>)
    requires factory.Valid()
    modifies factory`names, factory`definitions, factory`callbacks
    ensures factory.Valid()
    ensures RegistryPhaseRun(ApplyHooks(old(factory.Registry()), RegistryHookIds(callerHooks), effects), waves, snapshots, effects, factory.Registry())
    ensures factory.callbacks == old(factory.callbacks) + RegistryCallbacks(callerHooks, waves, factory.Registry())
  {
    ghost var log := factory.callbacks;
    var registryProcessors, regularPostProcessors, processedBeans;
    registryProcessors, regularPostProcessors, processedBeans, waves, snapshots := InvokeRegistryPhase(factory, callerHooks, effects);
    ghost var afterWaves := factory.Registry();
    InvokeFactoryCallbacks(factory, registryProcessors, regularPostProcessors, processedBeans);
    assert factory.Registry() == afterWaves;
    ghost var factoryIds := registryProcessors + regularPostProcessors + FactoryOnlyOrder(afterWaves, processedBeans);
    assert factoryIds == RegistryHookIds(callerHooks) + Flatten(waves) + RegularHookIds(callerHooks)
                         + FactoryOnlyOrder(afterWaves, Elems(Flatten(waves)));
    AppendAssoc(log, Calls(RegistryPhase, RegistryHookIds(callerHooks) + Flatten(waves)), Calls(FactoryPhase, factoryIds));
  }

  /**
   * The registry callbacks of invokeBeanFactoryPostProcessors: the caller's
   * registry post-processors, then the waves.
   */
  method InvokeRegistryPhase(factory: BeanFactory, callerHooks: seq<Hook>, effects: Effects)
    returns (registryProcessors: seq<string>, regularPostProcessors: seq<string>, processedBeans: set<string>,
             ghost waves: seq<seq<string>>, ghost snapshots: seq<RegistryState>)
    requires factory.Valid()
    modifies factory`names, factory`definitions, factory`callbacks
    ensures factory.Valid()
    ensures RegistryPhaseRun(ApplyHooks(old(factory.Registry()), RegistryHookIds(callerHooks), effects), waves, snapshots, effects, factory.Registry())
    ensures registryProcessors == RegistryHookIds(callerHooks) + Flatten(waves)
    ensures regularPostProcessors == RegularHookIds(callerHooks)
    ensures processedBeans == Elems(Flatten(waves))
    ensures factory.callbacks == old(factory.callbacks) + Calls(RegistryPhase, RegistryHookIds(callerHooks) + Flatten(waves))
  {
    ghost var log := factory.callbacks;
    registryProcessors, regularPostProcessors := InvokeCallerRegistryHooks(factory, callerHooks, effects);
    ghost var callerIds := registryProcessors;
    registryProcessors, processedBeans, waves, snapshots := RunRegistryWaves(factory, registryProcessors, effects);
    CallsExtend(log, RegistryPhase, callerIds, Flatten(waves));
  }

  /**
   * The factory callbacks after the registry phase: the registry
   * post-processors, the caller's other post-processors, then the bean factory
   * post-processors not processed yet.
   */
  method InvokeFactoryCallbacks(factory: BeanFactory, registryProcessors: seq<string>, regularPostProcessors: seq<string>,
                                processedBeans: set<string>)
    modifies factory`callbacks
    ensures factory.callbacks == old(factory.callbacks)
      + Calls(FactoryPhase, registryProcessors + regularPostProcessors + FactoryOnlyOrder(factory.Registry(), processedBeans))
  {
    ghost var log := factory.callbacks;
    InvokeFactoryHooks(factory, registryProcessors);
    InvokeFactoryHooks(factory, regularPostProcessors);
    CallsExtend(log, FactoryPhase, registryProcessors, regularPostProcessors);
    InvokeFactoryOnlyHooks(factory, processedBeans);
    CallsExtend(log, FactoryPhase, registryProcessors + regularPostProcessors, FactoryOnlyOrder(factory.Registry(), processedBeans));
  }

  /**
   * invokeBeanFactoryPostProcessors on a factory that is not a registry: the
   * factory callbacks of all the caller's post-processors, then of the beans.
   */
  method InvokeOnPlainFactory(factory: BeanFactory, callerHooks: seq<Hook>)
    modifies factory`callbacks
    ensures factory.callbacks == old(factory.callbacks) + PlainFactoryCallbacks(callerHooks, factory.Registry())
  {
    ghost var log := factory.callbacks;
    InvokeFactoryHooks(factory, HookIds(callerHooks));
    InvokeFactoryOnlyHooks(factory, {});
    CallsExtend(log, FactoryPhase, HookIds(callerHooks), FactoryOnlyOrder(factory.Registry(), {}));
  }

  /** invokeBeanFactoryPostProcessors: the two cases above. */
  method InvokeBeanFactoryPostProcessors(factory: BeanFactory, callerHooks: seq<Hook>, effects: Effects)
    returns (ghost waves: seq<seq<string>>, ghost snapshots: seq<RegistryState>)
    requires factory.Valid()
    modifies factory`names, factory`definitions, factory`callbacks
    ensures factory.Valid()
    ensures factory.isRegistry ==>
      RegistryPhaseRun(ApplyHooks(old(factory.Registry()), RegistryHookIds(callerHooks), effects), waves, snapshots, effects, factory.Registry())
    ensures factory.isRegistry ==> factory.callbacks == old(factory.callbacks) + RegistryCallbacks(callerHooks, waves, factory.Registry())
    ensures !factory.isRegistry ==> factory.Registry() == old(factory.Registry())
    ensures !factory.isRegistry ==> factory.callbacks == old(factory.callbacks) + PlainFactoryCallbacks(callerHooks, factory.Registry())
  {
    if factory.isRegistry {
      waves, snapshots := InvokeOnRegistry(factory, callerHooks, effects);
    } else {
      InvokeOnPlainFactory(factory, callerHooks);
      waves, snapshots := [], [];
    }
  }

  // ---------------------------------------------------------------------------
  // What invokeBeanFactoryPostProcessors guarantees
  // ---------------------------------------------------------------------------

  /**
   * The caller's post-processors are split without loss: the registry ones and
   * the others together are the whole list.
   */
  lemma {:induction false} CallerHooksSplit(hooks: seq<Hook>)
    ensures |RegistryHookIds(hooks)| + |RegularHookIds(hooks)| == |hooks|
    ensures forall id :: id in RegistryHookIds(hooks) <==> exists i :: 0 <= i < |hooks| && hooks[i].mutatesRegistry && hooks[i].id == id
    ensures forall id :: id in RegularHookIds(hooks) <==> exists i :: 0 <= i < |hooks| && !hooks[i].mutatesRegistry && hooks[i].id == id
  {
    if hooks != [] {
      var init := hooks[..|hooks| - 1];
      var h := hooks[|hooks| - 1];
      CallerHooksSplit(init);
      forall id
        ensures id in RegistryHookIds(hooks) <==> exists i :: 0 <= i < |hooks| && hooks[i].mutatesRegistry && hooks[i].id == id
        ensures id in RegularHookIds(hooks) <==> exists i :: 0 <= i < |hooks| && !hooks[i].mutatesRegistry && hooks[i].id == id
      {
        forall i | 0 <= i < |init| ensures hooks[i] == init[i] { }
        if exists i :: 0 <= i < |hooks| && hooks[i].mutatesRegistry && hooks[i].id == id {
          var i :| 0 <= i < |hooks| && hooks[i].mutatesRegistry && hooks[i].id == id;
          if i < |init| { assert init[i] == hooks[i]; }
        }
        if exists i :: 0 <= i < |hooks| && !hooks[i].mutatesRegistry && hooks[i].id == id {
          var i :| 0 <= i < |hooks| && !hooks[i].mutatesRegistry && hooks[i].id == id;
          if i < |init| { assert init[i] == hooks[i]; }
        }
      }
    }
  }

  /**
   * A wave is every registry post-processor of the registry that has not run
   * yet and whose tier is wanted, without repetition, sorted by order, and
   * stable: post-processors with equal keys keep registration order.
   */
  lemma WaveContents(r: RegistryState, processed: set<string>, tiers: set<Tier>, k: OrderKey)
    requires WellFormed(r)
    ensures forall n :: n in Wave(r, processed, tiers) <==>
      n in r.names && n in r.defs && MatchesType(r.defs[n], RegistryHookType) && n !in processed && TierOf(r, n) in tiers
    ensures NoDup(Wave(r, processed, tiers))
    ensures SortedBy(Wave(r, processed, tiers), KeyIn(r))
    ensures WithKey(Wave(r, processed, tiers), KeyIn(r), k) == WithKey(Unprocessed(r, BeanNamesForType(r, RegistryHookType), processed, tiers), KeyIn(r), k)
  {
    var names := BeanNamesForType(r, RegistryHookType);
    var u := Unprocessed(r, names, processed, tiers);
    var w := Sort(u, KeyIn(r));
    assert w == Wave(r, processed, tiers);
    SortElems(u, KeyIn(r));
    SortSorted(u, KeyIn(r));
    SortStable(u, KeyIn(r), k);
    forall n
      ensures n in w <==> n in r.names && n in r.defs && MatchesType(r.defs[n], RegistryHookType) && n !in processed && TierOf(r, n) in tiers
    {
      assert n in w <==> n in Elems(w);
      assert n in u <==> n in Elems(u);
      assert n in u <==> n in names && n !in processed && TierOf(r, n) in tiers;
    }
  }

  /** Every snapshot of a registry phase from a well-formed registry is well-formed. */
  lemma {:induction false} SnapshotWellFormed(start: RegistryState, waves: seq<seq<string>>, snapshots: seq<RegistryState>, effects: Effects, i: nat)
    requires WavesFollow(start, waves, snapshots, effects) && WellFormed(start)
    requires i < |snapshots|
    ensures WellFormed(snapshots[i])
  {
    if i > 0 {
      SnapshotWellFormed(start, waves, snapshots, effects, i - 1);
      assert SnapshotFollows(waves, snapshots, effects, i - 1);
    }
  }

  /**
   * Each wave takes only registry post-processors of its tiers: the first only
   * PriorityOrdered ones, the second PriorityOrdered or Ordered ones; within a
   * wave they are sorted by order.
   */
  lemma WaveTiersRespected(start: RegistryState, waves: seq<seq<string>>, snapshots: seq<RegistryState>, effects: Effects, i: nat)
    requires WavesFollow(start, waves, snapshots, effects) && WellFormed(start)
    requires i < |waves|
    ensures forall n :: n in waves[i] ==> TierOf(snapshots[i], n) in WaveTiers(i)
    ensures SortedBy(waves[i], KeyIn(snapshots[i]))
  {
    assert WaveChosen(waves, snapshots, i);
    SnapshotWellFormed(start, waves, snapshots, effects, i);
    WaveContents(snapshots[i], Elems(Flatten(waves[..i])), WaveTiers(i), OrderKey(0, 0));
  }

  /** The first `k` waves never run the same post-processor twice. */
  lemma {:induction false} WavesDistinctUpTo(start: RegistryState, waves: seq<seq<string>>, snapshots: seq<RegistryState>, effects: Effects, k: nat)
    requires WavesFollow(start, waves, snapshots, effects) && WellFormed(start)
    requires k <= |waves|
    ensures NoDup(Flatten(waves[..k]))
  {
    if k > 0 {
      WavesDistinctUpTo(start, waves, snapshots, effects, k - 1);
      var prev := Flatten(waves[..k - 1]);
      assert waves[..k][..k - 1] == waves[..k - 1];
      assert Flatten(waves[..k]) == prev + waves[k - 1];
      assert WaveChosen(waves, snapshots, k - 1);
      SnapshotWellFormed(start, waves, snapshots, effects, k - 1);
      WaveAfterDistinct(snapshots[k - 1], prev, WaveTiers(k - 1));
    }
  }

  /** A wave taken after the distinct names `prev` adds distinct names none of which is in `prev`. */
  lemma WaveAfterDistinct(r: RegistryState, prev: seq<string>, tiers: set<Tier>)
    requires WellFormed(r) && NoDup(prev)
    ensures NoDup(prev + Wave(r, Elems(prev), tiers))
  {
    var u := Unprocessed(r, BeanNamesForType(r, RegistryHookType), Elems(prev), tiers);
    SortElems(u, KeyIn(r));
    var w := Wave(r, Elems(prev), tiers);
    assert w == Sort(u, KeyIn(r));
    forall x | x in prev ensures x !in w {
      assert x in Elems(prev);
      assert x !in Elems(u);
    }
    AppendNoDup(prev, w);
  }

  /** processedBeans at work: no registry post-processor runs twice in the waves. */
  lemma RegistryWavesDistinct(start: RegistryState, waves: seq<seq<string>>, snapshots: seq<RegistryState>, effects: Effects)
    requires WavesFollow(start, waves, snapshots, effects) && WellFormed(start)
    ensures NoDup(Flatten(waves))
  {
    WavesDistinctUpTo(start, waves, snapshots, effects, |waves|);
    assert waves[..|waves|] == waves;
  }

  /**
   * The registry phase stops only when every registry post-processor the
   * final registry holds has run.
   */
  lemma RegistryPhaseComplete(start: RegistryState, waves: seq<seq<string>>, snapshots: seq<RegistryState>, effects: Effects, final: RegistryState)
    requires RegistryPhaseRun(start, waves, snapshots, effects, final) && WellFormed(start)
    ensures forall n :: n in BeanNamesForType(final, RegistryHookType) ==> n in Flatten(waves)
  {
    var last := |waves| - 1;
    assert snapshots[last] == final;
    var processed := Elems(Flatten(waves[..last]));
    assert WaveChosen(waves, snapshots, last);
    LaterWaveTiers(last);
    var u := Unprocessed(final, BeanNamesForType(final, RegistryHookType), processed, AllTiers);
    assert waves[last] == Wave(final, processed, AllTiers);
    assert waves[last] == Sort(u, KeyIn(final));
    SortElems(u, KeyIn(final));
    assert |u| == 0;
    assert Flatten(waves) == Flatten(waves[..last]) + [];
    forall n | n in BeanNamesForType(final, RegistryHookType)
      ensures n in Flatten(waves)
    {
      InAllTiers(TierOf(final, n));
      assert n !in u;
    }
  }

  /** Which tier comes first in TierOrder. */
  function TierRank(t: Tier): nat {
    match t
    case PriorityTier => 0
    case OrderedTier => 1
    case PlainTier => 2
  }

  /**
   * The order of the factory-only post-processors: each unprocessed name once
   * and nothing else, PriorityOrdered ones before Ordered ones before the rest.
   */
  lemma TierOrderContents(r: RegistryState, names: seq<string>, processed: set<string>)
    requires NoDup(names)
    ensures NoDup(TierOrder(r, names, processed))
    ensures forall n :: n in TierOrder(r, names, processed) <==> n in names && n !in processed
    ensures forall i, j :: 0 <= i < j < |TierOrder(r, names, processed)| ==>
      TierRank(TierOf(r, TierOrder(r, names, processed)[i])) <= TierRank(TierOf(r, TierOrder(r, names, processed)[j]))
  {
    var p := Unprocessed(r, names, processed, {PriorityTier});
    var o := Unprocessed(r, names, processed, {OrderedTier});
    var c := Unprocessed(r, names, processed, {PlainTier});
    SortElems(p, KeyIn(r));
    SortElems(o, KeyIn(r));
    var sp, so := Sort(p, KeyIn(r)), Sort(o, KeyIn(r));
    forall n
      ensures n in sp <==> n in p
      ensures n in so <==> n in o
    {
      assert n in sp <==> n in Elems(sp);
      assert n in p <==> n in Elems(p);
      assert n in so <==> n in Elems(so);
      assert n in o <==> n in Elems(o);
    }
    AppendNoDup(sp, so);
    AppendNoDup(sp + so, c);
    var t := TierOrder(r, names, processed);
    assert t == sp + so + c;
    forall n ensures n in t <==> n in names && n !in processed {
      InAllTiers(TierOf(r, n));
    }
    forall i, j | 0 <= i < j < |t|
      ensures TierRank(TierOf(r, t[i])) <= TierRank(TierOf(r, t[j]))
    {
      TierOrderRank(r, sp, so, c, p, o, processed, names, i);
      TierOrderRank(r, sp, so, c, p, o, processed, names, j);
    }
  }

  /** The rank of an entry of TierOrder is the rank of the part it sits in. */
  lemma TierOrderRank(r: RegistryState, sp: seq<string>, so: seq<string>, c: seq<string>, p: seq<string>, o: seq<string>,
                      processed: set<string>, names: seq<string>, i: int)
    requires p == Unprocessed(r, names, processed, {PriorityTier}) && Elems(sp) == Elems(p)
    requires o == Unprocessed(r, names, processed, {OrderedTier}) && Elems(so) == Elems(o)
    requires c == Unprocessed(r, names, processed, {PlainTier})
    requires 0 <= i < |sp + so + c|
    ensures TierRank(TierOf(r, (sp + so + c)[i])) == if i < |sp| then 0 else if i < |sp| + |so| then 1 else 2
  {
    var t := sp + so + c;
    if i < |sp| {
      assert t[i] == sp[i] && sp[i] in Elems(p);
    } else if i < |sp| + |so| {
      assert t[i] == so[i - |sp|] && so[i - |sp|] in Elems(o);
    } else {
      assert t[i] == c[i - |sp| - |so|];
    }
  }

  /**
   * The bean factory post-processors of the factory callbacks on a registry:
   * the registry post-processors of the waves, then the factory-only ones,
   * every one of the final registry's bean factory post-processors exactly once.
   */
  lemma FactoryCallbacksOnce(start: RegistryState, waves: seq<seq<string>>, snapshots: seq<RegistryState>, effects: Effects, final: RegistryState)
    requires RegistryPhaseRun(start, waves, snapshots, effects, final) && WellFormed(start)
    ensures NoDup(Flatten(waves) + FactoryOnlyOrder(final, Elems(Flatten(waves))))
    ensures forall n :: n in BeanNamesForType(final, FactoryHookType) ==> n in Flatten(waves) + FactoryOnlyOrder(final, Elems(Flatten(waves)))
  {
    assert final == snapshots[|snapshots| - 1];
    SnapshotWellFormed(start, waves, snapshots, effects, |snapshots| - 1);
    RegistryWavesDistinct(start, waves, snapshots, effects);
    FactoryOnlyAfter(final, Flatten(waves));
  }

  /** After distinct `ran`, the factory-only order adds every other bean factory post-processor once. */
  lemma FactoryOnlyAfter(final: RegistryState, ran: seq<string>)
    requires WellFormed(final) && NoDup(ran)
    ensures NoDup(ran + FactoryOnlyOrder(final, Elems(ran)))
    ensures forall n :: n in BeanNamesForType(final, FactoryHookType) ==> n in ran + FactoryOnlyOrder(final, Elems(ran))
  {
    var rest := FactoryOnlyOrder(final, Elems(ran));
    TierOrderContents(final, BeanNamesForType(final, FactoryHookType), Elems(ran));
    assert forall n :: n in rest ==> n !in Elems(ran);
    AppendNoDup(ran, rest);
  }

  /**
   * On a factory that is not a registry, every bean factory post-processor of
   * the factory gets its factory callback exactly once, after the caller's.
   */
  lemma PlainFactoryCallbacksOnce(r: RegistryState)
    requires WellFormed(r)
    ensures NoDup(FactoryOnlyOrder(r, {}))
    ensures forall n :: n in FactoryOnlyOrder(r, {}) <==> n in BeanNamesForType(r, FactoryHookType)
  {
    TierOrderContents(r, BeanNamesForType(r, FactoryHookType), {});
  }
}

/**
 * ConfigurationClassPostProcessor: expands the configuration classes found in
 * the registry into further bean definitions, round after round until no new
 * candidate appears, guards against running twice on the same registry or
 * factory, and replaces the classes of full configuration classes with their
 * enhanced subclasses.
 */
module ConfigurationClasses {
  import opened Results
  import opened Seqs
  import opened Ordering
  import opened Registry

  /** The failures the post-processor raises. */
  datatype ConfigError =
    | RegistryAlreadyProcessed                         // postProcessBeanDefinitionRegistry already ran for this id
    | FactoryAlreadyProcessed                          // postProcessBeanFactory already ran for this id
    | NotARegistry                                     // lazy processing needs the factory to be a registry
    | CannotLoadConfigurationClass(className: string)  // the bean class of a configuration bean cannot be loaded
    | CannotEnhance(beanName: string)                  // a full configuration class not held in an AbstractBeanDefinition

  /** The bean name of the import registry singleton. */
  const ImportRegistryBeanName: string := "org.springframework.context.annotation.ConfigurationClassPostProcessor.importRegistry"

  /**
   * The collaborators whose code is not part of this model: the candidate check,
   * what parsing a class yields, what the reader registers for a configuration
   * class, and the (finite) set of class names parsing can ever yield.
   */
  datatype ConfigSource = ConfigSource(
    isCandidate: BeanDefinition -> bool,          // checkConfigurationClassCandidate
    classesOf: string -> seq<string>,             // configuration classes reached by parsing a class, in order
    definitionsOf: string -> seq<Registration>,   // loadBeanDefinitions for one configuration class
    classes: set<string>)

  /** Parsing never leaves the known class names. */
  ghost predicate Bounded(src: ConfigSource) {
    forall c, k :: k in src.classesOf(c) ==> k in src.classes
  }

  /** A BeanDefinitionHolder: a candidate's bean name and definition. */
  datatype Candidate = Candidate(name: string, definition: BeanDefinition)

  /** Candidates compare by the order value of their definitions (Integer.compare). */
  function CandidateKey(c: Candidate): OrderKey {
    OrderKey(0, c.definition.order)
  }

  /** A definition not yet marked as a configuration class that passes the candidate check. */
  predicate IsInitialCandidate(src: ConfigSource, d: BeanDefinition) {
    d.configAttr == NoConfigAttr && src.isCandidate(d)
  }

  /** The first candidates among `names`, in registration order. */
  function InitialCandidates(src: ConfigSource, r: RegistryState, names: seq<string>): seq<Candidate> {
    if names == [] then []
    else
      var n := names[|names| - 1];
      InitialCandidates(src, r, names[..|names| - 1])
      + (if n in r.defs && IsInitialCandidate(src, r.defs[n]) then [Candidate(n, r.defs[n])] else [])
  }

  /**
   * The candidates of the next round among `names`: names not in the previous
   * snapshot whose definition passes the candidate check and whose class was
   * not parsed yet.
   */
  function NextCandidates(src: ConfigSource, r: RegistryState, names: seq<string>, snapshot: seq<string>,
                          parsedClasses: set<string>): seq<Candidate>
  {
    if names == [] then []
    else
      var n := names[|names| - 1];
      NextCandidates(src, r, names[..|names| - 1], snapshot, parsedClasses)
      + (if n !in snapshot && n in r.defs && src.isCandidate(r.defs[n]) && r.defs[n].className !in parsedClasses
         then [Candidate(n, r.defs[n])] else [])
  }

  /** Adds the classes of `ks` not known yet, in order (a LinkedHashSet). */
  function AddClasses(parsed: seq<string>, ks: seq<string>): (r: seq<string>)
    ensures parsed <= r
    ensures Elems(r) == Elems(parsed) + Elems(ks)
    ensures NoDup(parsed) ==> NoDup(r)
  {
    if ks == [] then parsed
    else
      var p := AddClasses(parsed, ks[..|ks| - 1]);
      var k := ks[|ks| - 1];
      assert Elems(ks) == Elems(ks[..|ks| - 1]) + {k} by {
        assert ks == ks[..|ks| - 1] + [k];
      }
      if k in p then p
      else
        assert NoDup(p) ==> NoDup(p + [k]) by {
          if NoDup(p) { AppendNoDup(p, [k]); }
        }
        p + [k]
  }

  /** parser.parse: the configuration classes known after parsing `candidates`, earlier ones first. */
  function ParseCandidates(src: ConfigSource, parsed: seq<string>, candidates: seq<Candidate>): (r: seq<string>)
    ensures parsed <= r
    ensures NoDup(parsed) ==> NoDup(r)
    ensures Bounded(src) && Elems(parsed) <= src.classes ==> Elems(r) <= src.classes
  {
    if candidates == [] then parsed
    else
      var p := ParseCandidates(src, parsed, candidates[..|candidates| - 1]);
      var ks := src.classesOf(candidates[|candidates| - 1].definition.className);
      AddClasses(p, ks)
  }

  /** What the reader registers for `classes`, in order. */
  function Loaded(src: ConfigSource, classes: seq<string>): seq<Registration> {
    if classes == [] then []
    else Loaded(src, classes[..|classes| - 1]) + src.definitionsOf(classes[|classes| - 1])
  }

  /** The end state of processing: the registry, the parsed classes and the names before the last round. */
  datatype Expansion = Expansion(registry: RegistryState, parsed: seq<string>, snapshot: seq<string>)

  /** The state a processing loop may be in. */
  ghost predicate Resumable(src: ConfigSource, r: RegistryState, parsed: seq<string>) {
    Bounded(src) && WellFormed(r) && NoDup(parsed) && Elems(parsed) <= src.classes
  }

  /** What one round leaves: the registry, the parsed classes and the next round's candidates. */
  datatype RoundResult = RoundResult(registry: RegistryState, parsed: seq<string>, next: seq<Candidate>)

  /**
   * One pass of the do-while loop of processConfigBeanDefinitions: parse the
   * candidates, load the classes not loaded before, and pick the candidates
   * among the names registered meanwhile.
   */
  ghost function Round(src: ConfigSource, r: RegistryState, candidates: seq<Candidate>, parsed: seq<string>): RoundResult {
    var parsed' := ParseCandidates(src, parsed, candidates);
    var r' := RegisterAll(r, Loaded(src, Without(parsed', Elems(parsed))));
    RoundResult(r', parsed', NextCandidates(src, r', r'.names, r.names, Elems(parsed')))
  }

  /** The do-while loop of processConfigBeanDefinitions: rounds until one finds no new candidate. */
  ghost function Expand(src: ConfigSource, r: RegistryState, candidates: seq<Candidate>, parsed: seq<string>): Expansion
    requires Resumable(src, r, parsed)
    decreases |src.classes - Elems(parsed)|
  {
    var o := Round(src, r, candidates, parsed);
    if o.next == [] then Expansion(o.registry, o.parsed, r.names)
    else
      RoundProgress(src, r, candidates, parsed);
      Expand(src, o.registry, o.next, o.parsed)
  }

  // ---------------------------------------------------------------------------
  // Facts about one round
  // ---------------------------------------------------------------------------

  lemma {:induction false} NextCandidatesContents(src: ConfigSource, r: RegistryState, names: seq<string>,
                                                  snapshot: seq<string>, parsedClasses: set<string>)
    ensures forall c :: c in NextCandidates(src, r, names, snapshot, parsedClasses) <==>
      c.name in names && c.name !in snapshot && c.name in r.defs && c.definition == r.defs[c.name]
      && src.isCandidate(c.definition) && c.definition.className !in parsedClasses
  {
    if names != [] {
      NextCandidatesContents(src, r, names[..|names| - 1], snapshot, parsedClasses);
      assert names == names[..|names| - 1] + [names[|names| - 1]];
    }
  }

  /** A round that finds new candidates has parsed a class that was not parsed before. */
  lemma RoundProgress(src: ConfigSource, r: RegistryState, candidates: seq<Candidate>, parsed: seq<string>)
    requires Resumable(src, r, parsed)
    requires Round(src, r, candidates, parsed).next != []
    ensures Resumable(src, Round(src, r, candidates, parsed).registry, Round(src, r, candidates, parsed).parsed)
    ensures |src.classes - Elems(Round(src, r, candidates, parsed).parsed)| < |src.classes - Elems(parsed)|
  {
    var o := Round(src, r, candidates, parsed);
    var newClasses := Without(o.parsed, Elems(parsed));
    NextCandidatesContents(src, o.registry, o.registry.names, r.names, Elems(o.parsed));
    var c := o.next[0];
    assert c in o.next;
    // some name is new, so something was loaded, so some class is new
    if newClasses == [] {
      assert false;
    }
    var k := newClasses[0];
    assert k in o.parsed && k !in Elems(parsed);
    StrictSubsetCard(src.classes - Elems(o.parsed), src.classes - Elems(parsed), k);
  }

  // ---------------------------------------------------------------------------
  // The first round's candidates
  // ---------------------------------------------------------------------------

  /** The candidates of the first round, sorted by their order values. */
  function FirstCandidates(src: ConfigSource, r: RegistryState): seq<Candidate> {
    Sort(InitialCandidates(src, r, r.names), CandidateKey)
  }

  lemma {:induction false} InitialCandidatesContents(src: ConfigSource, r: RegistryState, names: seq<string>)
    ensures forall c :: c in InitialCandidates(src, r, names) <==>
      c.name in names && c.name in r.defs && c.definition == r.defs[c.name] && IsInitialCandidate(src, c.definition)
  {
    if names != [] {
      InitialCandidatesContents(src, r, names[..|names| - 1]);
      assert names == names[..|names| - 1] + [names[|names| - 1]];
    }
  }

  /**
   * The first round takes exactly the registered definitions that are not yet
   * marked as configuration classes and pass the candidate check, lowest order
   * value first, ties in registration order.
   */
  lemma FirstCandidatesContents(src: ConfigSource, r: RegistryState)
    ensures forall c :: c in FirstCandidates(src, r) <==>
      c.name in r.names && c.name in r.defs && c.definition == r.defs[c.name] && IsInitialCandidate(src, c.definition)
    ensures SortedBy(FirstCandidates(src, r), CandidateKey)
    ensures forall k :: WithKey(FirstCandidates(src, r), CandidateKey, k) == WithKey(InitialCandidates(src, r, r.names), CandidateKey, k)
  {
    var initial := InitialCandidates(src, r, r.names);
    InitialCandidatesContents(src, r, r.names);
    SortElems(initial, CandidateKey);
    SortSorted(initial, CandidateKey);
    forall c ensures c in FirstCandidates(src, r) <==> c in initial {
      assert c in FirstCandidates(src, r) <==> c in Elems(FirstCandidates(src, r));
      assert c in initial <==> c in Elems(initial);
    }
    forall k ensures WithKey(FirstCandidates(src, r), CandidateKey, k) == WithKey(initial, CandidateKey, k) {
      SortStable(initial, CandidateKey, k);
    }
  }

  // ---------------------------------------------------------------------------
  // Facts about the whole expansion
  // ---------------------------------------------------------------------------

  lemma RegisterAllSnoc(r: RegistryState, regs: seq<Registration>, x: Registration)
    ensures RegisterAll(r, regs + [x]) == Register(RegisterAll(r, regs), x.name, x.definition)
  {
    assert (regs + [x])[..|regs|] == regs;
  }

  lemma RegisterAllPrefix(r: RegistryState, regs: seq<Registration>, j: int)
    requires 0 <= j < |regs|
    ensures RegisterAll(r, regs[..j + 1]) == Register(RegisterAll(r, regs[..j]), regs[j].name, regs[j].definition)
  {
    assert regs[..j + 1][..j] == regs[..j];
  }

  lemma {:induction false} RegisterAllAppend(r: RegistryState, a: seq<Registration>, b: seq<Registration>)
    ensures RegisterAll(r, a + b) == RegisterAll(RegisterAll(r, a), b)
  {
    if b == [] {
      assert a + b == a;
    } else {
      var init := b[..|b| - 1];
      var last := b[|b| - 1];
      assert b == init + [last];
      AppendAssoc(a, init, [last]);
      RegisterAllAppend(r, a, init);
      RegisterAllSnoc(r, a + init, last);
      RegisterAllSnoc(RegisterAll(r, a), init, last);
    }
  }

  lemma {:induction false} LoadedAppend(src: ConfigSource, a: seq<string>, b: seq<string>)
    ensures Loaded(src, a + b) == Loaded(src, a) + Loaded(src, b)
  {
    if b == [] {
      assert a + b == a;
    } else {
      var init := b[..|b| - 1];
      LoadedAppend(src, a, init);
      assert (a + b)[..|a + b| - 1] == a + init;
    }
  }

  lemma {:induction false} WithoutEvery<T>(s: seq<T>, xs: set<T>)
    requires forall i :: 0 <= i < |s| ==> s[i] in xs
    ensures Without(s, xs) == []
  {
    if s != [] {
      WithoutEvery(s[..|s| - 1], xs);
    }
  }

  /** What a duplicate-free sequence adds after its prefix `p1` is not in `p1`. */
  lemma SuffixFresh<T>(p1: seq<T>, p2: seq<T>)
    requires p1 <= p2 && NoDup(p2)
    ensures forall i :: 0 <= i < |p2| - |p1| ==> p2[|p1|..][i] !in Elems(p1)
  {
    forall i | 0 <= i < |p2| - |p1| ensures p2[|p1|..][i] !in Elems(p1) {
      NoDupNotBefore(p2, |p1| + i);
      assert p1 <= p2[..|p1| + i];
    }
  }

  /** The classes new since `p0` are those new up to `p1` followed by those new since `p1`. */
  lemma WithoutSplit<T>(p0: seq<T>, p1: seq<T>, p2: seq<T>)
    requires p0 <= p1 <= p2 && NoDup(p2)
    ensures Without(p1, Elems(p0)) + Without(p2, Elems(p1)) == Without(p2, Elems(p0))
  {
    var t := p2[|p1|..];
    assert p2 == p1 + t;
    SuffixFresh(p1, p2);
    assert Without(p2, Elems(p1)) == t by {
      WithoutAppend(p1, t, Elems(p1));
      WithoutEvery(p1, Elems(p1));
      WithoutNone(t, Elems(p1));
    }
    assert Without(p2, Elems(p0)) == Without(p1, Elems(p0)) + t by {
      WithoutAppend(p1, t, Elems(p0));
      assert Elems(p0) <= Elems(p1);
      WithoutNone(t, Elems(p0));
    }
  }

  /** The classes parsed before and the ones loaded now are all the classes parsed so far. */
  lemma ParsedSoFar<T>(prev: seq<T>, all: seq<T>)
    requires prev <= all
    ensures Elems(prev) + (set c | c in Without(all, Elems(prev))) == Elems(all)
  {
    var w := Without(all, Elems(prev));
    forall x | x in all ensures x in Elems(prev) || x in w {
      var i :| 0 <= i < |all| && all[i] == x;
    }
    forall x | x in prev ensures x in all {
      var i :| 0 <= i < |prev| && prev[i] == x;
      assert all[i] == x;
    }
  }

  /**
   * Each configuration class is loaded once: the parsed classes stay distinct,
   * and the registry at the end is the start registry with the definitions of
   * every newly parsed class registered in parse order.
   */
  lemma {:induction false} ExpandLoadsOnce(src: ConfigSource, r: RegistryState, candidates: seq<Candidate>, parsed: seq<string>)
    requires Resumable(src, r, parsed)
    ensures var e := Expand(src, r, candidates, parsed);
      && parsed <= e.parsed && NoDup(e.parsed) && Elems(e.parsed) <= src.classes
      && WellFormed(e.registry) && r.names <= e.registry.names
      && e.registry == RegisterAll(r, Loaded(src, Without(e.parsed, Elems(parsed))))
    decreases |src.classes - Elems(parsed)|
  {
    var o := Round(src, r, candidates, parsed);
    var parsed', r', next := o.parsed, o.registry, o.next;
    var loaded := Loaded(src, Without(parsed', Elems(parsed)));
    if next != [] {
      RoundProgress(src, r, candidates, parsed);
      ExpandLoadsOnce(src, r', next, parsed');
      var e := Expand(src, r', next, parsed');
      WithoutSplit(parsed, parsed', e.parsed);
      LoadedAppend(src, Without(parsed', Elems(parsed)), Without(e.parsed, Elems(parsed')));
      RegisterAllAppend(r, loaded, Loaded(src, Without(e.parsed, Elems(parsed'))));
    }
  }

  /** A round without new candidates leaves no unparsed candidate among the names it added. */
  lemma NoNextCandidates(src: ConfigSource, r: RegistryState, snapshot: seq<string>, parsedClasses: set<string>)
    requires WellFormed(r)
    requires NextCandidates(src, r, r.names, snapshot, parsedClasses) == []
    ensures forall n :: n in r.defs && n !in snapshot && src.isCandidate(r.defs[n]) ==> r.defs[n].className in parsedClasses
  {
    NextCandidatesContents(src, r, r.names, snapshot, parsedClasses);
    forall n | n in r.defs && n !in snapshot && src.isCandidate(r.defs[n])
      ensures r.defs[n].className in parsedClasses
    {
      assert Candidate(n, r.defs[n]) !in NextCandidates(src, r, r.names, snapshot, parsedClasses);
    }
  }

  /**
   * Processing stops at a fixpoint: every definition registered during the
   * last round that passes the candidate check has a class already parsed.
   */
  lemma {:induction false} ExpandFixpoint(src: ConfigSource, r: RegistryState, candidates: seq<Candidate>, parsed: seq<string>)
    requires Resumable(src, r, parsed)
    ensures var e := Expand(src, r, candidates, parsed);
      && r.names <= e.snapshot <= e.registry.names
      && forall n :: n in e.registry.defs && n !in e.snapshot && src.isCandidate(e.registry.defs[n]) ==>
           e.registry.defs[n].className in Elems(e.parsed)
    decreases |src.classes - Elems(parsed)|
  {
    var o := Round(src, r, candidates, parsed);
    var parsed', r', next := o.parsed, o.registry, o.next;
    if next == [] {
      NoNextCandidates(src, r', r.names, Elems(parsed'));
    } else {
      RoundProgress(src, r, candidates, parsed);
      ExpandFixpoint(src, r', next, parsed');
    }
  }

  // ---------------------------------------------------------------------------
  // What processConfigBeanDefinitions leaves behind
  // ---------------------------------------------------------------------------

  /** The registry after processing, and the parsed classes the import registry covers (None: nothing was processed). */
  datatype Processing = Processing(registry: RegistryState, importRegistry: Option<seq<string>>)

  ghost function Process(src: ConfigSource, r: RegistryState): Processing
    requires Bounded(src) && WellFormed(r)
  {
    var first := FirstCandidates(src, r);
    if first == [] then Processing(r, None)
    else
      var e := Expand(src, r, first, []);
      Processing(e.registry, Some(e.parsed))
  }

  /** The import registry singleton is registered unless one is there already. */
  function WithImportRegistry(singletons: map<string, Singleton>, classes: Option<seq<string>>): map<string, Singleton> {
    if classes.Some? && ImportRegistryBeanName !in singletons
    then singletons[ImportRegistryBeanName := ImportRegistry(classes.value)]
    else singletons
  }

  /**
   * Processing with no first candidate changes nothing; otherwise it only adds
   * names, registers the definitions of every parsed class once in parse order,
   * parses the first candidates' classes first, and ends at a fixpoint.
   */
  lemma ProcessOutcome(src: ConfigSource, r: RegistryState)
    requires Bounded(src) && WellFormed(r)
    ensures var p := Process(src, r);
      && WellFormed(p.registry)
      && r.names <= p.registry.names
      && (p.importRegistry.None? <==> FirstCandidates(src, r) == [])
      && (p.importRegistry.None? ==> p.registry == r)
      && (p.importRegistry.Some? ==>
            && NoDup(p.importRegistry.value)
            && ParseCandidates(src, [], FirstCandidates(src, r)) <= p.importRegistry.value
            && p.registry == RegisterAll(r, Loaded(src, p.importRegistry.value)))
  {
    var first := FirstCandidates(src, r);
    if first != [] {
      ExpandLoadsOnce(src, r, first, []);
      var e := Expand(src, r, first, []);
      WithoutNone(e.parsed, Elems<string>([]));
      ExpandStartsWithFirstRound(src, r, first, []);
    }
  }

  lemma {:induction false} ExpandStartsWithFirstRound(src: ConfigSource, r: RegistryState, candidates: seq<Candidate>, parsed: seq<string>)
    requires Resumable(src, r, parsed)
    ensures ParseCandidates(src, parsed, candidates) <= Expand(src, r, candidates, parsed).parsed
    decreases |src.classes - Elems(parsed)|
  {
    var o := Round(src, r, candidates, parsed);
    var parsed', r', next := o.parsed, o.registry, o.next;
    if next != [] {
      RoundProgress(src, r, candidates, parsed);
      ExpandStartsWithFirstRound(src, r', next, parsed');
      assert parsed' <= ParseCandidates(src, parsed', next);
    }
  }

  /** With no name added since the snapshot there is no next candidate. */
  lemma {:induction false} NoNewNames(src: ConfigSource, r: RegistryState, names: seq<string>, snapshot: seq<string>,
                                      parsedClasses: set<string>)
    requires forall i :: 0 <= i < |names| ==> names[i] in snapshot
    ensures NextCandidates(src, r, names, snapshot, parsedClasses) == []
  {
    if names != [] {
      NoNewNames(src, r, names[..|names| - 1], snapshot, parsedClasses);
    }
  }

  // ---------------------------------------------------------------------------
  // What enhanceConfigurationClasses leaves behind
  // ---------------------------------------------------------------------------

  /** A configuration class (full or lite) or an @Bean-method definition, held in an AbstractBeanDefinition. */
  predicate NeedsClass(d: BeanDefinition) {
    (d.configAttr != NoConfigAttr || d.hasFactoryMethod) && d.isAbstractDefinition
  }

  /** The failure the first pass of enhanceConfigurationClasses raises on the definition `d` named `name`. */
  function EnhanceCheck(loadable: string -> bool, name: string, d: BeanDefinition): Option<ConfigError> {
    if NeedsClass(d) && !d.classResolved && !loadable(d.className) then Some(CannotLoadConfigurationClass(d.className))
    else if d.configAttr == FullConfig && !d.isAbstractDefinition then Some(CannotEnhance(name))
    else None
  }

  /** `d` after the first pass resolved its class. */
  function Resolve(d: BeanDefinition): BeanDefinition {
    if NeedsClass(d) then d.(classResolved := true) else d
  }

  /** The state of the first pass: the definitions, the full configuration classes found, the failure. */
  datatype Scan = Scan(defs: map<string, BeanDefinition>, fulls: seq<string>, error: Option<ConfigError>)

  /** One step of the first pass: check the definition named `n`, then resolve its class and note it if full. */
  function ScanStep(loadable: string -> bool, s: Scan, n: string): Scan {
    if s.error.Some? || n !in s.defs then s
    else
      var d := s.defs[n];
      var failure := EnhanceCheck(loadable, n, d);
      if failure.Some? then s.(error := failure)
      else Scan(s.defs[n := Resolve(d)], s.fulls + (if d.configAttr == FullConfig then [n] else []), None)
  }

  /** The first pass over `names`, stopping at the first failure. */
  function ScanDefinitions(loadable: string -> bool, defs: map<string, BeanDefinition>, names: seq<string>): Scan {
    if names == [] then Scan(defs, [], None)
    else ScanStep(loadable, ScanDefinitions(loadable, defs, names[..|names| - 1]), names[|names| - 1])
  }

  /** The failure of the first name in `names` that fails the check. */
  function FirstFailure(loadable: string -> bool, defs: map<string, BeanDefinition>, names: seq<string>): Option<ConfigError> {
    if names == [] then None
    else
      var f := FirstFailure(loadable, defs, names[..|names| - 1]);
      var n := names[|names| - 1];
      if f.Some? || n !in defs then f else EnhanceCheck(loadable, n, defs[n])
  }

  /** `d` with its class replaced by the enhanced subclass and the target class preserved. */
  function Enhanced(enhance: string -> string, d: BeanDefinition): BeanDefinition {
    var enhancedClass := enhance(d.className);
    d.(preserveTargetClass := true, className := if d.className != enhancedClass then enhancedClass else d.className)
  }

  /** The second pass: every full configuration class in `names` enhanced. */
  function EnhanceAll(enhance: string -> string, defs: map<string, BeanDefinition>, names: seq<string>): map<string, BeanDefinition> {
    if names == [] then defs
    else
      var m := EnhanceAll(enhance, defs, names[..|names| - 1]);
      var n := names[|names| - 1];
      if n in m then m[n := Enhanced(enhance, m[n])] else m
  }

  /** A failed first pass stays failed and changes nothing more. */
  lemma {:induction false} ScanStops(loadable: string -> bool, defs: map<string, BeanDefinition>, names: seq<string>, k: nat)
    requires k <= |names|
    requires ScanDefinitions(loadable, defs, names[..k]).error.Some?
    ensures ScanDefinitions(loadable, defs, names) == ScanDefinitions(loadable, defs, names[..k])
  {
    if k < |names| {
      var init := names[..|names| - 1];
      assert init[..k] == names[..k];
      ScanStops(loadable, defs, init, k);
    } else {
      assert names[..k] == names;
    }
  }

  /** The first pass only resolves classes, and touches no definition beyond the names it has seen. */
  lemma {:induction false} ScanKeeps(loadable: string -> bool, defs: map<string, BeanDefinition>, names: seq<string>)
    ensures var s := ScanDefinitions(loadable, defs, names);
      && s.defs.Keys == defs.Keys
      && (forall n :: n in defs && n !in names ==> s.defs[n] == defs[n])
      && (forall n :: n in defs ==> s.defs[n] == defs[n] || s.defs[n] == Resolve(defs[n]))
  {
    if names != [] {
      var init := names[..|names| - 1];
      var last := names[|names| - 1];
      ScanKeeps(loadable, defs, init);
      var s := ScanDefinitions(loadable, defs, init);
      if s.error.None? && last in s.defs {
        assert Resolve(s.defs[last]) == Resolve(defs[last]);
      }
      assert forall n :: n in names <==> n in init || n == last;
    }
  }

  /** The first pass reports the first failure. */
  lemma {:induction false} ScanError(loadable: string -> bool, defs: map<string, BeanDefinition>, names: seq<string>)
    requires NoDup(names)
    ensures ScanDefinitions(loadable, defs, names).error == FirstFailure(loadable, defs, names)
  {
    if names != [] {
      var init := names[..|names| - 1];
      NoDupInit(names);
      NoDupNotBefore(names, |names| - 1);
      ScanError(loadable, defs, init);
      ScanKeeps(loadable, defs, init);
    }
  }

  /** There is a first failure exactly when some name fails the check; it is that of the first such name. */
  lemma {:induction false} FirstFailureFirst(loadable: string -> bool, defs: map<string, BeanDefinition>, names: seq<string>)
    requires forall i :: 0 <= i < |names| ==> names[i] in defs
    ensures var f := FirstFailure(loadable, defs, names);
      && (f.None? <==> forall i :: 0 <= i < |names| ==> EnhanceCheck(loadable, names[i], defs[names[i]]).None?)
      && (f.Some? ==>
            exists i :: 0 <= i < |names| && f == EnhanceCheck(loadable, names[i], defs[names[i]])
              && (forall j :: 0 <= j < i ==> EnhanceCheck(loadable, names[j], defs[names[j]]).None?))
  {
    if names != [] {
      var init := names[..|names| - 1];
      FirstFailureFirst(loadable, defs, init);
      assert forall i :: 0 <= i < |init| ==> names[i] == init[i];
    }
  }

  /**
   * A first pass that succeeds resolves the class of every configuration
   * definition and collects exactly the full configuration classes, each once.
   */
  lemma {:induction false} ScanPass(loadable: string -> bool, defs: map<string, BeanDefinition>, names: seq<string>)
    requires NoDup(names)
    requires ScanDefinitions(loadable, defs, names).error.None?
    ensures var s := ScanDefinitions(loadable, defs, names);
      && (forall n :: n in names && n in defs ==> n in s.defs && s.defs[n] == Resolve(defs[n]))
      && (forall n :: n in s.fulls <==> n in names && n in defs && defs[n].configAttr == FullConfig)
      && NoDup(s.fulls)
  {
    if names != [] {
      var init := names[..|names| - 1];
      var last := names[|names| - 1];
      NoDupInit(names);
      NoDupNotBefore(names, |names| - 1);
      ScanKeeps(loadable, defs, init);
      ScanPass(loadable, defs, init);
      var s := ScanDefinitions(loadable, defs, init);
      assert forall n :: n in names <==> n in init || n == last;
      if last in defs && defs[last].configAttr == FullConfig {
        AppendNoDup(s.fulls, [last]);
      }
    }
  }

  lemma {:induction false} EnhanceAllEffect(enhance: string -> string, defs: map<string, BeanDefinition>, names: seq<string>)
    requires NoDup(names)
    ensures var m := EnhanceAll(enhance, defs, names);
      && m.Keys == defs.Keys
      && forall n :: n in defs ==> m[n] == (if n in names then Enhanced(enhance, defs[n]) else defs[n])
  {
    if names != [] {
      var init := names[..|names| - 1];
      NoDupInit(names);
      NoDupNotBefore(names, |names| - 1);
      EnhanceAllEffect(enhance, defs, init);
      assert names == init + [names[|names| - 1]];
    }
  }

  /** The definitions after enhanceConfigurationClasses, and its outcome. */
  function EnhanceResult(loadable: string -> bool, enhance: string -> string, r: RegistryState): (map<string, BeanDefinition>, Outcome<ConfigError>) {
    var s := ScanDefinitions(loadable, r.defs, r.names);
    if s.error.Some? then (s.defs, Fail(s.error.value)) else (EnhanceAll(enhance, s.defs, s.fulls), Pass)
  }

  /**
   * enhanceConfigurationClasses succeeds exactly when no definition fails the
   * check; then every full configuration class gets its class resolved, its
   * enhanced subclass and the preserve-target-class mark, and every other
   * definition at most gets its class resolved.
   */
  lemma EnhanceEffect(loadable: string -> bool, enhance: string -> string, r: RegistryState)
    requires WellFormed(r)
    ensures var (defs, res) := EnhanceResult(loadable, enhance, r);
      && defs.Keys == r.defs.Keys
      && (res == Pass <==> forall i :: 0 <= i < |r.names| ==> EnhanceCheck(loadable, r.names[i], r.defs[r.names[i]]).None?)
      && (res == Pass ==> forall n :: n in r.defs ==>
            if r.defs[n].configAttr == FullConfig
            then defs[n] == Enhanced(enhance, Resolve(r.defs[n])) && defs[n].preserveTargetClass
                 && defs[n].classResolved && defs[n].className == enhance(r.defs[n].className)
            else defs[n] == Resolve(r.defs[n]))
  {
    var s := ScanDefinitions(loadable, r.defs, r.names);
    ScanKeeps(loadable, r.defs, r.names);
    ScanError(loadable, r.defs, r.names);
    FirstFailureFirst(loadable, r.defs, r.names);
    if s.error.None? {
      ScanPass(loadable, r.defs, r.names);
      EnhanceAllEffect(enhance, s.defs, s.fulls);
    }
  }

  /**
   * A failed enhancement reports the first definition, in registration order,
   * that fails the check; the ones before it have their classes resolved and
   * no class is enhanced.
   */
  lemma EnhanceFailure(loadable: string -> bool, enhance: string -> string, r: RegistryState)
    requires WellFormed(r)
    ensures var (defs, res) := EnhanceResult(loadable, enhance, r);
      res.Fail? ==>
        && (exists i :: 0 <= i < |r.names| && Some(res.error) == EnhanceCheck(loadable, r.names[i], r.defs[r.names[i]])
              && (forall j :: 0 <= j < i ==> EnhanceCheck(loadable, r.names[j], r.defs[r.names[j]]).None?))
        && (forall n :: n in r.defs ==> n in defs && (defs[n] == r.defs[n] || defs[n] == Resolve(r.defs[n])))
  {
    ScanKeeps(loadable, r.defs, r.names);
    ScanError(loadable, r.defs, r.names);
    FirstFailureFirst(loadable, r.defs, r.names);
  }

  // ---------------------------------------------------------------------------
  // The post-processor
  // ---------------------------------------------------------------------------

  class ConfigurationClassPostProcessor {
    /** Parsing and reading configuration classes. */
    const source: ConfigSource
    /** Whether the bean class loader can load a class name. */
    const loadable: string -> bool
    /** ConfigurationClassEnhancer.enhance: the class name of the enhanced subclass. */
    const enhance: string -> string
    /** Identities of the registries and factories already post-processed. */
    var registriesPostProcessed: set<int>
    var factoriesPostProcessed: set<int>

    ghost predicate Valid() {
      Bounded(source)
    }

    constructor (source: ConfigSource, loadable: string -> bool, enhance: string -> string)
      requires Bounded(source)
      ensures Valid()
      ensures this.source == source && this.loadable == loadable && this.enhance == enhance
      ensures registriesPostProcessed == {} && factoriesPostProcessed == {}
    {
      this.source := source;
      this.loadable := loadable;
      this.enhance := enhance;
      registriesPostProcessed := {};
      factoriesPostProcessed := {};
    }

    /**
     * getOrder: the lowest precedence within PriorityOrdered, so the post-processor
     * runs after every other PriorityOrdered registry post-processor and before
     * every Ordered one.
     */
    function GetOrder(): (order: int)
      ensures order <= LowestPrecedence
      ensures forall p: int :: p <= LowestPrecedence ==> KeyLe(KeyOf(PriorityTier, p), KeyOf(PriorityTier, order))
      ensures forall o: int :: KeyLe(KeyOf(PriorityTier, order), KeyOf(OrderedTier, o))
    {
      LowestPrecedence
    }

    /** The first loop of processConfigBeanDefinitions. */
    method CollectCandidates(factory: BeanFactory) returns (configCandidates: seq<Candidate>)
      ensures configCandidates == InitialCandidates(source, factory.Registry(), factory.names)
    {
      var candidateNames := factory.names;
      configCandidates := [];
      for i := 0 to |candidateNames|
        invariant configCandidates == InitialCandidates(source, factory.Registry(), candidateNames[..i])
      {
        assert candidateNames[..i + 1][..i] == candidateNames[..i];
        var beanName := candidateNames[i];
        if beanName in factory.definitions {
          var beanDef := factory.definitions[beanName];
          if beanDef.configAttr != NoConfigAttr {
            // already processed as a configuration class
          } else if source.isCandidate(beanDef) {
            configCandidates := configCandidates + [Candidate(beanName, beanDef)];
          }
        }
      }
      assert candidateNames[..|candidateNames|] == candidateNames;
    }

    /** The candidates among the names registered since `oldCandidateNames`. */
    method SelectNewCandidates(factory: BeanFactory, oldCandidateNames: seq<string>, alreadyParsedClasses: set<string>)
      returns (candidates: seq<Candidate>)
      ensures candidates == NextCandidates(source, factory.Registry(), factory.names, oldCandidateNames, alreadyParsedClasses)
    {
      var newCandidateNames := factory.names;
      candidates := [];
      for i := 0 to |newCandidateNames|
        invariant candidates == NextCandidates(source, factory.Registry(), newCandidateNames[..i], oldCandidateNames, alreadyParsedClasses)
      {
        assert newCandidateNames[..i + 1][..i] == newCandidateNames[..i];
        var candidateName := newCandidateNames[i];
        if candidateName !in oldCandidateNames && candidateName in factory.definitions {
          var bd := factory.definitions[candidateName];
          if source.isCandidate(bd) && bd.className !in alreadyParsedClasses {
            candidates := candidates + [Candidate(candidateName, bd)];
          }
        }
      }
      assert newCandidateNames[..|newCandidateNames|] == newCandidateNames;
    }

    /** Registers the definitions the reader derives from one configuration class. */
    method LoadClass(factory: BeanFactory, configClass: string)
      requires factory.Valid()
      modifies factory`names, factory`definitions
      ensures factory.Valid()
      ensures factory.Registry() == RegisterAll(old(factory.Registry()), source.definitionsOf(configClass))
    {
      var regs := source.definitionsOf(configClass);
      ghost var start := factory.Registry();
      for j := 0 to |regs|
        invariant factory.Valid()
        invariant factory.Registry() == RegisterAll(start, regs[..j])
      {
        RegisterAllPrefix(start, regs, j);
        factory.RegisterBeanDefinition(regs[j].name, regs[j].definition);
      }
      assert regs[..|regs|] == regs;
    }

    /** The reader's loadBeanDefinitions: the classes in turn. */
    method LoadBeanDefinitions(factory: BeanFactory, configClasses: seq<string>)
      requires factory.Valid()
      modifies factory`names, factory`definitions
      ensures factory.Valid()
      ensures factory.Registry() == RegisterAll(old(factory.Registry()), Loaded(source, configClasses))
    {
      for i := 0 to |configClasses|
        invariant factory.Valid()
        invariant factory.Registry() == RegisterAll(old(factory.Registry()), Loaded(source, configClasses[..i]))
      {
        assert configClasses[..i + 1][..i] == configClasses[..i];
        RegisterAllAppend(old(factory.Registry()), Loaded(source, configClasses[..i]), source.definitionsOf(configClasses[i]));
        LoadClass(factory, configClasses[i]);
      }
      assert configClasses[..|configClasses|] == configClasses;
    }

    /** One pass of the do-while loop of processConfigBeanDefinitions. */
    method ProcessRound(factory: BeanFactory, candidates: seq<Candidate>, parserClasses: seq<string>,
                        alreadyParsed: set<string>, candidateNames: seq<string>)
      returns (parsed: seq<string>, parsedSet: set<string>, next: seq<Candidate>, namesAfter: seq<string>)
      requires factory.Valid() && Resumable(source, factory.Registry(), parserClasses)
      requires alreadyParsed == Elems(parserClasses) && candidateNames == factory.names
      modifies factory`names, factory`definitions
      ensures factory.Valid()
      ensures var o := Round(source, old(factory.Registry()), candidates, parserClasses);
        factory.Registry() == o.registry && parsed == o.parsed && next == o.next
      ensures parsedSet == Elems(parsed) && namesAfter == factory.names
    {
      ghost var r := factory.Registry();
      parsed := ParseCandidates(source, parserClasses, candidates);
      var configClasses := Without(parsed, alreadyParsed);
      LoadBeanDefinitions(factory, configClasses);
      parsedSet := alreadyParsed + set c | c in configClasses;
      ParsedSoFar(parserClasses, parsed);
      next := [];
      namesAfter := candidateNames;
      if |factory.names| > |candidateNames| {
        next := SelectNewCandidates(factory, candidateNames, parsedSet);
        namesAfter := factory.names;
      } else {
        assert factory.names == r.names;
        NoNewNames(source, factory.Registry(), r.names, r.names, parsedSet);
      }
    }

    /** The do-while loop of processConfigBeanDefinitions, from the sorted first candidates. */
    method ProcessRounds(factory: BeanFactory, configCandidates: seq<Candidate>) returns (parserClasses: seq<string>)
      requires Valid() && factory.Valid()
      modifies factory`names, factory`definitions
      ensures factory.Valid()
      ensures var e := Expand(source, old(factory.Registry()), configCandidates, []);
        factory.Registry() == e.registry && parserClasses == e.parsed
    {
      ghost var goal := Expand(source, factory.Registry(), configCandidates, []);
      var candidateNames := factory.names;
      var candidates := configCandidates;
      parserClasses := [];   // the parser's configuration classes, in parse order
      var alreadyParsed: set<string> := {};
      var more := true;
      while more
        invariant factory.Valid()
        invariant alreadyParsed == Elems(parserClasses)
        invariant more ==> && Resumable(source, factory.Registry(), parserClasses)
                           && candidateNames == factory.names
                           && Expand(source, factory.Registry(), candidates, parserClasses) == goal
        invariant !more ==> factory.Registry() == goal.registry && parserClasses == goal.parsed
        decreases if more then |source.classes - alreadyParsed| + 1 else 0
      {
        ghost var r := factory.Registry();
        ghost var previouslyParsed := parserClasses;
        ghost var roundCandidates := candidates;
        parserClasses, alreadyParsed, candidates, candidateNames :=
          ProcessRound(factory, candidates, parserClasses, alreadyParsed, candidateNames);
        more := candidates != [];
        if more {
          RoundProgress(source, r, roundCandidates, previouslyParsed);
          assert Expand(source, r, roundCandidates, previouslyParsed) == Expand(source, factory.Registry(), candidates, parserClasses);
        } else {
          assert Expand(source, r, roundCandidates, previouslyParsed) == Expansion(factory.Registry(), parserClasses, r.names);
        }
      }
    }

    /**
     * processConfigBeanDefinitions: parse the candidates, load the classes not
     * loaded before, and repeat with the candidates among the new definitions;
     * then register the import registry unless it is there already.
     */
    method ProcessConfigBeanDefinitions(factory: BeanFactory)
      requires Valid() && factory.Valid()
      modifies factory`names, factory`definitions, factory`singletons
      ensures factory.Valid()
      ensures factory.Registry() == Process(source, old(factory.Registry())).registry
      ensures factory.singletons == WithImportRegistry(old(factory.singletons), Process(source, old(factory.Registry())).importRegistry)
    {
      ghost var r0 := factory.Registry();
      var configCandidates := CollectCandidates(factory);
      if configCandidates == [] {
        // no configuration class found
        assert Process(source, r0) == Processing(r0, None);
        return;
      }
      // sort by the order values of the definitions
      configCandidates := Sort(configCandidates, CandidateKey);
      var parserClasses := ProcessRounds(factory, configCandidates);
      assert Process(source, r0) == Processing(factory.Registry(), Some(parserClasses));
      if ImportRegistryBeanName !in factory.singletons {
        factory.singletons := factory.singletons[ImportRegistryBeanName := ImportRegistry(parserClasses)];
      }
    }

    /** The first loop of enhanceConfigurationClasses on one definition. */
    method CheckDefinition(beanFactory: BeanFactory, beanName: string, configBeanDefs: seq<string>)
      returns (collected: seq<string>, failure: Option<ConfigError>)
      requires beanFactory.Valid()
      modifies beanFactory`definitions
      ensures beanFactory.Valid()
      ensures ScanStep(loadable, Scan(old(beanFactory.definitions), configBeanDefs, None), beanName)
              == Scan(beanFactory.definitions, collected, failure)
    {
      collected, failure := configBeanDefs, None;
      if beanName !in beanFactory.definitions {
        return;
      }
      var beanDef := beanFactory.definitions[beanName];
      if NeedsClass(beanDef) && !beanDef.classResolved {
        // NeedsClass: the definition's class must be loaded before enhancement can inspect it
        if !loadable(beanDef.className) {
          failure := Some(CannotLoadConfigurationClass(beanDef.className));
          return;
        }
        beanDef := beanDef.(classResolved := true);
        beanFactory.definitions := beanFactory.definitions[beanName := beanDef];
      }
      if beanDef.configAttr == FullConfig {
        if !beanDef.isAbstractDefinition {
          failure := Some(CannotEnhance(beanName));
          return;
        }
        collected := collected + [beanName];
      }
    }

    /** The second loop of enhanceConfigurationClasses on one full configuration class. */
    method EnhanceDefinition(beanFactory: BeanFactory, beanName: string)
      requires beanFactory.Valid()
      modifies beanFactory`definitions
      ensures beanFactory.Valid()
      ensures beanFactory.definitions == EnhanceAll(enhance, old(beanFactory.definitions), [beanName])
    {
      if beanName in beanFactory.definitions {
        var beanDef := beanFactory.definitions[beanName];
        // preserveTargetClass: any later proxy of this definition subclasses its class
        beanDef := beanDef.(preserveTargetClass := true);
        var configClass := beanDef.className;
        var enhancedClass := enhance(configClass);
        if configClass != enhancedClass {
          beanDef := beanDef.(className := enhancedClass);
        }
        beanFactory.definitions := beanFactory.definitions[beanName := beanDef];
      }
      assert [beanName][..0] == [];
    }

    /**
     * enhanceConfigurationClasses: resolve the classes of configuration
     * definitions, collect the full configuration classes, then replace each
     * one's class with its enhanced subclass.
     */
    method EnhanceConfigurationClasses(beanFactory: BeanFactory) returns (res: Outcome<ConfigError>)
      requires beanFactory.Valid()
      modifies beanFactory`definitions
      ensures beanFactory.Valid()
      ensures (beanFactory.definitions, res) == EnhanceResult(loadable, enhance, old(beanFactory.Registry()))
    {
      var configBeanDefs, failure := CollectFullConfigurationClasses(beanFactory);
      if failure.Some? {
        return Fail(failure.value);
      }
      if configBeanDefs == [] {
        // nothing to enhance
        return Pass;
      }
      EnhanceAllDefinitions(beanFactory, configBeanDefs);
      res := Pass;
    }

    /**
     * The first loop of enhanceConfigurationClasses: resolves the classes of
     * configuration definitions and collects the full configuration classes,
     * stopping at the first definition that fails.
     */
    method CollectFullConfigurationClasses(beanFactory: BeanFactory)
      returns (configBeanDefs: seq<string>, failure: Option<ConfigError>)
      requires beanFactory.Valid()
      modifies beanFactory`definitions
      ensures beanFactory.Valid()
      ensures ScanDefinitions(loadable, old(beanFactory.definitions), beanFactory.names)
           == Scan(beanFactory.definitions, configBeanDefs, failure)
    {
      ghost var r := beanFactory.Registry();
      var names := beanFactory.names;
      configBeanDefs, failure := [], None;
      for i := 0 to |names|
        invariant beanFactory.Valid()
        invariant failure == None
        invariant ScanDefinitions(loadable, r.defs, names[..i]) == Scan(beanFactory.definitions, configBeanDefs, None)
      {
        assert names[..i + 1][..i] == names[..i];
        configBeanDefs, failure := CheckDefinition(beanFactory, names[i], configBeanDefs);
        if failure.Some? {
          ScanStops(loadable, r.defs, names, i + 1);
          return;
        }
      }
      assert names[..|names|] == names;
    }

    /** The second loop of enhanceConfigurationClasses: each collected class in turn. */
    method EnhanceAllDefinitions(beanFactory: BeanFactory, configBeanDefs: seq<string>)
      requires beanFactory.Valid()
      modifies beanFactory`definitions
      ensures beanFactory.Valid()
      ensures beanFactory.definitions == EnhanceAll(enhance, old(beanFactory.definitions), configBeanDefs)
    {
      ghost var scanned := beanFactory.definitions;
      for i := 0 to |configBeanDefs|
        invariant beanFactory.Valid()
        invariant beanFactory.definitions == EnhanceAll(enhance, scanned, configBeanDefs[..i])
      {
        assert configBeanDefs[..i + 1][..i] == configBeanDefs[..i];
        EnhanceDefinition(beanFactory, configBeanDefs[i]);
      }
      assert configBeanDefs[..|configBeanDefs|] == configBeanDefs;
    }

    /**
     * postProcessBeanDefinitionRegistry: refuses a registry it has already
     * processed or whose factory it has already post-processed; otherwise
     * remembers the registry and processes its configuration classes.
     */
    method PostProcessBeanDefinitionRegistry(registry: BeanFactory) returns (res: Outcome<ConfigError>)
      requires Valid() && registry.Valid() && registry.isRegistry
      modifies this`registriesPostProcessed, registry`names, registry`definitions, registry`singletons
      ensures registry.Valid()
      ensures old(registry.id in registriesPostProcessed) ==> res == Fail(RegistryAlreadyProcessed)
      ensures old(registry.id !in registriesPostProcessed && registry.id in factoriesPostProcessed) ==> res == Fail(FactoryAlreadyProcessed)
      ensures res.Fail? ==> unchanged(this) && unchanged(registry)
      ensures res == Pass <==> old(registry.id !in registriesPostProcessed && registry.id !in factoriesPostProcessed)
      ensures res == Pass ==>
        && registriesPostProcessed == old(registriesPostProcessed) + {registry.id}
        && registry.Registry() == Process(source, old(registry.Registry())).registry
        && registry.singletons == WithImportRegistry(old(registry.singletons), Process(source, old(registry.Registry())).importRegistry)
    {
      var registryId := registry.id;
      if registryId in registriesPostProcessed {
        return Fail(RegistryAlreadyProcessed);
      }
      if registryId in factoriesPostProcessed {
        return Fail(FactoryAlreadyProcessed);
      }
      registriesPostProcessed := registriesPostProcessed + {registryId};
      ProcessConfigBeanDefinitions(registry);
      res := Pass;
    }

    /**
     * postProcessBeanFactory: refuses a factory it has already post-processed;
     * processes the configuration classes itself when the registry callback did
     * not run for this factory, enhances the full configuration classes, and
     * adds the import-aware interceptor.
     */
    method PostProcessBeanFactory(beanFactory: BeanFactory) returns (res: Outcome<ConfigError>)
      requires Valid() && beanFactory.Valid()
      modifies this`factoriesPostProcessed, beanFactory`names, beanFactory`definitions, beanFactory`singletons,
               beanFactory`interceptors
      ensures beanFactory.Valid()
      ensures registriesPostProcessed == old(registriesPostProcessed)
      ensures old(beanFactory.id in factoriesPostProcessed) ==>
        res == Fail(FactoryAlreadyProcessed) && unchanged(this) && unchanged(beanFactory)
      ensures old(beanFactory.id !in factoriesPostProcessed) ==>
        factoriesPostProcessed == old(factoriesPostProcessed) + {beanFactory.id}
      ensures old(beanFactory.id !in factoriesPostProcessed && beanFactory.id !in registriesPostProcessed) && !beanFactory.isRegistry ==>
        res == Fail(NotARegistry) && unchanged(beanFactory)
      ensures old(beanFactory.id !in factoriesPostProcessed) && (old(beanFactory.id in registriesPostProcessed) || beanFactory.isRegistry) ==>
        var p := if old(beanFactory.id in registriesPostProcessed) then Processing(old(beanFactory.Registry()), None)
                 else Process(source, old(beanFactory.Registry()));
        var (defs, outcome) := EnhanceResult(loadable, enhance, p.registry);
        && res == outcome
        && beanFactory.names == p.registry.names && beanFactory.definitions == defs
        && beanFactory.singletons == WithImportRegistry(old(beanFactory.singletons), p.importRegistry)
        && beanFactory.interceptors == (if outcome == Pass then AddInterceptor(old(beanFactory.interceptors), ImportAwareProcessor)
                                        else old(beanFactory.interceptors))
    {
      var factoryId := beanFactory.id;
      if factoryId in factoriesPostProcessed {
        return Fail(FactoryAlreadyProcessed);
      }
      factoriesPostProcessed := factoriesPostProcessed + {factoryId};
      if factoryId !in registriesPostProcessed {
        // the registry callback did not run: process lazily, which needs a registry
        if !beanFactory.isRegistry {
          return Fail(NotARegistry);
        }
        ProcessConfigBeanDefinitions(beanFactory);
      }
      res := EnhanceConfigurationClasses(beanFactory);
      if res.Fail? {
        return;
      }
      beanFactory.AddBeanPostProcessor(ImportAwareProcessor);
    }
  }
}

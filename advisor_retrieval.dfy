/**
 * BeanFactoryAdvisorRetrievalHelper: finds the Advisor beans of a factory for
 * auto-proxying. The advisor bean names are looked up once and cached; each
 * eligible name not currently in creation is fetched, and a failure to create
 * an advisor is skipped only when it comes from a reference back to a bean
 * still in creation.
 */
module AdvisorRetrieval {
  import opened Results
  import opened Seqs
  import opened Registry

  /** An advisor instance as getBean returns it. */
  datatype Advisor = Advisor(beanName: string, instance: nat)

  /** The most specific cause of a bean creation failure. */
  datatype RootCause =
    | CurrentlyInCreation(beanName: Option<string>)   // BeanCurrentlyInCreationException and the bean it names
    | OtherCause

  /** BeanCreationException raised by getBean for the bean `beanName`. */
  datatype BeanCreationError = BeanCreationError(beanName: string, rootCause: RootCause)

  /** A creation failure caused by a reference back to a bean that is still in creation. */
  predicate Ignorable(e: BeanCreationError, inCreation: set<string>) {
    e.rootCause.CurrentlyInCreation? && e.rootCause.beanName.Some? && e.rootCause.beanName.value in inCreation
  }

  /** isEligibleBean as the helper defines it: every aspect bean is eligible. */
  function DefaultIsEligibleBean(beanName: string): (eligible: bool)
    ensures eligible
  {
    true
  }

  /** One name of the loop of findAdvisorBeans, given what the names before it gave. */
  function RetrieveStep(sofar: Result<seq<Advisor>, BeanCreationError>, name: string, isEligible: string -> bool,
                        inCreation: set<string>, getBean: string -> Result<Advisor, BeanCreationError>)
    : Result<seq<Advisor>, BeanCreationError>
  {
    if sofar.Failure? || !isEligible(name) || name in inCreation then sofar
    else
      match getBean(name)
      case Success(advisor) => Success(sofar.value + [advisor])
      case Failure(e) => if Ignorable(e, inCreation) then sofar else Failure(e)
  }

  /**
   * The loop of findAdvisorBeans over `names`: the advisors fetched so far, or
   * the first creation failure that is not ignorable.
   */
  function Retrieve(names: seq<string>, isEligible: string -> bool, inCreation: set<string>,
                    getBean: string -> Result<Advisor, BeanCreationError>): Result<seq<Advisor>, BeanCreationError>
  {
    if names == [] then Success([])
    else RetrieveStep(Retrieve(names[..|names| - 1], isEligible, inCreation, getBean), names[|names| - 1],
                      isEligible, inCreation, getBean)
  }

  /** A name whose advisor ends up in the result. */
  predicate Kept(isEligible: string -> bool, inCreation: set<string>,
                 getBean: string -> Result<Advisor, BeanCreationError>, name: string) {
    isEligible(name) && name !in inCreation && getBean(name).Success?
  }

  /** A name whose fetch fails and makes the whole retrieval fail. */
  predicate Fatal(isEligible: string -> bool, inCreation: set<string>,
                  getBean: string -> Result<Advisor, BeanCreationError>, name: string) {
    isEligible(name) && name !in inCreation && getBean(name).Failure? && !Ignorable(getBean(name).error, inCreation)
  }

  /** The advisors of the kept names, in the order of `names`. */
  function KeptAdvisors(names: seq<string>, isEligible: string -> bool, inCreation: set<string>,
                        getBean: string -> Result<Advisor, BeanCreationError>): seq<Advisor>
  {
    if names == [] then []
    else
      var name := names[|names| - 1];
      KeptAdvisors(names[..|names| - 1], isEligible, inCreation, getBean)
      + (if Kept(isEligible, inCreation, getBean, name) then [getBean(name).value] else [])
  }

  /** `advisor` is the bean of a kept name of `names`. */
  ghost predicate FromKeptName(names: seq<string>, isEligible: string -> bool, inCreation: set<string>,
                               getBean: string -> Result<Advisor, BeanCreationError>, advisor: Advisor) {
    exists i :: 0 <= i < |names| && Kept(isEligible, inCreation, getBean, names[i]) && getBean(names[i]) == Success(advisor)
  }

  /**
   * There are never more advisors than names, and each advisor is the bean of
   * an eligible name that is not in creation.
   */
  lemma {:induction false} KeptAdvisorsSound(names: seq<string>, isEligible: string -> bool, inCreation: set<string>,
                                             getBean: string -> Result<Advisor, BeanCreationError>)
    ensures |KeptAdvisors(names, isEligible, inCreation, getBean)| <= |names|
    ensures forall a <- KeptAdvisors(names, isEligible, inCreation, getBean) ::
              FromKeptName(names, isEligible, inCreation, getBean, a)
  {
    if names != [] {
      var init := names[..|names| - 1];
      var last := names[|names| - 1];
      KeptAdvisorsSound(init, isEligible, inCreation, getBean);
      forall a <- KeptAdvisors(init, isEligible, inCreation, getBean)
        ensures FromKeptName(names, isEligible, inCreation, getBean, a)
      {
        var i :| 0 <= i < |init| && Kept(isEligible, inCreation, getBean, init[i]) && getBean(init[i]) == Success(a);
        assert names[i] == init[i];
      }
      if Kept(isEligible, inCreation, getBean, last) {
        assert FromKeptName(names, isEligible, inCreation, getBean, getBean(last).value) by {
          assert names[|names| - 1] == last;
        }
      }
    }
  }

  /**
   * Retrieval succeeds exactly when no name has a fatal failure, and then its
   * result is the advisors of the kept names in name-list order.
   */
  lemma {:induction false} RetrieveSuccess(names: seq<string>, isEligible: string -> bool, inCreation: set<string>,
                                           getBean: string -> Result<Advisor, BeanCreationError>)
    ensures var r := Retrieve(names, isEligible, inCreation, getBean);
      && (r.Success? <==> forall i :: 0 <= i < |names| ==> !Fatal(isEligible, inCreation, getBean, names[i]))
      && (r.Success? ==> r.value == KeptAdvisors(names, isEligible, inCreation, getBean))
  {
    if names != [] {
      var init := names[..|names| - 1];
      RetrieveSuccess(init, isEligible, inCreation, getBean);
      assert forall i :: 0 <= i < |init| ==> names[i] == init[i];
    }
  }

  /**
   * A failed retrieval reports the fatal failure of the first name that has
   * one; the names before it are fetched or skipped without a fatal failure.
   */
  lemma {:induction false} RetrieveFailure(names: seq<string>, isEligible: string -> bool, inCreation: set<string>,
                                           getBean: string -> Result<Advisor, BeanCreationError>)
    ensures var r := Retrieve(names, isEligible, inCreation, getBean);
      r.Failure? ==>
        exists i :: 0 <= i < |names| && Fatal(isEligible, inCreation, getBean, names[i]) && r.error == getBean(names[i]).error
          && (forall j :: 0 <= j < i ==> !Fatal(isEligible, inCreation, getBean, names[j]))
  {
    if names != [] {
      var init := names[..|names| - 1];
      RetrieveFailure(init, isEligible, inCreation, getBean);
      RetrieveSuccess(init, isEligible, inCreation, getBean);
      assert forall i :: 0 <= i < |init| ==> names[i] == init[i];
    }
  }

  /**
   * Beans that are ineligible or in creation are never fetched: what getBean
   * would return for them does not affect the retrieval.
   */
  lemma {:induction false} RetrieveSkipsUnfetched(names: seq<string>, isEligible: string -> bool, inCreation: set<string>,
                                                  getBean: string -> Result<Advisor, BeanCreationError>,
                                                  otherGetBean: string -> Result<Advisor, BeanCreationError>)
    requires forall n :: isEligible(n) && n !in inCreation ==> getBean(n) == otherGetBean(n)
    ensures Retrieve(names, isEligible, inCreation, getBean) == Retrieve(names, isEligible, inCreation, otherGetBean)
  {
    if names != [] {
      RetrieveSkipsUnfetched(names[..|names| - 1], isEligible, inCreation, getBean, otherGetBean);
    }
  }

  /**
   * With the default eligibility, nothing in creation and every fetch
   * succeeding, every name gives its advisor.
   */
  lemma {:induction false} DefaultFindsAll(names: seq<string>, getBean: string -> Result<Advisor, BeanCreationError>)
    requires forall i :: 0 <= i < |names| ==> getBean(names[i]).Success?
    ensures var r := Retrieve(names, DefaultIsEligibleBean, {}, getBean);
      && r.Success? && |r.value| == |names|
      && forall i :: 0 <= i < |names| ==> getBean(names[i]) == Success(r.value[i])
  {
    if names != [] {
      var init := names[..|names| - 1];
      DefaultFindsAll(init, getBean);
      assert forall i :: 0 <= i < |init| ==> names[i] == init[i];
    }
  }

  /** A failed retrieval stays failed whatever names follow. */
  lemma {:induction false} RetrieveStops(names: seq<string>, isEligible: string -> bool, inCreation: set<string>,
                                         getBean: string -> Result<Advisor, BeanCreationError>, k: nat)
    requires k <= |names|
    requires Retrieve(names[..k], isEligible, inCreation, getBean).Failure?
    ensures Retrieve(names, isEligible, inCreation, getBean) == Retrieve(names[..k], isEligible, inCreation, getBean)
  {
    if k < |names| {
      var init := names[..|names| - 1];
      assert init[..k] == names[..k];
      RetrieveStops(init, isEligible, inCreation, getBean, k);
    } else {
      assert names[..k] == names;
    }
  }

  class AdvisorRetrievalHelper {
    const beanFactory: BeanFactory
    /** isEligibleBean, which subclasses may override. */
    const isEligible: string -> bool
    /** The advisor bean names, once looked up. */
    var cachedAdvisorBeanNames: Option<seq<string>>

    constructor (beanFactory: BeanFactory, isEligible: string -> bool)
      ensures this.beanFactory == beanFactory && this.isEligible == isEligible
      ensures cachedAdvisorBeanNames == None
    {
      this.beanFactory := beanFactory;
      this.isEligible := isEligible;
      cachedAdvisorBeanNames := None;
    }

    /** The helper as the framework creates it, with the default eligibility. */
    constructor WithDefaultEligibility(beanFactory: BeanFactory)
      ensures this.beanFactory == beanFactory && this.isEligible == DefaultIsEligibleBean
      ensures cachedAdvisorBeanNames == None
    {
      this.beanFactory := beanFactory;
      this.isEligible := DefaultIsEligibleBean;
      cachedAdvisorBeanNames := None;
    }

    /**
     * The body of the loop of findAdvisorBeans for one name: skip it, add its
     * advisor, ignore its failure, or fail.
     */
    method FetchAdvisor(name: string, advisors: seq<Advisor>, getBean: string -> Result<Advisor, BeanCreationError>)
      returns (next: Result<seq<Advisor>, BeanCreationError>)
      ensures next == RetrieveStep(Success(advisors), name, isEligible, beanFactory.inCreation, getBean)
    {
      next := Success(advisors);
      if isEligible(name) {
        if name in beanFactory.inCreation {
          // skip an advisor that is being created
        } else {
          var fetched := getBean(name);
          if fetched.Failure? {
            var ex := fetched.error;
            var rootCause := ex.rootCause;
            if rootCause.CurrentlyInCreation? {
              var bceBeanName := rootCause.beanName;
              if bceBeanName.Some? && bceBeanName.value in beanFactory.inCreation {
                // the failure only names a bean still being created: skip this name and go on
                return;
              }
            }
            return Failure(ex);
          }
          next := Success(advisors + [fetched.value]);
        }
      }
    }

    /**
     * The first part of findAdvisorBeans: the advisor bean names are looked up
     * only while nothing is cached, and reused unchanged afterwards even if the
     * factory has changed since.
     */
    method AdvisorBeanNames() returns (names: seq<string>)
      modifies this`cachedAdvisorBeanNames
      ensures old(cachedAdvisorBeanNames).None? ==> names == BeanNamesForType(beanFactory.Registry(), AdvisorType)
      ensures old(cachedAdvisorBeanNames).Some? ==> names == old(cachedAdvisorBeanNames).value
      ensures cachedAdvisorBeanNames == Some(names)
    {
      if cachedAdvisorBeanNames.None? {
        names := BeanNamesForType(beanFactory.Registry(), AdvisorType);
        cachedAdvisorBeanNames := Some(names);
      } else {
        names := cachedAdvisorBeanNames.value;
      }
    }

    /** The loop of findAdvisorBeans over the advisor bean names. */
    method RetrieveAdvisors(advisorNames: seq<string>, getBean: string -> Result<Advisor, BeanCreationError>)
      returns (res: Result<seq<Advisor>, BeanCreationError>)
      ensures res == Retrieve(advisorNames, isEligible, beanFactory.inCreation, getBean)
    {
      if |advisorNames| == 0 {
        return Success([]);
      }
      var advisors: seq<Advisor> := [];
      for i := 0 to |advisorNames|
        invariant Retrieve(advisorNames[..i], isEligible, beanFactory.inCreation, getBean) == Success(advisors)
      {
        assert advisorNames[..i + 1][..i] == advisorNames[..i];
        var next := FetchAdvisor(advisorNames[i], advisors, getBean);
        if next.Failure? {
          RetrieveStops(advisorNames, isEligible, beanFactory.inCreation, getBean, i + 1);
          return next;
        }
        advisors := next.value;
      }
      assert advisorNames[..|advisorNames|] == advisorNames;
      res := Success(advisors);
    }

    /**
     * findAdvisorBeans: the cached (or freshly looked up) advisor bean names,
     * then the advisors retrieved for them; `getBean` is getBean(name,
     * Advisor.class) on the factory as it is now.
     */
    method FindAdvisorBeans(getBean: string -> Result<Advisor, BeanCreationError>)
      returns (res: Result<seq<Advisor>, BeanCreationError>)
      modifies this`cachedAdvisorBeanNames
      ensures old(cachedAdvisorBeanNames).None? ==>
        cachedAdvisorBeanNames == Some(BeanNamesForType(beanFactory.Registry(), AdvisorType))
      ensures old(cachedAdvisorBeanNames).Some? ==> cachedAdvisorBeanNames == old(cachedAdvisorBeanNames)
      ensures cachedAdvisorBeanNames.Some?
      ensures res == Retrieve(cachedAdvisorBeanNames.value, isEligible, beanFactory.inCreation, getBean)
    {
      var advisorNames := AdvisorBeanNames();
      res := RetrieveAdvisors(advisorNames, getBean);
    }
  }
}

# Post-processor bootstrap of an application context, in Dafny

This project models the part of a Spring application context's start-up that
runs post-processors against the bean factory, and proves what that start-up
guarantees:

- **invokeBeanFactoryPostProcessors** (`PostProcessorDelegate`). The caller's
  post-processors run first. Then the BeanDefinitionRegistryPostProcessor beans
  run in waves: the PriorityOrdered wave, then the Ordered wave, then waves of
  everything left, repeated until a wave finds nothing new. After that, the
  factory callbacks run: those of every registry post-processor, then those of
  the caller's other post-processors, then those of the plain
  BeanFactoryPostProcessor beans, PriorityOrdered ones first, then Ordered ones,
  then the rest.
- **registerBeanPostProcessors** (`BeanPostProcessorRegistration`). A checker is
  added first. The bean post-processors follow in tier order, the
  merged-definition ("internal") ones are added once more, and the listener
  detector comes last. The checker's after-initialization callback reports beans
  created before the list is complete.
- **ConfigurationClassPostProcessor** (`ConfigurationClasses`):
  - guards against running twice on the same registry or factory;
  - expands configuration classes into bean definitions, round by round, until
    no round finds a new candidate;
  - registers the import registry;
  - enhances full configuration classes;
  - adds the import-aware post-processor.
- **DefaultAopProxyFactory** (`AopProxy`): the choice between a JDK dynamic
  proxy and a CGLIB proxy.
- **BeanFactoryAdvisorRetrievalHelper** (`AdvisorRetrieval`). The advisor bean
  names are cached. Eligible beans not in creation are fetched. A creation
  failure is skipped only when it comes from a bean still in creation.

Shared modules:
- `Results`: Option, Result, Outcome.
- `Seqs`: distinctness, elements, filtering, removal.
- `Ordering`: the OrderComparator key and a stable sort by it.
- `Registry`: the bean factory as a class. Its fields are the definition names
  in registration order, the definitions, the singletons, the bean
  post-processor list, the beans in creation, and a log of the post-processor
  callbacks run against it.

The state-changing code is modelled imperatively, on this `BeanFactory` class
and on the `ConfigurationClassPostProcessor` and `AdvisorRetrievalHelper`
classes. Each method is proved against a specification function of the old
state. The guarantees are lemmas about those functions.

## Model

| member | source | states |
|---|---|---|
| Ordering.KeyOf | spring-context/src/main/java/org/springframework/context/support/PostProcessorRegistrationDelegate.java:313-322 | The comparator key puts PriorityOrdered objects in a group of their own. An object that is neither PriorityOrdered nor Ordered gets the lowest precedence, Integer.MAX_VALUE. |
| Ordering.PriorityBeforeOrdered | spring-core/src/main/java/org/springframework/core/PriorityOrdered.java:20-29 | A PriorityOrdered object sorts strictly before any plain Ordered object, whatever the two order values are. |
| Ordering.SortSorted | spring-context/src/main/java/org/springframework/context/support/PostProcessorRegistrationDelegate.java:313-322 | sortPostProcessors leaves the list ordered by the comparator key. |
| Ordering.SortPermutation | spring-context/src/main/java/org/springframework/context/support/PostProcessorRegistrationDelegate.java:313-322 | Sorting neither loses nor duplicates an element: the result is a permutation of the input. |
| Ordering.SortStable | spring-context/src/main/java/org/springframework/context/support/PostProcessorRegistrationDelegate.java:313-322 | The sort is stable: elements with equal keys keep their relative order. |
| Ordering.SortElems | spring-context/src/main/java/org/springframework/context/support/PostProcessorRegistrationDelegate.java:313-322 | The sorted list has the same elements and length, and stays duplicate-free. |
| Registry.BeanNamesForType | spring-context/src/main/java/org/springframework/context/support/PostProcessorRegistrationDelegate.java:107-108 | getBeanNamesForType returns exactly the registered names whose definition matches the type, each once. A registry post-processor also matches the bean factory post-processor type. |
| PostProcessorDelegate.InvokeBeanFactoryPostProcessors | spring-context/src/main/java/org/springframework/context/support/PostProcessorRegistrationDelegate.java:60-232 | On a registry, the registry phase is a complete run of waves, starting from the registry the caller's registry post-processors left. The callback log gains all registry callbacks and then all factory callbacks, in source order. On a factory that is not a registry, the definitions are untouched, and the log gains the factory callbacks of all the caller's post-processors, then of the beans. |
| PostProcessorDelegate.InvokeOnRegistry | spring-context/src/main/java/org/springframework/context/support/PostProcessorRegistrationDelegate.java:69-169 | The registry branch: its waves form a complete registry phase, and the log gains exactly RegistryCallbacks. |
| PostProcessorDelegate.InvokeRegistryPhase | spring-context/src/main/java/org/springframework/context/support/PostProcessorRegistrationDelegate.java:84-160 | The caller's registry post-processors run, then the waves. The returned list of registry processors is the caller's ones followed by the waves, and processedBeans is exactly what the waves ran. |
| PostProcessorDelegate.InvokeFactoryCallbacks | spring-context/src/main/java/org/springframework/context/support/PostProcessorRegistrationDelegate.java:166-226 | The factory callbacks run for the registry post-processors, then the caller's regular ones, then the unprocessed bean factory post-processors in tier order. |
| PostProcessorDelegate.InvokeOnPlainFactory | spring-context/src/main/java/org/springframework/context/support/PostProcessorRegistrationDelegate.java:171-226 | On a factory that is not a registry, only factory callbacks run: the caller's post-processors in list order, then all the bean factory post-processors in tier order. |
| PostProcessorDelegate.InvokeCallerRegistryHooks | spring-context/src/main/java/org/springframework/context/support/PostProcessorRegistrationDelegate.java:84-94 | The caller's list is split by kind, keeping order. The registry post-processors' registry callbacks run at once, in list order, and register what they register. |
| PostProcessorDelegate.RunRegistryWaves | spring-context/src/main/java/org/springframework/context/support/PostProcessorRegistrationDelegate.java:102-160 | The waves form a complete registry phase. processedBeans and the registry-processor list record exactly the waves' post-processors, and the log gains their registry callbacks in wave order. |
| PostProcessorDelegate.RunOrderedWaves | spring-context/src/main/java/org/springframework/context/support/PostProcessorRegistrationDelegate.java:104-140 | Exactly two waves run, PriorityOrdered then Ordered. Each is chosen from the registry that the waves before it left. |
| PostProcessorDelegate.RunRemainingWaves | spring-context/src/main/java/org/springframework/context/support/PostProcessorRegistrationDelegate.java:142-160 | The reiterate loop terminates for fixed per-name effects. It ends with an empty wave after non-empty ones, which completes the registry phase. |
| PostProcessorDelegate.RunLaterWave | spring-context/src/main/java/org/springframework/context/support/PostProcessorRegistrationDelegate.java:146-159 | One pass of the reiterate loop. A non-empty wave strictly shrinks the set of names that may still be run, which makes the loop terminate for fixed per-name effects. |
| PostProcessorDelegate.RunRegistryWave | spring-context/src/main/java/org/springframework/context/support/PostProcessorRegistrationDelegate.java:107-125 | One wave takes only names of the current registry that are not yet processed, and marks exactly those processed. The wave history grows by this wave and the snapshot it saw. |
| PostProcessorDelegate.CollectWave | spring-context/src/main/java/org/springframework/context/support/PostProcessorRegistrationDelegate.java:107-119 | The selected wave is duplicate-free and drawn from unprocessed names, and processedBeans grows by exactly the wave. |
| PostProcessorDelegate.SelectWave | spring-context/src/main/java/org/springframework/context/support/PostProcessorRegistrationDelegate.java:110-117 | The selection loop keeps exactly the unprocessed candidates of the wanted tiers, in candidate order, and adds them to processedBeans. |
| PostProcessorDelegate.InvokeRegistryHook | spring-context/src/main/java/org/springframework/context/support/PostProcessorRegistrationDelegate.java:331-333 | One registry callback registers its definitions in order and logs itself once. |
| PostProcessorDelegate.InvokeRegistryHooks | spring-context/src/main/java/org/springframework/context/support/PostProcessorRegistrationDelegate.java:328-334 | invokeBeanDefinitionRegistryPostProcessors runs the registry callbacks in list order, each applying its registrations. |
| PostProcessorDelegate.InvokeFactoryHooks | spring-context/src/main/java/org/springframework/context/support/PostProcessorRegistrationDelegate.java:340-346 | The private invokeBeanFactoryPostProcessors runs one factory callback per post-processor, in list order, and changes nothing else. |
| PostProcessorDelegate.PartitionFactoryHooks | spring-context/src/main/java/org/springframework/context/support/PostProcessorRegistrationDelegate.java:186-204 | The partition loop skips processed names and sends each other name to exactly one of the PriorityOrdered, Ordered and other lists, keeping discovery order. |
| PostProcessorDelegate.InvokeFactoryOnlyHooks | spring-context/src/main/java/org/springframework/context/support/PostProcessorRegistrationDelegate.java:180-226 | The unprocessed bean factory post-processors get their factory callbacks in FactoryOnlyOrder: sorted PriorityOrdered, sorted Ordered, then the rest. |
| PostProcessorDelegate.Unprocessed | spring-context/src/main/java/org/springframework/context/support/PostProcessorRegistrationDelegate.java:149-155 | A name is kept exactly when it is a candidate, not yet processed, and of a wanted tier. Distinct candidates give distinct names. |
| PostProcessorDelegate.ApplyHooks | spring-context/src/main/java/org/springframework/context/support/PostProcessorRegistrationDelegate.java:328-334 | Registry callbacks keep the registry well-formed, only add names, and add only names some post-processor registers. |
| PostProcessorDelegate.CallerHooksSplit | spring-context/src/main/java/org/springframework/context/support/PostProcessorRegistrationDelegate.java:84-94 | The caller's list is split without loss. An id is among the registry ones if and only if a registry post-processor of the list has it, and likewise for the regular ones. The two counts add up to the list's length. |
| PostProcessorDelegate.WaveContents | spring-context/src/main/java/org/springframework/context/support/PostProcessorRegistrationDelegate.java:107-125 | A name is in a wave if and only if it is a registered registry post-processor, not processed, of a wanted tier. The wave is duplicate-free, sorted by key, and stable: equal keys keep registration order. |
| PostProcessorDelegate.WaveTiersRespected | spring-context/src/main/java/org/springframework/context/support/PostProcessorRegistrationDelegate.java:110-136 | The first wave takes only PriorityOrdered post-processors, the second only PriorityOrdered or Ordered ones, and every wave is sorted. |
| PostProcessorDelegate.RegistryWavesDistinct | spring-context/src/main/java/org/springframework/context/support/PostProcessorRegistrationDelegate.java:115-152 | Because of processedBeans, no registry post-processor runs in two waves. |
| PostProcessorDelegate.RegistryPhaseComplete | spring-context/src/main/java/org/springframework/context/support/PostProcessorRegistrationDelegate.java:142-160 | When the loop stops, every registry post-processor of the final registry has run in some wave. |
| PostProcessorDelegate.TierOrderContents | spring-context/src/main/java/org/springframework/context/support/PostProcessorRegistrationDelegate.java:186-226 | The factory-only order holds each unprocessed name exactly once and nothing else. PriorityOrdered names precede Ordered names, which precede the rest. |
| PostProcessorDelegate.FactoryCallbacksOnce | spring-context/src/main/java/org/springframework/context/support/PostProcessorRegistrationDelegate.java:166-226 | On a registry, every bean factory post-processor of the final registry gets exactly one factory callback, either as a wave member or as a factory-only one. |
| PostProcessorDelegate.PlainFactoryCallbacksOnce | spring-context/src/main/java/org/springframework/context/support/PostProcessorRegistrationDelegate.java:171-226 | On a plain factory, the factory-only order is exactly the factory's bean factory post-processors, each once. |
| BeanPostProcessorRegistration.RegisterBeanPostProcessors | spring-context/src/main/java/org/springframework/context/support/PostProcessorRegistrationDelegate.java:235-311 | The interceptor list ends as InterceptorRegistrations: the checker with its target count, the beans in tier order, the internal ones again, and the listener detector. Every addition is remove-then-append. |
| BeanPostProcessorRegistration.RegisterAfterChecker | spring-context/src/main/java/org/springframework/context/support/PostProcessorRegistrationDelegate.java:251-310 | After the checker come the three tiers, then the sorted internal post-processors, then the listener detector. |
| BeanPostProcessorRegistration.RegisterTiers | spring-context/src/main/java/org/springframework/context/support/PostProcessorRegistrationDelegate.java:251-300 | The tiers are registered in tier order. The internal post-processors collected on the way, once sorted, are InternalOrder. |
| BeanPostProcessorRegistration.PartitionInterceptors | spring-context/src/main/java/org/springframework/context/support/PostProcessorRegistrationDelegate.java:251-270 | Each name goes to exactly one tier list, in discovery order. The internal list holds the merged-definition PriorityOrdered post-processors. |
| BeanPostProcessorRegistration.CollectMergedHooks | spring-context/src/main/java/org/springframework/context/support/PostProcessorRegistrationDelegate.java:279-299 | Instantiating a tier appends exactly its merged-definition post-processors to the internal list, in order. |
| BeanPostProcessorRegistration.RegisterInterceptors | spring-context/src/main/java/org/springframework/context/support/PostProcessorRegistrationDelegate.java:351-357 | The private registerBeanPostProcessors adds each bean in order with addBeanPostProcessor. |
| BeanPostProcessorRegistration.BeansContents | spring-context/src/main/java/org/springframework/context/support/PostProcessorRegistrationDelegate.java:258-259 | getBean over a list of names yields exactly the bean post-processors with those names, and distinct names give distinct interceptors. |
| BeanPostProcessorRegistration.InterceptorOrder | spring-context/src/main/java/org/springframework/context/support/PostProcessorRegistrationDelegate.java:235-311 | The final list is: the earlier entries except those moved, then the checker, then the tier-ordered beans except the internal ones, then the internal ones sorted, then the listener detector. |
| BeanPostProcessorRegistration.RegistrationCount | spring-context/src/main/java/org/springframework/context/support/PostProcessorRegistrationDelegate.java:245-310 | If the list held neither the new checker nor any bean post-processor bean of the registry before (other processors may be present), registration leaves exactly the checker's target count. Add one if the listener detector was not there yet. |
| BeanPostProcessorRegistration.InternalOrderContents | spring-context/src/main/java/org/springframework/context/support/PostProcessorRegistrationDelegate.java:304-305 | The internal post-processors registered again are exactly the merged-definition ones, each once, sorted by key. |
| BeanPostProcessorRegistration.IsInfrastructureBean | spring-context/src/main/java/org/springframework/context/support/PostProcessorRegistrationDelegate.java:398-404 | Only a known bean name can be infrastructure. |
| BeanPostProcessorRegistration.PostProcessAfterInitialization | spring-context/src/main/java/org/springframework/context/support/PostProcessorRegistrationDelegate.java:385-396 | The checker returns the bean unchanged, whether it logs or not. |
| BeanPostProcessorRegistration.CheckerSilentAfterRegistration | spring-context/src/main/java/org/springframework/context/support/PostProcessorRegistrationDelegate.java:385-396 | Once registration is over, on a list that held neither the new checker nor any bean post-processor bean of the registry, the checker never reports a bean, because the count has reached its target. |
| BeanPostProcessorRegistration.CheckerReportsEarlyBeans | spring-context/src/main/java/org/springframework/context/support/PostProcessorRegistrationDelegate.java:245-246 | Right after the checker is added, it reports an application bean that is not a post-processor whenever some bean post-processor is still to come. |
| ConfigurationClasses.ConfigurationClassPostProcessor.constructor | spring-context/src/main/java/org/springframework/context/annotation/ConfigurationClassPostProcessor.java:132-134 | A new post-processor has processed no registry and no factory. |
| ConfigurationClasses.ConfigurationClassPostProcessor.GetOrder | spring-context/src/main/java/org/springframework/context/annotation/ConfigurationClassPostProcessor.java:148-151 | As a PriorityOrdered object, the post-processor sorts after every other PriorityOrdered one and before every Ordered one. |
| ConfigurationClasses.ConfigurationClassPostProcessor.PostProcessBeanDefinitionRegistry | spring-context/src/main/java/org/springframework/context/annotation/ConfigurationClassPostProcessor.java:233-247 | A registry already processed, or one whose factory was already post-processed, is refused with the matching error and nothing changes. Otherwise the registry is remembered and processed, and the call succeeds exactly in that case. |
| ConfigurationClasses.ConfigurationClassPostProcessor.PostProcessBeanFactory | spring-context/src/main/java/org/springframework/context/annotation/ConfigurationClassPostProcessor.java:254-272 | A factory seen before is refused and nothing changes. Otherwise it is remembered. If the registry callback did not run, its configuration classes are processed first (a non-registry is refused). Then the enhancement runs, and on success the import-aware post-processor is added. |
| ConfigurationClasses.ConfigurationClassPostProcessor.ProcessConfigBeanDefinitions | spring-context/src/main/java/org/springframework/context/annotation/ConfigurationClassPostProcessor.java:279-406 | The registry ends as Process describes. The import registry singleton is registered unless one is there already, and only when there were candidates. |
| ConfigurationClasses.ConfigurationClassPostProcessor.CollectCandidates | spring-context/src/main/java/org/springframework/context/annotation/ConfigurationClassPostProcessor.java:285-296 | The first loop keeps, in registration order, the definitions not yet marked as configuration classes that pass the candidate check. |
| ConfigurationClasses.ConfigurationClassPostProcessor.ProcessRounds | spring-context/src/main/java/org/springframework/context/annotation/ConfigurationClassPostProcessor.java:339-392 | The do-while loop terminates and reaches the fixpoint Expand. |
| ConfigurationClasses.ConfigurationClassPostProcessor.ProcessRound | spring-context/src/main/java/org/springframework/context/annotation/ConfigurationClassPostProcessor.java:341-391 | One pass parses the candidates and loads only the classes not parsed before. It then picks the next candidates among the names registered meanwhile. |
| ConfigurationClasses.ConfigurationClassPostProcessor.SelectNewCandidates | spring-context/src/main/java/org/springframework/context/annotation/ConfigurationClassPostProcessor.java:369-390 | The next candidates are the new names whose definition passes the check and whose class was not parsed yet, in registration order. |
| ConfigurationClasses.ConfigurationClassPostProcessor.LoadBeanDefinitions | spring-context/src/main/java/org/springframework/context/annotation/ConfigurationClassPostProcessor.java:363 | The reader registers the definitions of each class, class by class, in order. |
| ConfigurationClasses.ConfigurationClassPostProcessor.LoadClass | spring-context/src/main/java/org/springframework/context/annotation/ConfigurationClassPostProcessor.java:363 | One class's definitions are registered in order. A re-registered name is overwritten in place. |
| ConfigurationClasses.ConfigurationClassPostProcessor.EnhanceConfigurationClasses | spring-context/src/main/java/org/springframework/context/annotation/ConfigurationClassPostProcessor.java:417-481 | The definitions and the outcome are EnhanceResult of the old registry: the first pass, then the enhancement of the full classes it collected. |
| ConfigurationClasses.ConfigurationClassPostProcessor.CollectFullConfigurationClasses | spring-context/src/main/java/org/springframework/context/annotation/ConfigurationClassPostProcessor.java:420-454 | The first loop resolves classes and collects full configuration classes in registration order. It stops at the first failing definition. |
| ConfigurationClasses.ConfigurationClassPostProcessor.CheckDefinition | spring-context/src/main/java/org/springframework/context/annotation/ConfigurationClassPostProcessor.java:421-453 | One definition fails if its class cannot be loaded, or if it is a full configuration class not held in an AbstractBeanDefinition. Otherwise its class is resolved and it is collected when full. |
| ConfigurationClasses.ConfigurationClassPostProcessor.EnhanceAllDefinitions | spring-context/src/main/java/org/springframework/context/annotation/ConfigurationClassPostProcessor.java:461-480 | The second loop enhances each collected class in turn. |
| ConfigurationClasses.ConfigurationClassPostProcessor.EnhanceDefinition | spring-context/src/main/java/org/springframework/context/annotation/ConfigurationClassPostProcessor.java:463-479 | One class gets the preserve-target-class mark. Its class is replaced by the enhanced subclass when that differs. |
| ConfigurationClasses.AddClasses | spring-context/src/main/java/org/springframework/context/annotation/ConfigurationClassPostProcessor.java:349-351 | The parser's class set only grows, in insertion order. It gains exactly the new classes and stays duplicate-free. |
| ConfigurationClasses.ParseCandidates | spring-context/src/main/java/org/springframework/context/annotation/ConfigurationClassPostProcessor.java:349-351 | Parsing extends the known classes, keeps them distinct, and never leaves the universe of class names. |
| ConfigurationClasses.NextCandidatesContents | spring-context/src/main/java/org/springframework/context/annotation/ConfigurationClassPostProcessor.java:378-387 | A name is a next candidate if and only if it is new since the snapshot, passes the check, and its class was not parsed. |
| ConfigurationClasses.RoundProgress | spring-context/src/main/java/org/springframework/context/annotation/ConfigurationClassPostProcessor.java:369-392 | A round that finds new candidates has parsed a class never parsed before, so the do-while loop terminates. |
| ConfigurationClasses.InitialCandidatesContents | spring-context/src/main/java/org/springframework/context/annotation/ConfigurationClassPostProcessor.java:285-296 | A definition is a first candidate if and only if it is registered, unmarked and passes the check. |
| ConfigurationClasses.FirstCandidatesContents | spring-context/src/main/java/org/springframework/context/annotation/ConfigurationClassPostProcessor.java:285-310 | The first round holds exactly those candidates, sorted by order value, with ties in registration order. |
| ConfigurationClasses.ExpandLoadsOnce | spring-context/src/main/java/org/springframework/context/annotation/ConfigurationClassPostProcessor.java:339-392 | Each configuration class is loaded once. The parsed classes stay distinct, and the final registry is the start registry plus the definitions of each newly parsed class, in parse order. |
| ConfigurationClasses.ExpandFixpoint | spring-context/src/main/java/org/springframework/context/annotation/ConfigurationClassPostProcessor.java:369-392 | When the loop stops, every definition added after the last snapshot that passes the candidate check has its class parsed already. |
| ConfigurationClasses.ExpandStartsWithFirstRound | spring-context/src/main/java/org/springframework/context/annotation/ConfigurationClassPostProcessor.java:341-349 | The classes of the first round come first among the parsed classes. |
| ConfigurationClasses.NoNewNames | spring-context/src/main/java/org/springframework/context/annotation/ConfigurationClassPostProcessor.java:369 | If no name was added, there is no next candidate, which is why the source's count test suffices. |
| ConfigurationClasses.ProcessOutcome | spring-context/src/main/java/org/springframework/context/annotation/ConfigurationClassPostProcessor.java:279-406 | With no first candidate nothing is processed and the registry is unchanged. Otherwise the registry only gains names, and the import registry holds distinct classes that start with the first round's. The registry is the old one plus the definitions of exactly those classes, in order. |
| ConfigurationClasses.ScanError | spring-context/src/main/java/org/springframework/context/annotation/ConfigurationClassPostProcessor.java:420-454 | The first pass reports the failure of the first definition that fails, in registration order. |
| ConfigurationClasses.FirstFailureFirst | spring-context/src/main/java/org/springframework/context/annotation/ConfigurationClassPostProcessor.java:420-454 | There is a failure if and only if some definition fails the check. It is that of the first such definition. |
| ConfigurationClasses.ScanPass | spring-context/src/main/java/org/springframework/context/annotation/ConfigurationClassPostProcessor.java:420-454 | A successful first pass resolves every configuration definition's class. It collects exactly the full configuration classes, each once. |
| ConfigurationClasses.ScanKeeps | spring-context/src/main/java/org/springframework/context/annotation/ConfigurationClassPostProcessor.java:427-440 | The first pass only resolves classes. It touches no name it has not reached. |
| ConfigurationClasses.ScanStops | spring-context/src/main/java/org/springframework/context/annotation/ConfigurationClassPostProcessor.java:435-444 | After the first failure, the first pass changes nothing more. |
| ConfigurationClasses.EnhanceAllEffect | spring-context/src/main/java/org/springframework/context/annotation/ConfigurationClassPostProcessor.java:461-480 | The second pass enhances exactly the collected names and leaves every other definition as it was. |
| ConfigurationClasses.EnhanceEffect | spring-context/src/main/java/org/springframework/context/annotation/ConfigurationClassPostProcessor.java:417-481 | Enhancement succeeds if and only if no definition fails the check. Then every full configuration class has its class resolved, gets the preserve mark, and gets the enhanced class. Every other definition at most gets its class resolved. |
| ConfigurationClasses.EnhanceFailure | spring-context/src/main/java/org/springframework/context/annotation/ConfigurationClassPostProcessor.java:420-454 | A failed enhancement reports the first failing definition, with none failing before it. No class is enhanced, and definitions are at most resolved. |
| AopProxy.CreateAopProxy | spring-aop/src/main/java/org/springframework/aop/framework/DefaultAopProxyFactory.java:55-72 | It fails if and only if a class proxy is preferred and the target class is unknown. It gives a CGLIB proxy if and only if a class proxy is preferred and the target class is known, not an interface and not a JDK proxy class. Any proxy wraps the given configuration. |
| AopProxy.InterfacesWithoutFlagsGiveJdk | spring-aop/src/main/java/org/springframework/aop/framework/DefaultAopProxyFactory.java:58-71 | With user interfaces and neither flag, the result is a JDK proxy, even for an unknown target class. |
| AopProxy.MarkerInterfaceCountsAsNone | spring-aop/src/main/java/org/springframework/aop/framework/DefaultAopProxyFactory.java:80-83 | Naming only the SpringProxy marker gives the same decision as naming no interface. |
| AopProxy.InterfaceTargetGivesJdk | spring-aop/src/main/java/org/springframework/aop/framework/DefaultAopProxyFactory.java:64-66 | An interface or a JDK proxy class as target always gets a JDK proxy. |
| AdvisorRetrieval.AdvisorRetrievalHelper.constructor | spring-aop/src/main/java/org/springframework/aop/framework/autoproxy/BeanFactoryAdvisorRetrievalHelper.java:56-59 | A new helper has no cached names. |
| AdvisorRetrieval.AdvisorRetrievalHelper.WithDefaultEligibility | spring-aop/src/main/java/org/springframework/aop/framework/autoproxy/BeanFactoryAdvisorRetrievalHelper.java:56-59 | The helper as created by the framework uses the default eligibility and has no cached names. |
| AdvisorRetrieval.AdvisorRetrievalHelper.FindAdvisorBeans | spring-aop/src/main/java/org/springframework/aop/framework/autoproxy/BeanFactoryAdvisorRetrievalHelper.java:69-122 | The first call caches the factory's advisor bean names, and later calls reuse the cache unchanged. The result is the retrieval over the cached names. |
| AdvisorRetrieval.AdvisorRetrievalHelper.AdvisorBeanNames | spring-aop/src/main/java/org/springframework/aop/framework/autoproxy/BeanFactoryAdvisorRetrievalHelper.java:73-82 | The names are looked up only while nothing is cached. Once cached, they are reused even if the factory has changed. |
| AdvisorRetrieval.AdvisorRetrievalHelper.RetrieveAdvisors | spring-aop/src/main/java/org/springframework/aop/framework/autoproxy/BeanFactoryAdvisorRetrievalHelper.java:84-121 | The loop computes Retrieve over the names. With no names it returns an empty list, and it stops at the first fatal failure. |
| AdvisorRetrieval.AdvisorRetrievalHelper.FetchAdvisor | spring-aop/src/main/java/org/springframework/aop/framework/autoproxy/BeanFactoryAdvisorRetrievalHelper.java:91-117 | One name is skipped, gives its advisor, has its failure ignored, or fails, exactly as RetrieveStep says. |
| AdvisorRetrieval.KeptAdvisorsSound | spring-aop/src/main/java/org/springframework/aop/framework/autoproxy/BeanFactoryAdvisorRetrievalHelper.java:89-120 | There are never more advisors than names. Each advisor is the bean of an eligible name not in creation. |
| AdvisorRetrieval.RetrieveSuccess | spring-aop/src/main/java/org/springframework/aop/framework/autoproxy/BeanFactoryAdvisorRetrievalHelper.java:89-121 | Retrieval succeeds if and only if no name has a fatal failure. Its result is then the advisors of the kept names, in name order. |
| AdvisorRetrieval.RetrieveFailure | spring-aop/src/main/java/org/springframework/aop/framework/autoproxy/BeanFactoryAdvisorRetrievalHelper.java:101-116 | A failed retrieval rethrows the error of the first fatal name. |
| AdvisorRetrieval.RetrieveSkipsUnfetched | spring-aop/src/main/java/org/springframework/aop/framework/autoproxy/BeanFactoryAdvisorRetrievalHelper.java:91-96 | Ineligible beans and beans in creation are never fetched: getBean's answer for them does not matter. |
| AdvisorRetrieval.DefaultFindsAll | spring-aop/src/main/java/org/springframework/aop/framework/autoproxy/BeanFactoryAdvisorRetrievalHelper.java:89-132 | With the default isEligibleBean, which accepts every name, nothing in creation and every fetch succeeding, each name gives its advisor, in order. |
| AdvisorRetrieval.RetrieveStops | spring-aop/src/main/java/org/springframework/aop/framework/autoproxy/BeanFactoryAdvisorRetrievalHelper.java:116 | Once retrieval has failed, later names change nothing: the exception leaves the loop. |

## Left out

- The bean factory's own code is not part of this model: registerBeanDefinition, getBeanNamesForType, addBeanPostProcessor and getBean. How the model treats each:
  - registerBeanDefinition appends a new name and overwrites an existing name in place.
  - getBeanNamesForType filters the definition names in registration order.
  - addBeanPostProcessor removes the processor and then appends it.
  - Processors added by hand before registration, such as ApplicationContextAwareProcessor, are `OtherProcessor` entries.
  - getBean is a given function.
- The dependency comparator is not modelled. Sorting uses OrderComparator, as a (PriorityOrdered group, order value) key.
- The post-processors' own callbacks are not modelled:
  - Registry callbacks are given as the registrations each one makes.
  - Factory callbacks are only recorded in the callback log.
- beanFactory.clearMetadataCache and the parser's and reader's caches are left out, because they affect no modelled state.
- checkConfigurationClassCandidate is a given predicate, `ConfigSource.isCandidate`. The attribute it sets on a definition is not modelled.
- Configuration class parsing, component scanning and @Import handling are left out. The classes a parse reaches and the definitions the reader derives are given functions. The import registry is modelled as the list of parsed classes.
- The processing start-up code is left out: the bean-name generator lookup, the environment default, and the parser construction. They only configure collaborators that are given here. The lazily created reader is different: see the next line.
- ConfigurationClasses.ConfigurationClassPostProcessor.ProcessConfigBeanDefinitions: the factory is always treated as a singleton registry. The model loads the derived definitions into the registry being processed. The source creates its reader once per post-processor instance, bound to the first registry it processes, and reuses it later. The model therefore matches the source only for the first registry an instance processes, through PostProcessBeanDefinitionRegistry or PostProcessBeanFactory. For a later, different registry, the source loads the definitions into the first registry instead.
- Identity hash codes are modelled as the factory's integer `id`, so two distinct factories never collide.
- The info log about a configuration singleton created too early, the trace and debug logs, and the checker's log message are not modelled. The checker records only whether it would log.
- ImportAwareBeanPostProcessor's own callbacks are not modelled. Only its addition to the interceptor list is.
- The enhancer is a given function from class name to the name of the enhanced class.
- Class loading is a given predicate. A class that cannot be loaded gives the failure the source throws.
- The parent factories of getBeanNamesForType are left out. Only the factory's own names are considered.
- BeanFactoryAdvisorRetrievalHelper's volatile cache and its thread safety are left out: the model is sequential. The logger calls are left out as well.
- The checker is identified by its target count. Interceptor identity in addBeanPostProcessor is equality of values, so two checkers with equal counts are one entry. Likewise ImportAwareProcessor is a single value: when two configuration post-processors run on one factory, the source adds two distinct ImportAwareBeanPostProcessor objects, but the model keeps one entry, moved to the end.
- The registry waves need not run PriorityOrdered post-processors before Ordered ones overall. Only the first two waves are restricted by tier. A PriorityOrdered post-processor registered by an earlier wave runs in a later wave, sorted only among that wave. The model follows the code here, not a stricter reading of the ordering guarantee.
- ConfigurationClasses.EnhanceEffect: "with no full configuration class nothing changes" holds only up to class resolution. The first pass resolves the classes of lite configuration classes and @Bean definitions even when no full class is found, as the source does.
- PostProcessorDelegate.RunRemainingWaves: the reiterate loop terminates only because each registry callback's registrations are fixed per bean name, so only finitely many names can ever appear. The source loops forever when every wave registers a freshly named registry post-processor. The same holds for RunLaterWave, RunRegistryWaves, InvokeRegistryPhase, InvokeOnRegistry and InvokeBeanFactoryPostProcessors.

# Multicluster observability addon: a verified model

The addon collects metrics from a fleet of clusters. A hub reconciles PrometheusAgents and
attaches configuration to the placements of a ClusterManagementAddOn; a handler builds what each
managed cluster gets; a watcher finds the clusters to update when a configuration changes. This
project models the logic of those components in Dafny and proves what they promise.
`dafny verify dfyconfig.toml` checks all of it.

- **Selector compiler** (`Transpiler*.dfy` over `Relabel.dfy`, `Regex.dfy`, `Text.dfy`,
  `Sorting.dfy`): federation selectors are compiled into a relabel program with temporary labels.
  The source semantics is matchers over a label map; the target semantics is an interpreter written
  from `<relabel_config>` of the Prometheus configuration documentation. The program is proved to
  decide like the selectors.
- **Reference cache** (`ReferenceCache.dfy`, `CacheConcurrency.dfy`, `Watcher.dfy`): the class with
  its two maps, a step system whose atomic steps are the lock regions, and linearizability of every
  interleaving; on top of it, which cluster an event reaches.
- **Hub reconcile loop** (`Placements.dfy`, `AddonConfigs.dfy`, `PlacementDefaults.dfy`,
  `HubReconcile.dfy`, `Migration.dfy`, `Convergence.dfy`, `PassConditions.dfy`, `PassFailures.dfy`,
  `PassEffects.dfy`): one pass as an imperative class over the state of the hub, convergence and safety
  over sequences of passes, and what they leave in terms of the objects there were.
- **Agent specs and routing** (`RemoteWrites.dfy`, `AgentSpec.dfy`, `AgentDrift.dfy`, `AgentBuild.dfy`,
  `Routing.dfy`, `RoutingProperties.dfy`, `RemoteWriteNames.dfy`, `SecretFlow.dfy`): the in-place
  rewriting of agent fields, secrets and raw scrape configs, and that everything a cluster gets finds
  the right secrets.
- **Hosted clusters** (`HostedClusters.dfy`): the identity labels of a hosted cluster's series
  through the same relabel interpreter.
- **Manifest order** (`ManifestOrder.dfy`): the comparator and stable sort of the output.

Methods take the form of the code: loops that append, classes whose fields are reassigned, arrays
and objects changed in place. Each is proved equal to a specification function, and the lemmas are
about those functions.

## Where the code does less than it says

- Behind other text `^` cannot match, and before other text `$` cannot. The expressions of several
  positive matchers are joined with `;` in sorted order, so a `^` in any but the first or a `$` in any
  but the last makes the selector collect nothing (`AnchoredSurvivesIff`, with `AnchoredSampleLost` and
  `LateBeginLost`). A negative expression stands behind `keep;`, so one with `^` never rejects anything
  (`AnchoredRejectsIff`, `AnchoredNegativeKeeps`).
- A selector whose only positive matcher is `n=""` gives its marking rule an empty regex field, which
  is an absent one: it accepts every value, and the program keeps samples that have the label
  (`LoneEmptyRightIff`, `LoneEmptyKeeps`).
- A `;` in a label value can make a program keep a sample that its selector rejects
  (`SeparatorConfuses`); `DecidedRightIff` characterizes the samples that every program decides right
  and `SelectorDecidedRightIff` the selectors that decide every sample right; for equality matchers
  these are the ones without `;` in a value (`EqualitiesDecidedRightIff`).
- internal/metrics/handlers/handler.go:572 says that nothing is done to a series of the cluster
  itself; the helper label `__tmp_is_not_hcp` stays on exactly those series (`HelperLeaksIff`).
- A dot in a cluster id is read as "any character", so a hosted id may match the hub's id without
  being equal to it (`HostedIdentity`, `DottedHostedIdentity`).
- The migration of placement labels looks for the text of the reference in the annotation
  (internal/metrics/resource/resource.go:323). If that is part of another entry, the labels go and
  the placement is lost (`LabelledTargetedIff`, `LabelLost`).
- An agent that targets the sentinel placement keeps the addon from ever covering a global placement
  that appears later (`GlobalCoveredAfterIff`, `GlobalNeverCovered`).
- With placements named global in two namespaces, the order of the placement list decides which one
  gets the default agent (`DecisionOrderIff`).
- internal/metrics/resource/resource.go:367 compares lists by prefix, so a CA configmap at the end of
  the list of an enforced agent is not removed (`CaConfigMapRemovedIff`, `TrailingCaConfigMapStays`),
  nor are settings on the addon's scrape classes (`ClassesScrubbedIff`, `ClassCredentialsStay`) or
  duplicates of its remote write (`DuplicatesStayIff`, `AppendedDuplicateStays`), against
  internal/metrics/resource/agentssa.go:196 and 245-248.
- internal/metrics/handlers/handler.go:890-892 wants remote-write names to be unique. `ListedNamesIff`
  says when they are for given scrape configs. They are for all scrape configs that name the stack
  once exactly if no stem of the agent's own remote writes is a prefix of another's (`StackNamesIff`);
  two remote writes without a name break it, and so does an annotation that names a stack twice.
- The cache loses a reference exactly when a call gives up a config that another work of its
  namespace references at that moment (`RunExactIff`, `SharedConfigLost`), as
  internal/controllers/watcher/cache.go:13-16 documents.
- One pass of the hub is not enough exactly when a placement lists an orphan
  (`SecondPassNeededIff`, `OnePassNotEnough`); two always are
  (`ConvergesAlways`).
- A pass that fails fails for good (`FailedPassStays`); `PassFailsIff` says when. An orphan can be what
  makes it fail, since orphans are deleted last (`MovedGlobalStuck`).

## Model

| member | source | states |
|---|---|---|
| Transpiler.Transpile | internal/metrics/remotewrite/transpiler.go:18-217 | the produced remote-write specs are those of the functional compiler `TranspileSpec`, whose meaning the lemmas below establish; the first parse error is the result, and no non-empty selector means no spec |
| Transpiler.ParseSelectors | internal/metrics/remotewrite/transpiler.go:28-41 | the non-empty selectors in order, or the first parse error, whatever comes after it |
| Transpiler.EmitProgram | internal/metrics/remotewrite/transpiler.go:45-154 | the rule-emitting loops produce the program `Compile` for every list of selectors |
| Transpiler.EmitSelector | internal/metrics/remotewrite/transpiler.go:46-120 | one selector becomes its marking rule followed by one clearing rule for each negative matcher in written order |
| Transpiler.FanOut | internal/metrics/remotewrite/transpiler.go:168-214 | one spec for each remote write of the agent, in order, each with the whole program |
| TranspilerDecision.ProgramDecision | internal/metrics/remotewrite/transpiler.go:43-154 | simulation, for all label values and regular expressions: the interpreted program keeps a sample with exactly its labels if some selector fires and drops it otherwise |
| TranspilerDecision.RunSelector | internal/metrics/remotewrite/transpiler.go:83-119 | the rules of selector `i` set its temporary label exactly if its marking rule accepts, by the joined positive matchers or by an empty regex field, and no clearing rule hits |
| TranspilerDecision.RunAllSelectors | internal/metrics/remotewrite/transpiler.go:45-120 | the blocks of all selectors do not disturb each other: afterwards each temporary label holds the decision of its own selector |
| TranspilerDecision.CombineIsOr | internal/metrics/remotewrite/transpiler.go:129-141 | `.*keep.*` on the `;`-joined flags is their disjunction |
| TranspilerDecision.ApplyCombine | internal/metrics/remotewrite/transpiler.go:129-141 | the combining rule raises the global flag exactly if some selector fires |
| TranspilerDecision.CleanupDrops | internal/metrics/remotewrite/transpiler.go:150-154 | the last rule removes exactly the labels whose name starts with `__tmp_keep` |
| TranspilerDecision.OutputHasNoTemp | internal/metrics/remotewrite/transpiler.go:150-154 | whatever a sample carries on entry, nothing leaves the program with a temporary label |
| TranspilerDecision.TmpLabelInjective | internal/metrics/remotewrite/transpiler.go:84-84 | distinct selectors never share a temporary label |
| TranspilerCorrectness.CompilerInPlace | internal/metrics/remotewrite/transpiler.go:43-154 | what the program decides for any expressions, anchors included: the selectors with `^` impossible behind other text, `$` impossible before it, and a lone positive `n=""` read as nothing; needs only that no `;` confuses the cut |
| TranspilerCorrectness.CompilerCorrect | internal/metrics/remotewrite/transpiler.go:43-154 | the compiled program equals filtering by the selectors, same decision and same labels, when no selector has `n=""` as its only positive matcher, no anchor is misplaced (in the sorted order only the first positive matcher uses `^` and only the last `$`; no negative one uses `^`) and, for several positive matchers, no `;` confuses the cut |
| TranspilerCorrectness.NoLoss | internal/metrics/remotewrite/transpiler.go:83-154 | a sample that some selector matches survives unchanged, whatever its label values contain, unless an anchor is misplaced |
| TranspilerCorrectness.TranspileFilters | internal/metrics/remotewrite/transpiler.go:18-216 | if every `match[]` entry parses and some has matchers, every produced spec keeps a sample exactly if some entry with matchers matches it and then applies the scrape config's own rules; one spec per remote write, whose other settings are copied |
| TranspilerCorrectness.TranspileNoLoss | internal/metrics/remotewrite/transpiler.go:18-216 | in every produced spec a sample that some entry with matchers matches reaches the scrape config's own rules as it came in, without any assumption on `;` |
| TranspilerCorrectness.TranspileEmptyIff | internal/metrics/remotewrite/transpiler.go:18-41 | nothing is produced exactly if there is no scrape config, no `match[]`, or only entries that parse to no matcher |
| TranspilerCorrectness.TranspileFailsIff | internal/metrics/remotewrite/transpiler.go:28-34 | transpiling fails exactly if some entry does not parse, with the error of the first of these |
| TranspilerCorrectness.ParsedAre | internal/metrics/remotewrite/transpiler.go:28-37 | if all entries parse, the selectors are exactly the entries with matchers |
| TranspilerCorrectness.ParsedInOrder | internal/metrics/remotewrite/transpiler.go:28-37 | and they keep their order: two lists of entries together parse to the selectors of the first and then those of the second |
| TranspilerCorrectness.ParseFailsIff | internal/metrics/remotewrite/transpiler.go:28-34 | parsing fails exactly if some entry does, with the error of the first |
| TranspilerCorrectness.EmptyFieldIff | internal/metrics/remotewrite/transpiler.go:57-98 | the regex field of a marking rule is left empty exactly without positive matchers or with `n=""` as the only one |
| TranspilerCorrectness.MarksExactly | internal/metrics/remotewrite/transpiler.go:83-92 | the marked samples, for any selector and values: all in those two cases, and otherwise those whose joined values can be cut into pieces that the expressions accept in their places |
| TranspilerCorrectness.MarksSound | internal/metrics/remotewrite/transpiler.go:83-92 | a marked sample satisfies every positive matcher, by unique splitting of the joined values, unless `n=""` is the only one |
| TranspilerCorrectness.ClearsIff | internal/metrics/remotewrite/transpiler.go:101-119 | what a clearing rule hits, for any expression: the samples the expression matches with `^` impossible |
| TranspilerCorrectness.MarksComplete | internal/metrics/remotewrite/transpiler.go:83-92 | a sample that satisfies every positive matcher is marked, unless an anchor is misplaced |
| TranspilerLimits.SeparatorConfuses | internal/metrics/remotewrite/transpiler.go:76-92 | for every sample with a `;` in some label value there is a selector that rejects the sample while its program keeps it |
| TranspilerLimits.LoneEmptyRightIff | internal/metrics/remotewrite/transpiler.go:57-92 | if `n=""` is the only positive matcher, a sample is decided right exactly if it lacks the label or some negative matcher rejects it |
| TranspilerLimits.LoneEmptyKeeps | internal/metrics/remotewrite/transpiler.go:57-92 | an instance: `up{env="prod", job="x"}` is rejected by `{env="", job!=""}` and kept by its program |
| TranspilerLimits.DecidedRightIff | internal/metrics/remotewrite/transpiler.go:43-154 | a sample is decided right by every program without misplaced anchors and lone `n=""` exactly if it has no label starting with `__tmp_keep` and no label value with a `;` |
| TranspilerSelectors.SelectorDecidedRightIff | internal/metrics/remotewrite/transpiler.go:43-154 | a selector of positive matchers over distinct labels decides every sample right exactly if it is not `n=""` alone and its expressions leave no choice in cutting joined values |
| TranspilerSelectors.EqualitiesDecidedRightIff | internal/metrics/remotewrite/transpiler.go:43-154 | for two or more equality matchers that is: no compared value holds a `;` |
| TranspilerLimits.SurvivesIff | internal/metrics/remotewrite/transpiler.go:56-89 | for any expressions, a matched sample survives exactly if the positive expressions still accept its values in their places |
| TranspilerLimits.AnchoredSurvivesIff | internal/metrics/remotewrite/transpiler.go:56-89 | for expressions that are plain, start with `^`, end with `$` or both, a matched sample survives exactly if in the sorted order only the first uses `^` and only the last uses `$`; no assumption on values |
| TranspilerLimits.AnchoredRejectsIff | internal/metrics/remotewrite/transpiler.go:101-119 | a sample that only negative matchers reject is dropped exactly if one of the rejecting expressions does not use `^` |
| TranspilerLimits.ShapesClearCut | internal/metrics/remotewrite/transpiler.go:56-60 | the expression shapes covered by the two previous rows: plain, `^x`, `x$` and `^x$` |
| TranspilerLimits.AnchoredSampleLost | internal/metrics/remotewrite/transpiler.go:56-89 | a concrete loss: `up{job="x"}` is matched by `{__name__=~"^up$", job="x"}` and dropped by its program |
| TranspilerLimits.LateBeginLost | internal/metrics/remotewrite/transpiler.go:56-89 | the same for `{__name__="up", job=~"^x"}` |
| TranspilerLimits.EarlyBeginExact | internal/metrics/remotewrite/transpiler.go:56-89 | `{__name__=~"^up", job="x"}` on the other hand is decided right for all values without `;` |
| TranspilerLimits.AnchoredNegativeKeeps | internal/metrics/remotewrite/transpiler.go:101-119 | `up{job="x"}` is rejected by `{__name__="up", job!~"^x$"}` and kept by its program |
| TranspilerOrder.QuoteMetaInjective | internal/metrics/remotewrite/transpiler.go:56-60 | quoting is injective, so the sort key of a literal determines it |
| TranspilerOrder.PositivesStrict | internal/metrics/remotewrite/transpiler.go:68-74 | two positive matchers that compare as equal are the same matcher |
| TranspilerOrder.MarkRuleCanonical | internal/metrics/remotewrite/transpiler.go:68-92 | the marking rule does not depend on the order in which a selector lists its matchers |
| TranspilerOrder.ProgramIgnoresOrder | internal/metrics/remotewrite/transpiler.go:45-154 | reordering the matchers inside the selectors changes no decision of the program |
| Relabel.RunConcat | internal/metrics/remotewrite/transpiler.go:156-159 | running two programs one after the other is running their concatenation, dropped samples included |
| Text.UniqueSplit | internal/metrics/remotewrite/transpiler.go:87-91 | equally long lists with the same `;`-join are equal once one of them is free of `;` |
| Text.CompareIff | internal/controllers/addon/controller.go:144-177 | one text comes before another exactly if it is a proper prefix or has the smaller character at the first difference |
| Text.TrimSpaceIs | internal/metrics/resource/resource.go:524-527 | trimming takes away spaces at both ends and all of them |
| Regex.InContext | internal/metrics/remotewrite/transpiler.go:87-114 | a match inside a text is a match of the cut-out stretch alone, with the anchors that cannot hold there erased |
| Regex.JoinMatchIff | internal/metrics/remotewrite/transpiler.go:89-89 | what `;`-joined expressions match, for any expressions: the joins of pieces each matched by its expression in its place |
| Regex.MisplacedNeverJoins | internal/metrics/remotewrite/transpiler.go:89-89 | one expression that needs an anchor where it cannot hold keeps the whole join from ever matching |
| Regex.ContainsMatches | internal/metrics/remotewrite/transpiler.go:138-138 | `.*word.*` is accepted exactly by the texts in which the word occurs |
| ReferenceCache.Cache.Add | internal/controllers/watcher/cache.go:30-67 | both maps after the call, for every earlier state: dropped references removed, new ones entered, empty sets deleted, the unchanged case a no-op |
| ReferenceCache.Cache.Remove | internal/controllers/watcher/cache.go:69-89 | both maps after the call: every reference of the work removed, the work forgotten |
| ReferenceCache.Cache.RemoveRef | internal/controllers/watcher/cache.go:91-98 | one namespace leaves one set; the set goes when it becomes empty |
| ReferenceCache.Cache.GetNamespaces | internal/controllers/watcher/cache.go:100-111 | the result holds exactly the namespaces listed for the config, each once |
| ReferenceCache.AddLists | internal/controllers/watcher/cache.go:30-67 | whatever the cache held, after a call that changes something the namespace is listed under every new config and no longer under those only the old ones named; nothing else changes |
| ReferenceCache.RemoveUnlists | internal/controllers/watcher/cache.go:69-98 | the work is forgotten and its namespace is taken off exactly its configs |
| ReferenceCache.AddKeepsSound | internal/controllers/watcher/cache.go:50-66 | Add keeps: every listed namespace is backed by a tracked work of it that references the config, and no empty set is stored; no sharing assumption |
| ReferenceCache.RemoveKeepsSound | internal/controllers/watcher/cache.go:83-97 | the same for Remove |
| ReferenceCache.AddCompleteIff | internal/controllers/watcher/cache.go:11-17 | Add keeps every tracked reference listed exactly if no other work of the namespace references a config this work drops |
| ReferenceCache.RemoveCompleteIff | internal/controllers/watcher/cache.go:11-17 | the same for Remove: the documented loss of tracking occurs exactly if another work of the namespace shares a config |
| ReferenceCache.SharedConfigLost | internal/controllers/watcher/cache.go:83-97 | an instance: two works of a namespace share a config, one is removed, and a lookup no longer finds the namespace the other still references it from |
| ReferenceCache.SharedConfigDropped | internal/controllers/watcher/cache.go:50-57 | the same when one of them is updated to references without the config |
| ReferenceCache.LookupExact | internal/controllers/watcher/cache.go:100-111 | in a sound and complete cache a lookup lists a namespace exactly if it has a work that references the config |
| ReferenceCache.MWKeyInjective | internal/controllers/watcher/cache.go:31-31 | distinct works have distinct keys because namespaces hold no slash |
| CacheConcurrency.NextKeepsInvariant | internal/controllers/watcher/cache.go:30-111 | every atomic step (a lock region or the start of a call) keeps: soundness, agreement of the second map with the abstract map, and each finished call logged once |
| CacheConcurrency.RunSafe | internal/controllers/watcher/cache.go:30-98 | in every state of every interleaving the cache is sound and represents the works entered by finished calls, shared configs or not |
| CacheConcurrency.NextCompleteIff | internal/controllers/watcher/cache.go:30-111 | an atomic step keeps the cache complete exactly if the call it completes gives up no config that another work of its namespace references at that moment |
| CacheConcurrency.RunExactIff | internal/controllers/watcher/cache.go:11-17 | for every interleaving, the cache is complete in all states up to now exactly if no call took effect that gave up such a config |
| CacheConcurrency.LookupsRightIff | internal/controllers/watcher/cache.go:11-17 | the same for what callers see: every lookup in every state would be right exactly then |
| CacheConcurrency.ShareFreeLossless | internal/controllers/watcher/cache.go:13-16 | the documented assumption, taken at each moment, implies that condition; configs may move between works |
| CacheConcurrency.RunExact | internal/controllers/watcher/cache.go:30-111 | under that condition every lookup of the run is answered like the sequential specification |
| CacheConcurrency.Linearizable | internal/controllers/watcher/cache.go:30-111 | every such run has a sequential order of its finished calls on a plain map from works to configs, with the answers they returned, that respects the order of calls that do not overlap; the early return and the rechecked write region are the points of effect |
| CacheConcurrency.RealTimeOrder | internal/controllers/watcher/cache.go:33-48 | a call that returned before another started comes first in that order |
| CacheConcurrency.LookupAnswers | internal/controllers/watcher/cache.go:100-111 | in represented, sound and complete states a lookup is exactly the set of namespaces having a work that references the config |
| Watcher.Reconciler.UpdateCache | internal/controllers/watcher/controller.go:121-161 | the work is cached with exactly the keys its readable manifests contribute |
| Watcher.Reconciler.EnqueueForConfigResource | internal/controllers/watcher/controller.go:206-229 | one request for the addon in each referencing namespace, none elsewhere, none twice |
| Watcher.KeysDistinct | internal/controllers/watcher/controller.go:84-95 | distinct slash-free resources never share a cache key |
| Watcher.AnnotationRoundTripIff | internal/metrics/handlers/handler.go:463-466 | the annotation written on a copy leads back to the key of its source exactly if namespace and name are non-empty and slash-free |
| Watcher.ContributesIff | internal/controllers/watcher/controller.go:121-160 | a manifest contributes a key exactly if it is a Secret or ConfigMap of the core group whose annotation is two non-empty texts with one slash between them |
| Watcher.KeyNamesSource | internal/controllers/watcher/controller.go:133-157 | a manifest that contributes the key of a resource is a copy of that very resource |
| Watcher.CachedWorkIsReached | internal/controllers/watcher/controller.go:121-161 | once a work that copies a source is cached, an event on the source reaches the work's namespace |
| Watcher.EventReachesExactly | internal/controllers/watcher/controller.go:206-229 | after any concurrent run an event on a source reaches exactly the namespaces of the works that copy it |
| HubReconcile.Reconciler.Reconcile | internal/controllers/resourcecreator/controller.go:108-175 | the whole new state of the hub and the outcome of a pass, error exits included, equal the pass function |
| HubReconcile.Reconciler.ReconcileMetrics | internal/metrics/resource/resource.go:47-105 | migration, then each enabled collector, then rules; the first error ends the pass and keeps what was done before it |
| HubReconcile.Reconciler.CreateDefaultAgent | internal/metrics/resource/resource.go:394-468 | creates the missing default agent or none; an existing agent with the name makes it fail without a change |
| HubReconcile.Reconciler.SurveyAgents | internal/metrics/resource/resource.go:415-428 | the early-returning loop finds an anchor exactly if there is one, and otherwise knows whether global is referenced |
| HubReconcile.Reconciler.ProcessAgents | internal/metrics/resource/resource.go:350-391 | agents before an error are processed, the failing one and the rest are as the error left them, configs are in order |
| HubReconcile.Reconciler.ReconcileScrapeConfigs | internal/metrics/resource/resource.go:107-202 | the defaults for the scrape configs of a collector, or the first error; DefaultsHasIff and ScrapeWantsIff say which these are |
| HubReconcile.Reconciler.GetPrometheusRules | internal/metrics/resource/resource.go:204-276 | the same for the rules of the enabled collectors |
| PlacementDefaults.FindMcoUID | internal/metrics/resource/resource.go:52-58 | the loop returns the uid of the first controller |
| PlacementDefaults.McoUIDControls | internal/metrics/resource/resource.go:52-58 | a non-empty uid is that one exactly if some owner with it is a controller and none before is |
| PlacementDefaults.Separate | internal/metrics/resource/resource.go:143-178 | the loop over the listed objects separates the controller's from the users' and skips the others |
| PlacementDefaults.GenerateConfigsForAllPlacements | internal/metrics/resource/resource.go:495-517 | every placement paired with the config of every object, or the first object without one |
| PlacementDefaults.CollectDefaults | internal/metrics/resource/resource.go:179-201 | the controller's objects for all placements, then each user's for those in its annotation, errors included |
| PlacementDefaults.ConfigNamesObject | internal/addon/common/clustermanagementaddon.go:170-200 | the config of an object has its group, namespace and name and the resource of its kind; other kinds have none |
| PlacementDefaults.DefaultsHasIff | internal/metrics/resource/resource.go:107-276 | a config is wanted at a placement exactly if some listed object with a component label of the collector yields it and the object is the controller's, for any placement, or is a user's with the part-of label and names the placement |
| PlacementDefaults.DefaultsFailIff | internal/metrics/resource/resource.go:107-276 | collecting fails exactly if such an object is of no attachable kind, or is a user's and its annotation is malformed |
| HubReconcile.Reconciler.MigrateAgentPlacementLabels | internal/metrics/resource/resource.go:279-330 | every managed agent is migrated in place, no other is touched |
| HubReconcile.Reconciler.DeleteOrphanResources | internal/addon/common/cleanup_resources.go:25-69 | the remaining agents are those that are no orphans, in order |
| Convergence.MigrationSettles | internal/metrics/resource/resource.go:306-330 | migration keeps the existing annotation text as a prefix, changes neither name nor owners nor spec, and happens once |
| Migration.MigratedTargets | internal/metrics/resource/resource.go:306-330 | a migrated agent loses both labels and keeps all else but its annotation; it targets what it targeted before, and the labelled placement unless the text of that is a part of the annotation |
| Migration.LabelledTargetedIff | internal/metrics/resource/resource.go:320-325 | the labelled placement is targeted afterwards exactly if it was before or its text is no part of the annotation |
| Migration.LabelLost | internal/metrics/resource/resource.go:320-325 | an instance: an agent labelled `set`, `eu` and annotated `set/eu-west` no longer names `set/eu` anywhere |
| Migration.EntriesAppend | internal/metrics/resource/resource.go:320-325 | appending a reference with a comma appends it to the entries that are read back |
| Convergence.DecisionIgnoresOrder | internal/metrics/resource/resource.go:415-443 | whether and which default agent is created depends on the set of recognized agents, not on their order; the order of placements is the subject of DecisionOrderIff |
| Convergence.CreatedHasAnchor | internal/metrics/resource/resource.go:394-468 | after a successful call an anchor exists |
| PassEffects.NothingMissingIff | internal/metrics/resource/resource.go:394-428 | no default agent is needed exactly if an agent of the collector targets the sentinel, or the one with the default name targets the global placement |
| PassEffects.MissingIs | internal/metrics/resource/resource.go:429-460 | the missing agent: its name, labels, owner, default spec and annotation, for the global placement if there is one that no agent of the collector targets, and for the sentinel otherwise |
| PassConditions.DecisionOrderIff | internal/metrics/resource/resource.go:404-443 | neither the order of the agents nor that of the placements matters for the decision exactly if all placements named global are in one namespace |
| PassConditions.GlobalCoveredIff | internal/metrics/resource/resource.go:415-443 | a collector's reconciliation leaves the global placement targeted exactly if it was before or no agent targeted the sentinel |
| PassConditions.GlobalCoveredAfterIff | internal/metrics/resource/resource.go:415-443 | over any number of passes, some agent targets the global placement exactly if one did at the start or none targeted the sentinel then |
| PassConditions.GlobalNeverCovered | internal/metrics/resource/resource.go:419-421 | an instance: a hub with the sentinel's default agent and a later global placement, which no number of passes covers |
| Convergence.AnchorIsNoOrphan | internal/addon/common/cleanup_resources.go:41-99 | orphan deletion never removes an anchor |
| Convergence.AnchorSafety | internal/controllers/resourcecreator/controller.go:144-175 | after every successful pass each enabled collector has an anchor, the deletion of orphans in that pass included |
| PassEffects.ScopeIff | internal/metrics/resource/resource.go:340-355 | the agents of a collector: its component label, and either controlled by the addon or labelled as part of it |
| PassEffects.ProcessedEnforces | internal/metrics/resource/resource.go:350-371 | after a run without errors every agent of the collector has the enforced spec, as it was if that is the one it had and otherwise with the addon as its controller and the backup label; every other agent is as it was |
| PassEffects.AgentFailsIff | internal/metrics/resource/resource.go:350-378 | an agent makes the run fail exactly if it is in scope and its annotation is malformed, or its spec needs enforcing while somebody else controls it |
| PassEffects.ProcessedStopsAt | internal/metrics/resource/resource.go:350-391 | a run over the agents handles them in order and stops at the first that fails, which is enforced if only its annotation is malformed; those behind it are as they were |
| PassEffects.MalformedStillEnforces | internal/metrics/resource/resource.go:64-78 | a malformed scrape config makes the pass fail, but not before the agents of its collector are enforced |
| PassEffects.FailedPassMigrates | internal/controllers/resourcecreator/controller.go:144-155 | the placement labels of all managed agents are migrated even if the pass fails |
| PassEffects.FailedPassDeletesNothing | internal/controllers/resourcecreator/controller.go:144-175 | a failed pass leaves the placements as they were and every agent under its name; what is new are default agents |
| PassEffects.PassEnforces | internal/controllers/resourcecreator/controller.go:108-175 | after a successful pass the spec of every agent of an enabled collector is the enforced one of the agent with its name before the pass, or of the default agent |
| PassEffects.EnforcedCarries | internal/metrics/resource/resource.go:357-371 | an enforced spec, applied or found good enough, mounts both mTLS secrets, has the remote write to the hub with the files of these, runs the proxy and has the fixed settings; the user's secrets, remote writes and free settings are still there in order |
| PassEffects.PassCarries | internal/controllers/resourcecreator/controller.go:108-175 | so every agent of an enabled collector does after a successful pass |
| PassEffects.ScrapeWantsIff | internal/metrics/resource/resource.go:107-202 | what the scrape configs of a collector want, from the objects: component label, ownership, part-of label and annotation written out |
| PassEffects.RuleWantsIff | internal/metrics/resource/resource.go:204-276 | the same for the rules of the enabled collectors |
| PassEffects.ScrapeFailsIff | internal/metrics/resource/resource.go:107-202 | a scrape config makes the pass fail exactly if it is the collector's and malformed |
| PassEffects.RulesFailIff | internal/metrics/resource/resource.go:204-276 | the same for rules |
| PassEffects.PassAttaches | internal/controllers/resourcecreator/controller.go:108-175 | after a successful pass a placement lists exactly the configs that an agent, a scrape config or a rule on the hub asks for there, and those it listed before whose object was still there; earlier entries stay in front |
| PassEffects.AttachedFinally | internal/controllers/resourcecreator/controller.go:108-175 | after two or more passes it lists exactly what is asked for and those of its first entries whose object exists |
| PassEffects.RequestedExists | internal/addon/common/clustermanagementaddon.go:152-168 | what something on the hub asks for passes the existence check |
| Convergence.FirstPass | internal/controllers/resourcecreator/controller.go:108-175 | one successful pass makes the agents final: a further pass would create, change and delete none |
| Convergence.SecondPass | internal/controllers/resourcecreator/controller.go:108-175 | the second pass succeeds, touches no agent, and only takes off the placements what the first pass deleted |
| Convergence.Convergence | internal/controllers/resourcecreator/controller.go:108-175 | if one pass succeeds, the state after two passes is a fixpoint and later passes succeed |
| PassFailures.FailedPassStays | internal/controllers/resourcecreator/controller.go:108-175 | a failed pass never recovers: the next one fails, too, and changes nothing |
| PassFailures.ConvergesAlways | internal/controllers/resourcecreator/controller.go:108-175 | every hub: after two passes nothing changes any more, and all passes end like the first one |
| PassFailures.StaysAlways | internal/controllers/resourcecreator/controller.go:108-175 | the same for every number of passes |
| PassFailures.PassFailsIff | internal/controllers/resourcecreator/controller.go:108-175 | told from the hub before it, a pass fails exactly if an enabled collector lacks the endpoint, has its default name taken, has an agent that cannot be applied or parsed or a scrape config that cannot be converted, or a rule cannot be |
| PassFailures.MovedGlobalStuck | internal/metrics/resource/resource.go:454-456 | an instance: the global placement moved to another namespace, its old default agent has the name of the new one, and every pass fails before it could delete the old one as an orphan |
| Convergence.StaysConverged | internal/controllers/resourcecreator/controller.go:108-175 | the same for every number of passes |
| PassConditions.SecondPassNeededIff | internal/controllers/resourcecreator/controller.go:158-172 | told from the hub before the pass: a second pass changes something exactly if some placement lists an agent of the addon that, after migration, names neither the sentinel nor an existing placement |
| PassConditions.OnePassNotEnough | internal/controllers/resourcecreator/controller.go:158-172 | an instance of such a hub |
| Convergence.OrphanIffParsed | internal/addon/common/cleanup_resources.go:41-69 | an agent whose annotation parses is deleted exactly if it is the addon's and none of its parsed references is the sentinel or an existing placement |
| Placements.GeneratePlacementRefs | internal/metrics/resource/resource.go:519-544 | the loop returns the parsed references, or the first malformed entry |
| Placements.HasExistingPlacementRef | internal/addon/common/cleanup_resources.go:74-91 | the early-returning loop decides whether some entry is kept alive |
| Placements.RefsAre | internal/metrics/resource/resource.go:519-544 | the parsed list holds exactly the named references, each well-formed and each once |
| Placements.ParseRefIff | internal/metrics/resource/resource.go:528-537 | an entry is a reference exactly if it is a non-empty text without slash, a slash and a non-empty text |
| Placements.TargetsWritten | internal/metrics/resource/resource.go:481-493 | an annotation targets a placement exactly if some part of it between commas is the text of the reference with any spaces around it |
| Placements.RefsOkIff | internal/metrics/resource/resource.go:519-544 | parsing succeeds exactly if every non-blank entry is well-formed |
| Placements.RefsOrder | internal/metrics/resource/resource.go:519-544 | first-occurrence order: the references of earlier entries form a prefix |
| Placements.TargetsIffParsed | internal/metrics/resource/resource.go:481-493 | the second reader agrees: an agent targets a placement exactly if it is in the parsed list |
| Placements.ExistingIffParsed | internal/addon/common/cleanup_resources.go:74-99 | the third reader agrees: the annotation keeps its object alive exactly if some parsed reference is named `dummy` or is an existing placement |
| Placements.SingleRefRoundTrip | internal/metrics/resource/resource.go:445-448 | the annotation written for one placement reads back as that placement alone |
| AddonConfigs.ClusterManagementAddOn.EnsureConfigs | internal/addon/common/clustermanagementaddon.go:89-120 | each placement afterwards: its old entries followed by the wanted configs that were missing, each once |
| AddonConfigs.ClusterManagementAddOn.RemoveStale | internal/addon/common/clustermanagementaddon.go:124-140 | each placement afterwards: the entries whose object exists, in order |
| AddonConfigs.ClusterManagementAddOn.EnsureAddonConfig | internal/addon/common/clustermanagementaddon.go:58-87 | the two steps in this order |
| AddonConfigs.GroupByPlacement | internal/addon/common/clustermanagementaddon.go:97-105 | grouping by placement loses, invents and reorders nothing except repetitions |
| AddonConfigs.ConfigLiveIff | internal/addon/common/clustermanagementaddon.go:152-200 | the existence test looks up the very object a config was made from, except for groups it does not know, which it takes for existing |
| AddonConfigs.Attachment | internal/addon/common/clustermanagementaddon.go:89-140 | surviving old entries stay in front in order, exactly the live wanted configs are attached, nothing twice, nothing where nothing is wanted |
| AddonConfigs.AddedInOrder | internal/addon/common/clustermanagementaddon.go:89-120 | what is wanted first is attached first |
| AddonConfigs.ReconcileAgain | internal/addon/common/clustermanagementaddon.go:58-140 | with the same or fewer wishes and objects, a second round only removes entries of deleted objects |
| AddonConfigs.ReconcileIdempotent | internal/addon/common/clustermanagementaddon.go:58-140 | with the same wishes and objects, a second round changes nothing |
| AgentSpec.PrometheusAgentSSA.Build | internal/metrics/resource/agentssa.go:107-169 | the desired fields after the whole sequence of setters |
| AgentSpec.PrometheusAgentSSA.SetRemoteWriteConfig | internal/metrics/resource/agentssa.go:181-229 | the desired remote writes: the first one of the addon replaced in place, its later duplicates deleted, or one appended |
| AgentSpec.PrometheusAgentSSA.SetScrapeClasses | internal/metrics/resource/agentssa.go:244-265 | the addon's classes keep name and relabelings only, other classes are untouched |
| AgentSpec.SingleMain | internal/metrics/resource/agentssa.go:196-208 | deleting while iterating keeps the first main remote write and every other one, and reports the first |
| AgentSpec.RemoteWriteEnforced | internal/metrics/resource/agentssa.go:181-228 | exactly one remote write is the addon's, in the place of the first one there was, with the hub's address and the three files of the mTLS secrets and nothing else but the user's queue config and timeout; the others keep content and order |
| AgentSpec.MainIs | internal/metrics/resource/agentssa.go:181-218 | the fields of the enforced remote write, for any earlier one |
| AgentSpec.RemoteWriteFixpoint | internal/metrics/resource/agentssa.go:196-229 | building the remote writes from built ones changes nothing |
| AgentSpec.SecretsEnforced | internal/metrics/resource/agentssa.go:172-179 | both mTLS secrets are listed, the user's come first, and no repetition is introduced |
| AgentSpec.BuildFixpoint | internal/metrics/resource/agentssa.go:107-265 | an agent that holds the built fields is rebuilt to itself |
| AgentSpec.SpokeAgent.ConfigureForOCP | internal/metrics/manifests/values.go:407-445 | the whole spec after the in-place injection |
| AgentSpec.ScrubThenInject | internal/metrics/manifests/values.go:407-445 | after the hub's scrub and the injection: the CA configmap exactly once and last, the first `ocp-monitoring` class with the addon's settings and the user's relabelings, everything else in its place, with the values of all fields |
| AgentSpec.InjectIdempotent | internal/metrics/manifests/values.go:407-445 | injecting twice is injecting once |
| AgentSpec.ScrubUndoesInject | internal/metrics/resource/agentssa.go:244-265 | the hub's scrub takes the injection back, up to the class that had to be added |
| AgentSpec.EnforceIdempotent | internal/metrics/resource/resource.go:358-371 | a second enforcement, with the skipped apply, leaves the stored agent alone |
| AgentDrift.CaConfigMapRemovedIff | internal/metrics/resource/resource.go:367-371 | a user's CA configmap is removed from the stored agent exactly if something else needs enforcing or another configmap follows one of its copies |
| AgentDrift.TrailingCaConfigMapStays | internal/metrics/resource/resource.go:367-371 | an instance: a CA configmap that a user appends to an otherwise enforced agent is never removed |
| AgentDrift.ClassesScrubbedIff | internal/metrics/resource/agentssa.go:244-257 | the user's settings on the addon's scrape classes are removed from the stored agent exactly if there are none or something else needs enforcing |
| AgentDrift.ClassCredentialsStay | internal/metrics/resource/resource.go:367-371 | an instance: credentials set on an `ocp-monitoring` class of an enforced agent stay |
| AgentDrift.DuplicatesStayIff | internal/metrics/resource/agentssa.go:196-208 | duplicates of the addon's remote write stay on the stored agent exactly if nothing else needs enforcing and every user's remote write passes for the one in whose place it would move; if the user's have names, exactly if none follows a duplicate |
| AgentDrift.AppendedDuplicateStays | internal/metrics/resource/resource.go:367-371 | an instance: a second remote write with the addon's name, appended to an enforced agent, stays |
| AgentBuild.OptionsBuilder.AddSecret | internal/metrics/handlers/handler.go:449-470 | a copy with its source address is appended unless the target is there; a missing source changes nothing and fails |
| AgentBuild.OptionsBuilder.BuildPrometheusAgent | internal/metrics/handlers/handler.go:279-411 | succeeds exactly if the agent is owned, has the main remote write and everything it mounts can be fetched; then the agent and both lists are as specified |
| AgentBuild.AddClusterSettings | internal/metrics/handlers/handler.go:316-329 | every remote write gets the cluster's relabel rules behind its own and the proxy, in place and order, and nothing else |
| AgentBuild.BuiltWrites | internal/metrics/handlers/handler.go:315-376 | what the build changes: rules and proxy on every remote write, the three files on the main one; all other settings of the remote writes and of the agent stay |
| AgentBuild.OptionsBuilder.AddAlertmanagerMtlsSecrets | internal/metrics/handlers/handler.go:643-693 | the three secrets of the Alertmanager configuration are added for each enabled collector, or the first missing one fails |
| AgentBuild.TargetNames | internal/metrics/config/config.go:200-223 | the names of copied secrets tell hubs apart as far as their trimmed ids do, and a volume named after one keeps within 63 characters |
| AgentBuild.TrimmedIs | internal/metrics/config/config.go:200-211 | a trimmed id is the first 19 characters of the id without dashes |
| AgentBuild.FetchedAll | internal/metrics/handlers/handler.go:379-400 | fetching keeps target addresses unique, provides every mounted name, and what it adds for the install namespace has data and address of the right source: the hub's CA, client certificate and accessor secret under their new names, the secret of the same name in the agent's namespace otherwise |
| AgentBuild.FetchedMapsAll | internal/metrics/handlers/handler.go:402-408 | the same for configmaps, which all come from the agent's namespace |
| AgentBuild.BuiltCopies | internal/metrics/handlers/handler.go:347-408 | a build starting from nothing mounts what the agent mounted on the hub, the two mTLS secrets renamed, and copies exactly that, each once, from the right source |
| AgentBuild.MountClosure | internal/metrics/handlers/handler.go:362-400 | for an agent built on the hub, every mounted secret is fetched exactly once into the install namespace, and the main remote write reads `ca.crt` in the copied CA and `tls.crt` and `tls.key` in the copied certificate |
| Routing.ParseCOOMonitoringStacks | internal/metrics/handlers/handler.go:917-938 | the well-formed `namespace/name` entries in order |
| RoutingProperties.StackListHas | internal/metrics/handlers/handler.go:925-936 | a stack is listed exactly if some entry, trimmed, is its namespace, a slash and its name, without further slashes |
| RoutingProperties.StacksRoundTrip | internal/metrics/handlers/handler.go:917-938 | stacks written into the annotation are read back in order |
| Routing.Router.ProcessScrapeConfigs | internal/metrics/handlers/handler.go:707-848 | kept configs, patches, server remote writes and secrets as specified, failure exactly when the specification fails, and no remote write object shared between patches |
| Routing.Router.RouteToStacks | internal/metrics/handlers/handler.go:766-816 | the inner loop over the stacks of one scrape config, errors included |
| Routing.RetargetInPlace | internal/metrics/handlers/handler.go:805-808 | each new remote write object is changed in place, and only those |
| Routing.MakePatches | internal/metrics/handlers/handler.go:839-846 | one patch per key, in first-seen order, sharing no object |
| Routing.KeysAre | internal/metrics/handlers/handler.go:811-814 | a stack is a key exactly if something was recorded for it |
| Routing.KeysDistinct | internal/metrics/handlers/handler.go:811-814 | patch keys are pairwise distinct |
| Routing.KeysFirstSeen | internal/metrics/handlers/handler.go:811-814 | keys of an initial stretch of contributions form a prefix |
| RoutingProperties.Conservation | internal/metrics/handlers/handler.go:726-836 | every scrape config is either kept once, in order, or transpiled |
| RoutingProperties.GroupBy | internal/metrics/handlers/handler.go:726-836 | each stack receives the concatenation, in input order, of the specs of the scrape configs naming it; so does the addon's own server |
| RoutingProperties.PatchedIff | internal/metrics/handlers/handler.go:726-846 | a stack is patched exactly if some transpiled scrape config has something for it |
| RoutingProperties.PatchOrder | internal/metrics/handlers/handler.go:811-846 | routing more scrape configs only appends patches and contributions |
| RoutingProperties.SecretClosure | internal/metrics/handlers/handler.go:748-811 | if earlier copies under the names of the mTLS secrets are copies of these, every spec of every patched stack takes `ca.crt` from a copy of the hub's CA and `tls.crt` and `tls.key` from a copy of the client certificate, each the only secret of its name in the stack's namespace |
| RoutingProperties.SecretsRouted | internal/metrics/handlers/handler.go:748-795 | secrets stay unique with the earlier ones in front; what is added are the two mTLS secrets, in exactly the namespaces that need them |
| RoutingProperties.NamespacesAre | internal/metrics/handlers/handler.go:748-795 | these are the namespaces of the stacks that raw scrape configs name, and the default one if one names none |
| RoutingProperties.ServerClosure | internal/metrics/handlers/handler.go:818-834 | the server's remote writes authenticate the same way with copies in the install namespace |
| SecretFlow.StepKeepsRight | internal/metrics/handlers/handler.go:90-196 | the Alertmanager configuration, each agent and each list of scrape configs keep earlier copies in front, addresses unique and the right copies under the names of the mTLS secrets |
| SecretFlow.AlertmanagerProvided | internal/metrics/handlers/handler.go:643-693 | the Alertmanager configuration finds its three secrets in the namespace of each enabled collector |
| SecretFlow.StackWritesAuthenticate | internal/metrics/handlers/handler.go:90-196 | over any sequence of these steps from the empty list: every remote write of every patched stack authenticates with the right copies in the finished list |
| SecretFlow.ServerWritesAuthenticate | internal/metrics/handlers/handler.go:90-196 | the same for the server outside OpenShift, with the copies that the Alertmanager configuration put there first |
| SecretFlow.MountsFound | internal/metrics/handlers/handler.go:90-196 | in the finished list there is exactly one copy for every name an agent mounts, and the right one for the mTLS secrets |
| RoutingProperties.RoutedSpecFilters | internal/metrics/handlers/handler.go:797-808 | a routed spec filters by the `match[]` entries of its scrape config and applies that config's own rules; retargeting keeps all settings but name and TLS |
| RoutingProperties.MarkedOnce | internal/metrics/handlers/handler.go:738-745 | marking appends `-raw` to the component label unless it ends so, happens once, and touches nothing else |
| RemoteWriteNames.NamesMeetIff | internal/metrics/handlers/handler.go:890-908 | two remote writes of the agent can get one name for some named scrape configs exactly if one of their stems, `acm-` or the prefixed name and a dash, is a prefix of the other |
| RemoteWriteNames.SameConfigMeetIff | internal/metrics/handlers/handler.go:890-908 | for one scrape config they do exactly if their stems are equal, or for one without a name their bare names |
| RemoteWriteNames.BareMeetsIff | internal/metrics/handlers/handler.go:890-908 | a scrape config without a name meets a named one exactly if its bare name continues the other stem |
| RemoteWriteNames.NamesDistinctIff | internal/metrics/handlers/handler.go:890-908 | for one remote write of the agent, names collide exactly for equal scrape config names, or for `observability` and the empty name when the remote write has no name |
| RemoteWriteNames.ListedNamesIff | internal/metrics/handlers/handler.go:769-814 | for a given list of scrape configs, the remote writes of a stack have distinct names exactly if no contributing one names the stack twice and no two names that the agent's remote writes make for them are equal |
| RemoteWriteNames.StackNamesIff | internal/metrics/handlers/handler.go:797-814 | they have for all scrape configs with distinct names that name the stack once exactly if no stem of the agent's remote writes is a prefix of another's |
| RemoteWriteNames.UnnamedNotPrefixFree | internal/metrics/handlers/handler.go:890-908 | two remote writes without a name fail that condition |
| RemoteWriteNames.NamesCollide | internal/metrics/handlers/handler.go:890-908 | two instances of a collision |
| HostedClusters.AppendFilter | internal/metrics/handlers/hypershift.go:75-89 | every scrape config gets the filter after its own rules, in place |
| HostedClusters.FilterKeepsIff | internal/metrics/handlers/hypershift.go:62-73 | the filter keeps a series unchanged exactly if it has a cluster id and its management id matches the hub's id label |
| HostedClusters.ServiceMonitorLabels | internal/metrics/handlers/hypershift.go:339-367 | the ServiceMonitor rules keep exactly the wanted metrics, or without any the series without a name, and give them the four identity labels |
| HostedClusters.HostedPassesFilter | internal/metrics/handlers/hypershift.go:62-73 | a series labelled for a hosted cluster passes the filter, whatever the hub id |
| HostedClusters.UnlabelledDropped | internal/metrics/handlers/hypershift.go:61-67 | a series without a cluster id never passes it |
| HostedClusters.HostingAttributes | internal/metrics/handlers/handler.go:569-610 | what the hosting rules make of every series |
| HostedClusters.JobRulesRestore | internal/metrics/handlers/handler.go:626-640 | `job` and `instance` become what the scraped series exported, or disappear with it, and the exported labels go |
| HostedClusters.WriteRulesResult | internal/metrics/handlers/handler.go:567-641 | the write rules drop nothing; the labels that come out, on hosting and other clusters |
| HostedClusters.HostedIdentity | internal/metrics/handlers/hypershift.go:339-367 | end to end, the series leaves with the hosted name and id and the hub as management cluster; the management id is right exactly if the hub's id label is its id or the hosted id does not match it; the helper label leaks exactly if it matches |
| HostedClusters.PlainHostedIdentity | internal/metrics/handlers/hypershift.go:339-367 | with a hub id free of dots and different from the hosted id, all four identity labels are right and the helper label is absent |
| HostedClusters.PlainLabelMatches | internal/metrics/handlers/hypershift.go:68-72 | as a regular expression, a non-empty id without dots matches itself only |
| HostedClusters.OwnSeriesIdentity | internal/metrics/handlers/handler.go:570-610 | the hub's own series get or keep its identity and keep their management labels; the helper label stays on them |
| HostedClusters.HelperLeaksIff | internal/metrics/handlers/handler.go:570-610 | the helper label leaks into the output for exactly the hub's own series |
| HostedClusters.DottedHostedIdentity | internal/metrics/handlers/handler.go:589-609 | an instance: a hub with id `a.c` takes the series of the hosted cluster `abc` for its own |
| ManifestOrder.Manifests | internal/controllers/addon/controller.go:132-178 | the slice is converted and stably sorted in place |
| ManifestOrder.ConvertedAre | internal/controllers/addon/controller.go:138-142 | exactly the typed stacks that can be converted are, and keys stay |
| ManifestOrder.CmpAntisymmetric | internal/controllers/addon/controller.go:144-177 | swapping the arguments flips the sign, and only equal keys compare as equal, objects without metadata included |
| ManifestOrder.CmpLexicographic | internal/controllers/addon/controller.go:144-177 | objects are ordered by group, version and kind; of one kind those with metadata come first, by namespace and name |
| ManifestOrder.ComparatorIsPreorder | internal/controllers/addon/controller.go:144-177 | the comparator is a total preorder |
| ManifestOrder.ManifestsSorted | internal/controllers/addon/controller.go:132-178 | the result is a sorted permutation in which equal keys keep their order |
| ManifestOrder.ManifestsCanonical | internal/controllers/addon/controller.go:132-178 | two orderings of the same objects with distinct keys are returned as the same list |

## Left out

- CompilerCorrect: the conditions on anchors and `;` are sufficient for the given selectors and sample; CompilerInPlace, SurvivesIff and AnchoredSurvivesIff give the exact decisions, and DecidedRightIff and SelectorDecidedRightIff the exact conditions for all programs and for all samples.
- SelectorDecidedRightIff: is about selectors whose matchers are all positive and read distinct labels; a negative matcher can hide a wrong cut.
- AnchoredSurvivesIff: an expression in which an anchor is one alternative of several, as in `a|^b`, is covered by SurvivesIff, sample by sample, and not by the condition on shapes.
- MarkRuleCanonical: is about the marking rule; clearing rules follow the written order of the negative matchers, which changes the text of the program but not its decision (ProgramIgnoresOrder).
- Transpile: the agent's own write relabel rules are not part of the produced specs in the code, and no claim is made about them; opaque settings that the code does not copy are None.
- Linearizable: a run in which a reference is lost is covered by RunSafe and RunExactIff only, since lookups after the loss need not have a sequential explanation.
- SecondPassNeededIff: assumes what Kubernetes guarantees about the stored objects: distinct agent names, and owner uids that identify the owner.
- FetchedAll: what a failed build leaves in the lists of secrets and configmaps is not specified, as the caller discards it.
- HostedIdentity: the rules a user puts in a hosted scrape config before the filter are not part of the pipeline.
- PromQL and regular-expression parsing: selectors arrive as parsed matchers and expressions as syntax trees without word boundaries, flags or captures; `.` matches every character, as in Prometheus 3; quoted text is used for ordering.
- Extraction of metric names from PromQL expressions and the two ServiceMonitor specs around the relabel rules.
- The fields and the label that the hub enforces on scrape configs (internal/metrics/resource/resource.go:149-172), which no other step reads.
- Kubernetes clients, watches and informer lag: operations act on one consistent store, and an error ends the pass.
- Server-side apply: an apply overwrites the enforced fields; field managers and conflicts other than a foreign controller are not part of the model, and stored objects have their type metadata.
- Right-sizing, image overrides, TLS profiles, addon options, health checks, Perses dashboards, Helm values, logging and tracing: settings and payloads without influence on the control flow modelled here.
- The configuration of agents outside OpenShift and of the TLS arguments of the proxy container (internal/metrics/manifests/values.go:447-521).
- Selecting the agents, scrape configs and rules of a cluster by label selector in the handler, which warns about several agents and takes the first.
- Container resources, security contexts, volumes, tolerations and node selectors: opaque strings.
- The order of Go map iteration is an arbitrary choice (`:|`), and `slices.SortFunc` in the compiler, which is not stable, is a stable sort; ties there are equal matchers (PositivesStrict). The library's stable sort of the manifests is a sort function whose result is written back.
- Aliasing of the slices and maps that callers pass in: fields of type `seq`, `map` and `set` are values, except the remote-write objects of the routing, which are objects on the heap.

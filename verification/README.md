# OperandConfig merging in the common services operator

The operator turns CommonService custom resources (CRs) into one OperandConfig: per service a map of custom
resources and a list of Kubernetes resources, both trees of maps, lists and scalars. This project models that
computation and the small state machines around it, and proves what they keep.

- `Trees`, `ResourceComparison`, `Merging`, `Shrinking`, `Resetting`: configuration trees, the comparison of two
  settings, and the recursive merges as functions. `LargestWins` is the merge that compares sizes, `UserWins` the
  deep merge.
- `MergeEngine`: the same merges as the code runs them, key by key, on a map that is written to. `Heaps`,
  `MergeMemory`, `ScaleMemory`, `ShrinkMemory` and `FillMemory` put the merges and the scaling into a memory of maps
  that refer to each other, where trees are updated where they are and share parts.
- `Idempotence`, `Associativity`, `Paths`, `MergeAgreement`: the algebra of the merges.
- `Resources`, `ResourceLaws`, `ReplicaMode`: the keyed merge of resource lists.
- `Services`, `SteadyState`, `ResetAgreement`, `ConfigMerger`: the fold of CRs at bootstrap, the merge into the base
  template when reconciling, and their agreement.
- `OrderIndependence`, `ResourceOrder`, `CrSummaries`, `OrderDependence`: the summary of all CRs, which is folded in
  the random order of a Go map, and exactly when that order shows.
- `Scaling`, `ScalingLaws`, `FinalConfig`, `ActiveCrs`, `FinalOrder`, `FinalResources`: the scaled services, what the
  final OperandConfig holds, which CRs reach it, and exactly when their order shows there.
- `SizeTemplates`, `TemplateLaws`: the two implementations that fill a size template, and what it holds then.
- `NamespaceMaps`, `Tenants`: the namespace mapping all tenants write to.
- `OperandConfigs`, `VersionGate`, `PodRefresh`, `Restarts`, `Conditions`: updating the stored OperandConfig, the
  version gate, waiting for a renewed certificate, restarting its users, and the status conditions.
- `Sequences`, `Text`, `Wrappers`: facts about sequences, string splitting, optional values and errors.

Each method is specified by a function of its inputs or of the old state; the lemmas are about these functions.
The predicates whose names end in `Defined` say when the code runs without panic: booleans are compared with
booleans, a map in a default list meets a map, a compared default is not null, specs are maps of maps. They are
preconditions of the methods only. The functions cover every tree, and so do most laws; those about a path to a size
ask that maps and lists have the shape of the path, and associativity asks for compatible shapes.

## What the code does and its comments do not say

- `extractSizeTemplate` announces to keep the template's scaling for configurable fields. The deep merge that
  follows undoes all of it (`Shrinking.ShrinkAbsorbed`, `Shrinking.UserSettingWins`).
- `filterChangedMapWithRules` filters nothing (`MergeEngine.FilterKeepsEverything`), so the contents of the rule
  trees never matter to the merge; only whether a custom resource has rules does.
- A null in a CR counts as absent in every merge. Below the root the deep merge takes over null entries of the
  default, at the root it does not, and the merge by size never does.
- `shrinkSize` copies only the first level of maps and lists of the original it promises not to modify; what lies
  deeper is shared and scaled in place (`ShrinkMemory.OriginalIsScaled`). Its callers all replace the original by the
  result.
- The summary of the CRs is folded in random order. Sizes come out equal in rank, but not always in spelling, and where
  nothing is compared the last CR read wins (`OrderDependence.DisagreeingCrs`). It reaches the stored OperandConfig
  (`FinalOrder.OrderReachesStore`), which can then change with every reconciliation.
- The CRs are extracted twice: at their own size and without features for the desired state, and with features at the
  largest size of all CRs for the scaling. That size is always a predefined one, so CRs with a custom size or with
  `production` are scaled as if they had it (`CrSummaries.LargestSizeIsMaximum`).
- The clean-up of externally sized services happens before the base template is merged in, which can fill sizes back in
  (`FinalOrder.BaseFillsBack`).
- Without direct assignment a changed scalar stays even when it is `""` or `false`, since it is already in the map
  that is returned.
- Merging is not idempotent on lists that mix maps with other elements (`Idempotence.MixedListGrows`), the two
  paths treat invalid resources and externally sized services differently (`SteadyState.UnnamedResourceParts`,
  `SteadyState.ClearedSizeParts`), a tenant outside its own watch
  list can invalidate the shared mapping (`Tenants.UnwatchedServicesNamespace`), and a workload can restart again
  within the second of the renewal (`Restarts.RestartsWithinTheSecond`).

Each of these failures comes with an equivalence that says exactly when it does not happen:
`ShrinkMemory.OriginalKeptIff`, `OrderDependence.LeafOrderFreeIffAgree`, `FinalOrder.FinalOrderFreeIff`,
`FinalResources.ResourceOrderFreeIff`, `FinalConfig.FinalCleanIff`, `Idempotence.MergeIsIdempotent`, `SteadyState.TwoPathsAgree`, `Tenants.UpdateKeepsValid` and
`Restarts.AtMostOneRestart` are equivalences.

## Model

| member | source | states |
|---|---|---|
| ResourceComparison.LargerSelects | internal/controller/rules/resource_comparison.go:100-196 | the comparison returns one of its two arguments, and of two equal values that value |
| ResourceComparison.LargerOutranks | internal/controller/rules/resource_comparison.go:57-196 | on one scale, or among texts that are no profile names, the larger one is chosen by a ranking that puts texts that do not parse last; what the ranking does not tell apart goes to the second setting |
| ResourceComparison.LargerIsMaximum | internal/controller/rules/resource_comparison.go:57-196 | on one scale (quantities, profile names, booleans) the pair returned is ordered by rank and a tie counts the second setting as the larger; on booleans false is the larger |
| ResourceComparison.KeptExactly | internal/controller/rules/resource_comparison.go:57-196 | for any two values, on one scale or across scales, exactly when the default is kept as the larger one; without such a reason the user's value is |
| ResourceComparison.ProfileOrder | internal/controller/rules/resource_comparison.go:28-70 | the profile names are small, medium and large, in this order, and no other text is one |
| ResourceComparison.DatabaseUnits | internal/controller/rules/resource_comparison.go:36-55 | a size in kB, MB, GB or TB counts as the Kubernetes quantity in k, M, G or T |
| ResourceComparison.OtherTexts | internal/controller/rules/resource_comparison.go:36-55 | every other text counts as the quantity it is |
| ResourceComparison.LargerDatabaseSize | internal/controller/rules/resource_comparison.go:57-98 | of two database sizes the one that is the larger Kubernetes quantity is chosen |
| Merging.ComparedByName | internal/controller/operandconfig.go:431-449 | the eleven keys whose values are compared, by name; at any other key, and everywhere in the deep merge, a change wins over a default scalar |
| MergeEngine.FilterKeepsEverything | internal/controller/operandconfig.go:357-377 | the rule filter returns every tree as it was, whatever the rules are |
| MergeEngine.ConfigMap.FilterChangedMapWithRules | internal/controller/operandconfig.go:357-377 | the recursive filter run key by key on the map it filters; with FilterKeepsEverything it writes back what was there |
| MergeEngine.ConfigMap.MergeChangedMap | internal/controller/operandconfig.go:379-469 | the recursive merge with its skip of equal values, its loops and its branch on comparable keys writes the merged value of one key and no other key |
| MergeEngine.ConfigMap.MergeKeys | internal/controller/operandconfig.go:338-343 | one pass over the default's keys, in any order, turns the map into the merge of the two maps |
| MergeEngine.MergeCRsIntoOperandConfig | internal/controller/operandconfig.go:54-68 | filter and merge together give the largest-wins merge; the rules do not occur in the result |
| MergeEngine.MergeCRsIntoOperandConfigWithDefaultRules | internal/controller/operandconfig.go:337-355 | the merge without rules gives the same function of its two inputs as the one with rules |
| MergeEngine.ConfigMap.DeepMergeTwoMaps | internal/controller/operandconfig.go:530-569 | the recursive deep merge of one key writes the user-wins merge of the two values and no other key |
| MergeEngine.MergeSizeProfile | internal/controller/operandconfig.go:510-528 | the root of the deep merge, which skips equal values and so takes over no null key |
| MergeEngine.ConfigMap.MergeChangedMapWithExtremeSize | internal/controller/operandconfig.go:471-507 | the recursive scaling of one key on a map of its own writes the picked extreme, and nothing when the value stays |
| ScaleMemory.ScaleKey | internal/controller/operandconfig.go:471-507 | one key scaled in place, where its value is the original's or a copy of the original's first level: the key stores the scaled tree, references and lists stay where they are, and of a copied original exactly what lies deeper than its scalars is scaled with it |
| ScaleMemory.ScaleMap | internal/controller/operandconfig.go:475-481 | the recursion into a map: it stores the scaled tree where it is, and only its own maps are written |
| ScaleMemory.ScaleSlice | internal/controller/operandconfig.go:482-493 | lists are scaled by scaling their maps where they are |
| ShrinkMemory.ShrinkSize | internal/controller/operandconfig.go:71-109 | the whole scaling in memory, with its copy of one level and its sharing: the result stores the scaled tree, the user's configuration is left alone, and the original is left as `Leftover` says |
| ShrinkMemory.OriginalKeptIff | internal/controller/operandconfig.go:73-91 | the original survives the scaling if and only if no map or list directly below a map of the root, and no list of the root, is changed by scaling it |
| ShrinkMemory.OriginalIsScaled | internal/controller/operandconfig.go:73-91 | a template that states a size two maps deep reads the user's larger one after `shrinkSize`, although the comment says the original is not modified |
| MergeEngine.ShrinkSize | internal/controller/operandconfig.go:71-109 | the value `shrinkSize` returns: the copy updated key by key, with the keys only the user has |
| MergeEngine.ConfigMap.ResetChangedMap | internal/controller/operandconfig.go:1129-1157 | the recursive deletion of rule-covered sizes during the iteration over the same map |
| MergeEngine.ResetResourceInTemplate | internal/controller/operandconfig.go:1118-1127 | the reset of one custom resource |
| MergeMemory.Memory.MergeKey | internal/controller/operandconfig.go:379-469 | one key merged in place, in a memory where the default's maps become shared with the result: the value stores the merged tree, no other key changes, and only maps of the changed value are written |
| MergeMemory.Memory.MergeSlices | internal/controller/operandconfig.go:407-426 | lists merged by position in place, with the default's remaining maps appended as references; no two positions end up sharing a map |
| MergeMemory.Memory.MergeMaps | internal/controller/operandconfig.go:386-405 | the recursion on `finalMap[key]`: afterwards the changed map, where it is, stores the merged tree, and only its own maps were written |
| MergeMemory.Memory.MergeInto | internal/controller/operandconfig.go:510-528 | a whole configuration merged into another in place, for both merges, where the default may refer to values of the change in keys that both hold alike; the default still stores its old tree |
| MergeMemory.Memory.MergeAll | internal/controller/operandconfig.go:147-165 | CR after CR merged over the summary and becoming the summary: although summaries share maps with their predecessors, the end result stores the fold of the trees as they were given |
| MergeMemory.CrIsFold | internal/controller/operandconfig.go:127-192 | what the fold of whole CRs makes of one custom resource is that fold of the CRs' contributions to it |
| Idempotence.MergeIsIdempotent | internal/controller/operandconfig.go:379-469 | merging the same default twice equals merging it once if and only if no default list continues, beyond the list it is merged under, with a map after another kind of element; the same for both merges |
| Idempotence.MixedListGrows | internal/controller/operandconfig.go:414-425 | a concrete default list that mixes kinds and makes every further merge longer |
| Associativity.MergeIsAssociative | internal/controller/operandconfig.go:379-569 | both merges are associative on three configurations of compatible shape, null entries and compared texts that do not parse included |
| Paths.FindMerged | internal/controller/operandconfig.go:379-569 | merging and then following a path through maps and lists is following the path and then merging the two leaves |
| Paths.ChangedLeafSurvives | internal/controller/operandconfig.go:530-569 | every value the change sets keeps its value at its path, whatever the default is, when no key on the way is comparable |
| Paths.DefaultFillsGap | internal/controller/operandconfig.go:530-569 | every default the change leaves open is filled in, be it a leaf, a list of any elements or a whole map: it is enough that the change is null at the path or at a prefix of it |
| Paths.LargestDominates | internal/controller/operandconfig.go:444-449 | at a comparable key the merged leaf is one of the two and outranks both |
| Paths.LargerDatabaseSizeWins | internal/controller/operandconfig.go:444-449 | of two database sizes at a comparable key the merged configuration holds the larger quantity |
| MergeAgreement.MergesAgree | internal/controller/operandconfig.go:379-569 | on configurations that share no compared leaf the merge with rules and the deep merge give the same tree up to null entries |
| MergeAgreement.NullFreeMergesAgree | internal/controller/operandconfig.go:379-569 | without null entries they give the same tree |
| Shrinking.ShrinkAbsorbed | internal/controller/config_extractor.go:391-396 | scaling a template and then deep-merging the same user values equals deep-merging them alone, for both directions of scaling and all trees |
| Shrinking.UserSettingWins | internal/controller/config_extractor.go:391-396 | after scaling and merging, a leaf the user sets holds the user's value, although the comment promises to keep the template's scaling |
| Resetting.ResetCleans | internal/controller/operandconfig.go:1118-1157 | after the reset no rule-covered size is left at any depth, and the reset changes a tree exactly when it held one |
| Resetting.ResetIsIdempotent | internal/controller/operandconfig.go:1118-1157 | a second reset changes nothing |
| Resetting.ResetDeletesExactly | internal/controller/operandconfig.go:1129-1157 | path by path: covered sizes read as absent, every other leaf reads as before |
| Resetting.DeletedByName | internal/controller/operandconfig.go:1129-1157 | replicas, cpu and memory are deleted where a rule covers them, and no other key |
| Resetting.MapsStay | internal/controller/operandconfig.go:1131-1145 | a map is never deleted; it is looked into where its rule is a map |
| Resetting.MergeKeepsClean | internal/controller/operandconfig.go:943-966 | both merges keep trees free of covered sizes |
| Resetting.ShrinkKeepsClean | internal/controller/operandconfig.go:943-966 | so does scaling |
| Resources.MergeResourceArrays | internal/controller/operandconfig.go:215-334 | the three passes with their index maps produce the base list with partners merged in place, followed by the unmatched valid resources of the CR |
| Resources.FindBase | internal/controller/operandconfig.go:247-267 | the inner search finds the first base resource that matches and is not merged yet |
| Resources.MergeMatching | internal/controller/operandconfig.go:271-304 | a matching pair is merged, loses `initdb` if it is a replica cluster, and its CPU limit if it is sized externally |
| Resources.ExternalByName | internal/controller/operandconfig.go:38-44 | the three external controllers, by name |
| ResourceLaws.CombineKeepsIdentity | internal/controller/operandconfig.go:258-271 | a merged resource keeps version, kind, name and effective namespace of the base resource |
| ResourceLaws.MergedInPlace | internal/controller/operandconfig.go:313-321 | position by position the result holds the base resource or its merge, with unchanged identity |
| ResourceLaws.PartnersAreInjective | internal/controller/operandconfig.go:248-251 | no resource of the CR is merged into two base resources |
| ResourceLaws.PartnersAreMaximal | internal/controller/operandconfig.go:247-310 | a valid resource is appended only when every base resource of its identity is taken |
| ResourceLaws.EveryResourceOnce | internal/controller/operandconfig.go:215-334 | conservation: the length of the result plus the number of pairs is the length of the base plus the number of valid CR resources |
| ResourceLaws.KeyedUnion | internal/controller/operandconfig.go:215-334 | with unique identities a base resource is merged exactly when the CR lists its identity, and exactly what the base lacks is appended |
| ResourceLaws.UnionStaysUnique | internal/controller/operandconfig.go:215-334 | unique identities on both sides stay unique |
| ResourceLaws.ExternalLimitsCleared | internal/controller/operandconfig.go:290-304 | a resource merged under an external controller is left without a CPU limit |
| ReplicaMode.ReplicaSurvivesMerge | internal/controller/operandconfig.go:273-288 | the merge of two clusters is a replica exactly when one of them is, and a merged replica has no `initdb` key |
| ReplicaMode.ReplicaModeIsStable | internal/controller/config_extractor.go:249-253 | over any number of merged lists no replica cluster is turned back and none regains an `initdb` |
| ReplicaMode.MergedBootstrapEntry | internal/controller/operandconfig.go:273-288 | `initdb` goes exactly when the CR's resource is a `pg.ibm.com/v1` Cluster and the merge has a `pg_basebackup` entry; every other bootstrap entry is the merge's |
| ConfigMerger.ValidateSingleReplicaConfig | internal/controller/config_merger.go:162-236 | the check passes exactly when the CRs hold at most one replica configuration in total |
| ConfigMerger.ReplicaByKind | internal/controller/config_merger.go:162-236 | the three ways to configure the common database as a replica, and nothing else |
| ConfigMerger.ReplicaModeCounts | internal/controller/config_merger.go:162-236 | a cluster bootstrapped from a primary is such a configuration under the common database's name |
| ConfigMerger.ReplicasAddUp | internal/controller/config_merger.go:162-236 | the replica configurations of several services add up |
| ConfigMerger.OneServiceCounts | internal/controller/config_merger.go:162-236 | a resource counts once, and only in the service of the database operator |
| Services.SpecIsStored | internal/controller/operandconfig.go:1070-1091 | what `setSpecByName` stores is what `getItemByName` finds: the spec is there under its name with what else the service had, names keep their order, one service is added only if the name is new, and every other name reads as before |
| Services.ResourcesAreStored | internal/controller/operandconfig.go:1070-1105 | the same round trip for `setResByName` |
| Services.ExternalIff | internal/controller/operandconfig.go:143-146 | a service's own controller decides whether it is sized externally, without one the controller of all services does, and without either it is not |
| Services.RuleIsFirst | internal/controller/operandconfig.go:156-157 | the rules of a custom resource are those of the first rule entry of the service's name, and there are none if that entry covers other custom resources only |
| Services.EntryReachesOne | internal/controller/operandconfig.go:127-192 | an entry of a CR reaches the summary's service of its name and no other; that keeps its other fields, gets a spec, and resources unless it had neither |
| Services.MergeCr | internal/controller/operandconfig.go:148-164 | one custom resource: reset if sized externally, then merged with or without rules |
| Services.MergeSpecs | internal/controller/operandconfig.go:147-165 | all custom resources of an entry, in any order |
| Services.Summary.MergeOne | internal/controller/operandconfig.go:129-189 | one entry folded into the summary, with the in-place creation of a missing spec or, only then, missing resources |
| Services.Summary.MergeCSCRs | internal/controller/operandconfig.go:127-192 | a whole CR folded into the summary |
| SteadyState.MergeServiceConfig | internal/controller/operandconfig.go:732-814 | one CR service merged over its base service |
| SteadyState.MergeServicesWithBase | internal/controller/operandconfig.go:676-729 | the lookup table, the base pass and the pass for new services give base services in place and CR-only services after them |
| SteadyState.LastEntryCounts | internal/controller/operandconfig.go:685-700 | of several entries of one name in the CR services the last one is merged over the base service |
| SteadyState.FoldUnrolled | internal/controller/operandconfig.go:127-192 | with unique names the fold equals: every base service updated by its one CR service, then the new services in order |
| SteadyState.TwoPathsAgree | internal/controller/operandconfig.go:127-814 | the bootstrap fold and the reconcile merge give the same services in the same order with the same specs and resources if and only if no new service lists an invalid resource and, for services under an external controller, every size and CPU limit that is cleared would have had no effect |
| SteadyState.UnnamedResourceParts | internal/controller/operandconfig.go:235-240 | a concrete CR on which the two paths differ: a new service with an invalid resource |
| SteadyState.ClearedSizeParts | internal/controller/operandconfig.go:149-152 | another one: an externally sized service with a size the base does not have |
| ResetAgreement.ResetMootIff | internal/controller/operandconfig.go:149-152 | clearing covered sizes before the merge makes no difference if and only if each of them is one that the base sets and wins, or sits in a map that is replaced |
| ResetAgreement.LimitsMootIff | internal/controller/operandconfig.go:290-304 | an external controller makes no difference to a merged resource list if and only if no merged pair has a CPU limit left to clear |
| ConfigMerger.MergeBaseAndCSConfigs | internal/controller/config_merger.go:33-113 | fails exactly when two replica configurations are given or the base does not parse; otherwise yields the fold over the base, and what reconciling makes of the same base under the same condition |
| CrSummaries.MergeProfileController | internal/controller/operandconfig.go:111-125 | controllers of two CRs combined key by key |
| CrSummaries.ControllerIsChosen | internal/controller/operandconfig.go:111-125 | over any number of CRs a service gets the first external controller named for it, else the first one named |
| CrSummaries.ExternalIsKept | internal/controller/operandconfig.go:111-125 | a service is external in the end exactly when the summary or some CR makes it so |
| CrSummaries.ExternalOverCrs | internal/controller/operandconfig.go:947-950 | with the controllers of all CRs a service is sized externally exactly when some CR names an external controller for it or, no CR naming any for it, for all services |
| CrSummaries.LimitsOfService | internal/controller/operandconfig.go:290-304 | a resource of such a service that meets one of a CR loses its CPU limit; of any other service it is merged only |
| CrSummaries.FoldedNames | internal/controller/operandconfig.go:127-192 | a fold never drops, moves or repeats a name and appends new ones in order of first occurrence |
| CrSummaries.NamesOverRuns | internal/controller/operandconfig.go:1306-1324 | the same over any run of CRs whose controllers accumulate |
| CrSummaries.GetLargestSizeFromCRs | internal/controller/operandconfig.go:840-887 | the loop over the CRs that are not being deleted keeps the first of the highest predefined sizes |
| CrSummaries.LargestSizeIsMaximum | internal/controller/operandconfig.go:840-887 | the size is a predefined one, none of these CRs has a higher predefined size, and it is that of the first CR to have it, or `starterset` when none has a predefined size; custom sizes and `production` do not count |
| CrSummaries.SizesByName | internal/controller/operandconfig.go:851-857 | the predefined sizes by name, and their order |
| CrSummaries.BuildDesiredState | internal/controller/operandconfig.go:1293-1325 | the passes over features and CRs, each CR at its own size, without CRs that are being deleted or cannot be extracted, give that state, with unique names in order of first occurrence |
| ActiveCrs.DesiredWithout | internal/controller/operandconfig.go:1308-1318 | a CR that is being deleted or cannot be extracted has no part in the desired state, wherever it is in the list |
| ActiveCrs.DesiredWith | internal/controller/operandconfig.go:1308-1322 | every other CR has, at its place: its services are folded after those of the features and of the CRs before it, with the controllers known by then and its own, and before those of the CRs after it |
| ActiveCrs.FeaturesComeFirst | internal/controller/operandconfig.go:1293-1305 | before all CRs the desired state holds the features, and nothing when they cannot be extracted |
| ActiveCrs.SizedWithout | internal/controller/operandconfig.go:870-936 | a CR that is being deleted changes neither the largest size nor the configurations and controllers that are scaled with, and cannot make them fail |
| ActiveCrs.SizedWith | internal/controller/operandconfig.go:911-936 | every other CR takes its place among them at the largest size, or makes all of them fail |
| ActiveCrs.DeletedCrHasNoEffect | internal/controller/operandconfig.go:571-652 | from the CRs to the store: a reconciliation leaves the same services with the CR that is being deleted and without it |
| OrderIndependence.FoldIsLargest | internal/controller/operandconfig.go:444-449 | folding leaves at a comparable key gives one of them that none outranks |
| OrderIndependence.FoldAtCr | internal/controller/operandconfig.go:127-192 | folding whole entries and then looking at a leaf of a custom resource, with rules or without, is folding the leaves |
| OrderIndependence.SpecOrderIrrelevant | internal/controller/operandconfig.go:938-941 | folding the same entries in any order, and however often, gives the same rank at every size of a rule-covered custom resource, the largest one set |
| ResourceOrder.UnionAt | internal/controller/operandconfig.go:215-334 | the resource list merge seen from one identity: merged, kept or added |
| ResourceOrder.CombineAtPath | internal/controller/operandconfig.go:271-304 | the merge with its clean-up at a path the clean-up does not touch is the merge of the two leaves |
| ResourceOrder.ResourceOrderIrrelevant | internal/controller/operandconfig.go:938-941 | order independence at every size of every resource |
| CrSummaries.SummaryOrderIrrelevant | internal/controller/operandconfig.go:938-941 | any permutation of the CRs gives a summary with the same, largest, rank at every rule-covered size, as the fold in map order needs |
| CrSummaries.SummaryResourceOrderIrrelevant | internal/controller/operandconfig.go:938-941 | the same for sizes of resources |
| OrderDependence.SummaryLeafIsLastDeciding | internal/controller/operandconfig.go:937-941 | the exact value of a leaf in the summary: the last one set where nothing is compared, the last of those that none outranks at a size, texts that do not parse included |
| OrderDependence.LeafOrderFreeIffAgree | internal/controller/operandconfig.go:937-941 | all orders of the CRs give the same value at a leaf of the summary if and only if the settings that can decide are equal: all of them, or at a size those that none outranks |
| OrderDependence.DecidesIsLargest | internal/controller/operandconfig.go:444-449 | on one scale the settings that can decide are the largest ones |
| OrderDependence.MixedScales | internal/controller/rules/resource_comparison.go:100-196 | a profile name next to a text that does not parse: the largest profile is set and lost, depending on the order |
| OrderDependence.UncomparedOrderFree | internal/controller/operandconfig.go:937-941 | where nothing is compared the last CR that sets the leaf wins, and the order does not matter if and only if all CRs that set it agree |
| OrderDependence.DisagreeingCrs | internal/controller/operandconfig.go:937-941 | two CRs that set one uncompared leaf differently show their order in the summary |
| OrderDependence.ResourceLeafOrderFree | internal/controller/operandconfig.go:937-941 | the same equivalence at the leaves of resources in the summary |
| Scaling.CollectConfigs | internal/controller/operandconfig.go:911-936 | the first loop skips CRs that are being deleted, extracts the others at the largest size, stops at the first failure, and collects configurations and controllers |
| Scaling.SummarizeAll | internal/controller/operandconfig.go:937-941 | the loop over the Go map: some order of the CRs, each taken once, is folded into the summary |
| Scaling.GetExtremeizes | internal/controller/operandconfig.go:890-1017 | largest size, controllers, the summary in some order of the CRs, and the scaling loops over specs and resources; or the extraction error |
| Scaling.ExternalServicesStayClean | internal/controller/operandconfig.go:943-966 | neither the summary of any CRs nor the scaled services hold a rule-covered size anywhere in the spec of a service that the CRs hand to an external controller, whatever the order of the CRs |
| ScalingLaws.ShrinkAtPath | internal/controller/operandconfig.go:471-507 | at every leaf scaling picks from the two leaves; a leaf only the user sets is taken over exactly where the template has the map for it, or lacks the root key |
| ScalingLaws.PickIsExtreme | internal/controller/operandconfig.go:494-501 | on one scale the pick is the larger one, or the smaller one, of the two |
| ScalingLaws.LargestOverAllCrs | internal/controller/operandconfig.go:890-966 | after scaling up, a size of a rule-covered custom resource is the largest of the service's own setting and all settings of all CRs; where the service has no place for it, it stays unset; for every order of the CRs in the summary |
| FinalConfig.OperandConfig.Update | internal/controller/operandconfig.go:571-652 | one reconciliation: base template, desired state from the CRs at their own sizes, scaling with the CRs at the largest size summarised in some order, merge, stored only when it differs; nothing changes on an extraction error |
| FinalConfig.FinalLeaf | internal/controller/operandconfig.go:610-613 | at a leaf of a custom resource, with rules or without, the final value is the base's merged with the scaled one |
| FinalConfig.FinalExtra | internal/controller/operandconfig.go:807-810 | of a final service the strategy is the CR's if it states one, and every other field besides spec and resources is the base's |
| FinalConfig.UncoveredSettingWins | internal/controller/operandconfig.go:766-787 | where the rules of a service say nothing of a custom resource, even if they cover others, whatever the scaled service sets is what the final OperandConfig holds |
| FinalConfig.LargestInFinal | internal/controller/operandconfig.go:583-613 | end to end: unless the CRs hand the service to an external controller, every size of a rule-covered custom resource in the final OperandConfig is the largest among the base template, the service and all CRs that reach it, for every order of the CRs |
| FinalConfig.FinalCleanIff | internal/controller/operandconfig.go:604-613 | a service that the CRs hand to an external controller is free of covered sizes in the final OperandConfig if and only if the base template fills none back in; for every order of the CRs |
| FinalConfig.CleanBaseKeepsClean | internal/controller/operandconfig.go:604-613 | a clean base template is enough, for every order of the CRs |
| FinalOrder.CoveredLeafIsBase | internal/controller/operandconfig.go:604-613 | of an externally sized service the final OperandConfig holds at every covered size exactly what the base template says, whatever service and CRs say and in every order |
| FinalOrder.BaseFillsBack | internal/controller/operandconfig.go:571-652 | a base template with a CPU and a CR that names an external controller: the OperandConfig ends with the base's CPU although the CR's was cleared |
| FinalOrder.FinalAtLeaf | internal/controller/operandconfig.go:583-613 | a leaf of the final OperandConfig as a function of the summary's leaf: scaled with the service's own and merged over the base's |
| FinalOrder.FinalOrderFreeIff | internal/controller/operandconfig.go:571-652 | the random order of the CRs does not show in a leaf of the stored OperandConfig if and only if any two settings that can decide it come out the same once scaled and merged over the base |
| FinalOrder.OrderReachesStore | internal/controller/operandconfig.go:571-652 | two CRs that disagree on one key without rules: what is stored depends on the order |
| FinalOrder.BaseHidesSpelling | internal/controller/operandconfig.go:571-652 | two spellings of one size: the order shows in the summary and not in what is stored when the base template states more |
| FinalResources.FinalAtResource | internal/controller/operandconfig.go:968-1013 | a leaf of a resource of the final OperandConfig as a function of the summary's leaf |
| FinalResources.SameIffIdentity | internal/controller/operandconfig.go:1159-1176 | the lookup of the scaling finds a resource by the identity the merge uses, when its namespace is stated or missing |
| FinalResources.EmptyNamespaceIsMissed | internal/controller/operandconfig.go:1159-1176 | a resource with an empty namespace written out is merged but not found by the lookup |
| FinalResources.ResourceOrderFreeIff | internal/controller/operandconfig.go:571-652 | the same equivalence for the resources of a service |
| SizeTemplates.FillSizeTemplate | internal/controller/config_extractor.go:368-433 | the loops over template entries and resources, scaling first or not, with the merge writing into the CR's own entries |
| FillMemory.FillSpec | internal/controller/config_extractor.go:393-397 | scaling and merging a template's spec in memory, where the scaled spec refers to maps of the user's by then: the user's map ends up with the merge of the two trees as they were given |
| SizeTemplates.TemplatesAgree | internal/controller/render_template.go:237-303 | the two implementations give the same controllers, the same resources and specs equal up to null entries, for every template and every user services list |
| SizeTemplates.SpecsReadAlike | internal/controller/render_template.go:263-267 | copying the merge over the template's spec reads the same as replacing it |
| TemplateLaws.SpecOfTemplate | internal/controller/config_extractor.go:391-396 | the spec of a filled entry reads as the CR's at every leaf the CR sets and as the template's at every path the CR leaves open; without a spec on either side it stays |
| TemplateLaws.SpecSettingWins | internal/controller/config_extractor.go:391-396 | what the CR sets in a spec wins even in an entry whose name the template repeats |
| TemplateLaws.FirstEntryWins | internal/controller/config_extractor.go:391-396 | the CR's entry holds the result from then on: what the first template entry of a name fills in wins over later entries of the name |
| TemplateLaws.ResourceOfTemplate | internal/controller/config_extractor.go:397-427 | a valid resource with a partner in the CR's entry reads as the partner's at every leaf that sets and as the template's at every path it leaves open; any other resource stays |
| TemplateLaws.EntryHoldsResult | internal/controller/config_extractor.go:421-426 | the CR's entry holds the result as well: a valid template resource that is the only one of its identity and its partner are the same afterwards |
| TemplateLaws.FirstResourceWins | internal/controller/config_extractor.go:421-426 | the same aliasing for a resource that the template repeats |
| TemplateLaws.UnlistedStays | internal/controller/config_extractor.go:383-386 | a template entry the CR does not have stays as it is |
| TemplateLaws.ControllersOfTemplate | internal/controller/config_extractor.go:387-389 | a service that template and CR both list has the CR's strategy recorded under its name, if the CR states one; every other controller is as it was |
| NamespaceMaps.ConfigMap.UpdateCsMaps | internal/controller/common/util.go:531-590 | rewrites the mapping to the tenant's entry followed by what remains of the others, fills in the control namespace, sets the label; the first entry requests exactly the namespaces of the list; reports missing data and then changes nothing |
| Text.SplitIsUnique | internal/controller/common/util.go:546 | splitting and joining are inverse: a text has exactly one list of parts without the separator, and every non-empty list of such parts is read back from its joined text |
| NamespaceMaps.RequestsTheList | internal/controller/common/util.go:545-549 | the first entry written is the tenant's, and it requests exactly the namespaces of the comma separated list, in order |
| NamespaceMaps.ConfigMap.ValidateCsMaps | internal/controller/common/util.go:593-628 | accepts exactly the mappings in which no namespace occurs twice and the control namespace is nobody's, and an error names a violation that is there |
| NamespaceMaps.ConfigMap.GetCsScope | internal/controller/common/util.go:631-659 | returns the set of namespaces of the services namespace and its requests |
| Tenants.ScopeMembers | internal/controller/common/util.go:631-659 | a services namespace that has an entry serves itself and exactly what its entries request |
| NamespaceMaps.Cluster.UpdateCsMaps | internal/controller/bootstrap/init.go:1403-1425 | a tenant's whole call: the updated mapping, which requests exactly the namespaces of the list, is stored when it validates, otherwise the error names a violation and the stored mapping stays |
| Tenants.UpdateKeepsValid | internal/controller/common/util.go:531-628 | an update of a valid mapping is accepted if and only if the watch list has no duplicates, the control namespace is outside it and differs from the services namespace, no remaining entry has that services namespace, and a control namespace just filled in is unused |
| Tenants.RunsStaySafe | internal/controller/bootstrap/init.go:1403-1425 | over any sequence of calls by tenants that watch their own services namespace, list no namespace twice and leave the control namespace alone, validation always passes |
| Tenants.GuardedRunsStayValid | internal/controller/bootstrap/init.go:1403-1425 | whatever any tenants do, the stored mapping stays valid; a run of well-behaved tenants is never refused |
| Tenants.UnwatchedServicesNamespace | internal/controller/common/util.go:557-560 | a concrete call by a tenant that does not watch its services namespace and breaks the mapping |
| Tenants.InitialIsSafe | internal/controller/bootstrap/init.go:1343-1346 | the mapping the first tenant creates starts such a run |
| Tenants.UpdateIsIdempotent | internal/controller/common/util.go:545-577 | writing the same entry again changes nothing, whatever the mapping |
| Tenants.UpdatesCommute | internal/controller/common/util.go:545-577 | updates of tenants with disjoint watch lists commute up to the order of entries |
| Tenants.ScopeIsKept | internal/controller/common/util.go:631-659 | a tenant that has written keeps exactly its watch list as scope through any calls of tenants with disjoint lists |
| Tenants.UpdateRefinesMap | internal/controller/common/util.go:545-577 | as a finite map: watched namespaces map to the new services namespace, others keep their target unless it is watched |
| OperandConfigs.MergeSpecMaps | internal/controller/bootstrap/init.go:1671-1696 | the recursive merge loop equals the map that keeps what only the stored spec has |
| OperandConfigs.MergeServices | internal/controller/bootstrap/init.go:1603-1638 | the service loop: desired services in order, each with the stored service of its name merged in |
| OperandConfigs.Unstructured.MergeOperandConfigs | internal/controller/bootstrap/init.go:1571-1647 | all early exits, both errors, and the write back |
| OperandConfigs.MergeFailsIff | internal/controller/bootstrap/init.go:1571-1601 | the merge fails exactly when the desired object lacks a spec that the stored one has, or has one that is not a map where the stored one is |
| OperandConfigs.ConvergesInOneStep | internal/controller/bootstrap/init.go:1571-1705 | with unique service names, merging the same desired object into what was stored yields exactly that, so no update is due |
| OperandConfigs.HoldsDesiredServices | internal/controller/bootstrap/init.go:1603-1646 | the result lists exactly the desired services in order and touches nothing but their specs |
| OperandConfigs.MergedSpecAt | internal/controller/bootstrap/init.go:1671-1696 | path by path: desired leaves win, what only the stored spec has is kept |
| OperandConfigs.StoredSpecAt | internal/controller/bootstrap/init.go:1619-1667 | the same for the spec of a service in the stored object |
| OperandConfigs.SpecUnchangedIff | internal/controller/bootstrap/init.go:1671-1696 | merging a desired spec changes the stored one exactly when that does not say everything the desired one says |
| OperandConfigs.NoUpdateDueIff | internal/controller/bootstrap/init.go:1571-1705 | with unique stored names no update is due exactly when the stored spec has the desired keys and values besides the services, and as many services, each holding the desired one |
| OperandConfigs.DifferingSettingIsDue | internal/controller/bootstrap/init.go:1699-1705 | one differing or missing setting in the spec of a service makes an update due |
| VersionGate.CompareVersion | internal/controller/common/util.go:77-115 | the loop with its early returns gives the comparison of the padded parts, errors included |
| VersionGate.CompareIsOrder | internal/controller/common/util.go:77-115 | on versions of three parts, or one padded part, it never fails and is the lexicographic order |
| VersionGate.VersionReads | internal/controller/common/util.go:77-93 | a missing version reads as 0.0.0, a single number as a patch level, and two parts are not completed |
| VersionGate.FirstDifferenceDecides | internal/controller/common/util.go:97-112 | the first parts that differ decide, or are refused when one is not a number, whatever the lengths |
| VersionGate.PrefixIsNotLarger | internal/controller/common/util.go:97-114 | a version is not larger than one that begins with it |
| VersionGate.Store.CreateOrUpdateFromYaml | internal/controller/bootstrap/init.go:680-768 | creates, skips deleted objects with an error, compares versions, aborts on one that does not parse, and updates |
| VersionGate.SubscriptionConverges | internal/controller/bootstrap/init.go:713-726 | a subscription ends with the applied spec except for a stored configuration section, and a second application changes nothing |
| VersionGate.SameSpecIsNotWritten | internal/controller/bootstrap/init.go:713-726 | a subscription whose spec would stay as it is is not written, whatever its version and even when forced |
| VersionGate.VersionNeverFalls | internal/controller/bootstrap/init.go:706-766 | over any run of unforced applications the stored version of an object never falls, whatever else the run applies and even when it aborts |
| VersionGate.VersionsOnlyRise | internal/controller/bootstrap/init.go:706-766 | after a run that does not abort it is the highest of the initial version and all applied, or the initial one if the object is being deleted |
| VersionGate.FirstVersionStored | internal/controller/bootstrap/init.go:688-695 | the same for an object the run creates, wherever it first comes |
| VersionGate.ForcedRunStoresLast | internal/controller/bootstrap/init.go:680-768 | a forced run that does not abort leaves the object applied last, whatever its version; one that is being deleted stays |
| VersionGate.UnreadableVersionAborts | internal/controller/bootstrap/init.go:728-731 | a version that cannot be compared aborts the run before anything is written, forced or not |
| VersionGate.RunFailsIff | internal/controller/bootstrap/init.go:697-768 | a run that does not abort fails exactly when it applies an object that is being deleted |
| VersionGate.WellFormedRunsComplete | internal/controller/bootstrap/init.go:728-731 | with well-formed versions no run aborts |
| VersionGate.HighestIsMaximum | internal/controller/common/util.go:106-112 | that version is one of them and none is above it |
| PodRefresh.CalculateBackoffDelay | internal/controller/cert-manager/podrefresh_controller.go:248-268 | the loop computes the capped growth by one half |
| PodRefresh.BackoffIsMonotone | internal/controller/cert-manager/podrefresh_controller.go:248-268 | the delay grows with the elapsed time and stays between 5 and 30 seconds, negative times included |
| PodRefresh.VerifySecretReady | internal/controller/cert-manager/podrefresh_controller.go:122-245 | all answers: an unreadable secret fails, one without a certificate is looked at again after the base delay, a stale one is requeued for 60 seconds after the renewal, and otherwise the restart proceeds |
| PodRefresh.ReadyExactly | internal/controller/cert-manager/podrefresh_controller.go:122-245 | the restart proceeds exactly when the secret holds a certificate that neither begins nor ends before the expected one, or any certificate a minute after the renewal; every requeue is between 5 and 30 seconds, and after 5 for a secret without a certificate |
| PodRefresh.Durations | internal/controller/cert-manager/podrefresh_controller.go:207-268 | a stale secret is first looked at again after 5 seconds, after 30 in the end, and no more once a minute has passed |
| PodRefresh.RequeueBound | internal/controller/cert-manager/podrefresh_controller.go:207-268 | once the certificate is valid, looks that never come early are requeued at most five times |
| PodRefresh.BoundIsReached | internal/controller/cert-manager/podrefresh_controller.go:207-268 | five requeues do happen |
| Restarts.UsesSecret | internal/controller/cert-manager/podrefresh_controller.go:334-355 | the nested loops find a use of the secret in variables, volumes or projected sources of a deployment that did not opt out |
| Restarts.UsesByKind | internal/controller/cert-manager/podrefresh_controller.go:334-355 | a variable, a volume or a projected source each make a deployment use the secret; a volume without a name does not |
| Restarts.UsesOfParts | internal/controller/cert-manager/podrefresh_controller.go:334-355 | a deployment uses the secret exactly when one of its containers or volumes does |
| Restarts.GetDeploymentsNeedUpdate | internal/controller/cert-manager/podrefresh_controller.go:306-358 | returns exactly the deployments that use the secret, did not opt out and are not labelled after the renewal, in order; fails exactly when a time does not parse |
| Restarts.UpdateDeploymentAnnotations | internal/controller/cert-manager/podrefresh_controller.go:469-487 | labels every given deployment and its template with the time |
| Restarts.Restart | internal/controller/cert-manager/podrefresh_controller.go:272-285 | labels exactly the selected deployments, and none when a time does not parse |
| Restarts.RelabelledIsDone | internal/controller/cert-manager/podrefresh_controller.go:318-332 | a deployment labelled at a time is done with a renewal exactly when that time is after it |
| Restarts.RestartsOnce | internal/controller/cert-manager/podrefresh_controller.go:306-487 | when a renewal is first handled in a later second, a deployment restarts exactly once over any number of handlings if it was due, and never otherwise |
| Restarts.AtMostOneRestart | internal/controller/cert-manager/podrefresh_controller.go:306-487 | over any handlings at any times a deployment restarts at most once if and only if it was not due, the renewal is handled at most once, or it is first handled in a later second |
| Restarts.RestartsWithinTheSecond | internal/controller/cert-manager/podrefresh_controller.go:330-332 | within the second of the renewal two restarts happen |
| Conditions.GetCondition | api/v3/commonservice_types.go:472-479 | finds the first condition of a type and message, or -1 |
| Conditions.CommonService.SetCondition | api/v3/commonservice_types.go:482-489 | replaces that condition or appends |
| Conditions.CommonService.UpdateConditionList | api/v3/commonservice_types.go:449-456 | sets the status of exactly the pending and reconciling conditions |
| Conditions.CommonService.SetPendingCondition | api/v3/commonservice_types.go:423-426 | one pending write |
| Conditions.CommonService.SetReadyCondition | api/v3/commonservice_types.go:429-433 | ends progress, then reports ready |
| Conditions.CommonService.SetWarningCondition | api/v3/commonservice_types.go:436-439 | one warning write |
| Conditions.CommonService.SetErrorCondition | api/v3/commonservice_types.go:442-446 | ends progress, then reports the error |
| Conditions.RunKeeps | api/v3/commonservice_types.go:422-489 | over any run of writes every condition keeps its place, type and message, and no two come to share them |
| Conditions.WriteIsRead | api/v3/commonservice_types.go:422-489 | a write is read back with its reason, message and time; every other condition stays as it was, except that ready and error writes end what is in progress |
| Conditions.NothingInProgress | api/v3/commonservice_types.go:428-456 | after a ready or error write nothing is in progress exactly when the write itself does not report progress |
| Conditions.PendingErrorStays | api/v3/commonservice_types.go:442-446 | a concrete error write after which something is in progress |

## Left out

- MergeMemory.Memory.MergeKey: one method for both merges, with the policy deciding where they differ; the code has
  one function for each.
- MergeEngine.ShrinkSize: values only; what the scaling does to the original is in `ShrinkMemory.ShrinkSize`. The reset,
  and the loops above the merges (`Services`, `SteadyState`, `Scaling`), are modelled on values as well.
- MergeEngine.ConfigMap.MergeChangedMapWithExtremeSize: values only, as above; `ScaleMemory.ScaleKey` has the sharing.
- ShrinkMemory.ShrinkSize: a slice is a value here, since no scaling writes into its elements; only the maps it refers to
  are updated.
- MergeEngine.ConfigMap.MergeChangedMap: the `directAssign` branches are absent because every caller passes false.
- MergeEngine.MergeCRsIntoOperandConfig: the `overwrite` parameter is absent because every caller passes false.
- ResourceComparison.LargerIsMaximum: quantity parsing, float parsing and Go's default formatting are parameters; a
  number is one real, without the difference between Go's integer and float types.
- SteadyState.TwoPathsAgree: `managementStrategy` and the other fields of a service are compared by neither side.
- OrderIndependence.SpecOrderIrrelevant: about sizes that lie on one scale in all CRs and at the end of a path whose
  maps and lists have one shape. `OrderDependence` also treats leaves that are not compared, and texts that do not
  parse. Settings of different scales side by side, and numbers beside texts that do not parse, have no order at all;
  for them there is only the example `OrderDependence.MixedScales`.
- Scaling.GetExtremeizes: how a CR is extracted is left out; it is given by whether it is being deleted, its size, and
  what the two extractions make of it, the second one for every size.
- FinalResources.ResourceOrderFreeIff: about resources whose CRs do not state an empty namespace, since the scaling
  looks such resources up differently from the merge.
- CrSummaries.BuildDesiredState: how the features of all CRs are collected is left out; they are an input.
- FinalConfig.OperandConfig.Update: hashes are compared as values, and reading and writing the cluster always succeeds.
- ConfigMerger.MergeBaseAndCSConfigs: of the YAML and JSON conversions only the failure to parse the base is modelled.
- TemplateLaws.SpecOfTemplate: about the first template entry of a name; for a repeated one see
  `TemplateLaws.SpecSettingWins` and `TemplateLaws.FirstEntryWins`.
- TemplateLaws.ResourceOfTemplate: about the first template resource of an identity in such an entry; a repeated one is
  filled from what the CR's resource has become (`TemplateLaws.FirstResourceWins`).
- SizeTemplates.FillSizeTemplate: null entries of a template list are left out, and specs are values; what template and
  user share in memory is in `FillMemory.FillSpec`.
- VersionGate.Store.CreateOrUpdateFromYaml: an object is its version, its spec and two marks; a version is its parsed
  parts. Owner references, and failing calls to the cluster, are left out, as is the special case that replaces only
  annotations and spec of the CA certificate, since version and spec are all that is modelled.
- NamespaceMaps.ConfigMap.UpdateCsMaps: the stored text is decoded data; YAML errors and access reviews are left out.
- NamespaceMaps.ConfigMap.GetCsScope: a set instead of a list in random order.
- OperandConfigs.Unstructured.MergeOperandConfigs: copies made of nested fields are values here.
- PodRefresh.VerifySecretReady: PEM and X.509 parsing is left out; a secret is in one of the states the code tells apart,
  and a certificate is its validity period. Delays are whole nanoseconds, which the code's floats represent exactly.
- Restarts.GetDeploymentsNeedUpdate: deployments only; StatefulSets and DaemonSets repeat the code. Label times are
  parsed and formatted by a parameter.
- Conditions.CommonService.SetReadyCondition: times are strings from outside.
- Dynamic channels (`processdDynamicChannels`), feature extraction, Kubernetes calls, discovery,
  subscriptions, webhooks, templates and hashing are not part of this model.

# Addon operator: a verified model

The operator turns an `Addon` into an Argo CD `Application`, with values gathered from `AddonValue`
objects and switched by the rules of an `AddonPhase`; an `AddonClaim` keeps an `Addon` in a remote
cluster and reports it back. This project models the controllers and the engines under them in Dafny
and proves what they keep, for every input, every interleaving and every run.

`dafny verify dfyconfig.toml` checks everything.

## How it is built

**The shared-object protocol.** `AddonModel` is one state machine: the Addon controller, the AddonPhase
controller, users, Argo CD and lagging caches over a versioned store. Every object keeps all its versions;
a cached read shows the version at a view that only moves forward; an update names the version it read
and conflicts if it is stale; a merge patch carries no version. Each Get, Update, Patch, Create and Delete
is a step of its own, each controller reconciles its key serially and may fail anywhere.
`FinalizerSafety`, `LatchSafety`, `DeployedRules`, `Ownership`, `CreationGate` and `ReadyWrites` prove
invariants of every run; `Deletion` proves the order of a deletion, and `Exits` how each reconcile ends and what
it then reports. `Latches` and `RuleLatches` say exactly which writes withdraw a Deployed, `PhaseRounds` when the
AddonPhase controller stops writing, `PhaseRelease` when a deleted AddonPhase leaves its selectors behind.
`AddonLimits`, `PhaseLimits`, `CreationLimits` and `ReleaseLimits` drive Addons, rules and Applications through
whole histories: they show that the states the theorems speak of are reached, and end where the latches, the
gates, the verdict and the clearing fail. `MergePatch` is the patch format itself (section 2 of RFC 7396), and
`PatchRefinement` ties the protocol's patch steps to it. `Controllers` holds the loops and in-place code behind
single steps.

**The claim.** `ClaimModel` is the AddonClaim controller against a remote cluster, `ClaimSafety` and
`ClaimVersions` what its published version promises, `ClaimLatches` exactly which writes empty it, `ClaimExits` what
a paused claim does not do and how a reconcile ends, `ClaimLimits` the reachable states in which it promises too
much. `RemoteRefinement` proves that the remote cluster used there is what `AddonModel` looks like from outside;
`EndToEnd` runs the claim and the full protocol together.

**Engines.** `Rules` and `RuleHistory` (rule evaluation, its memo, and latching over runs),
`Dependencies` (the creation gate), `Documents`, `Labels`, `Sorting`, `Aggregation`, `Fnv` (values),
`Applications` (the Argo CD Application and the reading of its status), `DynamicWatch` and `WatchCounts`
(watch reference counts), `RemoteCache` and `CacheRaces` (remote clients and backoff), `Paths` (the path
language), `Conditions` (the condition state machine).

Objects whose methods change fields are classes, loops are loops, and each such method is proved equal to
a function of its inputs and old state; the theorems are about those functions and the runs made of them. What
an answer means is stated over fields, inputs and the outcomes of reads, not through the function that gives it.

## Where the code and its comments differ

The model follows the code. Each of these has a counterexample, a reachable one where it is about runs,
and a condition under which the promise does hold.

- `status.deployed` and a rule's `Deployed` are called latching, but both controllers overwrite the whole
  status from the snapshot a reconcile began with. A write withdraws `status.deployed` exactly when the stored
  Addon has it, the snapshot does not and the reconcile did not end Synced and Healthy
  (`Latches.WriteWithdrawsIff`); a write drops a rule's Deployed exactly when the stored status has it, the
  start version does not and this evaluation did not earn it (`RuleLatches.WriteDropsIff`). A run latches iff
  it has no such write. Runs that have one: `AddonLimits.StaleStartWithdraws`,
  `PhaseLimits.StaleStartWithdrawsRule`.
- "Never clear an already published version" (`internal/controller/addonclaim/controller.go:601`) fails in
  the same way (`ClaimLimits.StaleStartEmpties`), for exactly the writes of `ClaimLatches.WriteEmptiesIff`.
- An Application that exists but is not in view ends a reconcile without a translation, on the Synced and
  Healthy it began with: Ready for a spec that Argo CD never compared
  (`CreationLimits.InvisibleApplicationReadsReady`; `ReadyWrites.ReadyIff` says when).
- Both gates before the creation of an Application are passed over when their read shows one, and so when it
  shows a stale one: a re-created Addon can get its Application behind no gate
  (`CreationLimits.StaleViewOpensGate`). `CreationGate.CreationIsGatedIff` says exactly which creations are
  gated.
- Deletion of an AddonPhase is to clear its selectors in the Addon, but the clearing patch is computed from the
  cached Addon: selectors stay behind exactly when that read missed them (`PhaseRelease.ReleaseLeavesIff`), as
  in a reachable history (`ReleaseLimits.StaleClearLeavesSelectors`).
- The loop that updates an Application converges iff the Addon has no namespace labels, annotations or ignored
  paths that are present and empty (`Applications.StoreConvergesIff`): Go's `reflect.DeepEqual` tells them
  apart from absent ones, and the store does not.
- A failed remote read keeps the old `Ready`, and then publishes a version no remote reconcile has reached
  (`ClaimLimits.FailedReadPublishes`); a remote Addon that is replaced while it is reconciled reads as Ready
  for a spec nobody reconciled (`ClaimLimits.ReplacedAddonReadsReady`).
- "Exactly one primary condition is True" (`pkg/conditions/types.go:19-21`) fails precisely for resources
  paused while not degraded (`Conditions.PrimariesExclusive`), and after `EnsureAllConditions` on partial
  conditions (`Conditions.EnsureExactIff`).
- `DeepMerge` is not associative; `Documents.AssociativeIff` says when it is.
- `ExactMatchAddonLabels` alone is not equality of label maps; `Labels.ExactMatchAloneIff` says when it is.
- After a hard `EnsureWatch` error the tracker and the counters disagree; `WatchCounts.HardErrorUnbalances`
  says for which kinds, and `WatchCounts.BalancedIffClean` that nothing else unbalances them.
- The memo of a rule evaluation joins the parts of a source with a separator; `Rules.KeyUniqueIff` says which
  sources then share an entry with another.

## Model

| member | source | states |
|---|---|---|
| FinalizerSafety.LiveApplicationHasFinalizer | internal/controller/addon/controller.go:272-348 | in every reachable state of the protocol, with any number of deletions and re-creations, a stored Application that is not being deleted has a stored Addon that carries the finalizer |
| FinalizerSafety.StepKeeps | internal/controller/addon/controller.go:161-169 | one step of any party keeps the handshake: the finalizer is only ever removed from a deleting Addon the cache has shown, and after the delete call no Application is live |
| Deletion.ReleaseInOrder | internal/controller/addon/controller.go:272-330 | in every run the step that takes the finalizer of the stored Addon away comes after three others of its own reconcile, in this order: it began from an Addon being deleted with the finalizer, left no Application that is not being deleted, and read that there was none |
| Deletion.LetGoStays | internal/controller/addonphase/controller.go:179-222 | an AddonPhase being deleted never gets its finalizer back: it stays without, or it is gone |
| LatchSafety.VerdictIsOneTranslation | internal/controller/addon/controller.go:481-484 | in every reachable state the stored (Synced, Healthy, observed hash) is untouched or comes whole from one translation, of an Application whose source is the Addon's own and carries the values aggregated under the hashed selectors, in helm.values or in the plugin's HELM_VALUES |
| LatchSafety.AddonStepKeeps | internal/controller/addon/controller.go:395-484 | no step of the Addon controller mixes parts of two verdicts, in the store or in its own draft |
| DeployedRules.DeployedWasVerified | internal/controller/addonphase/controller.go:264-287 | in every reachable state each rule reported as Deployed has an earlier translation behind it: status.sync Synced, status.health Healthy, compared to exactly the one source it carries, which was stored and has the aggregated values, under selectors that hash like the list its selector was active in |
| DeployedRules.EvaluationTraced | internal/controller/addonphase/controller.go:147-159 | one evaluation and latch gives Deployed only to rules that had it by name or matched now under a fitting verdict |
| Ownership.TwoHistories | internal/controller/addon/controller.go:101-116 | over any stretch of history without an AddonPhase write the phase selectors stay, without an Addon controller write all the rest of the status stays |
| Ownership.RunOwned | internal/controller/addonphase/controller.go:224-260 | every version in a reachable history differs from the one before only in what its writer owns |
| MergePatch.PatchRoundTrip | internal/controller/addonphase/controller.go:235-238 | applying the patch between two documents yields the second exactly when each of its nulls was already in the first |
| MergePatch.NestedPatch | internal/controller/addonphase/controller.go:224-260 | a patch of one nested member, computed from any cached copy with the outer member and applied to any live object, even one without it, changes that member alone, or nothing if the copy already had the value |
| PatchRefinement.PatchRefines | internal/controller/addonphase/controller.go:224-260 | for every JSON form, the merge patch computed from the cached Addon and applied to the stored one yields the encoding of the protocol's patched Addon |
| CreationGate.CreationIsGatedIff | internal/controller/addon/controller.go:161-241 | every creation of every run: the Addon read was neither deleting nor paused, the dependencies were met and the hash is not empty, stored, and from an aggregation of an earlier reconcile, iff the dependencies were met though the check saw an Application and the hash was stable though the later look saw one |
| CreationGate.CreationIsGated | internal/controller/addon/controller.go:161-241 | so every creation by a reconcile whose two reads saw no Application |
| CreationGate.FirstCreationSawNone | internal/controller/addon/controller.go:226-241 | the first creation of a run is always by such a reconcile; the first one for a re-created Addon need not be |
| CreationLimits.StaleViewOpensGate | internal/controller/dependencies/checker.go:57-86 | for every plain Addon and every spec with a dependency for the Addon re-created after it, a reachable history creates the new Application with no dependency met and no stored hash |
| CreationLimits.InvisibleApplicationReadsReady | internal/controller/addon/controller.go:241-267 | for every two plain specs a reachable history is Ready at the generation of the second while its only Application was never compared |
| ReadyWrites.ReadyIff | internal/controller/addon/controller.go:241-267 | in every run a status about to be written is Ready iff its own reconcile read status.sync Synced and status.health Healthy, compared to exactly the one source, of an Application for the spec it started from, or found the Application invisible and had started Synced and Healthy |
| ReadyWrites.ReadyVerifiedIff | internal/controller/addon/controller.go:395-484 | a Ready status was verified in its own reconcile iff that did not end on an invisible Application |
| ReadyWrites.StoredReadyAccounted | internal/controller/addon/controller.go:226-267 | every stored Ready goes back to a version of the observed generation and to one of these two events for its spec |
| Exits.EndsIff | internal/controller/addon/controller.go:164-269 | a step ends a reconcile under way, with a status to write, in exactly four ways: values or Application failed, paused, waiting for dependencies or stable values, or the closing decision |
| Exits.DegradedIff | internal/controller/addon/controller.go:164-269 | in every run a status about to be written was decided by one step of its own reconcile: Degraded iff that step failed, or the start version was Degraded and the reconcile was paused or closed without Synced and Healthy; and then not Ready |
| Exits.OnlyChangesAreWritten | internal/controller/addon/controller.go:486-511 | in every run a status equal to the one its reconcile read is written only for a part of it not modelled here |
| Exits.PhaseEndsIff | internal/controller/addonphase/controller.go:120-177 | a reconcile of an AddonPhase goes on to write its statuses, or its conditions alone, in exactly these cases |
| Exits.PhaseReleasesIff | internal/controller/addonphase/controller.go:179-260 | a deleted AddonPhase goes on to give up its finalizer exactly when no Addon is in view or its clearing patch was taken, and again after a conflict |
| Latches.WriteWithdrawsIff | internal/controller/addon/controller.go:101-116 | in every reachable state the status write at hand withdraws status.deployed iff the stored Addon has it, the snapshot does not, and the reconcile did not end Synced and Healthy |
| Latches.LatchesIff | internal/controller/addon/controller.go:101-116 | over any run status.deployed latches from each version to the next iff no step is such a write |
| Latches.AddonDeployedLatches | internal/controller/addon/controller.go:101-116 | if reconciles start from a cache with the controller's own writes, status.deployed is never withdrawn while the Addon exists |
| RuleLatches.WriteDropsIff | internal/controller/addonphase/controller.go:77-96 | in every reachable state the status write at hand drops a rule's Deployed iff the stored status has it, the start version does not or has no such rule, and this evaluation did not match the rule under a fitting verdict |
| RuleLatches.RuleLatchesIff | internal/controller/addonphase/controller.go:77-96 | over any run, edits of the rules included, a rule's Deployed latches from each version to the next iff no step is such a write |
| RuleLatches.RuleDeployedLatches | internal/controller/addonphase/controller.go:77-96 | from a status write that gave a rule Deployed it stays, whatever else is edited, as long as a rule of that name is there and later reconciles start from a cache that shows that write |
| PhaseRounds.ThirdRoundSameIff | internal/controller/addonphase/controller.go:147-177 | after two rounds on an unchanged cluster, from any statuses and with any verdicts, a reconcile would store the same statuses again iff no matched rule waits for a verdict that now fits |
| PhaseRounds.ReconcileWritesNothingIff | internal/controller/addonphase/controller.go:120-177 | such a reconcile, of an AddonPhase whose selectors the Addon already has, ends without writing anything iff that is so and no other part of its status changed |
| PhaseRelease.ReleaseLeavesIff | internal/controller/addonphase/controller.go:246-260 | in every run a released AddonPhase leaves selectors in the Addon iff its last read to clear them found no Addon or one without selectors, while the stored one had some, and that one is still there |
| ReleaseLimits.StaleClearLeavesSelectors | internal/controller/addonphase/controller.go:246-260 | for every such scene a reachable history has no AddonPhase any more and its selector still in the Addon |
| AddonLimits.StaleStartWithdraws | internal/controller/addon/controller.go:101-116 | for every plain Addon a reachable history becomes Ready and Deployed and then loses Deployed to a stale start |
| PhaseLimits.StaleStartWithdrawsRule | internal/controller/addonphase/controller.go:77-96 | for every such scene a reachable history has a rule matched, patched into the Addon, verified and Deployed, and then loses Deployed to a stale start though its rules are unchanged |
| Controllers.Store.ApplyStatus | internal/controller/addon/controller.go:101-116 | under any interference a success is exactly one write, of the desired status with the phase selectors of the version right before it, and a failure writes nothing |
| Controllers.Store.Update | internal/controller/addon/controller.go:105-115 | an update succeeds only directly on the version it read |
| Controllers.LocalAddon.TranslateApplicationStatus | internal/controller/status/translator.go:40-105 | healthy iff status.health is Healthy; synced iff status.sync is Synced, neither side has several sources, and the source compared to is the one of the spec and not blank; and the hash of the phase selectors |
| Controllers.LocalAddon.Close | internal/controller/addon/controller.go:255-267 | the three flags it moves, each in terms of the ones before: ready and deployed are raised only on Synced and Healthy, an older Degraded is otherwise kept; nothing else changes |
| Controllers.LatchDeployedRules | internal/controller/addonphase/controller.go:264-287 | the in-place loop gives Deployed to exactly the matched rules, and only when the Addon read has these selectors and their hash, Synced and Healthy; it changes nothing else |
| ClaimSafety.PublishedWasReconciled | internal/controller/addonclaim/controller.go:264-289 | in every run, Ready after a successful remote read means a remote reconcile of exactly the read generation ended Ready; the read spec is the rendered one, and so is the reconciled one unless the object was replaced in between |
| ClaimSafety.GenerationNamesSpec | internal/controller/addonclaim/controller.go:735-741 | within the life of one remote object equal generations mean equal specs |
| ClaimSafety.VersionEmptyIff | internal/controller/addonclaim/controller.go:576-606 | exactly when a synchronisation leaves no version, and that Ready is the snapshot's when the read failed |
| ClaimSafety.VersionNeverEmptied | internal/controller/addonclaim/controller.go:601-651 | annotation kept, version set, reconciles that see the controller's own last write: a published version is never emptied |
| ClaimLatches.WriteEmptiesIff | internal/controller/addonclaim/controller.go:601-651 | annotation kept, version set: the status write at hand empties the published version iff the snapshot had none and the reconcile did not find Ready |
| ClaimLatches.VersionLatchesIff | internal/controller/addonclaim/controller.go:601-651 | over any such run published versions are kept, from each claim version to the next, iff no step is such a write |
| ClaimExits.RemoteWritesAreUnpaused | internal/controller/addonclaim/controller.go:106-158 | in every run what the claim controller does in the remote cluster it does for a claim that was neither paused nor being deleted when its reconcile began |
| ClaimExits.OnlyChangesAreWritten | internal/controller/addonclaim/controller.go:106-158 | in every run a claim status about to be written differs from the one read, observes the generation read, and of a paused claim says no more than that |
| ClaimExits.EndsIff | internal/controller/addonclaim/controller.go:106-158 | a reconcile under way goes on to write a status exactly when it cannot render or connect, cannot read or write the remote Addon, or has read it back |
| ClaimVersions.StoredVersionTraced | internal/controller/addonclaim/controller.go:576-606 | in every run each stored version was published by the synchronisation recorded for it, which held Ready; that very Ready was read, by itself or by the one its snapshot had it from, with the evidence of a remote reconcile that ended Ready |
| EndToEnd.JointRunCoherent | internal/controller/addonclaim/controller.go:264-289 | every run of the claim together with the full Addon protocol is a run of both models, which agree on the remote Addon |
| EndToEnd.ReadyWasVerified | internal/controller/addonclaim/controller.go:549-568 | in every joint run, Ready after a successful read: the read spec is the rendered one, and at its generation Argo CD reported Synced and Healthy of an Application for it, or that Application was invisible; of the same spec unless the Addon was replaced |
| EndToEnd.StoredVersionWasVerified | internal/controller/addonclaim/controller.go:576-606 | so for every claim version ever stored: about the spec rendered by the synchronisation that published it, or, if that could not read, by the one whose Ready its snapshot carried |
| ClaimLimits.FailedReadPublishes | internal/controller/addonclaim/controller.go:549-557 | a reachable state has published a version that the remote Addon has not observed |
| ClaimLimits.StaleStartEmpties | internal/controller/addonclaim/controller.go:637-651 | a reachable state has emptied a published version of an unchanged claim |
| ClaimLimits.ReplacedAddonReadsReady | internal/controller/addonclaim/controller.go:735-741 | a reachable state has published for a spec on a conclusion about another object |
| ClaimModel.LocalClaim.SyncRemoteAddonStatus | internal/controller/addonclaim/controller.go:549-568 | ready iff the remote is ready at its own generation; Deployed and the two generations copied; a failed read changes nothing |
| ClaimModel.LocalClaim.SyncExternalStatus | internal/controller/addonclaim/controller.go:576-606 | with the annotation, managed, both initialized flags what the remote deployed, and the version that of the claim when ready, else the old one; without it, none of them |
| RemoteRefinement.RunRefines | internal/controller/addon/controller.go:486-511 | every run of the full Addon protocol, seen through spec, generation and reported status, is a run of the remote cluster the claim is modelled against |
| RemoteRefinement.AddonStepRefines | internal/controller/addon/controller.go:136-270 | each step of the Addon controller is one of its steps or none, and a concluded status names the generation its reconcile started from |
| Rules.EvalContext.ResolveSource | internal/controller/rules/evaluator.go:118-144 | answers every source with the one read made under its key, and remembers every read that did not fail |
| Rules.EvalContext.EvaluateCriterion | internal/controller/rules/evaluator.go:285-357 | a match iff a document was found and its path is absent as asked, there as asked, or compares; a failure iff the read, the extraction or the comparison failed; else a mismatch with its reason |
| Rules.EvalContext.EvaluateRule | internal/controller/rules/evaluator.go:256-283 | the outcome over all criteria, the same in every snapshot that extends the answers given |
| Rules.EvalContext.EvaluateRules | internal/controller/rules/evaluator.go:188-231 | with its memo, over a cluster that may change between reads, the evaluation equals that of one snapshot: each source with the one read made under its key |
| Rules.PlainAnswered | internal/controller/rules/evaluator.go:118-144 | a source without the separator in a component is answered with a read of itself |
| Rules.KeyInjective | internal/controller/rules/evaluator.go:118-144 | a source without the separator in a component shares its memo key with no other source |
| Rules.KeyUniqueIff | internal/controller/rules/evaluator.go:118-144 | and only such a source: any other shares its key with one |
| Rules.KeyCollision | internal/controller/rules/evaluator.go:118-144 | for example, these two sources share a key |
| RuleHistory.EvaluationReports | internal/controller/rules/evaluator.go:188-283 | every field of every status of a successful evaluation: matched iff all criteria that still count hold, latched, message, Deployed kept, evaluation time; and the active selectors are those of the matched rules in rule order |
| RuleHistory.EvaluationFailsIff | internal/controller/rules/evaluator.go:188-283 | the evaluation fails iff for some rule the first criterion that counts and does not hold could not be read, extracted or compared |
| RuleHistory.LatchClosedForm | internal/controller/rules/evaluator.go:188-281 | over any run a rule is matched at t iff all its criteria held at some s up to t and its keep=false criteria held at every later step up to t, where holding is said by the reads, the extraction and the comparison |
| RuleHistory.KeptRuleStaysMatched | internal/controller/rules/evaluator.go:242-283 | a rule whose criteria are all kept stays matched once matched |
| RuleHistory.FixedPointAfterTwoRounds | internal/controller/rules/evaluator.go:199-228 | on an unchanged cluster, whatever is latched, matched rules are fixed after one round, and a third evaluation changes no status, evaluation times included |
| RuleHistory.JudgeAllMatches | internal/controller/rules/evaluator.go:256-283 | stopping at the first mismatch decides the conjunction of the criteria still evaluated |
| Dependencies.CheckDependency | internal/controller/dependencies/checker.go:88-113 | satisfied iff the dependency exists and every criterion has its path and is there, null or compares as asked; an error iff the first unmet read or criterion fails |
| Dependencies.CheckDependencies | internal/controller/dependencies/checker.go:57-86 | open iff there is nothing to wait for, or the Application is visible, or it is absent and all dependencies are met; an error iff that read or the first unmet dependency fails |
| Documents.MergeAtPath | internal/controller/values/aggregator.go:166-201 | the merged document, path by path: the overlay's node, nothing below an overlay leaf, else the base's node |
| Documents.MergeUnique | internal/controller/values/aggregator.go:166-201 | that description determines the merge |
| Documents.RightAbsorption | internal/controller/values/aggregator.go:166-201 | merging the same overlay twice changes nothing |
| Documents.Idempotent | internal/controller/values/aggregator.go:166-201 | merging a document into itself changes nothing |
| Documents.AssociativeIff | internal/controller/values/aggregator.go:166-201 | associative iff at each path with a map, a non-map and a map, the first adds nothing to the third |
| Documents.NotAssociative | internal/controller/values/aggregator.go:166-201 | a concrete triple on which it is not |
| Documents.MergeAllConcat | internal/controller/values/aggregator.go:69-78 | on shape-compatible documents merging group by group is one flat merge |
| Documents.LastWriterWins | internal/controller/values/aggregator.go:125-138 | at every path a flat merge has the node of the last document that has one |
| Labels.SelectsIsEquality | internal/controller/values/aggregator.go:97-118 | server-side subset match and exact match together select iff both agree on every label with the prefix addons.in-cloud.io/ |
| Labels.ExactMatchAloneIff | internal/controller/values/aggregator.go:233-251 | the exact match alone is that equality for every resource iff no addon label of the selector has an empty value |
| Sorting.SortSorts | internal/controller/values/aggregator.go:60-67 | the sort is an ordered permutation |
| Sorting.SortStable | internal/controller/values/aggregator.go:65-67 | selectors of equal priority keep their order |
| Sorting.SortedUnique | internal/controller/values/aggregator.go:121-123 | without ties every correct sort gives the same sequence |
| Sorting.NameLeqIff | internal/controller/values/aggregator.go:121-123 | a name comes before another iff at the first position where they differ it ends or has the smaller character |
| Aggregation.AggregateForSelector | internal/controller/values/aggregator.go:97-141 | list, filter, sort and merge compute the specification, first error included |
| Aggregation.AggregateValues | internal/controller/values/aggregator.go:60-81 | the same over all selectors in priority order, with a list call for each |
| Aggregation.AggregateFailsIff | internal/controller/values/aggregator.go:60-141 | the aggregation fails iff some chosen value does not render, with the error of the first one in the order (priority, spec before phase and position, name) |
| Aggregation.TwoStagesChoose | internal/controller/values/aggregator.go:97-118 | the two matching stages choose exactly the values with the selector's addon labels |
| Aggregation.AggregateOrderIndependent | internal/controller/values/aggregator.go:60-141 | the result does not depend on the order of any of the list calls |
| Aggregation.GroupingIsFlat | internal/controller/values/aggregator.go:69-78 | per-selector grouping equals one flat fold on shape-compatible documents |
| Aggregation.AggregateLastWriterWins | internal/controller/values/aggregator.go:60-141 | every leaf is that of the last document defining it in that order |
| Aggregation.HighestPriorityWins | internal/controller/values/aggregator.go:60-141 | on shape-compatible documents every path is won by a value of the highest priority that has it; among equals the last in the order spec then phase, and within one selector the greatest name |
| Aggregation.SelectorOrder | internal/controller/values/aggregator.go:60-95 | the selectors are a permutation of spec and phase by ascending priority, those of one priority in the order spec then phase |
| Aggregation.AddonMatchesValue | internal/controller/addon/controller.go:674-684 | true iff some selector of spec or phase matches the value exactly |
| Aggregation.MapperCoversAggregate | internal/controller/addon/controller.go:650-692 | a create, delete or update whose old and new objects are both ignored by the mapper leaves the aggregate as it is |
| Fnv.Fnv1aHex | internal/controller/values/aggregator.go:288-297 | the accumulator loop computes the printed hash of the byte-by-byte definition |
| Fnv.KnownHashes | internal/controller/values/aggregator.go:288-297 | read as a number, the printed hashes of no byte and of one byte 0x61 are the published FNV-1a values |
| Fnv.StepBijective | internal/controller/values/aggregator.go:288-297 | each byte step is a bijection on the 64-bit states |
| Fnv.SuffixNeutral | internal/controller/values/aggregator.go:288-297 | a common suffix neither creates nor removes a collision |
| Fnv.OneByteNeverCollides | internal/controller/values/aggregator.go:288-297 | equal-length inputs that differ in exactly one byte never collide |
| Fnv.HexInjective | internal/controller/values/aggregator.go:288-297 | the printed digits determine the state |
| Fnv.SelectorsHash | internal/controller/values/aggregator.go:276-286 | empty exactly for the empty list |
| Fnv.SelectorsCollideIff | internal/controller/values/aggregator.go:276-286 | two selector lists have one hash iff both are empty, or neither is and their encodings collide |
| Applications.Application.UpdateSpec | internal/controller/argocd/application.go:70-276 | chart, path, repository and revision are the Addon's; the values are in helm.values or, as base64, in the plugin's HELM_VALUES; project, three kinds of destination, sync policy with the default retry; two labels; the finalizer exactly if asked for; all else untouched |
| Applications.UpToDateCarries | internal/controller/argocd/application.go:285-395 | an Application that needs no update carries the Addon's source and exactly these values |
| Applications.CarriedValuesUnique | internal/controller/argocd/application.go:76-88 | as base64 is injective, a source carries at most one text of values, whichever Addons it is read for |
| Applications.NeedsUpdateIsProjection | internal/controller/argocd/application.go:285-395 | an update is needed iff the managed projection differs from the desired one |
| Applications.NeedsUpdateIff | internal/controller/argocd/application.go:285-395 | NeedsUpdate is false iff UpdateSpec would leave the managed projection unchanged |
| Applications.UpdateConverges | internal/controller/argocd/application.go:257-276 | in memory one update converges, from every existing Application |
| Applications.StoreConvergesIff | internal/controller/argocd/application.go:285-395 | through the store an update converges iff no namespace metadata and no ignored difference of the Addon is present and empty |
| Applications.EmptyLabelsNeverConverge | internal/controller/argocd/application.go:285-395 | empty namespace labels: an update is needed after every update |
| Applications.UpdateKeepsForeign | internal/controller/argocd/application.go:257-276 | foreign labels and finalizers survive, status and termination are untouched |
| DynamicWatch.Tracker.SetGVKs | internal/controller/dynamicwatch/tracker.go:61-78 | the table, and a diff that leads from the old set to the new |
| DynamicWatch.Tracker.RemoveAddon | internal/controller/dynamicwatch/tracker.go:94-106 | removes the Addon and returns what it tracked |
| DynamicWatch.Tracker.GetAllGVKs | internal/controller/dynamicwatch/tracker.go:109-121 | the union over all Addons |
| DynamicWatch.WatchManager.EnsureWatch | internal/controller/dynamicwatch/manager.go:103-158 | counts an existing watch; a new one is active if it started and pending if its kind is missing; an error, and no entry, exactly for a hard failure of a new one |
| DynamicWatch.WatchManager.ReleaseWatch | internal/controller/dynamicwatch/manager.go:161-181 | counts down by one and forgets the watch with its last reference; no other watch moves |
| DynamicWatch.WatchManager.GetPendingGVKs | internal/controller/dynamicwatch/manager.go:184-196 | exactly the pending kinds, each once |
| DynamicWatch.WatchManager.RetryPendingWatch | internal/controller/dynamicwatch/manager.go:222-254 | activates a pending watch without touching its count; an error iff it stays pending |
| WatchCounts.CleanRunBalanced | internal/controller/addon/controller.go:739-813 | in every run without a hard error, for every kind: count == trackers - ensures still due + releases still due + bootstrap |
| WatchCounts.RegisteredStaysWatched | internal/controller/addon/controller.go:739-781 | a kind an Addon has finished registering keeps its watch whatever other Addons do |
| WatchCounts.QuietStateExact | internal/controller/addon/controller.go:637-645 | between reconciles the watches are exactly the tracked and bootstrapped kinds, with exact counts |
| WatchCounts.ReferencesConserved | internal/controller/dynamicwatch/manager.go:103-181 | over any collection of kinds the total of references is conserved |
| WatchCounts.HardErrorUnbalances | internal/controller/addon/controller.go:751-758 | a hard error breaks the law for exactly the kinds whose ensure or release it abandons |
| WatchCounts.BalancedIffClean | internal/controller/addon/controller.go:739-813 | the law holds for every kind after every prefix of a run iff the run is without a hard error |
| WatchCounts.HardErrorLosesAWatch | internal/controller/addon/controller.go:751-758 | a run after which an Addon is tracked for good without a watch |
| RemoteCache.Cache.GetOrCreate | internal/controller/addonclaim/remoteclient/cache.go:90-123 | undisturbed, the cached client of this key and version or a new one, cached on success only |
| RemoteCache.Cache.Insert | internal/controller/addonclaim/remoteclient/cache.go:107-122 | a client inserted meanwhile for the same key and version wins over the one just built |
| RemoteCache.Cache.EvictIdle | internal/controller/addonclaim/remoteclient/cache.go:225-234 | the loop removes exactly the clients idle for longer than the maximum |
| RemoteCache.Cache.CheckHealth | internal/controller/addonclaim/remoteclient/cache.go:127-142 | blocks iff the last unreachable failure plus the backoff for their number is still to come |
| RemoteCache.Cache.HandleError | internal/controller/addonclaim/controller.go:294-320 | keeps the record a function of the attempts; only unreachability moves it |
| RemoteCache.Cache.HandleSuccess | internal/controller/addonclaim/controller.go:276-282 | a success clears it |
| RemoteCache.FailuresSinceSuccess | internal/controller/addonclaim/remoteerr.go:57-81 | the count is the number of unanswered attempts after the last success, and the time that of the last of them |
| RemoteCache.BackoffExact | internal/controller/addonclaim/remoteclient/cache.go:165-180 | wrap-around included, the backoff is the lesser of 15s doubled per further failure and 15 minutes |
| RemoteCache.OverflowsOnce | internal/controller/addonclaim/remoteclient/cache.go:170-177 | among the shifts computed, the 64-bit product overflows for 30 alone, and is negative there |
| RemoteCache.BackoffMonotone | internal/controller/addonclaim/remoteclient/cache.go:165-180 | more failures never wait less |
| CacheRaces.CachedWasSupplied | internal/controller/addonclaim/remoteclient/cache.go:90-123 | under any interleaving each cached client was built from a kubeconfig supplied for its key and version |
| CacheRaces.ReturnedWasSupplied | internal/controller/addonclaim/remoteclient/cache.go:90-123 | and so was each returned client |
| CacheRaces.CacheTransparent | internal/controller/addonclaim/remoteclient/cache.go:90-123 | if a resource version determines the data, every call gets a client of its own kubeconfig |
| Paths.FindClosingBracket | internal/controller/sources/extractor.go:189-219 | the loop finds the first bracket that closes the outermost one outside quotes, or -1 if there is none |
| Paths.PrintedPathWalks | internal/controller/sources/extractor.go:118-187 | printing any list of expressible segments and extracting by it is walking the list, error cases included |
| Paths.AtoiIff | internal/controller/sources/extractor.go:165-177 | a segment is a list index exactly when it is an optional sign and decimal digits within 64 bits, and which one |
| Paths.UnclosedBracket | internal/controller/sources/extractor.go:118-140 | a bracket that nothing closes is an error, whatever it is read from |
| Paths.SetNested | internal/controller/sources/extractor.go:246-268 | the loop that walks down and writes as it goes leaves the specified tree, on failure too |
| Paths.SetFailsIff | internal/controller/sources/extractor.go:246-268 | setting fails exactly when a proper prefix of the path ends at something other than a map, and then leaves the tree as it was |
| Paths.SetReadsBack | internal/controller/sources/extractor.go:246-268 | otherwise the path reads back the value and every unrelated path is as before |
| Paths.SetThenExtract | internal/controller/sources/extractor.go:58-72 | a value stored under a dotted key is found again by the path of that key |
| Conditions.Manager.Set | pkg/conditions/manager.go:228-241 | updates the first condition of the type in place or appends one |
| Conditions.Manager.SetCondition | pkg/conditions/manager.go:127-133 | sets the condition True or False, its own time kept iff the status stays |
| Conditions.Manager.SetReady | pkg/conditions/manager.go:82-86 | afterwards Ready is True with the reason and message given, Progressing False and Degraded False, each with its own time kept iff its status stays; no other condition moves |
| Conditions.Manager.SetProgressing | pkg/conditions/manager.go:98-102 | the same with Ready False, Progressing True, Degraded False |
| Conditions.Manager.SetDegraded | pkg/conditions/manager.go:114-118 | the same with Ready False, Progressing False, Degraded True |
| Conditions.Manager.EnsureAllConditions | pkg/conditions/manager.go:176-213 | the loop adds exactly the missing primary conditions, with their default status, reason and message |
| Conditions.PutFind | pkg/conditions/manager.go:226-241 | a set changes its own condition only, its transition time iff the status changes |
| Conditions.EnsureExactIff | pkg/conditions/manager.go:169-213 | from any conditions, when exactly one primary is True afterwards |
| Conditions.PartialStateCanDouble | pkg/conditions/manager.go:169-213 | Ready alone leads to two primaries True |
| Conditions.PrimariesExclusive | pkg/conditions/types.go:19-26 | in every history the one primary that is True is that of the last decision, or Progressing while there is none; a pause since takes Ready and Progressing away: at most one, and none iff paused while not degraded |
| Conditions.HistoryUnique | pkg/conditions/manager.go:228-241 | no resource ever has two conditions of one type |
| Conditions.TransitionTimeIsStreakStart | pkg/conditions/manager.go:32-37 | a transition time is that of the first set in the present streak of equal statuses |
| Conditions.SlowRetryIff | internal/controller/addonclaim/remoteerr.go:85-94 | read back from the stored condition alone, the retry takes 30 seconds iff there is a present streak of failed syncs and it is three minutes old, and else 5 |

## Left out

- Clients, informers, manager setup, events, logs, probes and health checks: input and output. The store, its versions and the delayed caches are kept.
- YAML, JSON, Go templates, regular expressions, JSONPath, base64 and the hashing of values: total functions or outcomes passed in as parameters, with an error result where the code has one.
- Argo CD itself: it may report any verdict at any time, but truthfully about a source that was stored. Equality of application sources is plain equality.
- Comparison operators of criteria, floating point included: a criterion matches, does not match or fails.
- Webhook checks: used only as preconditions where stated (unique rule names).
- Criteria that find their source by label selector, and informers' cache misses of typed objects: a source is read by its four-part name.
- Moving the Application to another backend namespace: one Application per Addon.
- Finalizers of the AddonClaim and its own deletion steps: deletion of the remote Addon is a step that may happen at any time.
- The wrapped texts of errors: an error carries one message.
- Clock readings: one per evaluation or call, passed in.
- Nil and empty in the Addon itself: its own typed updates, which re-serialise the spec, are not part of this model; module Applications keeps absent and empty apart where the code compares them.
- Custom primary conditions, and the reasons and times of conditions inside the protocol: module Conditions treats the default ones on their own.
- The template cache, the GVK resolver, generated code, commands, tests and deployment files: thin.
- Paths.SetNested: gives the tree the loop leaves as a value; sharing of an extracted sub-map with later writes is not captured.
- Rules.EvalContext.EvaluateRules: two sources that share a key share one read, as in the code; Rules.KeyUniqueIff says which do.
- ClaimSafety.PublishedWasReconciled: does not exclude that the remote Addon was replaced during the reconcile; ClaimLimits.ReplacedAddonReadsReady shows that it can be.
- EndToEnd.ReadyWasVerified: assumes that only the claim writes the spec of the remote Addon; its users may pause and delete it.
- DynamicWatch.WatchManager.EnsureWatch: does not model start times of watches, which nothing reads.
- Controllers.Store.ApplyStatus: five attempts without waiting; the back-off delays of the retry helper are not part of this model.

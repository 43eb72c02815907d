# LiteLLM operator: verified protocols

A Dafny model of the concurrent and reconciling core of a Kubernetes operator that projects custom
resources onto a LiteLLM proxy. LiteLLM is an unreliable remote store: any call may fail, a failed
call may still have taken effect, status writes may be lost, and other writers act in between. The
modules prove what the operator's protocols keep over every such run.

| module | what it models |
|---|---|
| `ListCache` | the TTL cache in front of LIST, with its single-flight and invalidation epoch, as interleaved critical sections |
| `ConnectionFanout`, `ConnectionGate` | the connection snapshot: edge-triggered fan-out with whole methods as steps, and the 401 storm gate at the grain of single atomic operations |
| `ModelRows` | the Model reconcile loop (probe, prune, adopt, delete-and-recreate, status) and its deletion path against LiteLLM's rows |
| `ChurnGuard`, `RecreateBreaker` | the recreate breaker, alone and in the loop |
| `CanonicalJson` | the printer behind every drift hash, with a parser that inverts it |
| `DiscoveryAdoption`, `DiscoveryPartition` | a Discovery's children: optimistic concurrency against users who take children over, and the sorting of candidates into lists |
| `DiscoveryAliases`, `AliasAggregate`, `RouterSettings`, `AliasController`, `AliasPipeline` | the alias pipeline: rule expansion, chunking, aggregation, read-merge-write, finalizers, and the whole of it |
| `TeamGrant`, `GroupBudget` | exact results over an API that merges |
| `TeamList`, `Normalize` | exhaustive pagination and name normalization |
| `Text`, `Wrappers` | string order, sorting, decimal rendering; shared types |

Pattern: a step or pass is a function from state to state (`Step`, `Pass`, `Apply`); where the source
updates fields in place, a class or a method with loops is proved equal to that function; theorems
then quantify over all runs of it. Randomness of the environment (fates of calls, staleness of
reads, orders of listings) is an argument, so a statement for all arguments is a statement for all
environments. One reconcile per key is under way at a time, as the controller runtime arranges.

## Where a promise does not hold as written

Each of these keeps the code as it is, shows the failing case and proves when the promise holds.

- A waiter's channel is the in-flight one or closed (list_cache.go): exactly unless its leader stands
  between reset and close; `InFlightOrClosedIff`, `ChannelBetweenResetAndClose`.
- `lastReady` agrees with the snapshot: with whole methods as steps always, `LastReadyAgrees`; at
  atomic grain, with nobody between two writes, exactly when the last store and the last flag write
  are not of two operations that crossed, `AgreesExactlyUncrossed`, hence whenever writes do not
  overlap, `SerialWritesAgree`. Two crossings: `PlaceholderAfterSwap`, `InvalidationInsideRebuild`.
- A steady Model CR has the row it renders: the loop compares with what it recorded, not with what is
  stored, and an update neither removes a parameter nor stores info; `StoredExactlyWhen` says exactly
  when a clean pass leaves the rendered body, `ExactOverRuns` that it does while every landed write is
  recorded, `RecordedRowIsLeft` that a change of the row alone is never repaired.
- Rows under a model name do not multiply: exactly on a server that does not acknowledge the deletion
  of a row it has not; `BoundExactlyWhen`, `AmplifiesWhenAbsenceIsAcked`.
- deletionPolicy Delete leaves no row: exactly when at most the targeted row was there,
  `DeleteLeavesNothing` and `StaleIdLeavesRow`.
- A Discovery never touches a child it does not own: an apply that read "not found" carries no
  precondition; `AdoptionSafety` and `TakeoverAfterNotFound`.
- A live candidate protects its owned child from the vanish step: `VanishedIff` gives the answers of
  the API server under which it does not; in the Model reconciler AlreadyExists is among them,
  `RetryableModelChildIsVanished`.
- Alias writes preserve every other router setting: exactly those nobody changed between GET and
  POST; `WriteKeepsKeyIff` and `LostUpdate`.
- A returning access group always defeats the short-circuit (comment of narrowAndPark): when the
  narrowing was recorded; otherwise `UnrecordedNarrowing` says exactly when not, and
  `NarrowedForGood` is such a run.
- One CR at a time writes a group's budget: save for a peer created after the ownership check in the
  writer's own creation second; `OnlyOwnerWrites`, `OutrankedWriter`.
- Normalized names are valid subdomains: `ValidExactlyWhen` reads off the id when, and
  `NotAlwaysSubdomain` is one that fails.

## Model

| member | source | states |
|---|---|---|
| `ListCache.ListCacheStore.Invalidate` | internal/litellm/list_cache.go:73-81 | drops the entry and bumps the epoch, nothing else |
| `ListCache.ListCacheStore.Enter` | internal/litellm/list_cache.go:94-127 | serves a fresh entry, joins the flight, or becomes leader and records the epoch |
| `ListCache.ListCacheStore.Publish` | internal/litellm/list_cache.go:142-151 | stores the result only if no invalidation came since the leader started |
| `ListCache.ListCacheStore.Release` | internal/litellm/list_cache.go:133-138 | resets the in-flight marker and leaves entry and epoch |
| `ListCache.ReadYourWrites` | internal/litellm/list_cache.go:73-153 | in every interleaving of callers, leaders, panics, cancellations and invalidations, a call that starts after an invalidation and is served gets a fetch begun after it, reflecting every write before it |
| `ListCache.OneLeader` | internal/litellm/list_cache.go:94-153 | in every reachable state at most one leader is between taking and resetting the marker |
| `ListCache.SelfFetchHasCause` | internal/litellm/list_cache.go:104-123 | a waiter that fetches for itself was let down by an invalidation after its leader started or by its leader's panic |
| `ListCache.NoStrandedWaiter` | internal/litellm/list_cache.go:104-138 | from any reachable state a waiter's channel is closed, or its leader's own remaining steps are enabled and close it |
| `ListCache.InFlightOrClosedIff` | internal/litellm/list_cache.go:104-138 | in every reachable state a waiter's channel is in flight or closed if and only if its leader is not between reset and close |
| `ListCache.ServedExactlyWhileYoung` | internal/litellm/list_cache.go:98-103 | over every run, on clock readings: a call is served at entry if and only if the last result stored and not dropped since is younger than the TTL, and gets that result |
| `ListCache.ChannelBetweenResetAndClose` | internal/litellm/list_cache.go:129-138 | a run in which it is neither |
| `ConnectionFanout.Cache.Read` | internal/connection/cache.go:106-111 | the stored snapshot, or the zero value before the first probe |
| `ConnectionFanout.Cache.Rebuild` | internal/connection/cache.go:128-150 | new snapshot, gate lowered, every open subscriber pending on a rising edge only |
| `ConnectionFanout.Cache.EmitRebuilt` | internal/connection/cache.go:164-178 | after the fan-out every subscriber channel holds exactly one event, unless closed |
| `ConnectionFanout.Cache.InvalidateOn401` | internal/connection/cache.go:212-244 | not-ready placeholder with the same client and a probe event, once per raised gate |
| `ConnectionFanout.Cache.Subscribe` | internal/connection/cache.go:284-290 | one more, empty, channel; the others unchanged |
| `ConnectionFanout.Cache.Start` | internal/connection/cache.go:310-321 | shutdown marks the cache closed, ends the channels and drops the subscribers |
| `ConnectionFanout.LastReadyAgrees` | internal/connection/cache.go:128-150 | after any sequence of operations lastReady equals the readiness readers see |
| `ConnectionFanout.EmitsExactlyOnEdges` | internal/connection/cache.go:142-178 | a subscriber's channel gains an event exactly when an open cache goes from not ready to ready |
| `ConnectionFanout.NoTransitionLost` | internal/connection/cache.go:152-178 | every transition is still pending for a subscriber or was followed by its consuming |
| `ConnectionFanout.PendingExactlyAwaited` | internal/connection/cache.go:164-178 | on an open cache a channel holds an event if and only if a transition since its subscription has not been consumed |
| `ConnectionFanout.ClosedIsSilent` | internal/connection/cache.go:310-321 | after shutdown no subscriber is sent anything |
| `ConnectionFanout.GateExactlyUnarmed` | internal/connection/cache.go:136-136 | while open the gate is up exactly between a 401 and the next Rebuild, over a not-ready snapshot |
| `ConnectionFanout.First401Probes` | internal/connection/cache.go:212-244 | a 401 on an open cache leaves it not ready; the first since a Rebuild, or ever, also leaves a probe pending, any other changes nothing |
| `ConnectionFanout.ProbeExactlyPending` | internal/connection/cache.go:212-244 | a probe is pending if and only if some first 401 has not had its probe received |
| `ConnectionFanout.ProbesBounded` | internal/connection/cache.go:128-150 | probe events never exceed Rebuilds plus one |
| `ConnectionFanout.InvalidationKeepsClient` | internal/connection/cache.go:218-230 | the client a snapshot carries survives any number of 401s |
| `ConnectionGate.StormBound` | internal/connection/cache.go:128-150 | over all atomic-step interleavings probe events sent never exceed gate resets plus one |
| `ConnectionGate.CapacityOne` | internal/connection/cache.go:239-242 | between two probe events that land, one is received |
| `ConnectionGate.NoLostProbe` | internal/connection/cache.go:212-244 | while open, a finished invalidator's probe is pending or was received after its placeholder was stored |
| `ConnectionGate.DuplicateIsCovered` | internal/connection/cache.go:217-244 | a caller turned away by the raised gate has the winner still at work or a probe since that raise |
| `ConnectionGate.AgreesExactlyUncrossed` | internal/connection/cache.go:128-150 | over all atomic-step interleavings, with no caller between its two writes, lastReady equals the snapshot's readiness if and only if no two operations of different readiness crossed in the last store and the last flag write |
| `ConnectionGate.CrossingOverlaps` | internal/connection/cache.go:134-149 | operations that cross overlap, and the one that wrote the flag last is a Rebuild, to ready if the other is a 401 |
| `ConnectionGate.SerialWritesAgree` | internal/connection/cache.go:212-230 | when no two operations' stretches between their two writes overlap, flag and snapshot agree at rest |
| `ConnectionGate.RebuildAlone` | internal/connection/cache.go:128-150 | the atomic steps of one Rebuild that runs alone give the fields of the coarse model and emit exactly when it fans out |
| `ConnectionGate.InvalidateAlone` | internal/connection/cache.go:212-244 | so do those of one InvalidateOn401, whether closed, turned away or winning |
| `ConnectionGate.PlaceholderAfterSwap` | internal/connection/cache.go:222-230 | a run that ends at rest with lastReady ready over a not-ready snapshot, the recovering Rebuild emitting nothing |
| `ConnectionGate.InvalidationInsideRebuild` | internal/connection/cache.go:134-146 | the same from a whole 401 between a Rebuild's gate reset and its swap, after an emit |
| `CanonicalJson.CanonicalMarshal` | internal/controller/model_controller.go:1106-1153 | prints exactly the canonical form, whatever order the maps are iterated in |
| `CanonicalJson.RoundTrip` | internal/controller/model_controller.go:1106-1153 | parsing the printed value gives back the value and leaves what follows, for every nesting |
| `CanonicalJson.Injective` | internal/controller/model_controller.go:1050-1056 | equal bytes if and only if equal values |
| `CanonicalJson.InfoBytes` | internal/controller/model_controller.go:1066-1077 | the canonical bytes of model_info without the operator's id |
| `CanonicalJson.InfoHashDetects` | internal/controller/model_controller.go:1058-1080 | the info bytes move exactly when model_info changes outside its id |
| `CanonicalJson.RenderedHashDetects` | internal/controller/model_controller.go:1050-1056 | the rendered bytes move exactly when parameters or info change |
| `Text.SortedKeys` | internal/controller/model_controller.go:1157-1167 | the one ascending enumeration of the keys, whatever the iteration order |
| `ModelRows.ModelReconciler.Reconcile` | internal/controller/model_controller.go:553-653 | one pass from probe to status does what `Pass` says for every choice of failures |
| `ModelRows.ModelReconciler.Prune` | internal/controller/model_controller.go:604-619 | deletes every listed row but the tracked one, carrying on after failures |
| `ModelRows.ModelReconciler.CreateOrAdoptModel` | internal/controller/model_controller.go:665-781 | looks the name up before creating; adopts a row it finds |
| `ModelRows.ModelReconciler.UpdateOrRecreateModel` | internal/controller/model_controller.go:782-845 | deletes before it recreates, and creates only on an acknowledged delete |
| `ModelRows.ModelReconciler.UpdateModel` | internal/controller/model_controller.go:782-804 | parameters merged key by key into a stored row, info never stored, 404 for one that is not |
| `ModelRows.ModelReconciler.WriteStatus` | internal/controller/model_controller.go:933-970 | the intended fields over the persisted ones, a recorded id never blanked, or nothing when the write is lost |
| `ModelRows.ModelReconciler.ClassifyMutationError` | internal/controller/shared_helpers.go:119-159 | a transient error leaves the status alone, any other is recorded |
| `ModelRows.PassBound` | internal/controller/model_controller.go:553-845 | one pass under any outcomes leaves at most max(1, rows before) rows |
| `ModelRows.NoAmplification` | internal/controller/model_controller.go:666-781 | over every run of failed, half-effective or repeated calls and lost status writes, the rows never exceed max(1, rows at the start) |
| `ModelRows.CleanPassRecords` | internal/controller/model_controller.go:622-653 | from any world a clean pass ends with the hash of the CR's render, its generation and an id |
| `ModelRows.CleanPassStores` | internal/controller/model_controller.go:622-845 | from a truthful record, the tracked row then holds the rendered body, or the merge over a row taken over |
| `ModelRows.StoredExactlyWhen` | internal/controller/model_controller.go:704-734 | the row is exactly the rendered body if and only if no row was taken over with other keys or another info; the rendered parameters are there in any case |
| `ModelRows.RecreatesExactlyWhen` | internal/controller/model_controller.go:784-802 | a clean pass replaces a stored row if and only if a parameter left the render or the info changed |
| `ModelRows.ExactOverRuns` | internal/controller/model_controller.go:553-845 | over every run with failing calls, vanishing rows and changing CRs in which landed writes are recorded and rows taken over fit, a clean pass leaves exactly the rendered body |
| `ModelRows.RecordedRowIsLeft` | internal/controller/model_controller.go:622-653 | while the CR is the one recorded no pass changes its row |
| `ModelRows.OpenBreakerCreatesNothing` | internal/controller/model_controller.go:687-703 | with the breaker open a pass over a CR that lost its row changes nothing in LiteLLM |
| `ModelRows.ProbesOnlyWithRecord` | internal/controller/model_controller.go:554-594 | without a recorded body the probe has no effect |
| `ModelRows.FailuresRecordGeneration` | internal/controller/shared_helpers.go:119-159 | an early failure or a refused create records the generation and nothing else, a transient error not even that |
| `ModelRows.TwoPassesConverge` | internal/controller/model_controller.go:553-619 | two clean passes from any rows and any status leave exactly one row, whose id, body and generation are recorded; from a truthful record the row holds the rendered body, or the merge over the row first taken over |
| `ModelRows.ConvergedIsStable` | internal/controller/model_controller.go:622-653 | from there no pass, whatever fails, changes rows or status |
| `ModelRows.IdNeverBlanked` | internal/controller/shared_helpers.go:207-212 | no pass turns a recorded id into none |
| `ModelRows.AmplifiesWhenAbsenceIsAcked` | internal/controller/model_controller.go:802-845 | on a server that acknowledges deleting an absent row, from every rows and every status the loop writes, some run exceeds max(1, rows at the start) |
| `ModelRows.BoundExactlyWhen` | internal/controller/model_controller.go:553-845 | the bound holds over all runs if and only if the server does not |
| `ModelRows.FinalizerGoesExactlyWhen` | internal/controller/model_controller.go:197-346 | the finalizer goes if and only if the server acknowledged the delete, or answered 404 for a row not stored, or listed none, or Orphan meets a permanent cause; after a confirmation the target is not stored |
| `ModelRows.FinalizerSafety` | internal/controller/model_controller.go:197-346 | in every run, others changing the rows at will between passes, the finalizer goes in one pass after which the target row is not stored, unless the policy is Orphan and that pass met a permanent cause |
| `ModelRows.DeleteLeavesNothing` | internal/controller/model_controller.go:225-323 | under Delete a removed finalizer leaves no row exactly when there was at most the targeted one |
| `ModelRows.ConvergedDeletesCleanly` | internal/controller/model_controller.go:225-265 | a converged CR deleted under Delete leaves no row |
| `ModelRows.StaleIdLeavesRow` | internal/controller/model_controller.go:238-243 | a stale tracked id is answered 404 and the live row outlasts the CR |
| `ChurnGuard.FilterInPlace` | internal/controller/churn_guard.go:73-78 | the filter within one array leaves the events after the cutoff, in order, at its front |
| `ChurnGuard.Guard.PruneLocked` | internal/controller/churn_guard.go:71-85 | a key keeps exactly its events after the cutoff, or is dropped; no other key changes |
| `ChurnGuard.Guard.Count` | internal/controller/churn_guard.go:89-96 | prunes to the window and returns the number left |
| `ChurnGuard.Guard.Record` | internal/controller/churn_guard.go:100-110 | prunes, then appends the new event |
| `ChurnGuard.Guard.Forget` | internal/controller/churn_guard.go:114-121 | drops one key's history and no other's |
| `ChurnGuard.CountIsExact` | internal/controller/churn_guard.go:71-110 | with a monotone clock the count on the pruned list is the count over the full history since the last Forget |
| `ChurnGuard.RateBound` | internal/controller/model_controller.go:687-703 | check-then-record admits at most `limit` recreates in any sixty-second window between Forgets |
| `RecreateBreaker.CreatesExactlyWhen` | internal/controller/model_controller.go:687-781 | a CR that has had a row gets another if and only if the breaker is closed, the name has none, and the create succeeds |
| `RecreateBreaker.RecreatesAreBounded` | internal/controller/model_controller.go:687-779 | over every run of the loop with its breaker at most `limit` rows are recreated in any sixty-second window |
| `DiscoveryAdoption.OwnedByThisDiscovery` | internal/controller/modeldiscovery_controller.go:1537-1546 | some controller reference has the parent's kind and uid |
| `DiscoveryAdoption.OwnedByDiscovery` | internal/controller/modeldiscovery_controller.go:1563-1570 | some reference of any role has the parent's uid |
| `DiscoveryAdoption.ClassifyAlreadyExists` | internal/controller/modeldiscovery_controller.go:1454-1520 | the class of the object read, from its first controller reference |
| `DiscoveryAdoption.OursExactlyOwned` | internal/controller/modeldiscovery_controller.go:1475-1503 | on an admissible object "ours" by first controller is ownership; "being deleted" is deleting and not owned; "explicit" is alive without a controller |
| `DiscoveryAdoption.AdoptionSafety` | internal/controller/modeldiscovery_controller.go:834-847 | in every interleaving with user writes and arbitrarily stale reads, an apply whose read found an object lands on that object, still owned; a vanish-delete lands only on an owned object; anything else was a "not found" read |
| `DiscoveryAdoption.AdoptedIsNeverApplied` | internal/controller/modeldiscovery_controller.go:714-751 | a name whose listed child is adopted is never applied in that pass |
| `DiscoveryAdoption.OwnedChildIsApplied` | internal/controller/modeldiscovery_controller.go:834-847 | in any state of any run a current read of an owned child is followed by an apply that lands on it |
| `DiscoveryAdoption.AbsentChildIsCreated` | internal/controller/modeldiscovery_controller.go:834-847 | a current read of a name nobody holds is followed by an apply that creates an owned, labelled child |
| `DiscoveryAdoption.TakeoverAfterNotFound` | internal/controller/modeldiscovery_controller.go:1463-1469 | a run in which an apply without precondition takes over a user's object |
| `DiscoveryPartition.ScanAdopted` | internal/controller/mcpserverdiscovery_controller.go:707-725 | the names of listed children no longer owned, as a set and as skip entries |
| `DiscoveryPartition.VanishLoop` | internal/controller/mcpserverdiscovery_controller.go:861-888 | deletes are attempted exactly on owned listed children outside the desired and adopted names |
| `DiscoveryPartition.Refresh` | internal/controller/mcpserverdiscovery_controller.go:707-888 | what every list of the refresh holds, for any answers of the API server |
| `DiscoveryPartition.ExactlyOneBucket` | internal/controller/mcpserverdiscovery_controller.go:742-830 | each candidate is in exactly one of adopted, skipped, generated, pending, failed; a ModelDiscovery may also drop it |
| `DiscoveryPartition.VanishedIff` | internal/controller/mcpserverdiscovery_controller.go:742-888 | for both reconcilers: an owned listed child is deleted if and only if its name was not skipped at the source and its candidate, if any, got the API answers that expose it |
| `DiscoveryPartition.DeletesAreOwned` | internal/controller/mcpserverdiscovery_controller.go:861-888 | every attempted delete targets an owned listed child outside generated, skipped, pending and adopted |
| `DiscoveryPartition.GeneratedExactlyApplied` | internal/controller/mcpserverdiscovery_controller.go:746-829 | a name is generated if and only if nothing of it was adopted, its name and rendering passed, the object read was absent or owned, and the apply was accepted |
| `DiscoveryPartition.McpVanishIsAnError` | internal/controller/mcpserverdiscovery_controller.go:754-826 | an owned MCP child with a candidate is deleted if and only if that candidate's read failed, or it read absent or owned and its apply was refused, or met AlreadyExists and a failed read |
| `DiscoveryPartition.RetryableModelChildIsVanished` | internal/controller/modeldiscovery_controller.go:888-899 | after AlreadyExists the Model reconciler deletes the owned child it just confirmed; the MCP one keeps it |
| `AliasAggregate.AggregateModelAliases` | internal/controller/modelalias_aggregate.go:84-109 | the aggregate of the entries of the CRs in key order |
| `AliasAggregate.DesiredExactlyNamed` | internal/controller/modelalias_aggregate.go:98-107 | an alias is desired if and only if some entry names it |
| `AliasAggregate.GreatestWins` | internal/controller/modelalias_aggregate.go:84-117 | its value is that of the entry with the greatest (namespace/name, index) naming it, and the winner is namespace/name#index of that entry |
| `AliasAggregate.EveryClaimListedOnce` | internal/controller/modelalias_aggregate.go:98-107 | losers and winner list every entry naming the alias exactly once and nothing else |
| `AliasAggregate.OrderIndependent` | internal/controller/modelalias_aggregate.go:93-97 | any order of the input gives the same aggregate |
| `AliasAggregate.EntryIdInjective` | internal/controller/modelalias_aggregate.go:111-117 | the identifier determines CR key and entry index |
| `AliasAggregate.ResolveCr` | internal/controller/modelalias_aggregate.go:57-73 | one row per entry: applied if and only if the entry is the winner, else pointing at the winner |
| `AliasAggregate.ExactlyOneApplied` | internal/controller/modelalias_aggregate.go:57-73 | of the entries naming an alias exactly one is applied, with the desired value, and every other names it |
| `DiscoveryAliases.BuildDiscoveryAliases` | internal/controller/modeldiscovery_aliases.go:36-85 | an error names the first pattern that does not compile; otherwise the chunks of the later-rule-wins map |
| `DiscoveryAliases.ApplyRule` | internal/controller/modeldiscovery_aliases.go:47-52 | one rule overwrites exactly the names it yields |
| `DiscoveryAliases.LaterRuleWinsUnique` | internal/controller/modeldiscovery_aliases.go:22-30 | the later-rule-wins specification determines the map |
| `DiscoveryAliases.ChunkLoop` | internal/controller/modeldiscovery_aliases.go:57-83 | chunk k holds sorted names 128k up to 128(k+1), in order |
| `DiscoveryAliases.ChunkSizes` | internal/controller/modeldiscovery_aliases.go:58-63 | every CR has between 1 and 128 entries |
| `DiscoveryAliases.NamesAppearOnce` | internal/controller/modeldiscovery_aliases.go:58-63 | no name stands in two CRs, nor twice in one |
| `DiscoveryAliases.ChunkKeysDistinct` | internal/controller/modeldiscovery_aliases.go:69-72 | the generated CRs have distinct keys |
| `DiscoveryAliases.ChunkingIsLossless` | internal/controller/modeldiscovery_aliases.go:54-83 | aggregating the generated CRs, in any listing order and whatever order their names sort in, gives back exactly the map, without a loser |
| `RouterSettings.GetRouterSettings` | internal/litellm/router_settings.go:22-56 | splits the object, or fails exactly when the alias map is neither absent, null nor an object of strings |
| `RouterSettings.UpdateRouterSettings` | internal/litellm/router_settings.go:62-78 | the extra keys with the alias object over them |
| `RouterSettings.SplitMerge` | internal/litellm/router_settings.go:16-78 | reading back what was written gives the alias map written and the other keys unchanged |
| `RouterSettings.MergeSplit` | internal/litellm/router_settings.go:58-61 | writing back what was read changes nothing |
| `AliasController.FilterAliveAliases` | internal/controller/modelalias_controller.go:162-170 | the CRs not being deleted, in order |
| `AliasController.NoOrphanEntries` | internal/controller/modelalias_controller.go:97-158 | in every run with lagging caches, user edits, deletions and half-effective calls: whenever the operator wrote last, every alias in LiteLLM is an entry of a CR still in the cluster under its finalizer, unless someone else removed that |
| `AliasController.FinalizerAfterWrite` | internal/controller/modelalias_controller.go:314-331 | a finalizer comes off only after an acknowledged write, in the same pass, of a map aggregated without that CR, and no later write is aggregated from it |
| `AliasController.WriteKeepsKeyIff` | internal/controller/modelalias_controller.go:130-147 | a write keeps another key if and only if nobody changed it between GET and POST |
| `AliasController.FrameOverRuns` | internal/controller/modelalias_controller.go:130-147 | over runs without another writer no key but the alias map ever changes |
| `AliasController.LostUpdate` | internal/controller/modelalias_controller.go:130-147 | a run in which another client's key is lost |
| `AliasPipeline.PostPublishes` | internal/controller/modelalias_controller.go:127-147 | in every state, a POST over living CRs that are the generated ones writes their map and keeps the rest as read |
| `AliasPipeline.RulesReachLiteLLM` | internal/controller/modeldiscovery_aliases.go:22-85 | a clean pass leaves LiteLLM with exactly the aliases the rules yield, each from the last rule that yields it, and every other setting as it was |
| `TeamGrant.ResolveNames` | internal/controller/shared_helpers.go:311-322 | ids of the names that resolve and the names that do not, in order, together all of them |
| `TeamGrant.IndexGroups` | internal/controller/team_controller.go:285-290 | the last listed row of a name gives its id and its models |
| `TeamGrant.AttachedGroupModels` | internal/controller/team_permission.go:67-82 | the ascending, duplicate-free plain models of the named groups |
| `TeamGrant.RenderBody` | internal/controller/team_controller.go:278-298 | the grant keys over the rest of the body, and the missing names |
| `TeamGrant.GrantedModels` | internal/controller/team_permission.go:39-82 | a model is granted if and only if it is the sentinel, or not empty, a wildcard or all-proxy-models and listed in the last row of an attached name |
| `TeamGrant.GrantedIds` | internal/controller/team_controller.go:285-292 | an id is attached if and only if it is that of the last row of an attached name |
| `TeamGrant.IndexedIsLast` | internal/controller/team_controller.go:285-290 | id and models of a name are those of the last row listed under it |
| `TeamGrant.RenderIgnoresOrder` | internal/controller/team_controller.go:291-294 | the order of spec.accessGroups does not reach the body |
| `TeamGrant.ExactRevocation` | internal/controller/team_permission.go:28-51 | from any earlier row a successful merge update leaves exactly the rendered grant |
| `TeamGrant.NeverOpen` | internal/controller/team_permission.go:10-51 | after any update models begins with the sentinel, agents is the sentinel, and the lists that fail closed are empty |
| `TeamGrant.OmittedKeepsStale` | internal/controller/team_permission.go:28-33 | a grant key omitted or sent as null keeps its stale value |
| `TeamGrant.TeamReconciler.NarrowAndPark` | internal/controller/team_controller.go:1030-1063 | a known team is narrowed unless that body is the one recorded; an unknown one is left |
| `TeamGrant.TeamReconciler.Reconcile` | internal/controller/team_controller.go:278-375 | one pass does what `Pass` says: narrow, short-circuit, or write and record |
| `TeamGrant.ReturnChangesHash` | internal/controller/team_controller.go:1027-1029 | a render with a missing group and one with all groups never hash alike |
| `TeamGrant.SteadyMeansExact` | internal/controller/team_controller.go:351-375 | over runs in which no landed write goes unrecorded, a short-circuit finds the row holding exactly the rendered grant |
| `TeamGrant.RecordedOnce` | internal/controller/team_controller.go:1044-1054 | a recorded render is not written again, narrowing or not |
| `TeamGrant.ReturnDefeatsShortCircuit` | internal/controller/team_controller.go:1030-1063 | after a recorded narrowing the pass that sees the group again writes |
| `TeamGrant.ExactIffLastLanded` | internal/controller/team_controller.go:351-375 | lost acknowledgements and statuses admitted, a short-circuit is right if and only if the last write that landed rendered the same grant |
| `TeamGrant.UnrecordedNarrowing` | internal/controller/team_controller.go:1047-1059 | an unrecorded narrowing is followed by a short-circuit exactly when the returning render was the one recorded before and the generation was observed, leaving the row narrowed |
| `TeamGrant.NarrowedForGood` | internal/controller/team_controller.go:1047-1063 | a run from an unknown team in which that happens |
| `GroupBudget.BudgetReconciler.Reconcile` | internal/controller/modelgroupbudget_controller.go:84-122 | the owner's pass does what `Pass` says; no other CR, and no unusable connection, causes a call |
| `GroupBudget.BudgetReconciler.Finalize` | internal/controller/modelgroupbudget_controller.go:146-179 | a duplicate drains without a call; the owner's finalizer goes exactly on an acknowledgement or an Orphan's permanent cause, if the update that removes it succeeds |
| `GroupBudget.PutSufficesIff` | internal/controller/modelgroupbudget_controller.go:181-199 | a PUT alone leaves limit, soft limit and period of the spec if and only if no field is set that the spec leaves unset |
| `GroupBudget.CleanPassStores` | internal/controller/modelgroupbudget_controller.go:99-108 | a pass that reports success leaves limit, soft limit and period of the spec, from any remote budget |
| `GroupBudget.NoCallExactlyWhen` | internal/controller/modelgroupbudget_controller.go:100-108 | a pass that reads the budget sends nothing if and only if the fields are those already |
| `GroupBudget.FailedDeleteStops` | internal/controller/modelgroupbudget_controller.go:102-107 | a DELETE that fails is not followed by a PUT |
| `GroupBudget.ConvergesAfterFailures` | internal/controller/modelgroupbudget_controller.go:99-122 | after any history of failed passes, a DELETE without its PUT included, one clean pass leaves the fields of the spec, and no later pass changes them |
| `GroupBudget.HeldIsStable` | internal/controller/modelgroupbudget_controller.go:101-108 | once the fields are those of the spec no later pass sends a write |
| `GroupBudget.IsOwner` | internal/controller/modelgroupbudget_controller.go:128-142 | no peer is older, or as old with a smaller name |
| `GroupBudget.ExactlyOneOwner` | internal/controller/modelgroupbudget_controller.go:125-142 | every non-empty set of peers has exactly one owner |
| `GroupBudget.OnlyOwnerWrites` | internal/controller/modelgroupbudget_controller.go:67-179 | in every run of reconciles and deletions of any peers, a step that changes the budget is that of the owner at its check, still owner but for a same-second newcomer |
| `GroupBudget.OutrankedWriter` | internal/controller/modelgroupbudget_controller.go:128-142 | a run in which the writer has been outranked since its check |
| `GroupBudget.FinalizerGoesExactlyWhen` | internal/controller/modelgroupbudget_controller.go:146-179 | in any state a deleting CR's finalizer goes if and only if its update succeeds and an older peer was seen, or the DELETE was acknowledged, or Orphan met a permanent cause |
| `GroupBudget.FirstActOnlyMarks` | internal/controller/modelgroupbudget_controller.go:80-83 | a living CR without the finalizer only gets it |
| `TeamList.ListTeamsByAlias` | internal/litellm/team.go:78-118 | the exact-alias rows of all pages up to the first that ends the listing; without such a page an error |
| `TeamList.ListConsistent` | internal/litellm/team.go:99-118 | for a server with a consistent total, or short last page without one, every exact match or an error, never a truncation |
| `TeamList.ChooseTarget` | internal/controller/team_controller.go:392-486 | the update goes to the least team_id over all pages; create only when there is none |
| `Normalize.NormalizeIsNormal` | internal/normalize/normalize.go:55-62 | only allowed characters, no double dash, alphanumeric ends |
| `Normalize.MappedAt` | internal/normalize/normalize.go:56-58 | after the first three steps each character is its lower case where allowed, else a dash |
| `Normalize.FixedExactlyNormal` | internal/normalize/normalize.go:55-62 | an id is left alone if and only if it is in normal form |
| `Normalize.Idempotent` | internal/normalize/normalize.go:55-62 | normalizing twice is normalizing once |
| `Normalize.CoreSurvives` | internal/normalize/normalize.go:55-62 | the letters and digits of the lower-cased id all survive, in order |
| `Normalize.ValidExactlyWhen` | internal/normalize/normalize.go:64-85 | the result is a DNS-1123 subdomain if and only if the id holds a letter or digit, its part between the outermost of them less repeated dashes fits 253 characters, and each dot in there has alphanumeric neighbours |
| `Normalize.NotAlwaysSubdomain` | internal/normalize/normalize.go:41-43 | an id whose normal form is no subdomain |

## Left out

- HTTP transport, redaction, request building and decoding; a call is a step with a class of result.
- Metrics, events, logs, condition messages and requeue intervals.
- SHA-256: two hashes are taken to be equal exactly when the hashed bytes are.
- Numbers in canonical JSON are kept as the tokens that denote them; strings that are not valid UTF-8 are not modelled.
- The disabled LIST cache (TTL zero) and the agents endpoint, whose cache is a copy of the MCP one.
- The subscriber fan-out at the grain of single atomic operations; `ConnectionGate` covers gate, snapshot and probe channel there.
- Regular expressions: whether a pattern compiles and matches are arguments of the alias rules.
- The loops that filter a listing by model name and skip rows without an id (internal/litellm/model.go): the model's rows all carry the name and an id; setDiff is a set difference.
- Router pseudo-models, which LiteLLM does not list.
- Keys are those of the top level, as sortedKeys collects them; the API reference speaks of dotted paths.
- Secret substitution, deletionpolicy.Resolve and the conflict package; the policy is a two-valued input.
- The reconcilers for A2A agents, MCP servers, toolsets, access groups and guardrails, close copies of the Model loop.
- The drain of a deleted Discovery, which selects children by label alone.
- syncDiscoveryAliases, the API calls that store and prune the generated alias CRs.
- The team reconciler's existence probe and recreate breaker, which mirror those of the Model loop, and the implicit default team.
- Budgets and rate limits in a team's body are part of an arbitrary rest of the body.
- Server-side apply is modelled on owner references, label and deletion mark only.
- ModelRows.ModelReconciler.CreateOrAdoptModel: whether the recreate breaker is open is an input here; `RecreateBreaker` takes it from the guard, between Forgets.
- TeamGrant.TeamReconciler.Reconcile: does not model the existence probe, so the row is one that stays or is found by its alias.
- AliasController models the pass as a state machine of API calls rather than as a class, because other writers act between its statements; status rows are `AliasAggregate.ResolveCr`.
- Watches, predicates, indexers and manager wiring.

# OntoDecide CE: verified models of the domain core

OntoDecide CE keeps its domain rules in pure packages and makes every change through guarded,
atomic statements on D1. This project models the parts where those two meet and proves what they
keep: over every input, every interleaving and every crash that the code allows for.

Check it with `dafny verify dfyconfig.toml` (Dafny 4.11).

## Contents

| files | about |
|---|---|
| `Common`, `Sorting` | values, sequences, a stable sort |
| `MergeProps` | latest-wins merging and merge patches |
| `UpsertPlanner`, `UpsertStore`, `UpsertMeaning`, `UpsertLinks`, `UpsertReplay`, `UpsertLoading`, `UpsertCommit`, `UpsertEvents` | the batch planner, the store it refines, what one command means, replay, what it loads, the guarded commit and its event |
| `Propagation`, `PropagationForm`, `PropagationSum`, `PropagationEdges` | impact propagation: the queue loop, distances, the closed form, all three along the slice's own edges |
| `DecisionTable`, `DecisionProtocol`, `DecisionTheorems`, `DecisionMeaning`, `DecisionService` | deciding and executing a recommendation across two services, as a protocol, field by field, and as the code runs it |
| `ActionEffects`, `ActionMeaning` | effects of an action as one patch and one link delta, and what each effect does |
| `ArchiveText`, `ArchiveBudget`, `ExportPaging`, `ExportRuns`, `ArchiveSaga`, `GraphPurge` | the archive: keyset export, staging, assembly, the byte budget, the saga, the purge |
| `JaroWinkler`, `SimilarityMeaning`, `DraftMatching`, `DraftMeaning`, `RowMapping`, `RowMeaning` | the import path: name similarity, the mapping draft, the mapping of rows |
| `ImportJobs`, `ImportBatches`, `ImportMeaning`, `ImportRuns`, `ImportService` | jobs and their tables, concurrent submissions, what holds only one at a time, the service code |
| `EventSplit`, `Outbox`, `Maintenance` | events: splitting, at-least-once delivery, the cron |
| `JsonLogic`, `JsonMeaning` | the bounded expression evaluator, and what each kind of expression means |

Code that loops and assigns is modelled by methods with loops, and each is proved equal to a
function that the theorems are about. Tables and repositories are classes; a SQL statement or
batch is one atomic step guarded by its WHERE clause. A protocol is a state machine over the
awaits of its callers, and its theorems quantify over all lists of events. Functions that an algorithm
and its reference share are pinned down in the `…Meaning` modules and `PropagationEdges`, by index,
field or column and without the functions themselves.

## How to read the models

- Object and link keys are datatypes instead of concatenated texts. `KeyTextInjective` shows when
  that is the same; identifiers that are only compared are numbers.
- Numbers are reals; rounding and NaN are not modelled. Texts are bytes, one character per byte.
- Property validation, coercion, JSON and number conversion, name normalization and hashes are
  function parameters: only their being functions is used.
- A table ordered by its key is a sorted sequence of rows.
- Reading past the end of a string compares with `undefined` in the source and therefore fails;
  the common-prefix loop of the Jaro-Winkler score states that as a bound.

## What the proofs found

Each of these is a lemma at a concrete input, next to the exact condition under which the code keeps
what its comments or its design promise.

- `DecisionTheorems.LostExactlyWhenCallerDies`, `CrashAfterBegin`: a crash between `beginExecution`
  and `finishExecution` leaves a recommendation Confirmed for ever, even when its action was carried
  out, because a stalled row is recognised by `execAttempts === 0` only
  (`packages/decision/application/recommendations.ts:145`).
- `UpsertEvents.RedeliveryRepeats`, `StoredRowMayExceedDelivery`: the comment at
  `packages/object-graph/application/upsert_objects.ts:154` says the stored outbox row holds the
  same subset as the message. It may hold more, when a second mention returns a link to its stored
  weight. `Outbox.FirstCopyWins`: a consumer that deduplicates by id then never sees the further change.
- `UpsertCommit.CapsHoldExactly`, `CapMayBeExceeded`, `LinkCapMayBeExceeded`: an update of an object or
  link that was removed after planning puts it back without asking for room, so a total can pass its cap.
- `ImportRuns.TotalKeptExactly`, `TotalCanOverrun`, `KeysOnceExactly`, `KeyAcceptedTwice`,
  `RowsFollowOnExactly`, `RowsNumberedTwice`: the reserved row total, the accepted keys and the rows
  before a batch are read before the commit, so concurrent submissions can exceed the first, repeat
  the second and number rows alike.
- `ExportRuns.CutMarksExactly`, `LinksLostUnmarked`: when the part budget ends the object-graph export
  early, only the file of the last page is marked as truncated; later files are missing unmarked.
- `ArchiveSaga.MailBeforeDeletion`, `UntoldDeletion`: data is deleted without an accepted mail exactly
  when the mail step gave up after `archiveDays`, which the code does on purpose.
- `ArchiveSaga.AccountGoes`, `RowOutlivesAccount`: the account is deleted after five separate counts,
  so a row that arrives in a service after its count outlives the account.
- `JsonLogic.NeverThrowsExactly`, `ToStringThrows`: an accepted expression can still throw, exactly
  when some path into the data leads to an object with a field `toString`, or to a list holding one,
  which the language cannot convert to a text or number.
- `JsonLogic.LogicVarsMiss`: `logicVars` does not list paths in defaults, computed paths or the
  whole data.
- `EventSplit.SplitLaws`: an oversized event without changes would be split into no message.
- `ActionEffects.DeltaIsTheEffects`, `RelinkKeepsWeight`: relinking an object that is already linked
  keeps the stored weight, while the effects one by one would leave none.
- `ActionEffects.DeltaAtCommit`, `RelinkMissesNewLink`: the commit of an action is guarded by the version
  of its target, which links do not change; a link added meanwhile stays beside that of a relink.
- `ActionEffects.SnapshotsUndoAndRedo`: clearing a property stored as null removes it without logging
  a change.

## Model

| member | source | states |
|---|---|---|
| MergeProps.MergeLatestWins | packages/object-graph/domain/conflict_resolution.ts:39-55 | the loop computes the latest-wins merge of the entries in order, from an empty state when there is none |
| MergeProps.MergeValues | packages/object-graph/domain/conflict_resolution.ts:39-55 | a supplied non-empty value is stored; every property without one keeps its value |
| MergeProps.MergeMarks | packages/object-graph/domain/conflict_resolution.ts:39-55 | `changed` names, once each, exactly the properties whose value differs, and only they get the new provenance |
| MergeProps.MergeMeaning | packages/object-graph/domain/conflict_resolution.ts:34-55 | values, change marks and provenance of a merge together, property by property |
| MergeProps.MergeAgain | packages/object-graph/domain/conflict_resolution.ts:39-55 | merging the same record a second time, from any source, changes nothing |
| MergeProps.MergePatchIdempotent | packages/object-graph/domain/conflict_resolution.ts:61-70 | applying a merge patch (section 2 of RFC 7396) twice is applying it once, at every depth |
| MergeProps.PatchByMember | packages/object-graph/domain/conflict_resolution.ts:61-70 | what a patch leaves of one member: null takes it away, anything but an object replaces it, an object is merged into it, and a member it does not name is kept |
| UpsertPlanner.KeyTextInjective | packages/object-graph/domain/entity_resolution.ts:84-87 | when type names do not hold the separator U+001F, two object keys are equal exactly when their texts are, so the model may use keys instead of texts |
| UpsertPlanner.LinkTextInjective | packages/object-graph/domain/entity_resolution.ts:89-92 | the same for link keys, when identifiers and link types do not hold the separator |
| UpsertPlanner.SortedRejects | packages/object-graph/domain/entity_resolution.ts:290-291 | rejections come out by row, none lost or added, in their old order within a row |
| UpsertPlanner.LoadExisting | packages/object-graph/domain/entity_resolution.ts:104-116 | the stored objects become the working map |
| UpsertPlanner.PlanCmd | packages/object-graph/domain/entity_resolution.ts:127-219 | one command of the object phase: unknown type, invalid values, cap, creation, merge and journal |
| UpsertPlanner.RunObjectPhase | packages/object-graph/domain/entity_resolution.ts:127-219 | the object phase over all commands is the fold of its step |
| UpsertPlanner.PlanLink | packages/object-graph/domain/entity_resolution.ts:225-287 | one link mention: bad definition, missing reference, repeat, known link, cap or new link with its ordinal |
| UpsertPlanner.RunLinkPhase | packages/object-graph/domain/entity_resolution.ts:221-289 | the link phase over the accepted commands, after all objects, is the fold of its step |
| UpsertPlanner.PlanUpsert | packages/object-graph/domain/entity_resolution.ts:104-292 | the imperative planner computes the plan that the theorems below speak of |
| UpsertStore.MirrorAll | packages/object-graph/domain/entity_resolution.ts:127-219 | through the whole object phase the working map and the plan stay the image of a store that handles one command at a time |
| UpsertStore.ApplyMirrored | packages/object-graph/domain/entity_resolution.ts:127-219 | writing the planned objects to the starting store gives the store that handled the commands one by one |
| UpsertStore.PlanRefinesStore | packages/object-graph/domain/entity_resolution.ts:104-292 | applying a plan equals upserting command by command; the total never shrinks and never passes the larger of start and cap; the new ordinals are exactly 1 to n |
| UpsertStore.TotalCapped | packages/object-graph/domain/entity_resolution.ts:177-181 | the one-at-a-time store keeps the object cap |
| UpsertStore.TallyAll | packages/object-graph/domain/entity_resolution.ts:127-219 | counts, rejections, accepted commands and the journal of each planned object are those of the one-at-a-time outcomes |
| UpsertMeaning.PreparedExactly | packages/object-graph/domain/entity_resolution.ts:127-157 | a command is refused for an unknown type, then for an empty trimmed key, then for the errors of validating the non-empty values it gives, with the key filled in where it is missing; else it goes on under its type and trimmed key |
| UpsertMeaning.TrimLaws | packages/object-graph/domain/entity_resolution.ts:133-133 | trimming takes the white space off both ends and nothing else |
| UpsertMeaning.JoinCommaLaws | packages/object-graph/domain/entity_resolution.ts:154-154 | the details of a rejection are joined with one comma between two |
| UpsertMeaning.NewObjects | packages/object-graph/domain/entity_resolution.ts:165-191 | a command for an unknown key is denied exactly when some required property has no non-empty value among the validated ones, naming all of these in order, or else when there is no room; otherwise the object is stored under the next identifier |
| UpsertMeaning.StoredByCommand | packages/object-graph/domain/entity_resolution.ts:158-219 | property by property: a value given is stored with the source of its row, everything else stays; the command writes exactly when something differs or the object is new, and the title is the title property's value or the key |
| UpsertMeaning.NewObjectsAreComplete | packages/object-graph/domain/entity_resolution.ts:165-191 | every object that a plan creates holds a non-empty value for each required property of its type |
| UpsertMeaning.ChangedExactly | packages/object-graph/domain/entity_resolution.ts:216-218 | a planned object lists, once each, exactly the properties that some command of the batch changed on it |
| UpsertMeaning.MentionPlace | packages/object-graph/domain/entity_resolution.ts:223-224 | the mentions are those of the accepted commands, command by command and link by link, each with its row, type and object |
| UpsertMeaning.ResolvedExactly | packages/object-graph/domain/entity_resolution.ts:225-247 | a mention links its object to the one of the named type and key exactly when the link type is declared between the two types and that object is known; else it is told which of the two fails |
| UpsertLinks.LinkMirrorAll | packages/object-graph/domain/entity_resolution.ts:221-289 | the planned links mirror a link store that handles one mention at a time |
| UpsertLinks.LinkTotalCapped | packages/object-graph/domain/entity_resolution.ts:268-275 | the one-at-a-time link store keeps the link cap |
| UpsertLinks.LinksRefineStore | packages/object-graph/domain/entity_resolution.ts:221-291 | applying the planned links equals handling the mentions one by one; each link is planned once, totals stay capped, ordinals are 1 to n |
| UpsertReplay.UpsertAppend | packages/object-graph/domain/entity_resolution.ts:127-219 | upserting a then b is upserting a ++ b, outcomes included |
| UpsertReplay.OnlyNamedMatter | packages/object-graph/domain/entity_resolution.ts:104-292 | stored objects that a batch neither upserts nor links to, and stored links that start elsewhere than at its accepted commands with links, do not change its plan |
| UpsertReplay.SplitAsLoaded | packages/object-graph/domain/entity_resolution.ts:127-219 | planning a, writing it and planning b gives the objects, counts and object rejections of planning a ++ b at once, wherever the batch is cut, on whatever inputs agree with the store on what they name |
| UpsertReplay.OneOutcomeEach | packages/object-graph/domain/entity_resolution.ts:127-219 | every command is upserted, skipped or rejected exactly once, and each planned object lists exactly its rows and changes |
| UpsertReplay.ReplayAll | packages/object-graph/domain/entity_resolution.ts:104-219 | a batch with distinct targets, replayed on the store it produced, repeats its rejections and skips everything else |
| UpsertReplay.ReplayLinks | packages/object-graph/domain/entity_resolution.ts:221-289 | link mentions with distinct targets, replayed on the links they produced, plan nothing and reject the same |
| UpsertReplay.ReplayIsQuiet | packages/object-graph/domain/entity_resolution.ts:104-292 | replaying a batch with distinct keys and distinct link mentions plans nothing, rejects the same, and skips exactly what was upserted or skipped |
| UpsertReplay.MentionsAreDistinct | packages/object-graph/domain/entity_resolution.ts:221-240 | distinct targets per command make the resolved mentions distinct, whatever the references resolve to |
| UpsertReplay.RetriedBatchIsQuiet | packages/object-graph/domain/entity_resolution.ts:104-292 | the same, from conditions on the batch alone |
| UpsertLoading.CollectKeys | packages/object-graph/application/upsert_objects.ts:48-56 | the loops collect the trimmed, non-empty keys of the commands and of their link targets |
| UpsertLoading.LoadingIsEnough | packages/object-graph/application/upsert_objects.ts:48-87 | the plan made on the loaded objects and links is the plan made on the whole workspace, when keys are stored trimmed, links start at stored objects and new identifiers are new |
| UpsertLoading.SplitAnywhereLoaded | packages/object-graph/application/upsert_objects.ts:48-87 | a batch may be cut anywhere, each part planned on what it loads itself: the same objects, counts and object rejections |
| UpsertCommit.PlanChanges | packages/object-graph/domain/entity_resolution.ts:294-310 | the event names the changed objects first, then each other link source once with no properties |
| UpsertCommit.CapsHoldUnderConcurrency | packages/object-graph/infrastructure/d1_object_writer.ts:79-200 | whatever other batches wrote or removed since planning, totals pass the larger of start and cap by at most the planned rows that vanished meanwhile; no row is lost and no link dangles |
| UpsertCommit.CapsHoldExactly | packages/object-graph/infrastructure/d1_object_writer.ts:79-200 | told from the plan and the tables before the commit: the object cap holds exactly when no planned object vanished or all fit with the vanished ones back; the link cap exactly when no planned link between present objects vanished or those fit beside the new ones |
| UpsertCommit.CapMayBeExceeded | packages/object-graph/infrastructure/d1_object_writer.ts:79-200 | a concrete batch whose object was cleared away and replaced while it was planned, and whose commit takes the total to cap + 1 |
| UpsertCommit.LinkCapMayBeExceeded | packages/object-graph/infrastructure/d1_object_writer.ts:164-200 | the same for links: a link whose weight is set was removed and replaced meanwhile, and comes back beyond the cap |
| UpsertCommit.LinksJoinObjects | packages/object-graph/infrastructure/d1_object_writer.ts:79-200 | no committed link dangles |
| UpsertCommit.Reconcile | packages/object-graph/application/upsert_objects.ts:117-142 | counts and rejections after comparing the plan with what the statements report as written |
| UpsertCommit.RowsPartition | packages/object-graph/domain/entity_resolution.ts:195-219 | the rows listed by the planned objects are exactly the commands that wrote |
| UpsertCommit.ReconciledRowsAddUp | packages/object-graph/application/upsert_objects.ts:117-142 | after reconciliation upserted, skipped and rejected rows of the object phase still add up to the batch, whatever was written |
| UpsertCommit.TypeBetweenDots | packages/object-graph/domain/entity_resolution.ts:305-305 | the type of a link source is what stands between the first two dots of its identifier, or nothing without a dot |
| UpsertCommit.LostObjectsExactly | packages/object-graph/application/upsert_objects.ts:126-136 | reconciling adds one rejection for each row of a new object that was not written, and no other |
| UpsertCommit.LostLinksExactly | packages/object-graph/application/upsert_objects.ts:137-141 | and one for each new link that was not written |
| UpsertEvents.RowCommitted | packages/object-graph/infrastructure/d1_object_writer.ts:103-124 | what the object statement leaves of one planned object: nothing beyond the room for new ones; else its first version when it was not stored, the next version when its fingerprint differs, and what was there otherwise |
| UpsertEvents.StoredRowContents | packages/object-graph/infrastructure/d1_object_writer.ts:40-78 | a change is in the stored outbox row exactly when it is in the delivered message or already stood in the tables as planned |
| UpsertEvents.DeliveredIsWritten | packages/object-graph/application/upsert_objects.ts:144-162 | the delivered changes are those of the planned objects and links that differ from the tables and pass their guards, told from the tables before the commit |
| UpsertEvents.RedeliveryRepeats | packages/object-graph/application/upsert_objects.ts:144-162 | stored row and delivery name the same changes if and only if every source for which something stood in the tables as planned also has a planned object or link that differs from them and passes its guards |
| UpsertEvents.StoredRowMayExceedDelivery | packages/object-graph/application/upsert_objects.ts:144-162 | a concrete batch, mentioning one link twice so that its weight returns to the stored one, whose stored row names a change the delivery does not |
| Propagation.OutAdjacency | packages/decision/domain/propagation.ts:50-72 | the adjacency lists are, per source, its propagating edges in order |
| Propagation.Propagate | packages/decision/domain/propagation.ts:74-111 | the queue loop computes the propagated wave, reading each adjacency entry at most once and so taking at most one read per edge |
| Propagation.RunKeeps | packages/decision/domain/propagation.ts:83-110 | after any number of visits: each node queued once, hops non-decreasing along the queue and within two layers, same keys in both maps, deltas clamped, hops bounded |
| Propagation.RunStops | packages/decision/domain/propagation.ts:87-110 | once the queue is used up nothing changes |
| Propagation.OutDegreesBound | packages/decision/domain/propagation.ts:87-110 | over distinct nodes the out-degrees sum to at most the number of edges |
| Propagation.WithinBound | packages/decision/domain/propagation.ts:87-110 | the queue never outgrows sources and edges together |
| PropagationForm.RunWalked | packages/decision/domain/propagation.ts:83-110 | every hop is the length of a walk from a source |
| PropagationForm.RunFollows | packages/decision/domain/propagation.ts:83-110 | without pruning every dequeued node below the hop limit has passed its change on |
| PropagationForm.ImpactIsSound | packages/decision/domain/propagation.ts:74-111 | final deltas lie in [-1, 1], hops are bounded and walked, the queue is distinct and ordered by hop |
| PropagationForm.HopIsDistance | packages/decision/domain/propagation.ts:74-111 | with pruneBelow at most 0 a node is reached exactly when a walk within maxHops exists, and its hop is the true distance |
| PropagationSum.FinalValues | packages/decision/domain/propagation.ts:83-110 | in a strictly layered slice without clamping and pruning the final deltas are the recursive values of the slice |
| PropagationSum.LayeredImpact | packages/decision/domain/propagation.ts:74-111 | there a non-source node ends with the sum of weight times source delta times gamma to the distance over its in-edges within the hop limit |
| PropagationSum.ValueReordered | packages/decision/domain/propagation.ts:74-111 | the closed form does not depend on the order of the edges |
| PropagationSum.SliceReordered | packages/decision/domain/propagation.ts:74-111 | another order of the edges is layered, unclamped and unpruned as well |
| PropagationSum.EdgeOrderIsIrrelevant | packages/decision/domain/propagation.ts:74-111 | the algorithm gives every node the same change whatever the order of the edges of such a slice |
| PropagationEdges.WiresByEdge | packages/decision/domain/propagation.ts:50-67 | in edge order, exactly one wire for each edge of a carrying link type, from the edge's source to its target, with its own weight or else the default of its type |
| PropagationEdges.HopsFollowEdges | packages/decision/domain/propagation.ts:74-111 | every hop is the length of a walk along carrying edges in their direction, from a perturbed node; with pruneBelow at most 0 it is the shortest, and every node within maxHops has one |
| PropagationEdges.ChangesAddUpAlongEdges | packages/decision/domain/propagation.ts:95-109 | in a layered, unclamped and unpruned slice a node behind the sources ends with the sum over the edges into it of weight times the change of the edge's source times gamma to the distance |
| PropagationEdges.PerturbationsAddUp | packages/decision/domain/propagation.ts:87-93 | perturbations of one node add up in their order, brought into [-1, 1] each time, and no other node starts with a change |
| PropagationEdges.OneEdge | packages/decision/domain/propagation.ts:74-111 | one edge and one perturbation: the target gets weight times change times gamma, brought into [-1, 1], unless that is smaller than pruneBelow; a perturbed target leaves the source alone |
| PropagationEdges.PowerLaws | packages/decision/domain/propagation.ts:101-101 | damping compounds: one factor gamma per hop |
| DecisionTable.D1RecommendationRepository.Insert | packages/decision/infrastructure/d1_recommendation_repository.ts:106-135 | inserts a new recommendation, or fails without change when the id exists |
| DecisionTable.D1RecommendationRepository.Expire | packages/decision/infrastructure/d1_recommendation_repository.ts:179-190 | expires every due Proposed row, or only the named one, and counts them |
| DecisionTable.D1RecommendationRepository.TryClaim | packages/decision/infrastructure/d1_recommendation_repository.ts:191-222 | claims a Proposed, undue, undecided row under its key, or reports a taken key, or nothing |
| DecisionTable.D1RecommendationRepository.Begin | packages/decision/infrastructure/d1_recommendation_repository.ts:223-242 | starts an attempt only under the decision key, below three attempts, on a stalled or failed row |
| DecisionTable.D1RecommendationRepository.Finish | packages/decision/infrastructure/d1_recommendation_repository.ts:243-256 | records the outcome on a Confirmed row only |
| DecisionTable.D1RecommendationRepository.DeleteAllUnexecuted | packages/decision/infrastructure/d1_recommendation_repository.ts:171-178 | keeps exactly the executed rows and counts the others |
| DecisionProtocol.ExecKeyInjective | packages/decision/application/recommendations.ts:174-182 | different decision keys give different execution keys |
| DecisionProtocol.CallerStepKeeps | packages/decision/application/recommendations.ts:86-209 | every await of a decision request keeps the invariant of both services |
| DecisionProtocol.ActStepKeeps | packages/object-graph/application/apply_action.ts:50-210 | every await of an action request does |
| DecisionProtocol.NextKeeps | packages/decision/application/recommendations.ts:86-209 | so does everything else that can happen: crashes, timeouts, expiry, foreign actions, clearing |
| DecisionProtocol.AlwaysInv | packages/decision/application/recommendations.ts:86-209 | the invariant holds in every reachable state |
| DecisionTheorems.DecisionsAreSafe | packages/decision/infrastructure/d1_recommendation_repository.ts:191-256 | in every run one execution per recommendation is in flight, attempts stay at most 3, and a decision key is present exactly when the status is neither Proposed nor Expired |
| DecisionTheorems.AtMostOneChange | packages/decision/application/recommendations.ts:140-209 | a recommendation changes its target at most once over all retries and lost responses |
| DecisionTheorems.ChangesAreTheDecidedOnes | packages/decision/application/recommendations.ts:140-209 | each such change carries the key derived from the decision and hits the best candidate's target |
| DecisionTheorems.ExecutedMeansLogged | packages/decision/application/recommendations.ts:140-209 | Executed implies a logged action of the best candidate under the derived key |
| DecisionTheorems.RejectedNeverActs | packages/decision/application/recommendations.ts:86-209 | a Rejected or Expired recommendation never reaches the action service |
| DecisionTheorems.DecisionsStand | packages/decision/infrastructure/d1_recommendation_repository.ts:179-256 | decision key, final status, log rows and changes are never undone, and attempts never fall |
| DecisionTheorems.RetryHeals | packages/decision/application/recommendations.ts:140-209 | when a response was lost after the action was logged, one retry records Executed without a second change |
| DecisionTheorems.StrandedForever | packages/decision/infrastructure/d1_recommendation_repository.ts:223-256 | a Confirmed row with an attempt begun and no caller in flight stays that way for ever |
| DecisionTheorems.LostExactlyWhenCallerDies | packages/decision/infrastructure/d1_recommendation_repository.ts:223-256 | a begun attempt can still be recorded exactly while its caller is alive |
| DecisionTheorems.CrashAfterBegin | packages/decision/application/recommendations.ts:140-209 | a concrete run in which the action of a recommendation with a candidate is carried out and logged, the caller dies before recording it, and no continuation can record it |
| DecisionMeaning.BestIsFirstRanked | packages/decision/domain/recommendation.ts:72-76 | the best candidate is the first one with the id that the ranking names first; without one there is none |
| DecisionMeaning.ExpiresExactly | packages/decision/infrastructure/d1_recommendation_repository.ts:179-189 | exactly the Proposed rows whose time has come turn Expired, or only the named one |
| DecisionMeaning.ClaimDecides | packages/decision/application/recommendations.ts:115-136 | a claim on an open row under a free key stores Rejected with the reason for a rejection and Confirmed without one for a confirmation, with key and time, and only the latter goes on to execute; a claim on any other row changes nothing |
| DecisionMeaning.RejectionStands | packages/decision/application/recommendations.ts:86-209 | over every run: after a claim that rejects, the row stays Rejected with its reason and no attempt while it is stored, and no action is ever sent, logged or carried out for it, not even after it was deleted |
| DecisionService.ActionService.ApplyAction | packages/object-graph/application/apply_action.ts:50-210 | one undisturbed action request: replayed by key, refused, or committed with its log row |
| DecisionService.Attempt | packages/decision/application/recommendations.ts:160-195 | the outcome of the best candidate's action under the derived key |
| DecisionService.RunExecution | packages/decision/application/recommendations.ts:150-209 | begin, attempt, finish and read back are a run of the protocol; field by field, one attempt with the best candidate's action is recorded while fewer than three were begun, or nothing happens |
| DecisionService.Decide | packages/decision/application/recommendations.ts:86-149 | one undisturbed decision leaves repository, action service and reply as a run of the protocol, and field by field as the case says: replayed, expired, refused, rejected with its reason, or confirmed and executed |
| DecisionService.Settle | packages/decision/application/recommendations.ts:115-136 | the claim of an open record: refused for a taken key, stored as a rejection, or confirmed and executed |
| DecisionService.Perform | packages/decision/infrastructure/d1_recommendation_repository.ts:106-190 | inserting, expiring and clearing are the protocol's events on the table |
| ArchiveText.SplitAppend | packages/identity/domain/archive_saga.ts:194-211 | splitting at a newline splits the pieces |
| ArchiveText.LinesOfJoin | packages/identity/domain/archive_saga.ts:194-211 | joining lines and splitting again gives the lines |
| ArchiveText.PartRoundTrip | packages/identity/domain/archive_saga.ts:163-191 | a staged part decodes to its file, text and mark, whatever bytes the text holds |
| ArchiveText.AssembleFiles | packages/identity/domain/archive_saga.ts:261-276 | the loop computes the assembled files |
| ArchiveText.AssembledIsConcatenation | packages/identity/domain/archive_saga.ts:261-276 | whole-line pages assemble to their concatenation in order, and a file appears exactly when a part names it |
| ArchiveText.CountIsAdditive | packages/identity/domain/archive_saga.ts:279-282 | records of two whole-line pieces add up |
| ArchiveText.CountOfParts | packages/identity/domain/archive_saga.ts:279-282 | the record count of an assembled file is the sum over its parts |
| ArchiveText.CountOfJoin | packages/identity/domain/archive_saga.ts:279-282 | lines that hold something count one each |
| ArchiveText.AssembledLines | packages/identity/domain/archive_saga.ts:261-276 | whether or not its pages end with a newline, an assembled JSON Lines file has the lines of its pages in order |
| ArchiveText.AssembledJson | packages/identity/domain/archive_saga.ts:261-276 | a JSON file is the last part that names it |
| ArchiveText.CountByLine | packages/identity/domain/archive_saga.ts:279-282 | the record count of a JSON Lines file is the number of its lines that hold anything but spaces, tabs and line ends |
| ArchiveBudget.TruncateText | packages/identity/domain/archive_saga.ts:194-211 | the loop keeps exactly the longest run of non-empty lines that fits, or the marker |
| ArchiveBudget.TruncatedIsCut | packages/identity/domain/archive_saga.ts:194-211 | a cut of a cut is still a whole-line prefix of the original, within the limit |
| ArchiveBudget.TruncatedIsMost | packages/identity/domain/archive_saga.ts:194-211 | a cut keeps a text that fits; of JSON Lines it keeps whole lines from the first on, as many as fit; of JSON only the marker |
| ArchiveBudget.FitToBudget | packages/identity/domain/archive_saga.ts:217-255 | terminates; the result fits exactly when the floor of all files does; every file is itself, a whole-line prefix or the marker; `truncated` is exactly what shrank; only the largest shrinkable files are cut, and none without need: with one more line of some cut file the result would exceed the budget |
| ArchiveBudget.FloorBound | packages/identity/domain/archive_saga.ts:213-255 | the floor is at most 18 bytes per JSON file, so such a budget always suffices |
| ExportPaging.TextOrder | packages/object-graph/infrastructure/d1_lifecycle_store.ts:38-43 | text order is irreflexive, transitive and total |
| ExportPaging.TextLessAt | packages/object-graph/infrastructure/d1_lifecycle_store.ts:38-43 | texts are ordered at the first character that differs, or by the length |
| ExportPaging.KeyOrder | packages/object-graph/infrastructure/d1_lifecycle_store.ts:54-59 | row-value order of key columns is too |
| ExportPaging.KeyLessAt | packages/object-graph/infrastructure/d1_lifecycle_store.ts:65-66 | keys are ordered at the first column that differs |
| ExportPaging.ShortCursor | packages/object-graph/infrastructure/d1_lifecycle_store.ts:62-71 | of the rows that start with the columns of a short cursor, those with anything in a later column come after it |
| ExportPaging.AfterReads | packages/object-graph/infrastructure/d1_lifecycle_store.ts:28-88 | the rows after a cursor are exactly those above its bound, in order |
| ExportPaging.FillPage | packages/object-graph/application/tenant_lifecycle.ts:72-84 | the inner loop fills a page, its text and its last key |
| ExportPaging.ExportTenant | packages/object-graph/application/tenant_lifecycle.ts:66-99 | one call serves the page after a readable cursor, or refuses an unreadable one |
| ExportPaging.TakenFits | packages/object-graph/application/tenant_lifecycle.ts:76-84 | a page stays within the bytes or holds a single row |
| ExportPaging.PageReads | packages/object-graph/application/tenant_lifecycle.ts:66-99 | a page holds, within both limits, all rows after its cursor up to its last key; the files passed over had none |
| ExportPaging.PageIsFull | packages/object-graph/application/tenant_lifecycle.ts:66-99 | a page holds as much as it may: the next row of its file would exceed its rows or bytes; it is empty only at the end of the last file, and passes over files with nothing left |
| ExportRuns.SteadyRowsAreRead | packages/object-graph/application/tenant_lifecycle.ts:66-99 | over any run while rows come and go: no key is read twice, only stored rows are read, and no row that stays is missed |
| ExportRuns.PagesAndLeft | packages/object-graph/application/tenant_lifecycle.ts:66-99 | each page leaves less to read |
| ExportRuns.ExportEnds | packages/object-graph/application/tenant_lifecycle.ts:66-99 | over a settled workspace following the cursor ends within one page per row and one per file |
| ExportRuns.ExportIsExact | packages/object-graph/application/tenant_lifecycle.ts:66-99 | a finished run has read every visible row exactly once in key order |
| ExportRuns.AllVisible | packages/object-graph/infrastructure/d1_lifecycle_store.ts:28-88 | every row is visible exactly when none has only empty key columns |
| ExportRuns.ArchiveHoldsEveryRow | packages/identity/domain/archive_saga.ts:257-282 | staged, decoded and assembled, each file holds exactly its stored rows one per line, and the record counts add up to them |
| ExportRuns.CutMarksExactly | packages/identity/domain/archive_saga.ts:145-157 | when the part budget cuts a run, files before the last page's are complete and later ones missing, so every loss is marked exactly when the later files had nothing |
| ExportRuns.HeavyObjectsTakeAllPages | packages/object-graph/application/tenant_lifecycle.ts:66-99 | with more objects than pages, no two of which share a page, a run is still among the objects when its pages are used up |
| ExportRuns.LinksLostUnmarked | packages/identity/domain/archive_saga.ts:145-157 | a store within all limits, seventeen objects of 461,000 bytes and a link, whose links are missing from the archive unmarked |
| ArchiveSaga.UsedBounds | packages/identity/domain/archive_saga.ts:145-157 | any page counts: every service gets at least one part, all fit into 20 |
| ArchiveSaga.CutExactlyWhen | packages/identity/domain/archive_saga.ts:145-157 | a service is cut exactly when its pages do not fit beside the earlier parts and one part for each later service |
| ArchiveSaga.PartNumber | packages/identity/application/tenancy/archive_saga_service.ts:314-345 | which page each staged part holds and whether it is marked |
| ArchiveSaga.StageKeeps | packages/identity/application/tenancy/archive_saga_service.ts:314-345 | staging a page, recorded or lost, keeps the saga invariant |
| ArchiveSaga.ZipKeeps | packages/identity/application/tenancy/archive_saga_service.ts:347-391 | zipping, or starting over when a part is gone, keeps it |
| ArchiveSaga.NextKeeps | packages/identity/application/tenancy/archive_saga_service.ts:298-540 | every step keeps it |
| ArchiveSaga.GraphShare | packages/identity/domain/archive_saga.ts:145-157 | after two services of one page each the object graph stages at most sixteen pages |
| ArchiveSaga.SagaIsSafe | packages/identity/application/tenancy/archive_saga_service.ts:298-540 | in every run with losses: at most 20 parts, a stored ZIP holds all services' pages in order, and nothing is deleted before the mail step was passed and the ZIP of an archive stored |
| ArchiveSaga.MailBeforeDeletion | packages/identity/application/tenancy/archive_saga_service.ts:476-490 | whoever deletes has an accepted mail or gave up after the deadline; while no mail was accepted, the purge is reached exactly by a mail step that ran past `archiveDays` after expiry |
| ArchiveSaga.MailedArchiveIsThere | packages/identity/application/tenancy/archive_saga_service.ts:420-490 | the mail step goes on with an archive only if its ZIP, with every part in order, was there, and with a deletion notice otherwise |
| ArchiveSaga.UntoldDeletion | packages/identity/application/tenancy/archive_saga_service.ts:476-490 | a concrete run that deletes a row though no mail was ever accepted |
| ArchiveSaga.AccountGoes | packages/identity/application/tenancy/archive_saga_service.ts:520-529 | when the account goes, every service had reported done and was empty at its own count, each count an await of its own; all rows are gone exactly when none arrived in a service after its count |
| ArchiveSaga.RowOutlivesAccount | packages/identity/application/tenancy/archive_saga_service.ts:520-529 | a concrete run that removes the account while a service holds a row that arrived after its count |
| ArchiveSaga.LeftForGood | packages/identity/application/tenancy/archive_saga_service.ts:529-539 | once the deletion is recorded no step deletes a row any more |
| ArchiveSaga.PurgeStepCounts | packages/identity/domain/archive_saga.ts:133-143 | one granted purge step takes exactly one off the steps left |
| ArchiveSaga.PurgeTakes | packages/identity/domain/archive_saga.ts:133-143 | purging reaches `purged` after exactly one step per full batch and one more per service, no sooner |
| ArchiveSaga.ExportTakes | packages/identity/domain/archive_saga.ts:117-126 | the export takes exactly one step per part |
| GraphPurge.LifecycleStore.DeleteSome | packages/object-graph/infrastructure/d1_lifecycle_store.ts:99-106 | a bounded delete removes min(limit, rows) of the workspace's rows in one table and nobody else's |
| GraphPurge.LifecycleStore.PurgeStep | packages/object-graph/infrastructure/d1_lifecycle_store.ts:90-110 | a step deletes exactly min(m, rows left), table after table, reports what remains, and leaves other workspaces alone |
| GraphPurge.LifecycleStore.PurgeTenant | packages/object-graph/application/tenant_lifecycle.ts:101-112 | clamps to 1..500, is done exactly when fewer rows than that were left, and tombstones only then |
| GraphPurge.PurgeEnds | packages/object-graph/application/tenant_lifecycle.ts:101-112 | repeated calls with any limit n over N rows: exactly the first N / n calls, rounded down, leave something to do, the next is done, and other workspaces keep every row |
| JaroWinkler.GreedyIsStable | packages/integration/domain/matching.ts:222-233 | the greedy matching pairs equal characters within reach, each once, and leaves no blocking pair |
| JaroWinkler.StableIsUnique | packages/integration/domain/matching.ts:222-233 | there is only one such matching |
| JaroWinkler.MatesFlip | packages/integration/domain/matching.ts:222-233 | matching the strings the other way round finds the same pairs |
| JaroWinkler.SameCounts | packages/integration/domain/matching.ts:222-233 | both boolean arrays hold equally many trues |
| JaroWinkler.MatchOne | packages/integration/domain/matching.ts:225-232 | the inner loop flags the first free place in reach |
| JaroWinkler.MatchCharacters | packages/integration/domain/matching.ts:221-233 | the loops compute the flags and count of the greedy matching |
| JaroWinkler.NextFlag | packages/integration/domain/matching.ts:239-239 | the inner while always finds a flag before the end of the array |
| JaroWinkler.CountDifferences | packages/integration/domain/matching.ts:235-242 | the second loop counts the places where the matched characters differ |
| JaroWinkler.Similarity | packages/integration/domain/matching.ts:217-248 | the method computes the score without reading past either array |
| JaroWinkler.ScoreBounds | packages/integration/domain/matching.ts:217-248 | the score lies in [0, 1], is 1 exactly for equal strings and 0 exactly when unequal strings share no match |
| JaroWinkler.ScoreIsSymmetric | packages/integration/domain/matching.ts:217-248 | the score does not depend on the order of the strings |
| JaroWinkler.NameSimilarity | packages/integration/domain/matching.ts:250-258 | the better of score and containment of the normalized names |
| JaroWinkler.NameScoreLaws | packages/integration/domain/matching.ts:250-258 | name similarity is symmetric, lies in [0, 1] and is 1 exactly for equal non-empty normalized names |
| SimilarityMeaning.ScoreByDefinition | packages/integration/domain/matching.ts:217-248 | for any matching of equal characters within reach that nothing blocks: the score is the Jaro formula over the matched characters and those that differ in order, lifted by a tenth per character of common prefix, up to four, of what is missing to 1 |
| SimilarityMeaning.NameScoreByDefinition | packages/integration/domain/matching.ts:250-258 | 0 with an empty name, else the score, but at least 0.9 when one name of four characters or more stands in the other as a whole |
| DraftMatching.CandidatesMembers | packages/integration/domain/matching.ts:358-364 | the candidates are exactly the scored pairs |
| DraftMatching.Assign | packages/integration/domain/matching.ts:371-376 | the loop computes the greedy assignment |
| DraftMatching.AssignmentLaws | packages/integration/domain/matching.ts:365-377 | each column and property is used at most once, and no pair is left out unless one at least as good took its column or property |
| DraftMatching.TopScoreWins | packages/integration/domain/matching.ts:297-322 | a pair with the top score loses only to another pair with the top score |
| DraftMatching.FindLinks | packages/integration/domain/matching.ts:379-404 | for each link type in turn, the loop takes the first free link column and then the first free weight column |
| DraftMatching.FoundLinksOk | packages/integration/domain/matching.ts:379-404 | those columns were free before and each is used once, as a link column of its type or a weight column |
| DraftMatching.RuleDraft | packages/integration/domain/matching.ts:352-429 | every column and property is used once or listed as unmatched; the field mappings are the assigned pairs, the links come from the columns left over, and the key column is the one assigned to the primary key |
| DraftMatching.MergeAiPairs | packages/integration/domain/matching.ts:431-471 | suggestions only fill unmatched columns and non-sensitive unmatched properties, first come first served: one is taken exactly when it is acceptable and repeats no column or property taken before; the fields grow by those, in order, and a missing key column is set exactly when the key property gets a suggested column |
| DraftMeaning.PassedOverFor | packages/integration/domain/matching.ts:358-377 | every scored pair is assigned, or its column or property went to a pair with a higher score, or the same score and an earlier column, or the same column and an earlier property in collation order |
| DraftMeaning.ListedExactly | packages/integration/domain/matching.ts:405-415 | the fields are the assigned properties in the order of the type, each from its column and with its kind of match |
| DraftMeaning.LinksInTurn | packages/integration/domain/matching.ts:381-403 | for each link type in turn: the first free link column, then the first free weight column, from what the types before it left; nothing without the former |
| RowMapping.ReadFields | packages/integration/domain/mapping.ts:207-216 | the transforms run in order up to the first that fails |
| RowMapping.ReadLinks | packages/integration/domain/mapping.ts:229-252 | the links of a row, or the first unreadable weight |
| RowMapping.MapOne | packages/integration/domain/mapping.ts:187-262 | one row passes the checks in the source's order |
| RowMapping.MapRows | packages/integration/domain/mapping.ts:165-272 | the loop maps the rows one by one with the keys accepted so far |
| RowMapping.MappingComposes | packages/integration/domain/mapping.ts:165-272 | mapping a ++ b is mapping a, then b with the later row numbers and the keys of a |
| RowMapping.EachRowOnce | packages/integration/domain/mapping.ts:165-272 | every row gives exactly one command or one reject, and accepted keys are distinct and new |
| RowMapping.ConflictExactly | packages/integration/domain/mapping.ts:201-205 | a row is a key conflict exactly when its key was accepted earlier in the job or the batch |
| RowMeaning.FieldsExactly | packages/integration/domain/mapping.ts:204-214 | the fields are read from the columns they name; a property holds the result of the last field that targets it; else the reject names the column and the step of the first field that fails |
| RowMeaning.WeightExactly | packages/integration/domain/mapping.ts:229-241 | a weight is absent without a column or a value, else the number in it; anything else rejects the row for that column |
| RowMeaning.LinksExactly | packages/integration/domain/mapping.ts:227-250 | the links are, spec by spec, one per non-empty trimmed key of its key column, all with the weight of its weight column; or the first spec without a number rejects the row |
| RowMeaning.AcceptedRow | packages/integration/domain/mapping.ts:182-260 | an accepted row: a new key, the validated props of the values read, with the key filled in only where it is blank, and the links of its specs |
| RowMeaning.RefusedRow | packages/integration/domain/mapping.ts:182-268 | a refused row names the first check that fails, key, conflict, fields, validation, weights, with its code, column and detail |
| RowMeaning.OutputOfRow | packages/integration/domain/mapping.ts:182-270 | row k of a batch puts out what it gives with the keys accepted before it, behind what the rows before it put out |
| ImportJobs.D1JobRepository.Insert | packages/integration/infrastructure/d1_job_repository.ts:60-78 | inserts a job with a new id |
| ImportJobs.D1JobRepository.Map | packages/integration/infrastructure/d1_job_repository.ts:99-112 | the mapping changes only while nothing was received |
| ImportJobs.D1JobRepository.Commit | packages/integration/infrastructure/d1_job_repository.ts:161-211 | the batch transaction: first attempt stored, only the stored attempt counted, rejects added within the limit |
| ImportJobs.D1JobRepository.Fail | packages/integration/infrastructure/d1_job_repository.ts:227-234 | fails a RECEIVING job only |
| ImportJobs.D1JobRepository.Clear | packages/integration/infrastructure/d1_job_repository.ts:236-251 | fails every RECEIVING job and drops the mappings |
| ImportJobs.StoreRejects | packages/integration/infrastructure/d1_job_repository.ts:190-209 | inserts rejects by row, ignoring rows that have one, up to 200 in all |
| ImportJobs.SumAny | packages/integration/infrastructure/d1_job_repository.ts:161-211 | the sum over the batches does not depend on the order |
| ImportJobs.LostCommitChangesNothing | packages/integration/infrastructure/d1_job_repository.ts:161-211 | an attempt that lost changes no table |
| ImportJobs.CommitKeeps | packages/integration/infrastructure/d1_job_repository.ts:161-211 | a new attempt keeps counters equal to the sums over the stored batches, at most 200 rejects, and everything stored |
| ImportJobs.RepeatedAttemptCountsTwice | packages/integration/infrastructure/d1_job_repository.ts:161-211 | the counters stay the sums exactly when the attempt is new or counts nothing |
| ImportBatches.MergeRejects | packages/integration/application/batch_ingest.ts:53-67 | the loop keeps the first reject of each row and code and sorts by row |
| ImportBatches.MergedLaws | packages/integration/application/batch_ingest.ts:53-67 | merged rejects come by row, one per row and code, and cover both lists |
| ImportBatches.FinishKeeps | packages/integration/application/batch_ingest.ts:148-197 | a finished submission stores or finds its batch and answers with the stored result |
| ImportBatches.NextKeeps | packages/integration/application/batch_ingest.ts:137-197 | every step of any caller keeps the invariant: reading the job, reading its batches and deciding, committing, or vanishing in between |
| ImportBatches.ImportsAreConsistent | packages/integration/infrastructure/d1_job_repository.ts:161-211 | over every interleaving with retries and crashes: counters are the sums over stored batches, at most 200 rejects, and everybody told about a batch was told the same |
| ImportBatches.SettledStays | packages/integration/infrastructure/d1_job_repository.ts:161-251 | stored results never change, and a DONE or FAILED job never changes status |
| ImportMeaning.AdmitsExactly | packages/integration/application/batch_ingest.ts:148-175 | a batch goes in exactly when it has at most 100 rows, its number is new and the job receives, has a mapping and room; a stored number gives its stored result; else the first check that fails is told |
| ImportMeaning.StatusTold | packages/integration/domain/job.ts:37-43 | a job reads as failed exactly when it is, or still receives and had no batch for more than 30 minutes |
| ImportMeaning.CommitsExactly | packages/integration/infrastructure/d1_job_repository.ts:161-211 | column by column: the batch is stored unless its number is; counters, status and rejects move exactly when the stored one is of this attempt; rejects keep the first of each row, up to 200 |
| ImportMeaning.FailsExactly | packages/integration/infrastructure/d1_job_repository.ts:227-251 | failing a job, or all of a workspace, turns exactly the receiving ones to failed |
| ImportMeaning.MapsExactly | packages/integration/infrastructure/d1_job_repository.ts:99-112 | a mapping is taken exactly while no row has been received |
| ImportMeaning.BatchCommits | packages/integration/application/batch_ingest.ts:70-140 | what a batch commits: its rows mapped after those of the batches before it with all stored keys taken, the counts of the graph unless no row was left for it, the first reject of each row and code, and the keys of the rows that were written |
| ImportMeaning.CodesTold | packages/integration/application/batch_ingest.ts:61-61 | rejects are told apart by the text of their code: those of the mapping differ, and one of the object graph is its own text |
| ImportRuns.TotalKeptExactly | packages/integration/application/batch_ingest.ts:148-172 | over every run: a job has never received more rows than it reserved if and only if each stored batch fitted, with the rows stored since its submission read the job, into the room the job had then |
| ImportRuns.TotalKeptOneAtATime | packages/integration/application/batch_ingest.ts:168-172 | while each batch is stored before another is admitted, a job never receives more rows than it reserved |
| ImportRuns.TotalCanOverrun | packages/integration/application/batch_ingest.ts:168-172 | a concrete run in which two concurrent submissions exceed the reserved rows |
| ImportRuns.KeysOnceExactly | packages/integration/application/batch_ingest.ts:77-110 | over every run: the stored keys of a job are all different if and only if no stored batch brings a key that another one stored since its submission read the batches |
| ImportRuns.KeysOnceOneAtATime | packages/integration/application/batch_ingest.ts:77-110 | so while each batch is stored before another is submitted, no key is accepted twice in a job |
| ImportRuns.KeyAcceptedTwice | packages/integration/application/batch_ingest.ts:80-80 | a concrete run in which two concurrent submissions both have the same key accepted |
| ImportRuns.RowsFollowOnExactly | packages/integration/application/batch_ingest.ts:77-79 | over every run: a stored batch is numbered from one more than the job has received if and only if nothing was stored since its submission read the batches and it read no row under its own or a later number |
| ImportRuns.RowsFollowOn | packages/integration/application/batch_ingest.ts:77-79 | so batches stored one at a time and in order take consecutive job rows |
| ImportRuns.RowsNumberedTwice | packages/integration/application/batch_ingest.ts:77-79 | a concrete run in which two concurrent submissions number their first row alike and both store it |
| ImportService.ReadBatches | packages/integration/infrastructure/d1_job_repository.ts:132-159 | the stored batches of a job, all of them, by number |
| ImportService.IngestBatch | packages/integration/application/batch_ingest.ts:70-135 | maps, sums up and describes one batch as the protocol's commit |
| ImportService.SubmitBatch | packages/integration/application/batch_ingest.ts:137-197 | one undisturbed call leaves the tables and gives the answer of the protocol's look and submission and, when admitted, of its finish |
| ImportService.Perform | packages/integration/infrastructure/d1_job_repository.ts:60-251 | inserting, mapping, failing and clearing are the protocol's events on the tables |
| JsonLogic.EvalLogic | packages/shared-kernel/json_logic.ts:61-168 | gives the meaning of the expression exactly when that takes at most 1,000 steps, and the step-limit error otherwise |
| JsonLogic.Evaluator.Run | packages/shared-kernel/json_logic.ts:63-76 | one recursive call: the counter and the outcome follow the meaning within the budget |
| JsonLogic.Evaluator.Var | packages/shared-kernel/json_logic.ts:78-85 | path, lookup and default |
| JsonLogic.Evaluator.If | packages/shared-kernel/json_logic.ts:86-91 | conditions in turn, short-circuit |
| JsonLogic.Evaluator.Until | packages/shared-kernel/json_logic.ts:92-107 | `and` and `or`, short-circuit |
| JsonLogic.AssertLogic | packages/shared-kernel/json_logic.ts:190-204 | accepts exactly the expressions whose single-field objects all name operators |
| JsonLogic.EvalBound | packages/shared-kernel/json_logic.ts:61-168 | an evaluation takes at most one step per JSON node, and only a conversion that throws stops that of an accepted expression |
| JsonLogic.NeverThrowsExactly | packages/shared-kernel/json_logic.ts:61-204 | every accepted expression of at most 1,000 nodes gives a result on the data if and only if no path leads to an object with a field `toString` of its own, or to a list that holds one; its literals are taken to hold none |
| JsonLogic.DeepDataIsReadable | packages/shared-kernel/json_logic.ts:44-53 | data in which no object has such a field, at any depth, meets the condition |
| JsonLogic.ToStringThrows | packages/shared-kernel/json_logic.ts:109-155 | concrete data, an object with the field `toString`, on which an accepted expression of three nodes throws |
| JsonLogic.SameEval | packages/shared-kernel/json_logic.ts:44-53 | the value depends only on the segments that cover the paths |
| JsonLogic.LogicVarsSuffice | packages/shared-kernel/json_logic.ts:171-187 | with literal paths the value depends only on the listed segments |
| JsonLogic.LogicVarsMiss | packages/shared-kernel/json_logic.ts:171-187 | three concrete shapes whose value depends on data that is not listed: the empty path, a default, a computed path |
| JsonMeaning.IfChooses | packages/shared-kernel/json_logic.ts:88-93 | `if`: the first condition that holds decides for the argument after it; if none does, the last argument of an odd count, and null for an even one; the steps are those of the conditions tried and of that argument, so nothing else is evaluated |
| JsonMeaning.AndOrChoose | packages/shared-kernel/json_logic.ts:94-109 | `and` gives the first argument that does not hold, `or` the first that does, and else the last one, or true and false without arguments; nothing after it is evaluated |
| JsonMeaning.TruthyIsHolds | packages/shared-kernel/json_logic.ts:55-58 | everything holds but a missing value, null, false, zero, the empty text and the empty list |
| JsonMeaning.OperatorsApply | packages/shared-kernel/json_logic.ts:113-165 | every other operator evaluates all its arguments, left to right, and is applied to their values; the first that stops stops it |
| JsonMeaning.ListsEvaluate | packages/shared-kernel/json_logic.ts:70-70 | a list evaluates its items, in order, to the list of their values |
| JsonMeaning.LiteralsAndUnknown | packages/shared-kernel/json_logic.ts:71-76 | a literal is itself, and a single field that names no operator stops the evaluation |
| JsonMeaning.ObjectsAreData | packages/shared-kernel/json_logic.ts:72-73 | an object of several fields, or none, is data and takes one step |
| JsonMeaning.PathsAreMembers | packages/shared-kernel/json_logic.ts:44-53 | the empty path is the data, and one more segment is one more member, missing below anything but an object or list |
| JsonMeaning.VarLooksUp | packages/shared-kernel/json_logic.ts:80-87 | `var` looks up the text of its first argument and evaluates its second only when nothing is found |
| EventSplit.DecimalInjective | packages/object-graph/domain/domain_events.ts:34-38 | different parts have different numbers |
| EventSplit.DecimalReads | packages/object-graph/domain/domain_events.ts:34-38 | and the digits read back as the number |
| EventSplit.Pack | packages/object-graph/domain/domain_events.ts:22-33 | the loop cuts the changes into runs |
| EventSplit.RunsArePacked | packages/object-graph/domain/domain_events.ts:22-33 | the runs are the changes in order, none empty, each within the limit or a single change, and none could have taken the next change |
| EventSplit.SplitEvent | packages/object-graph/domain/domain_events.ts:14-39 | the messages of an event |
| EventSplit.SplitLaws | packages/object-graph/domain/domain_events.ts:14-39 | an event within the limit is one message, itself; the messages of a larger one carry its changes in order, none lost or repeated, under its id with `#1`, `#2` and so on, each within the limit or a single change for up to 99,999 messages; only an oversized event without changes has none |
| EventSplit.PartsAreFull | packages/object-graph/domain/domain_events.ts:22-33 | no part ends early: with the next change and a four-digit number it would reach the limit |
| EventSplit.IdsDoNotMeet | packages/object-graph/domain/domain_events.ts:34-38 | messages of different events never share an id |
| Outbox.NextKeeps | packages/object-graph/application/support.ts:44-69 | every step of commits, deliverers, clears and the consumer keeps the invariant |
| Outbox.NothingIsLost | packages/object-graph/application/maintenance.ts:25-64 | in every run a committed event is in the outbox, has been published in full, had its row deleted by a clear or purge, or was dropped by the cron after it found the workspace tombstoned |
| Outbox.LaterEventsSurvive | packages/object-graph/application/maintenance.ts:25-64 | a workspace without a tombstone loses no event except those whose rows a clear or purge deleted |
| Outbox.RedeliveryRepeats | packages/object-graph/application/support.ts:44-69 | both copies of an event make the same messages exactly when they carry the same changes |
| Outbox.SameIdAsPart | packages/object-graph/infrastructure/queue_outbox.ts:28-32 | while both copies of an event agree, the id of one of its messages stands for that message alone |
| Outbox.EachChangeSetOnce | packages/object-graph/application/maintenance.ts:25-64 | a consumer that drops known ids applies each message of an event whose copies agree at most once, and all of them are exactly the event's changes, whatever other events hold |
| Outbox.FirstCopyWins | packages/object-graph/application/upsert_objects.ts:144-162 | a concrete run in which the copies differ: everything is published and consumed, and the stored row's further change is never applied |
| Maintenance.OutboxStore.Select | packages/object-graph/infrastructure/queue_outbox.ts:40-47 | the oldest rows by time and id, up to the limit |
| Maintenance.OldestFirst | packages/object-graph/infrastructure/queue_outbox.ts:41-46 | they come by time and those of one time by id, and no eligible row left out is older than one taken |
| Maintenance.IdLeqAt | packages/object-graph/infrastructure/queue_outbox.ts:43-43 | ids are ordered at the first character that differs, or by the length |
| Maintenance.OutboxStore.Oldest | packages/object-graph/infrastructure/queue_outbox.ts:40-55 | their readable ones; unreadable rows are deleted, and a failed delete ends the pass |
| Maintenance.OutboxStore.Redeliver | packages/object-graph/application/maintenance.ts:40-61 | publishes and deletes, drops tombstoned rows, keeps failed ones; a failed delete ends the pass, its row published but kept |
| Maintenance.OutboxStore.RunMaintenance | packages/object-graph/application/maintenance.ts:25-64 | the whole pass; tombstones are swept unless a failed delete ended it |
| Maintenance.PublishedExactly | packages/object-graph/application/maintenance.ts:37-60 | a pass publishes, in order, exactly the messages of the rows of live workspaces whose publication succeeds |
| Maintenance.PassLaws | packages/object-graph/application/maintenance.ts:37-60 | every row looked at is counted once as delivered, dropped or failed, and stays exactly when its publication failed |
| Maintenance.RowIsRun | packages/object-graph/application/maintenance.ts:40-61 | one row of a pass is a run of the delivery protocol, whatever fails |
| Maintenance.PassIsRun | packages/object-graph/application/maintenance.ts:25-64 | so is a pass: it publishes every message of every part and deletes the same rows |
| ActionEffects.ApplyEffects | packages/object-graph/domain/action_execution.ts:132-252 | the loop computes the plan of the effects in order, stopping at the first that fails |
| ActionEffects.RunLink | packages/object-graph/domain/action_execution.ts:171-213 | the checks and the change of one link effect |
| ActionEffects.RemoveMine | packages/object-graph/domain/action_execution.ts:188-197 | deletes exactly the target's matching links |
| ActionEffects.LoadedIsEnough | packages/object-graph/application/apply_action.ts:127-141 | running the effects on the loaded links is running them on the whole workspace |
| ActionEffects.DeltaIsTheEffects | packages/object-graph/domain/action_execution.ts:243-251 | removed links were there, added ones were not, and applying the delta to the workspace leaves exactly the links of the sequential run; the weights agree too exactly when no stored link with a weight is relinked and not taken away later |
| ActionEffects.RelinkKeepsWeight | packages/object-graph/domain/action_execution.ts:243-251 | a concrete relink to the object already linked, which keeps the stored weight where the effect alone leaves none |
| ActionEffects.DeltaAtCommit | packages/object-graph/infrastructure/d1_object_writer.ts:293-328 | the delta of a plan, committed on later links, leaves the links that the effects would leave there if and only if meanwhile no link that they keep by a relink was removed and none that they take away was added |
| ActionEffects.RelinkMissesNewLink | packages/object-graph/infrastructure/d1_object_writer.ts:293-328 | a concrete link, added on the target's side between plan and commit, that stays beside that of the relink |
| ActionEffects.LinkEffectLeaves | packages/object-graph/domain/action_execution.ts:171-213 | after a relink exactly its link is left on the target's side, after an unlink none or none to the named object |
| ActionEffects.PropertiesAfter | packages/object-graph/domain/action_execution.ts:218-242 | an untouched property keeps value and provenance, `changed` is exactly what differs, missing counting as null, and loses its provenance, and no required property is cleared |
| ActionEffects.IncrementsAddUp | packages/object-graph/domain/action_execution.ts:158-170 | increments of one property add up on what the effects before them left, and touch no link and no other property |
| ActionEffects.PropertiesAreIndependent | packages/object-graph/domain/action_execution.ts:148-217 | what becomes of a property depends on the effects on it alone, in their order |
| ActionEffects.SetReplaces | packages/object-graph/domain/action_execution.ts:150-157 | a set makes everything before it irrelevant for its property: it ends as if only the set and the later effects on it had run |
| ActionEffects.TouchedValue | packages/object-graph/domain/action_execution.ts:218-242 | a touched property is removed when it was cleared, and otherwise patched with its validated value |
| ActionEffects.SnapshotsUndoAndRedo | packages/object-graph/domain/action_execution.ts:263-271 | the logged before and after snapshots undo and redo the action up to nulls, and exactly if and only if no property stored as null is cleared |
| ActionMeaning.SetsAndIncrements | packages/object-graph/domain/action_execution.ts:149-170 | `set` leaves the property with the evaluated value, `increment` with the sum of what it held and the evaluated amount, null and missing counting as zero; each is refused exactly for an unknown property or a value that is no number, and leaves everything else alone |
| ActionMeaning.LastSetWins | packages/object-graph/domain/action_execution.ts:148-217 | when a set is the last effect on a property, the property ends with its evaluated value |
| ActionMeaning.RelinkLeaves | packages/object-graph/domain/action_execution.ts:171-213 | `relink` runs exactly with a fitting link type and a named object of the right type, and leaves of the type and side just the link to that object, without a weight, and every other link |
| ActionMeaning.UnlinkLeaves | packages/object-graph/domain/action_execution.ts:171-213 | `unlink` takes away the links of the type and side, or only the one to the named object, and no other; it is refused exactly when the type does not fit or the named object is missing or of the wrong type |
| ActionMeaning.RunsInOrder | packages/object-graph/domain/action_execution.ts:142-216 | the effects run one after the other from the stored target, each on what the ones before it left, up to the first that is refused |
| ActionMeaning.PlannedExactly | packages/object-graph/domain/action_execution.ts:218-237 | an action is planned exactly when every effect runs, the touched values validate and no required property ends empty |

## Left out

- DecisionProtocol.NextKeeps: purging a workspace is not among the events, because it also removes the rows the theorems speak of.
- ArchiveSaga.NextKeeps: ticks do not overlap, one purge call of a service is a single step, and a purge that was resumed without a ledger is not modelled.
- ExportPaging.ExportTenant: the cursor is the decoded pair, not its text form; a workspace id is assumed present.
- UpsertCommit.CapsHoldUnderConcurrency: a batch that meets the unique key of another row fails as a whole and changes nothing; the model covers the batches that do not.
- DecisionService.Decide: an undisturbed call, whose claim is never refused; pushing the summary to the cockpit is left out.
- ImportService.SubmitBatch: what object-graph answers is a parameter.
- RowMapping.MapRows: transforms are functions that return a value or a failed step; an exception of another kind, which aborts the batch, is not modelled.
- ImportBatches.NextKeeps: usage counters and quota releases are not modelled.
- Outbox.NextKeeps: time, the age limit of the cron and unreadable rows are modelled in Maintenance only; a publication that fails there has sent nothing.
- ActionEffects.ApplyEffects: links and patches are maps and sets, so the order of the returned link lists and of `changed` is not modelled.
- JsonLogic.EvalLogic: what an operator other than `var`, `if`, `and` and `or` computes from the values of its arguments is a parameter; the order of object fields is kept, and the call stack is unbounded; an operator throws in the model where one of its conversions throws.
- JsonLogic.NeverThrowsExactly: that a conversion throws exactly on an object with its own `toString`, or a list with one, is the language's rule and assumed of the parameters; it does not follow values that are no JSON, such as a prototype's functions.
- DraftMatching.RuleDraft: transforms, separators and the synonym table are left out; the candidate sort is stable as in the source.
- JaroWinkler.Similarity: code units and exact arithmetic; the rounding of doubles is not modelled.
- `mappingIssues`, `resolveParams`, `unmetPreconditions`, ETags and quotas: checks of one record with no state behind them.
- ZIP building, hashing, signed links, mail and the blob store beyond presence: input and output.
- The API gateway, the web app, Workers AI, identity and notification adapters: plumbing.
- SQL and SQLite themselves: a statement is its guarded effect on the table.

# Verified model of a FortiGate external-DNS reconciler

The repository compares the DNS records that cluster resources ask for with the rows of a FortiGate dns-database,
plans operations, and applies them under ownership, approval and scheduling protocols. This project models its
decision logic in Dafny and proves what it promises over every input, every run and every interleaving.
`dafny verify dfyconfig.toml` checks everything.

| file | what it holds |
|---|---|
| `text.dfy`, `sorting.dfy` | string order, order-preserving filters, stable sorting, joined sort keys |
| `dns.dfy` | endpoints, their three keys, record equality |
| `plan_spec.dfy` | the plan as a count per operation, without any order of iteration |
| `plan_index.dfy`, `plan_names.dfy`, `plan_records.dfy`, `plan_cleanup.dfy`, `planner.dfy` | the planner's loops, phase by phase, proved to give exactly that plan |
| `plan_rows.dfy`, `plan_safety.dfy`, `plan_exact.dfy`, `plan_lit.dfy`, `plan_convergence.dfy` | device rows, runs of operations, the plan read on its input, and what runs keep and reach |
| `restricted.dfy` | exclusive-zone adoption and the restricted mode around the planner |
| `device_apply.dfy`, `device_read.dfy` | the client's apply loop, row format and paginated listing |
| `claims.dfy`, `claim_safety.dfy`, `claim_evidence.dfy`, `claim_stages.dfy`, `claim_laws.dfy`, `claim_recovery.dfy`, `claim_update.dfy`, `claim_takeover.dfy`, `ownership.dfy` | the shared-zone claim protocol |
| `queue_model.dfy`, `queue_laws.dfy`, `workqueue.dfy` | the target work queue, per key and as a class |
| `plan_graph.dfy`, `plan_executor.dfy`, `plan_canonical.dfy`, `approval.dfy` | plan documents, their execution, canonical form and approval |
| `policy.dfy`, `hostname.dfy` | policy quotas and Gateway hostname intersection |

## How the model reads the code

- Texts are in normal form already: trimmed, lower case, canonical addresses, no trailing dot. `NormalizeDNSName`
  strips a single dot (internal/dns/endpoint.go:114) and so is not idempotent on names with empty labels; the row
  format models that dot explicitly. DNS names of desired records are not empty.
- Keys are tuples. Where the code compares joined key texts, the model compares the same joined texts and needs that no
  part contains the separator (`Separable`), which makes the order of keys total.
- A map range in Go is an arbitrary choice of the next element, so every result about the planner holds for all
  iteration orders. `sort.Slice` is unstable; plans are compared as multisets and in their apply order.
- A cleanup policy other than delete and deactivate keeps stale rows.
- A row written to the device holds the first target of an endpoint, and is afterwards listed as owned: by adoption in
  exclusive mode, by a confirmed claim in shared mode. Rows have distinct provider IDs that are not blank. The device
  may give a new row the ID of a deleted one.
- The clock, the context, the device, the rate limiter and other writers are parameters or arbitrary events. Hashes and
  JSON encodings are injective: a fingerprint is its input, a snapshot revision is the snapshot.
- Every store or device call of the claim protocol is one step. A guarded status update that reads first and compares
  versions is one guarded write, since a version never comes back. There is one process per controller ID.
- A device snapshot shows every committed row, and provider IDs on the device are distinct.
- One lock region of the work queue is one step; the inner queue's `Get` and the lock region after it are one step. The
  inner queue is its documented queue, dirty set, processing set and retry counter. Whether it is shutting down does not
  change inside a region.
- A plan object's name stands for one plan hash. Operations of a document have their IDs.
- A device row of type A, AAAA or CNAME holds at most one target, so a record's rows are the rows with its key.

Where the code does less than its description, with the lemmas that say exactly when:

- A desired record with several targets is never satisfied by a device row, which holds one, so such a record is updated
  in every cycle (`SeveralTargetsNeverSettle`, `ConvergedExactly`). Sources never produce one
  (internal/dns/endpoint.go:137-163).
- A desired name keeps a row, but its last enabled row may be cleaned up: exactly when foreign rows stop all of its
  desired records and each of its enabled rows is the controller's, in cleanup scope and of a type that is not desired
  (`LitExactly`, `BlockedNameGoesDark`). Sources build enabled records only (internal/dns/endpoint.go:137-163).
- Restricted mode is safe exactly when the owner ID is not blank: rows that are not adopted get a blank owner
  (`BlankOwnerDeletes`, `HarmlessExactly`). Configuration rejects a blank owner ID (internal/config/config.go:387).
- One cycle does not recover every interrupted create: a second unconfirmed record of the same type waits for the next
  cycle, a record that is paired with a stale row waits for ever, since shared mode refuses replacements, and so does
  one whose source object is not the claim's (`SiblingNotReported`, `PairedIsStuck`, `CrashRecovery`).
- The authority check looks at the row a claim is bound to; the mutation goes to the row of the planned operation. They
  can differ when a record has two rows in the claimed state, and the claim then may end in a conflict for good
  (`DuplicateIsPlanned`, `OtherRowErased`, `PlannedRowIsBound`, `MutatedRowIsBound`).
- The authority check compares the claim's controller with itself, so another controller's claim for the record, made
  after the plan, passes it (`OthersClaimAuthorises`). It is the acting controller's exactly when its own claim stayed
  since planning or the last claim made since then is its own (`AuthorisedByOwnClaim`).
- An approved plan is checked for expiry when it is read, not when its status is written (`ExpiredPlanBegins`,
  `FreshHoweverLate`). Plans of the runner do not expire (internal/controller/runner.go:401).
- A paginated listing without a revision fails unless its first page is the whole table (`ListRows`), and a name with an
  empty label before the zone reads back changed (`EmptyLabelIsLost`, `CodecRoundTrip`).

## Model

| member | source | states |
|---|---|---|
| `Planner.BuildWithCleanupScope` | internal/plan/plan.go:51-318 | the plan holds every operation exactly as often as the order-free specification counts it, in the apply order, for every iteration order of every map; without delete it removes no row and replaces one only to change its type to or from CNAME, and under keep it deactivates none |
| `Planner.Assemble` | internal/plan/plan.go:72-305 | the phases together yield the specified multiset |
| `Planner.PartsAddUp` | internal/plan/plan.go:172-305 | conflicts, updates, replacements, creates and cleanups add up to the specified count, with no operation emitted twice |
| `Planner.PairPhase` | internal/plan/plan.go:251-271 | exactly the one-to-one pairs become replacements, and both sides leave the creates and the cleanups |
| `Planner.PlanForWf` | internal/plan/plan.go:62-65 | the last desired record of each key stands under its key, and key texts order the keys totally |
| `Planner.AppliedBeforeIsWeakOrder` | internal/plan/plan.go:307-338 | the apply order is a consistent order |
| `Text.LessExactly` | internal/plan/plan.go:307-316 | key texts are compared as Go compares strings: by the first place where they differ, a proper prefix first |
| `Planner.AppliedInPhases` | internal/plan/plan.go:307-338 | conflicts come first, then in-place changes, then creates, then cleanups, and operations of one kind go by their key texts |
| `PlanIndex.IndexDesired` | internal/plan/plan.go:62-65 | the last record of each key wins |
| `PlanIndex.IndexCurrent` | internal/plan/plan.go:66-71 | the three indexes hold the rows of each key, type and name in listing order |
| `PlanIndex.PartitionOwned` | internal/plan/plan.go:344-361 | owned and foreign rows are exactly separated, and the first owned row is the earliest most preferred one |
| `PlanIndex.GroupByLogical` | internal/plan/plan.go:374-381 | the groups are the rows of each (zone, name, type) |
| `PlanNames.GroupDesired` | internal/plan/plan.go:72-77 | each name's records, without repetition, first key first |
| `PlanNames.HasManyCnameTargets` | internal/plan/plan.go:394-406 | true exactly when a CNAME record has several targets or another CNAME record exists at the name |
| `PlanNames.NeedsRetarget` | internal/plan/plan.go:432-444 | true exactly when a lone desired CNAME has a target no owned row has while an owned CNAME exists |
| `PlanNames.DesiredConflicts` | internal/plan/plan.go:85-99 | conflicts inside the desired records of a name, reported on its first record |
| `PlanNames.UnownedConflicts` | internal/plan/plan.go:100-116 | of all records that clash with a foreign row, the first by key is reported, whatever the iteration order |
| `PlanNames.CnameTransitions` | internal/plan/plan.go:121-170 | every name is settled by the conflict or replacement the specification gives, and no other |
| `PlanRecords.ReconcileRecord` | internal/plan/plan.go:185-217 | one record yields its conflict, create or update and exactly its surplus copies |
| `PlanRecords.ReconcileDesired` | internal/plan/plan.go:172-218 | all records yield exactly the specified conflicts and updates, missing records, surplus copies and blocked types |
| `PlanCleanup.CollectStale` | internal/plan/plan.go:220-239 | each row is listed as often as it is surplus |
| `PlanCleanup.RemoveEndpoint` | internal/plan/plan.go:453-465 | the first matching element is removed and nothing else |
| `PlanCleanup.PairReplacements` | internal/plan/plan.go:251-271 | a pair is replaced exactly when it is the only missing record and the only surplus row of its type and has an ID |
| `PlanSafety.Mutation` | internal/plan/plan.go:51-318 | every mutated row is listed and owned, stays at its name, and is in cleanup scope unless the operation is an update |
| `PlanSafety.OneMutation` | internal/plan/plan.go:51-318 | a row is the subject of at most one operation |
| `PlanSafety.PlanIsASet` | internal/plan/plan.go:51-318 | with distinct rows no operation occurs twice |
| `PlanSafety.CnameStaysAlone` | internal/plan/plan.go:85-201 | if a CNAME stands alone at every name, it still does after any operations of the plan succeeded in any order |
| `PlanSafety.ForeignRowsKept` | internal/plan/plan.go:51-318 | foreign rows are exactly the same after any run |
| `PlanSafety.NeverDark` | internal/plan/plan.go:244-305 | whatever operations succeed, a desired name that had a row keeps one |
| `PlanExact.TypeReplacedExactly` | internal/plan/plan.go:121-156 | a row is replaced by a record of another type if and only if the name has this one desired record and this one owned row, which may be rewritten, no foreign row is in the way, and exactly one type is CNAME |
| `PlanExact.RetargetedExactly` | internal/plan/plan.go:130-156 | a CNAME gets its new target in place if and only if the name is one to one in that sense and cleanup is by deletion |
| `PlanExact.Replacement` | internal/plan/plan.go:121-271 | every replacement has a row with an ID and no foreign row of its type, and either changes the type to or from CNAME or keeps it, changes the target and needs cleanup by deletion |
| `PlanExact.WithoutDelete` | internal/plan/plan.go:143-305 | without delete nothing is deleted and every row keeps its key unless its type changes to or from CNAME; keep deactivates nothing |
| `PlanExact.RowsStay` | internal/plan/plan.go:143-305 | without delete every row is there after any run, with its key, unless its name changed between CNAME and another type |
| `PlanExact.RetainedIsConflict` | internal/plan/plan.go:157-169 | a lone CNAME with a new target that may not replace its row gets exactly one conflict and no other operation at its name |
| `PlanExact.OnlyTheSettling` | internal/plan/plan.go:172-183 | a name that is settled as a whole has its one operation and no other |
| `PlanExact.ConflictTells` | internal/plan/plan.go:85-196 | the record, the row and the reason of every conflict are true of the input, and the record is the first by key where several qualify |
| `PlanExact.ForeignStopsWrites` | internal/plan/plan.go:100-196 | nothing is written for a record whose type has a foreign row or that clashes with one |
| `PlanExact.UpdatedExactly` | internal/plan/plan.go:344-361 | an update goes to a copy that differs from the record and that has an ID if any copy has, and the least such ID |
| `PlanLit.LitExactly` | internal/fortigate/client.go:304-385 | with enabled desired records, a name keeps an enabled row through every pass of the apply loop, whatever fails, is lost or is cancelled, if and only if it has one and not all of this holds: cleanup is on, no CNAME rule settles the name, foreign rows stop every desired record of it, and each enabled row is owned, in cleanup scope and of a type that is not desired |
| `PlanLit.OrderedRunStaysLit` | cmd/fortigate-external-dns/shared.go:141-182 | at any other name that has an enabled row, every run of any part of the plan in which cleanups wait for all creates, updates and replacements of their name leaves one |
| `PlanLit.PassIsOrderedRun` | internal/fortigate/client.go:304-385 | what a pass of the loop brings about, failed requests that took effect included, is such a run |
| `PlanLit.DarkPlan` | internal/plan/plan.go:185-305 | at a name that goes dark nothing is written and every enabled row is cleaned up |
| `PlanExact.ClearExactly` | internal/plan/plan.go:85-170 | no CNAME rule settles a name exactly when its records and rows mix no CNAME with another type and its CNAME keeps its target |
| `PlanLit.DarkenedByCleanup` | internal/plan/plan.go:287-305 | where the desired records are enabled, an enabled row is lost exactly when it is cleaned up |
| `PlanLit.BlockedNameGoesDark` | internal/plan/plan.go:185-196 | the plan of a disabled foreign A row, a desired A record and an owned enabled AAAA row is the conflict and the delete, and a pass leaves only the disabled row |
| `PlanRows.WrittenStays` | internal/fortigate/client.go:387-424 | what one operation wrote is what the row holds when the run ends |
| `PlanRows.Provenance` | internal/fortigate/client.go:387-424 | every row after a run is an original that no operation mutated, or what an operation wrote |
| `PlanConvergence.NothingMissing` | internal/plan/plan.go:172-275 | after one full cycle no desired record that is free of conflicts lacks its row |
| `PlanConvergence.OneRowPerRecord` | internal/plan/plan.go:197-239 | after the second cycle such a record has exactly one owned row, equal to it |
| `PlanConvergence.ThirdPlan` | internal/plan/plan.go:51-318 | the third plan holds conflicts, and updates only towards records with several targets |
| `PlanConvergence.Converges` | internal/plan/plan.go:51-318 | two cycles converge: the third plan, the one-to-one match of every type that no conflict covers, and foreign rows untouched |
| `PlanConvergence.ReconcilableIsClean` | internal/plan/plan.go:85-201 | the records a cycle may reconcile are those free of conflicts after it |
| `PlanConvergence.ConvergedExactly` | internal/plan/plan.go:51-318 | from single-target rows, the third plan is free of mutations if and only if no record that the first plan may reconcile has several targets |
| `PlanConvergence.NewRecordReconcilable` | internal/plan/plan.go:172-218 | a record on an empty device is one that the first plan may reconcile, so the condition is met and failed by real inputs |
| `PlanConvergence.SeveralTargetsNeverSettle` | internal/fortigate/client.go:740-773 | an address record with several targets is updated in every cycle, and every cycle leaves the same row |
| `PlanConvergence.FirstCycle` | internal/plan/plan.go:197-275 | a new record on an empty device is published in one cycle, whatever ID the device assigns |
| `DeviceApply.ApplyWithResults` | internal/fortigate/client.go:304-385 | one outcome for each operation, as specified; an error for each failed one; cancellation or revocation is reported, as what it was, exactly when it ended the loop and nothing had failed |
| `DeviceApply.CleanupWaits` | internal/fortigate/client.go:353-372 | in the apply order, no delete or deactivate of a name is sent once any create, update or replace of it failed |
| `DeviceApply.CleanupNeedsAll` | internal/fortigate/client.go:353-372 | a delete or deactivate that is sent comes after every create, update and replace of its name, all of them successful |
| `DeviceApply.SkippedExactly` | internal/fortigate/client.go:353-372 | while the loop goes on, a cleanup is skipped exactly when the outcome of an earlier create, update or replace of its name is a failure |
| `DeviceApply.SentExactly` | internal/fortigate/client.go:330-379 | everything else but conflicts is sent in a live run and has the answer of the device as its outcome; a dry run sends nothing |
| `DeviceApply.EndIsFinal` | internal/fortigate/client.go:320-352 | after cancellation or revocation everything is blocked for that reason |
| `DeviceRead.CodecRoundTrip` | internal/fortigate/client.go:673-773 | a written record reads back equal if and only if its relative name has no empty label before the zone |
| `DeviceRead.RowFields` | internal/fortigate/client.go:740-773 | a written row holds the relative name, the target in the field of its type only, a CNAME target made absolute, and the TTL and state |
| `DeviceRead.WrittenExactly` | internal/fortigate/client.go:706-773 | a record is written exactly when it is A, AAAA or CNAME and lies below the zone |
| `DeviceRead.EmptyLabelIsLost` | internal/fortigate/client.go:706-737 | a name with an empty label reads back changed |
| `DeviceRead.Collect` | internal/fortigate/client.go:211-224 | a page is taken exactly when all IDs stay valid and distinct |
| `DeviceRead.ListRows` | internal/fortigate/client.go:157-236 | it succeeds if and only if the device's answers make a complete listing (one size, right counts, one revision if there are several pages, distinct valid IDs, as many rows as announced), and returns the rows of exactly those pages; a fixed table is listed completely, for all page sizes, exactly when pages carry a revision or the first page is the whole table |
| `DeviceRead.ListRecords` | internal/fortigate/client.go:157-246 | a device whose table was written from valid endpoints is listed and reads back every endpoint in order exactly under that condition |
| `DeviceRead.WriteThenList` | internal/fortigate/client.go:238-245 | rows written from valid endpoints decode to exactly those endpoints |
| `Restricted.RestrictedRecordSetsEqual` | internal/controller/runner.go:766-783 | true exactly when rows and desired records of the name match one to one |
| `Restricted.AdoptRows` | internal/controller/runner.go:730-748 | ownership is cleared in place and granted to exact matches only; comparable rows are filed by name |
| `Restricted.AdoptZone` | internal/controller/runner.go:706-715 | without restriction every A, AAAA and CNAME row is adopted and no other |
| `Restricted.CompareNames` | internal/controller/runner.go:750-763 | a conflict for exactly the desired names whose rows are not the desired records, on the first record and a first row |
| `Restricted.PrepareRestricted` | internal/controller/runner.go:705-764 | both results of the adoption pass |
| `Restricted.EnforceConflicts` | internal/controller/runner.go:798-831 | one conflict for each mismatched name, in name order, and every other operation unchanged |
| `Restricted.RestrictedPlan` | internal/controller/runner.go:696-764 | outside mismatched names the plan only creates names without rows or reports conflicts |
| `Restricted.ReconcileRestricted` | internal/controller/runner.go:218-245 | the listing ends as the adopted one; a mismatched name has exactly one conflict and nothing else; any other name has exactly its planned operations, for a regular name one create for each desired record if it has no A, AAAA or CNAME row and else nothing; and nothing that exists is touched, for every owner ID that is not blank and every cleanup policy |
| `Restricted.RestrictedExactly` | internal/controller/runner.go:698-704 | at a regular name that is not mismatched the plan is a create for each desired record of an absent name, and nothing else |
| `Restricted.AbsentIsCreated` | internal/controller/runner.go:698-704 | every desired record of an absent regular name is created |
| `Restricted.BlankOwnerDeletes` | internal/controller/runner.go:736-747 | with a blank owner ID an undesired row is deleted |
| `Restricted.HarmlessExactly` | internal/controller/runner.go:705-831 | restricted mode is safe if and only if the owner ID is not blank |
| `ClaimSafety.StepGood` | internal/ownership/repository.go:184-509 | every call keeps the life cycle of the claim, its controller, its bound row until it is orphaned, its recorded state outside of confirmed rows and new reservations, and its finalizer until it is orphaned; and leaves its process with true knowledge |
| `ClaimSafety.AfterGood` | internal/ownership/manager.go:54-319 | what every process knows of the claim stays true under all other processes, crashes and lost responses |
| `ClaimSafety.ControllerNeverChanges` | internal/ownership/repository.go:489-509 | while a claim exists its controller ID never changes |
| `ClaimSafety.ConflictNeverLeft` | internal/ownership/manager.go:112-138 | a claim in conflict stays in conflict and is not removed |
| `ClaimSafety.ClaimLives` | internal/ownership/repository.go:184-509 | over one event a claim stays, moves on in its life cycle, or is removed as an orphan |
| `ClaimSafety.BoundRowStays` | internal/ownership/repository.go:365-400 | in every run a claim that is not orphaned stays bound to its row |
| `ClaimEvidence.WritesAreBacked` | internal/ownership/manager.go:54-319 | in every run each write to a claim rests on listings of the same process: confirmed for a row listed in the claimed state, bound to the only row, orphaned and removed only after listings without it, given another state only after the row was listed in it; and a mutation follows two equal listings |
| `ClaimSafety.OnePoster` | internal/ownership/manager.go:76-80 | no two processes are about to POST the same record |
| `ClaimSafety.ExactlyOnce` | internal/ownership/manager.go:54-138 | a record that starts with at most one row never gets a second one, in any run of the shared client's steps |
| `ClaimSafety.MutationAuthorised` | internal/ownership/manager.go:170-240 | every update, deactivate or delete follows, in the same uninterrupted process, a listing and a check of the confirmed, unique claim against its bound row |
| `ClaimSafety.OnlyWritersWrite` | cmd/fortigate-external-dns/shared.go:184-249 | a process changes rows only by a POST or an authorised mutation |
| `ClaimSafety.PlannedRowIsBound` | internal/ownership/manager.go:205-220 | under the check, every row in the claimed state is the bound row if and only if the listing shows at most one row in that state |
| `ClaimSafety.MutatedRowIsBound` | cmd/fortigate-external-dns/shared.go:208-226 | in every run of a record that starts with at most one row, a mutation of a listed row goes to the bound row |
| `ClaimSafety.AuthorisedByOwnClaim` | internal/ownership/manager.go:148-203 | for any earlier step, that of planning included: the authorising claim is the acting controller's if and only if it was then and has stayed in the store until the check, or the last call that made a claim since is the acting controller's |
| `ClaimSafety.MadeByCaller` | internal/ownership/repository.go:298-316 | a claim in the store is that of the controller whose call made the last one |
| `ClaimTakeover.OthersClaimAuthorises` | internal/ownership/manager.go:148-203 | a run from one plan of two deletes, without crash of its controller, to the second delete about to be sent under another controller's claim |
| `ClaimTakeover.EraseRemovesClaim` | cmd/fortigate-external-dns/shared.go:208-242 | erasing the bound and only row ends without a claim |
| `ClaimTakeover.CreateBinds` | internal/ownership/manager.go:61-110 | a create of an unclaimed record without rows ends confirmed and bound to the ID the device assigns |
| `ClaimTakeover.BothPlanned` | internal/plan/plan.go:220-239 | with nothing desired, both copies of a claimed record are deleted by one plan |
| `ClaimStages.OtherRowErased` | cmd/fortigate-external-dns/shared.go:208-242 | with two rows in the claimed state either can be erased: the claim stays confirmed if the bound row was kept and ends in conflict otherwise |
| `ClaimRecovery.DuplicateIsPlanned` | cmd/fortigate-external-dns/shared.go:53-83 | both copies are listed as owned, whichever is bound, and the plan deletes the one with the greater ID |
| `ClaimStages.StopsAtStage` | internal/ownership/manager.go:54-138 | wherever creates and their repetitions stop, starting from no claim, an orphaned one or one without finalizer, claim and rows are at one of the stages |
| `ClaimStages.CreatePublishes` | internal/ownership/manager.go:61-110 | from every such stage an undisturbed create ends with a confirmed claim and its one row |
| `ClaimStages.RecoverPublishes` | cmd/fortigate-external-dns/shared.go:256-322 | with the row already there, recovering the interrupted claim ends the same way |
| `ClaimUpdate.UpdatePublishes` | cmd/fortigate-external-dns/shared.go:208-249 | an undisturbed update of the bound and only row ends with that row in the new state and the claim confirmed for it, nothing else changed |
| `ClaimUpdate.RecoverRebinds` | cmd/fortigate-external-dns/shared.go:256-322 | an update that reached the device and not the claim is completed the same way by recovering the claim |
| `ClaimUpdate.UpdateStays` | cmd/fortigate-external-dns/shared.go:208-322 | an update or its recovery that runs alone, whatever fails, leaves the record before the update, between device and claim, or after it |
| `ClaimUpdate.UpdateCycle` | cmd/fortigate-external-dns/shared.go:119-249 | a published record whose desired state changed is in the new state after one undisturbed cycle if and only if no CNAME rule and no foreign row of its type stands against it |
| `ClaimUpdate.InterruptedUpdate` | cmd/fortigate-external-dns/shared.go:256-322 | an interrupted update is completed by one undisturbed cycle if and only if the claim names the source and the plan reports the row |
| `ClaimUpdate.DeleteCycle` | cmd/fortigate-external-dns/shared.go:208-242 | a cycle that deletes the row of a published record leaves neither row nor claim |
| `ClaimUpdate.DeactivateCycle` | cmd/fortigate-external-dns/shared.go:208-249 | a cycle that deactivates it leaves the row disabled and the claim confirmed for it |
| `ClaimLaws.OtherClaimConflicts` | internal/ownership/repository.go:272-275 | a create that finds another controller's claim, or one for another state, puts it in conflict |
| `ClaimLaws.OrphanWaits` | internal/ownership/repository.go:329-346 | an orphaned claim is left alone while a row of the record or the bound ID is on the device |
| `ClaimLaws.ConflictStops` | internal/ownership/repository.go:284-296 | a claim in conflict stops the create and nothing changes |
| `ClaimLaws.OtherRowsConflict` | internal/ownership/manager.go:112-120 | rows that are not exactly one row in the claimed state put the claim in conflict |
| `ClaimLaws.OtherIdConflicts` | internal/ownership/repository.go:376-379 | so does a single row under another ID than the bound one |
| `ClaimLaws.LostRowOrphans` | internal/ownership/manager.go:121-125 | a confirmed record whose row is gone is orphaned by a create |
| `ClaimLaws.LostRowReturns` | internal/ownership/repository.go:329-363 | and published again by the next one |
| `ClaimLaws.SecondClaimConflicts` | internal/ownership/repository.go:214-232 | wherever a second claim for the record shows, the claim is put in conflict and nothing else happens |
| `ClaimLaws.UnclaimedNotMutated` | internal/ownership/manager.go:186-195 | a mutation without a confirmed claim is not sent and changes nothing |
| `ClaimLaws.UnprovenNotMutated` | internal/ownership/manager.go:205-221 | a mutation whose bound row is not listed exactly once in the claimed state is not sent, and the claim goes to conflict |
| `ClaimLaws.ChangedNotMutated` | internal/ownership/manager.go:170-203 | a listing that changed between the two looks, or a claim that changed before the check, stops the mutation |
| `ClaimLaws.UnrelatedNotRecovered` | cmd/fortigate-external-dns/shared.go:269-288 | a claim that is another controller's, in another phase or for another state or row is not recovered |
| `ClaimLaws.OtherStateNotRecovered` | cmd/fortigate-external-dns/shared.go:303-309 | nor one whose row is gone or in another state than desired |
| `ClaimLaws.CreateHoldsClaim` | internal/ownership/repository.go:276-316 | when an undisturbed create has ended, the claim has its finalizer |
| `ClaimRecovery.ConcernsAbsent` | internal/plan/plan.go:197-275 | without a row of the record, the only operation that the shared client works on for it is its creation |
| `ClaimRecovery.ConcernsUnconfirmed` | cmd/fortigate-external-dns/shared.go:256-268 | with an unconfirmed row it is the conflict that reports this row, and only when the row is the first foreign one of its type |
| `ClaimRecovery.ConcernsPublished` | cmd/fortigate-external-dns/shared.go:256-319 | with the row confirmed it is at most a conflict about this row |
| `ClaimRecovery.PlanRests` | internal/plan/plan.go:172-218 | for a published record the plan has no operation if and only if its name is settled on another record, or under no rule and without foreign rows of its type |
| `ClaimRecovery.CrashRecovery` | cmd/fortigate-external-dns/shared.go:119-322 | wherever a create stopped, and whatever else is desired or listed at the name, one undisturbed cycle ends with a confirmed claim and one row if and only if the record is published already, or has no row, is planned for creation and has a complete source, or the claim names its source and its row is the one the plan reports |
| `ClaimRecovery.PostedRecovers` | internal/ownership/manager.go:279-319 | a create that stopped after its POST is recovered by the plan for its name exactly when the claim names the record's source |
| `ClaimRecovery.SiblingNotReported` | internal/plan/plan.go:185-196 | of two posted records of one type, the plan reports the first row for both, so the second is not recovered in that cycle |
| `ClaimRecovery.SiblingReportedNext` | internal/plan/plan.go:185-196 | once the first row is bound the next plan reports the second |
| `ClaimRecovery.PairedIsStuck` | cmd/fortigate-external-dns/shared.go:196-200 | a missing record paired with a stale row gets only a replacement, which is refused, and nothing changes |
| `Ownership.FingerprintIsEquality` | internal/ownership/fingerprint.go:30-75 | two records share a fingerprint exactly when they share a zone and are equal records |
| `Ownership.Inspect` | internal/ownership/manager.go:365-416 | which rows are the record, exactly or in another state, and whether the ID is on several rows |
| `Ownership.InspectedExactly` | internal/ownership/manager.go:365-416 | a row of the record is exact in the wanted state and divergent in any other, and no other row is either |
| `Ownership.RevalidateUnique` | internal/ownership/repository.go:214-232 | answers the claim of the name exactly when it is at the expected version and the only one for its record; otherwise tells a duplicate from a stale version |
| `Ownership.AuthorizeMutation` | internal/ownership/manager.go:170-221 | granted exactly under all of its conditions on the snapshot, the plan, the claim and the live row, which are spelled out for a granted claim; refused with a conflict exactly for a second claim or a live row that is not the claimed one |
| `Ownership.GrantedRowIsClaimed` | internal/ownership/manager.go:205-220 | a granted claim is named for, and has the fingerprint of, the only row with its provider ID |
| `Ownership.IdentityIsKey` | internal/ownership/fingerprint.go:30-54 | records of one target have the same identity exactly when they have the same key |
| `Ownership.LiveRowIsAuthorized` | internal/ownership/manager.go:205-220 | on a listing with distinct IDs this check is the one of the claim protocol |
| `WorkQueue.TargetQueue.EnqueueRead` | internal/workqueue/queue.go:146-162 | the first region of an event changes one key's state as specified and answers when it decides |
| `WorkQueue.TargetQueue.EnqueueWrite` | internal/workqueue/queue.go:164-203 | the second region of an event |
| `WorkQueue.TargetQueue.EnqueuePeriodic` | internal/workqueue/queue.go:217-231 | the region of a periodic audit |
| `WorkQueue.TargetQueue.ForgetTarget` | internal/workqueue/queue.go:250-260 | the region that leaves a tombstone |
| `WorkQueue.TargetQueue.ActivateTarget` | internal/workqueue/queue.go:239-241 | the tombstone goes, nothing else |
| `WorkQueue.TargetQueue.GetRound` | internal/workqueue/queue.go:270-295 | the first queued key is handed out, dropped or put back behind its hold, and never to two workers |
| `WorkQueue.TargetQueue.ScheduleRetry` | internal/workqueue/queue.go:411-441 | a retry replaces a waiting event unless that comes late enough |
| `WorkQueue.TargetQueue.Complete` | internal/workqueue/queue.go:304-336 | success, bounded retry, exhaustion or a tombstone, each answered exactly when it applies |
| `WorkQueue.TargetQueue.DebounceFires` | internal/workqueue/queue.go:397-407 | only the running debounce timer queues the key |
| `WorkQueue.TargetQueue.RetryFires` | internal/workqueue/queue.go:449-459 | only the running retry timer queues the key |
| `WorkQueue.TargetQueue.StopTimers` | internal/workqueue/queue.go:367-379 | every timer stops, no other state changes |
| `WorkQueue.TargetQueue.ShutDownInner` | internal/workqueue/queue.go:380 | the inner queue shuts down, and no key's state changes |
| `WorkQueue.TargetQueue.DidPerforms` | internal/workqueue/queue.go:136-337 | a method that changes one key as its step says is a lock region of the queue's executions |
| `QueueModel.RunSound` | internal/workqueue/queue.go:136-469 | in every run a key never has both timers, a tombstone leaves no timer, hold or mark, and retries never exceed the maximum |
| `QueueModel.NoLostWakeup` | internal/workqueue/queue.go:136-232 | once an enqueue answers true the key stays queued or on a timer until it is handed out, forgotten or the queue stops |
| `QueueModel.AliveMovesOn` | internal/workqueue/queue.go:391-461 | a key on a timer is queued once its timer is due |
| `QueueModel.BackoffHolds` | internal/workqueue/queue.go:265-337 | after a failure the next hand-out waits for the backoff, unless a periodic audit was requested since the last hand-out |
| `QueueModel.PeriodicRequested` | internal/workqueue/queue.go:217-231 | a periodic mark stems from a request since the key was last handed out or forgotten |
| `QueueModel.KeyRun` | internal/workqueue/queue.go:136-469 | every sequence of lock regions of the queue is, for each key, a run of that key |
| `QueueModel.QueueKeepsWakeup` | internal/workqueue/queue.go:136-232 | so an accepted key of the queue is not lost |
| `QueueModel.QueueBacksOff` | internal/workqueue/queue.go:265-337 | and a failed key of the queue is not handed out before its backoff ends |
| `QueueLaws.FailureIsRetried` | internal/workqueue/queue.go:326-336 | a failed attempt below the limit is counted, held and due again exactly after the delay, or with a waiting event that comes later |
| `QueueLaws.RetryNotLost` | internal/workqueue/queue.go:326-336 | such a key stays queued or on a timer until it is handed out, forgotten or the queue stops |
| `QueueLaws.QueueRetries` | internal/workqueue/queue.go:326-336 | in every execution of the whole queue |
| `QueueLaws.SuccessClears` | internal/workqueue/queue.go:315-320 | success leaves no retry count and no hold, and what waits goes on waiting |
| `QueueLaws.ExhaustionHolds` | internal/workqueue/queue.go:321-331 | at the limit the count stays, the key is held at the maximum backoff, there is no automatic retry, and a waiting event waits for the hold |
| `QueueLaws.CompletionReleases` | internal/workqueue/queue.go:304-336 | every completion takes the key from its worker, and a key that was queued meanwhile stays queued |
| `QueueLaws.EventDue` | internal/workqueue/queue.go:132-203 | an event is due at the later of its debounce and the hold; an event or a later retry that already waits is left alone |
| `QueueLaws.EventAtOnce` | internal/workqueue/queue.go:146-162 | without a debounce an idle key is queued at once |
| `QueueLaws.AuditAtOnce` | internal/workqueue/queue.go:205-231 | a periodic audit is queued at once and handed out whatever the hold |
| `QueueLaws.TimerQueues` | internal/workqueue/queue.go:391-461 | the running timer queues its key when it is due; any other changes nothing |
| `QueueLaws.HandedOut` | internal/workqueue/queue.go:270-295 | a key that is handed out is at one worker, not queued, and its audit mark is used up |
| `QueueLaws.HeldBack` | internal/workqueue/queue.go:288-293 | a held key is due again exactly when its hold ends, or with a later event |
| `QueueLaws.ForgottenRests` | internal/workqueue/queue.go:243-260 | a forgotten key accepts nothing and reaches no worker until it is activated |
| `QueueLaws.TombstoneOnly` | internal/workqueue/queue.go:233-260 | forgetting leaves no timer, hold or mark, and activating removes the tombstone only |
| `QueueLaws.WaitBounded` | internal/workqueue/queue.go:136-469 | in every run no delivery waits longer than the longest debounce or the maximum backoff |
| `PlanGraph.DependencyCycle` | internal/plan/document.go:557-587 | a cycle is reported exactly when there is one; otherwise requirements can be ordered |
| `PlanGraph.OrderExcludesCycle` | internal/plan/document.go:557-587 | an order of the requirements excludes cycles |
| `PlanExecutor.Validate` | internal/plan/document.go:247-299 | accepted exactly: header, operations, known edge ends, no cycle, known decisions |
| `PlanExecutor.DependencyState` | internal/plan/executor.go:144-155 | ready exactly when every requirement succeeded; blocked only by one that did not; waiting only for one without a result |
| `PlanExecutor.ProgressMade` | internal/plan/executor.go:100-139 | of a valid document some pending operation does not wait |
| `PlanExecutor.CanonicalValid` | internal/plan/executor.go:82-85 | canonical form preserves validity |
| `PlanExecutor.Execute` | internal/plan/executor.go:78-142 | an invalid or drifted document ends with exactly that error and nothing attempted; otherwise one outcome for each operation, attempted in a live context with the answered result only after all requirements succeeded, blocked only after one did not; cancelled exactly when the context has ended at a moment when an operation is ready; never without progress |
| `PlanCanonical.CanonicalExactly` | internal/plan/document.go:301-331 | two documents have the same canonical form if and only if they differ only in order, in repetition of edges and of the operations a decision names, and in spelled-out defaults |
| `PlanCanonical.CanonicalKeepsContent` | internal/plan/document.go:301-429 | canonicalisation keeps the content |
| `PlanCanonical.CanonicalIdempotent` | internal/plan/document.go:301-331 | canonicalising twice is canonicalising once |
| `PlanCanonical.DeduplicatePrerequisites` | internal/plan/document.go:522-539 | the same edges, each once, in key order |
| `PlanCanonical.SortedUniqueStrings` | internal/plan/document.go:541-555 | the same texts, each once, in order |
| `Approval.RunGood` | internal/plan/store.go:171-210 | what the runner has read is the stored plan whenever the versions agree |
| `Approval.ApplyIsApproved` | internal/controller/runner.go:395-453 | an apply follows a rebuild with the same hash, then a check that found the plan approved and unexpired, then the status write of exactly that plan |
| `Approval.AppliesExactly` | internal/controller/runner.go:395-453 | an undisturbed runner comes to apply if and only if the stored plan has its hash, is approved with exactly that hash, live, not terminal and unexpired; it is then marked approved and begun, and otherwise untouched |
| `Approval.ExpiredPlanBegins` | internal/plan/store.go:120-169 | a plan that expires between the check and the write still begins |
| `Approval.FreshHoweverLate` | internal/plan/store.go:120-169 | the write is before expiry however late it comes if and only if the plan has no expiry time |
| `Policy.Evaluate` | internal/policy/policy.go:180-244 | allowed and rejected are exactly the verdicts of one pass in key order |
| `Policy.EvaluationIsolated` | internal/policy/policy.go:216-235 | each namespace's verdicts are those of evaluating its candidates alone |
| `Policy.EvaluationIsComplete` | internal/policy/policy.go:184-244 | allowed and rejected candidates together are the candidates |
| `Policy.AllowedExactly` | internal/policy/policy.go:187-235 | a candidate is allowed if and only if its source is allowed, its namespace has no invalid policy, no bound and no matching policy denies or objects, and every limit that applies leaves room after the candidates before it |
| `Policy.EvaluationOrderFree` | internal/policy/policy.go:184-185 | with distinct keys the order of the candidates does not matter |
| `Policy.WithinNamespaceQuota` | internal/policy/policy.go:224-232 | an allowed candidate with namespace limit L is among the first L allowed of its namespace |
| `Policy.WithinTargetQuota` | internal/policy/policy.go:228-233 | the same for the limit of a target in a namespace |
| `Policy.MinPositive` | internal/policy/policy.go:314-323 | the least positive limit, or none |
| `Hostname.IntersectionIsExact` | internal/source/gateway.go:271-296 | the intersection matches precisely the names that route and listener both match |
| `Hostname.EmptyExactly` | internal/source/gateway.go:271-296 | there is no intersection exactly when no name matches both |
| `Hostname.RouteHostnamesMayPublish` | internal/source/gateway.go:135-156 | true exactly when some hostname of the route may publish |
| `Hostname.WildMayPublishExactly` | internal/source/gateway.go:135-156 | a valid wildcard may publish exactly when it matches a name below the zone |
| `Hostname.NameMayPublishExactly` | internal/source/gateway.go:135-156 | any other valid name exactly when it is published at an open listener |
| `Hostname.RejectedRouteLosesNothing` | internal/source/options.go:452-482 | a route that may not publish has no listener intersection that would be published |

## Left out

- Kubernetes clients, informers, conversion, leader election, metrics, probes, configuration parsing and status history: library plumbing and I/O.
- HTTP, TLS, request retries and envelope parsing: the device is an arbitrary responder.
- SHA-256, JSON encoding and the jitter of the rate limiter: injective functions and arbitrary delays up to the maximum.
- IDNA, address parsing, selectors, CIDR and suffix matching, DNS-1123 validation: opaque predicates.
- guardCleanup and cleanupAllowed: they only drop cleanup operations, which the results for any part of a plan cover. A name that goes dark by `LitExactly` does so when its cleanups are not dropped.
- The shared client's own apply loop: it blocks cleanups as the device client's loop does, so its passes are runs of `OrderedRunStaysLit`; its calls for each operation are steps of the claim protocol.
- Claims.ApplyStep: an update or delete of an ID that by then belongs to a row of another record changes nothing in the model, while the source sends it to that row; the rows of other records are a set of IDs in one record's protocol.
- Adopt, the approved adoption of an unclaimed row: it makes no device write.
- Namespaces of claims, the validation of their sources in the repository, deletion timestamps beyond the orphan recovery, and a claim's finalizers held by others.
- Claims are values changed by steps, not objects updated in place: the store hands out copies, so there is no aliasing to capture.
- PersistCurrent, StaleSuperseded and Prune: other writers may change, replace or delete a plan object in any way, which covers them.
- Retention of interrupted plans: the description and the code of pruning differ, and nothing is claimed.
- Endpoint expansion budgets, Gateway attachment and listener permissions: easy members beside the hostname results.

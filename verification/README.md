# Quality-audit evaluation lifecycle in Dafny

This project models the domain core of the ddd-audit repository. A client is audited against a standard by a supervisor. The outcome of each audit is an **evaluation**. All evaluations of one (client, standard) pair live in one **quality audit** aggregate.

The model covers the following parts of the core:

- **Recording.** Recording a new evaluation obeys a **cadence rule**:
  - at least 180 days after the most recent positive evaluation;
  - at least 30 days after the most recent negative one.

  "Most recent" means the greatest audit date, with ties going to the evaluation appended first. The gap is the absolute number of whole days.
- **Replacement.** A new positive evaluation marks the first earlier evaluation, in append order, that is positive and active on the new audit date as replaced by the new id.
- **Locking.** Suspend, unlock and withdraw act on the **current** evaluation, which is the last one appended. Each success queues a domain event. `popEvents` drains the queue.
- **The evaluation's own state machine.** This covers:
  - suspension and withdrawal marks, which may both be set;
  - the replacement link;
  - expiry and activity on a date;
  - the manager;
  - a watcher list without duplicates (by string form) that never holds the owner.
- **Report validation.** The audit date is not after `now`. The expiration is at least 180 days after the audit date.
- **The three services:**
  - the recorder: contract check, then authority check, then load or create the audit, then record, then save;
  - the manager: change the manager, add a watcher or remove a watcher on the current evaluation, then save;
  - the flat recording service: the same checks, judged against the evaluation store's most recent evaluation.
- **Their collaborators:** `Supervisor.hasAuthorityFor` and the three in-memory repositories.

## Modules

Each module takes the form of its source file:

- `Reports` (evaluation_report.dfy), `Supervisors` (supervisor.dfy) and `EvaluationServices.RecordAfter` are pure functions on datatypes.
- `Evaluations` (evaluation.dfy) has two parts:
  - the value `EvaluationState`, with one pure transition per operation;
  - the class `Evaluation`, whose fields the methods update in place. Each method's contract ties the new `State()` to the transition of the same name.
- `Audits` (quality_audit.dfy) follows the same pattern:
  - the value `AuditState`, with `RecordEvaluation`, `SuspendCurrent`, `UnlockCurrent`, `WithdrawCurrent` and `PopEvents`;
  - the class `QualityAudit`, holding a `seq<Evaluation>` of objects and an event queue, whose `Model()` is an `AuditState`.

  The scan `findActivePositiveOn` is a loop proved equal to `FirstActivePositive`.
- The repositories are classes over a `seq` or `map` field:
  - the quality-audit store also keeps a ghost log of `save` calls, so "saved exactly once, only on success" can be stated;
  - the evaluation store keeps its keys in insertion order, as a PHP array does.
- `AuditRecorders` and `AuditManagers` are classes over the repositories. Each public method is proved equal to a pure whole-operation function (`RecordIn`, `ChangeManagerIn`, `AddWatcherIn`, `RemoveWatcherIn`) applied to the value stored before the call. The lemmas about those functions carry the properties.
- `Chrono` holds the day arithmetic and the "greatest date, first among equals" selection that a stable descending sort followed by taking the head computes.

Instants are whole day numbers: `modify('+180 days')` is `+ 180` and `diff()->days` is the absolute difference. The clock is a `now` parameter, and the id of a new evaluation is a `newId` parameter. Every exception class is a constructor of `DomainError`. A thrown exception is a `Failure`/`Fail` result that changes nothing.

## Where the code and its design description differ

The model follows the code in each of these cases:

- **Watcher identity.** Watchers are equal when their string forms are equal, whatever their kind (`Evaluation.php:197-200`). The design description compares kind and string.
- **Withdrawal and suspension.** Withdrawing a suspended evaluation succeeds and leaves the suspension set, and `unlock` then still succeeds (`Evaluations.WithdrawWhileSuspended`).
- **Manager and watchers.** `changeManager` does not consult the watcher list, so a watcher can become the manager (`Evaluations.ChangeManagerDoesNotConsultWatchers`).
- **Replacement of an expired evaluation.** A prior positive evaluation that has expired by the new audit date is not replaced. The design description's worked example has a first expiration on 2024-07-01 and a second audit on 2024-07-19, and says the first evaluation is replaced. By the code it is not, because it has expired by then. `Audits.ReplacementExample` shows both outcomes in day numbers from 2024-01-01: an evaluation still valid on the new date is replaced, and the description's own dates give no replacement.
- **No evaluations.** A lock operation or a manager operation on an audit without evaluations fails with a domain error (`NoEvaluationsExist`).

## Model

| member | source | states |
|---|---|---|
| Chrono.DaysBetween | src/Domain/Entity/QualityAudit.php:138-143 | the gap is the absolute whole-day distance: zero exactly on the same day, and it adds to the earlier date to give the later |
| Chrono.DaysBetweenSymmetric | src/Domain/Entity/QualityAudit.php:138-143 | the gap does not depend on the order of the two dates |
| Chrono.LatestIndex | src/Domain/Entity/QualityAudit.php:154-168 | the head after a stable sort by descending date: a position whose date is not below any other, with every earlier position strictly earlier |
| Chrono.LatestIndexUnique | src/Domain/Entity/QualityAudit.php:154-168 | those two properties single out one position, so any position having them is the one selected |
| Reports.Validate | src/Domain/ValueObject/EvaluationReport.php:34-47 | passes exactly when the audit date is not after `now` and the expiration is at least 180 days after the audit; a future audit date fails with AuditDateCannotBeInFuture whatever the expiration, otherwise the failure is ExpirationDateTooEarly; Reports.Create carries these outcomes |
| Reports.Create | src/Domain/ValueObject/EvaluationReport.php:22-47 | a future audit date fails with AuditDateCannotBeInFuture, and that check comes first; an expiration under 180 days after the audit fails with ExpirationDateTooEarly; success exactly when audit date <= now and audit date + 180 <= expiration; on success the fields equal the inputs |
| Reports.CreateIgnoresRatingAndStandard | src/Domain/ValueObject/EvaluationReport.php:34-47 | the outcome of creation does not depend on the rating or the standard |
| Reports.CreatedReportOutlivesAuditDate | src/Domain/ValueObject/EvaluationReport.php:43-46 | every created report's audit date lies strictly before its expiration |
| Evaluations.WithoutWatcher | src/Domain/Entity/Evaluation.php:189-195 | the result holds exactly the entries whose string differs from the argument's, and is no longer than the input |
| Evaluations.EvaluationState.MarkAsReplaced | src/Domain/Entity/Evaluation.php:121-124 | sets the replacement link to the given id and changes no other field |
| Evaluations.EvaluationState.Suspend | src/Domain/Entity/Evaluation.php:126-141 | expired fails with CannotLockExpired, then already suspended fails with AlreadySuspended, then withdrawn fails with CannotSuspendWithdrawn; success exactly when not expired and not locked, and it then sets only the suspension |
| Evaluations.EvaluationState.Unlock | src/Domain/Entity/Evaluation.php:143-150 | succeeds exactly when suspended, and otherwise fails with CannotUnlock; clears only the suspension |
| Evaluations.EvaluationState.Withdraw | src/Domain/Entity/Evaluation.php:152-163 | expired fails with CannotLockExpired, then already withdrawn fails with AlreadyWithdrawn; success exactly when not expired and not withdrawn; sets only the withdrawal |
| Evaluations.EvaluationState.ChangeManager | src/Domain/Entity/Evaluation.php:165-168 | overwrites the manager and changes no other field |
| Evaluations.EvaluationState.AddWatcher | src/Domain/Entity/Evaluation.php:170-187 | the owner is refused with OwnerCannotBeWatcher and the manager with ManagerCannotBeWatcher, and nothing else is refused; an id whose string is present leaves the list as it is; any other id is appended at the end; only the watchers change |
| Evaluations.EvaluationState.RemoveWatcher | src/Domain/Entity/Evaluation.php:189-195 | no remaining entry has the argument's string, every other entry survives, and only the watchers change |
| Evaluations.Recorded | src/Domain/Entity/Evaluation.php:26-52 | a new evaluation carries the given id, owner, manager, standard and report, is neither suspended, withdrawn, locked nor replaced, and has no watchers |
| Evaluations.WatcherIdsEqual | src/Domain/Entity/Evaluation.php:197-200 | identifiers of one kind are equal exactly when they are the same identifier; a client and a supervisor identifier are equal exactly when their strings are; Evaluations.WithoutWatcherKeepsDistinct and Evaluations.AddWatcherKeepsWellFormed rely on it |
| Evaluations.RecordedIsActiveOnAuditDate | src/Domain/Entity/Evaluation.php:84-119 | an evaluation built on a created report is not expired, and is active, on its own audit date |
| Evaluations.SuspendThenUnlock | src/Domain/Entity/Evaluation.php:126-150 | after a successful suspend the evaluation is locked, and unlock restores it exactly |
| Evaluations.SuspendTwiceFails | src/Domain/Entity/Evaluation.php:132-134 | a second suspension fails, at any time |
| Evaluations.WithdrawnIsNeverLockedAgain | src/Domain/Entity/Evaluation.php:126-163 | a withdrawn evaluation can be neither suspended nor withdrawn again, with CannotSuspendWithdrawn and AlreadyWithdrawn when it has not expired |
| Evaluations.WithdrawWhileSuspended | src/Domain/Entity/Evaluation.php:152-163 | withdrawing a suspended, unexpired evaluation succeeds with both marks set, and unlock then still succeeds and leaves it locked |
| Evaluations.WithdrawalIsPermanent | src/Domain/Entity/Evaluation.php:121-195 | no operation clears a withdrawal |
| Evaluations.ExpiredCannotBeLocked | src/Domain/Entity/Evaluation.php:126-163 | on an expired evaluation, suspend and withdraw fail with CannotLockExpired whatever the lock state |
| Evaluations.WithoutAbsentWatcher | src/Domain/Entity/Evaluation.php:189-195 | removing an id that no entry matches leaves the list unchanged |
| Evaluations.WithoutWatcherDistributes | src/Domain/Entity/Evaluation.php:189-195 | removal works entry by entry, so the survivors keep their order |
| Evaluations.WithoutWatcherKeepsDistinct | src/Domain/Entity/Evaluation.php:189-200 | removal keeps a duplicate-free list duplicate-free |
| Evaluations.AddWatcherKeepsWellFormed | src/Domain/Entity/Evaluation.php:170-200 | a successful add keeps the list duplicate-free (by string) and without the owner |
| Evaluations.RemoveWatcherKeepsWellFormed | src/Domain/Entity/Evaluation.php:189-200 | remove keeps the list duplicate-free and without the owner |
| Evaluations.AddWatcherIdempotent | src/Domain/Entity/Evaluation.php:170-187 | adding the same id a second time changes nothing |
| Evaluations.AddThenRemoveWatcher | src/Domain/Entity/Evaluation.php:170-195 | removing a watcher just added restores the evaluation |
| Evaluations.ChangeManagerDoesNotConsultWatchers | src/Domain/Entity/Evaluation.php:165-168 | a supervisor already watching can become the manager and stays a watcher |
| Evaluations.Evaluation.Record | src/Domain/Entity/Evaluation.php:44-52 | the new object's state is the recorded state |
| Evaluations.Evaluation.MarkAsReplaced | src/Domain/Entity/Evaluation.php:121-124 | the new state is the transition of the same name applied to the old state |
| Evaluations.Evaluation.Suspend | src/Domain/Entity/Evaluation.php:126-141 | the outcome and the new state are those of the transition; on failure the object is unchanged |
| Evaluations.Evaluation.Unlock | src/Domain/Entity/Evaluation.php:143-150 | the outcome and the new state are those of the transition; on failure the object is unchanged |
| Evaluations.Evaluation.Withdraw | src/Domain/Entity/Evaluation.php:152-163 | the outcome and the new state are those of the transition; on failure the object is unchanged |
| Evaluations.Evaluation.ChangeManager | src/Domain/Entity/Evaluation.php:165-168 | the new state is the transition applied to the old one |
| Evaluations.Evaluation.AddWatcher | src/Domain/Entity/Evaluation.php:170-187 | the scanning loop gives the outcome and the new state of the transition |
| Evaluations.Evaluation.RemoveWatcher | src/Domain/Entity/Evaluation.php:189-195 | the new state is the transition applied to the old one |
| Audits.MostRecentIndex | src/Domain/Entity/QualityAudit.php:154-168 | the evaluation with the greatest audit date, the earliest appended among equals |
| Audits.MostRecentIsUnique | src/Domain/Entity/QualityAudit.php:154-168 | any position holding the greatest audit date with no equal date before it is the one the most-recent search picks |
| Audits.CadenceCheck | src/Domain/Entity/QualityAudit.php:104-136 | after a positive prior the check passes exactly when the gap is at least 180 days, and otherwise fails with the afterPositive error; after a negative prior, 30 days and afterNegative; the error carries the required and the elapsed days |
| Audits.ValidateTiming | src/Domain/Entity/QualityAudit.php:89-102 | passes with no earlier evaluation; otherwise its outcome is the cadence check against the position holding the greatest audit date (the earliest appended among equals), so any failure is CannotAuditTooSoon; Audits.RecordCadence and Audits.CadenceBoundaries state the gaps |
| Audits.FirstActivePositive | src/Domain/Entity/QualityAudit.php:170-179 | the first position, in append order, holding an evaluation that is positive and active on the date, or none when there is no such position |
| Audits.WithActivePositiveReplaced | src/Domain/Entity/QualityAudit.php:145-152 | only the first active positive evaluation is marked as replaced by the new id; every other entry and the length stay the same |
| Audits.AuditState.Current | src/Domain/Entity/QualityAudit.php:230-237 | the last appended evaluation; fails with NoEvaluationsExist exactly on an empty audit |
| Audits.EmptyAudit | src/Domain/Entity/QualityAudit.php:36-40 | a new audit holds no evaluations and no events |
| Audits.AuditState.RecordEvaluation | src/Domain/Entity/QualityAudit.php:52-79 | the cadence is checked before the report, and once it passes the report's checks decide; a success appends one evaluation with the new id, the audit's client, the given manager and the given report, and queues no event; Audits.RecordAppendsOne, Audits.RecordCadence and Audits.RecordPositiveReplacesFirstActivePositive state the rest |
| Audits.AuditState.SuspendCurrent | src/Domain/Entity/QualityAudit.php:181-190 | fails with NoEvaluationsExist on an empty audit and otherwise exactly when the last evaluation's suspend fails; a success keeps the pair and the length and queues EvaluationSuspended for the last evaluation; Audits.SuspendCurrentActsOnLast and Audits.LockTransitionsKeepValid state the rest |
| Audits.AuditState.UnlockCurrent | src/Domain/Entity/QualityAudit.php:192-201 | the same for unlock, queuing EvaluationUnlocked; Audits.UnlockCurrentActsOnLast and Audits.SuspendThenUnlockCurrent state the rest |
| Audits.AuditState.WithdrawCurrent | src/Domain/Entity/QualityAudit.php:203-212 | the same for withdraw, queuing EvaluationWithdrawn; Audits.WithdrawCurrentActsOnLast states the rest |
| Audits.AuditState.PopEvents | src/Domain/Entity/QualityAudit.php:217-222 | returns the queued events and an audit whose queue is empty and which is otherwise unchanged; Audits.PopEventsDrains shows a second pop returns nothing |
| Audits.RecordAppendsOne | src/Domain/Entity/QualityAudit.php:52-79 | a success appends exactly one evaluation at the end, owned by the audit's client, for its standard, managed by the given supervisor, with the given report; earlier entries keep their positions and differ at most in the replacement link; no event is queued |
| Audits.RecordCadence | src/Domain/Entity/QualityAudit.php:89-136 | judged against the evaluation with the greatest audit date: under 180 days after a positive one, or under 30 after a negative one, fails with the matching error; once the gap is enough, the report's own checks decide |
| Audits.RecordFirstEvaluation | src/Domain/Entity/QualityAudit.php:89-95 | an audit without evaluations applies no cadence rule |
| Audits.RecordPositiveReplacesFirstActivePositive | src/Domain/Entity/QualityAudit.php:145-179 | a positive recording marks only the first active positive evaluation as replaced by the new id, leaves every other one as it was, and the new evaluation is not replaced |
| Audits.RecordNegativeReplacesNothing | src/Domain/Entity/QualityAudit.php:72-76 | a negative recording leaves every earlier evaluation as it was |
| Audits.InactivePriorIsNotReplaced | src/Domain/Entity/QualityAudit.php:170-179 | an evaluation expired, replaced or locked on the new audit date is never changed by a recording |
| Audits.RecordKeepsValid | src/Domain/Entity/QualityAudit.php:52-79 | a recording keeps every evaluation on the audit's client and standard, with well-formed watchers |
| Audits.CadenceBoundaries | src/Domain/Entity/QualityAudit.php:104-136 | 179 days after a positive fails and 180 passes; 29 days after a negative fails and 30 passes; the gap counts backwards too |
| Audits.ReplacementExample | src/Domain/Entity/QualityAudit.php:145-179 | a prior positive still valid on the new audit date is replaced; one that has expired by then is not |
| Audits.LockTransitionsNeedAnEvaluation | src/Domain/Entity/QualityAudit.php:230-237 | on an empty audit each lock operation fails with NoEvaluationsExist |
| Audits.SuspendCurrentActsOnLast | src/Domain/Entity/QualityAudit.php:181-190 | fails exactly when the last evaluation's suspend fails, with its error; on success only the last evaluation changes and exactly one EvaluationSuspended event with its id is queued |
| Audits.UnlockCurrentActsOnLast | src/Domain/Entity/QualityAudit.php:192-201 | the same for unlock, with CannotUnlock and EvaluationUnlocked |
| Audits.WithdrawCurrentActsOnLast | src/Domain/Entity/QualityAudit.php:203-212 | the same for withdraw, with EvaluationWithdrawn |
| Audits.SuspendThenUnlockCurrent | src/Domain/Entity/QualityAudit.php:181-201 | suspend then unlock restores the evaluations and queues the two events in order |
| Audits.LockTransitionsKeepValid | src/Domain/Entity/QualityAudit.php:181-212 | the lock operations keep the audit's invariant |
| Audits.PopEventsDrains | src/Domain/Entity/QualityAudit.php:217-227 | popEvents returns the queue in order, empties it, leaves the evaluations alone, and a second call returns nothing |
| Audits.QualityAudit.constructor | src/Domain/Entity/QualityAudit.php:36-40 | a new audit is the empty audit for its pair |
| Audits.QualityAudit.GetCurrentEvaluation | src/Domain/Entity/QualityAudit.php:230-237 | the last appended object; fails with NoEvaluationsExist exactly when there is none |
| Audits.QualityAudit.FindActivePositiveOn | src/Domain/Entity/QualityAudit.php:170-179 | the foreach scan returns the position FirstActivePositive names |
| Audits.QualityAudit.ReplaceActivePositive | src/Domain/Entity/QualityAudit.php:145-152 | the audit's new value has the first active positive evaluation marked in place; the invariant is kept |
| Audits.QualityAudit.RecordEvaluation | src/Domain/Entity/QualityAudit.php:52-79 | succeeds exactly when the pure recording does, with the same error; on failure the list and every evaluation are unchanged; on success a fresh object is appended and the new value is the pure recording's |
| Audits.QualityAudit.Append | src/Domain/Entity/QualityAudit.php:76 | the list grows by the given object at the end |
| Audits.QualityAudit.SuspendCurrent | src/Domain/Entity/QualityAudit.php:181-190 | the outcome and the new value are those of AuditState.SuspendCurrent; on failure nothing changes |
| Audits.QualityAudit.UnlockCurrent | src/Domain/Entity/QualityAudit.php:192-201 | the outcome and the new value are those of AuditState.UnlockCurrent |
| Audits.QualityAudit.WithdrawCurrent | src/Domain/Entity/QualityAudit.php:203-212 | the outcome and the new value are those of AuditState.WithdrawCurrent |
| Audits.QualityAudit.PopEvents | src/Domain/Entity/QualityAudit.php:217-222 | returns the queued events and leaves the queue empty, as PopEvents on the value does |
| Supervisors.ListsStandard | src/Domain/Entity/Supervisor.php:32-41 | the early-return search is true exactly when some entry equals the standard |
| Supervisors.Supervisor.HasAuthorityFor | src/Domain/Entity/Supervisor.php:32-41 | true exactly when the standard is in the authorized list |
| Supervisors.NoStandardsNoAuthority | src/Domain/Entity/Supervisor.php:34-40 | an empty authorized list authorizes nothing |
| Supervisors.EveryListedStandardIsAuthorized | src/Domain/Entity/Supervisor.php:34-38 | the search finds every entry, whatever its position |
| Supervisors.AuthorityIgnoresOrder | src/Domain/Entity/Supervisor.php:32-41 | reordering the authorized list does not change the answer |
| ContractRepository.AnyActiveBetween | src/Infrastructure/Repository/InMemoryContractRepository.php:27-39 | true exactly when some contract links the client to the supervisor and is active |
| ContractRepository.InMemoryContractRepository.constructor | src/Infrastructure/Repository/InMemoryContractRepository.php:17-20 | the store holds the given contracts |
| ContractRepository.InMemoryContractRepository.Add | src/Infrastructure/Repository/InMemoryContractRepository.php:22-25 | appends the contract; every pair that answered true still does |
| ContractRepository.InMemoryContractRepository.HasActiveContract | src/Infrastructure/Repository/InMemoryContractRepository.php:27-39 | true exactly when a stored contract has that client and supervisor and is active |
| ContractRepository.EmptyStoreHasNoContract | src/Infrastructure/Repository/InMemoryContractRepository.php:29-38 | an empty store answers false for every pair |
| ContractRepository.InactiveContractsDoNotCount | src/Infrastructure/Repository/InMemoryContractRepository.php:32 | appending inactive contracts never changes the answer |
| ContractRepository.NoneActive | src/Infrastructure/Repository/InMemoryContractRepository.php:29-38 | a list of inactive contracts answers false |
| ContractRepository.AddedActiveContractCounts | src/Infrastructure/Repository/InMemoryContractRepository.php:22-39 | after an active contract for a pair is appended, that pair answers true |
| QualityAuditRepository.KeyOf | src/Infrastructure/Repository/InMemoryQualityAuditRepository.php:31-39 | an audit's key is its (client, standard) pair |
| QualityAuditRepository.InMemoryQualityAuditRepository.constructor | src/Infrastructure/Repository/InMemoryQualityAuditRepository.php:17 | a new store is empty |
| QualityAuditRepository.InMemoryQualityAuditRepository.Save | src/Infrastructure/Repository/InMemoryQualityAuditRepository.php:19-23 | one save: the audit replaces whatever was under its pair; findFor on its pair then returns it; every other pair's answer is unchanged |
| QualityAuditRepository.InMemoryQualityAuditRepository.FindFor | src/Infrastructure/Repository/InMemoryQualityAuditRepository.php:25-29 | none exactly when nothing is stored under the pair; otherwise the stored audit, which belongs to that pair |
| QualityAuditRepository.EmptyStoreFindsNothing | src/Infrastructure/Repository/InMemoryQualityAuditRepository.php:28 | an empty store finds nothing |
| EvaluationRepository.MostRecentMatching | src/Infrastructure/Repository/InMemoryEvaluationRepository.php:33-53 | none exactly when nothing matches; otherwise a matching position with the greatest audit date, with every earlier match strictly older |
| EvaluationRepository.InMemoryEvaluationRepository.constructor | src/Infrastructure/Repository/InMemoryEvaluationRepository.php:18-21 | a new store is empty |
| EvaluationRepository.InMemoryEvaluationRepository.Save | src/Infrastructure/Repository/InMemoryEvaluationRepository.php:23-26 | stores the evaluation under its id's string, overwriting in place or appending a new key; findById then returns it and every other id's answer is unchanged |
| EvaluationRepository.InMemoryEvaluationRepository.FindById | src/Infrastructure/Repository/InMemoryEvaluationRepository.php:28-31 | none exactly when the id was never saved; otherwise the evaluation saved under it, which carries that id |
| EvaluationRepository.InMemoryEvaluationRepository.FindMostRecentFor | src/Infrastructure/Repository/InMemoryEvaluationRepository.php:33-53 | none exactly when no stored evaluation has the owner and standard; otherwise a stored match whose audit date is at least that of every match, and every match saved earlier in insertion order has a strictly earlier audit date (ties go to the one saved first) |
| EvaluationRepository.EmptyStoreFindsNothing | src/Infrastructure/Repository/InMemoryEvaluationRepository.php:28-44 | an empty store finds nothing by id and no most recent evaluation |
| AuditRecorders.ValidatePrerequisites | src/Domain/Service/AuditRecorder.php:54-72 | passes exactly with an active contract and authority; without a contract it fails with NoActiveContract even when authority is also missing; with a contract but no authority it fails with SupervisorNotAuthorized |
| AuditRecorders.RecordIn | src/Domain/Service/AuditRecorder.php:28-52 | a failed prerequisite is the result, before any audit is consulted; with nothing stored only the report's checks decide; a success appends one evaluation with the new id, managed by the recording supervisor; AuditRecorders.PrerequisitesComeFirst and AuditRecorders.FirstRecordingStartsAudit state the rest |
| AuditRecorders.PrerequisitesComeFirst | src/Domain/Service/AuditRecorder.php:28-72 | the two prerequisite errors are reported whatever audit is stored, contract first |
| AuditRecorders.FirstRecordingStartsAudit | src/Domain/Service/AuditRecorder.php:38-47 | with nothing stored, a valid recording yields a new audit for the pair holding just the new evaluation and no events |
| AuditRecorders.AuditRecorder.constructor | src/Domain/Service/AuditRecorder.php:21-26 | the recorder uses the given repositories |
| AuditRecorders.AuditRecorder.LoadOrCreate | src/Domain/Service/AuditRecorder.php:38-39 | the stored audit for the pair when there is one, otherwise a fresh empty audit that is not stored |
| AuditRecorders.AuditRecorder.RecordEvaluation | src/Domain/Service/AuditRecorder.php:28-52 | the outcome is RecordIn's on the value stored before the call; on failure the store and its save log are untouched; on success exactly one save of the audit for the pair, whose stored value is RecordIn's, and the returned evaluation is fresh and is that audit's current one |
| AuditRecorders.AuditRecorder.RecordInto | src/Domain/Service/AuditRecorder.php:41-51 | records through the audit and saves it once, only on success |
| AuditManagers.WithCurrent | src/Domain/Service/AuditManager.php:77-85 | only the last evaluation is replaced; the pair, the other evaluations and the queue stay the same |
| AuditManagers.ChangeManagerIn | src/Domain/Service/AuditManager.php:22-43 | no active contract with the new manager fails first, then a missing audit with NoAuditFound, then an empty one with NoEvaluationsExist, and otherwise it succeeds; only the last evaluation changes, taking the new manager; AuditManagers.ContractCheckedBeforeLookup, AuditManagers.OnlyCurrentChanges and AuditManagers.ManagementKeepsValid state the rest |
| AuditManagers.AddWatcherIn | src/Domain/Service/AuditManager.php:45-59 | a missing audit fails with NoAuditFound and an empty one with NoEvaluationsExist; otherwise it succeeds exactly when the last evaluation accepts the watcher, and only that evaluation changes; AuditManagers.AddingOwnerFails and AuditManagers.ManagementKeepsValid state the rest |
| AuditManagers.RemoveWatcherIn | src/Domain/Service/AuditManager.php:61-75 | a missing audit fails with NoAuditFound and an empty one with NoEvaluationsExist; otherwise it succeeds and only the last evaluation changes, losing the watcher; AuditManagers.OnlyCurrentChanges and AuditManagers.ManagementKeepsValid state the rest |
| AuditManagers.ContractCheckedBeforeLookup | src/Domain/Service/AuditManager.php:27-32 | without an active contract for the new manager, changeManager fails with NoActiveContract whatever is stored |
| AuditManagers.NoAuditNoChange | src/Domain/Service/AuditManager.php:34-69 | with nothing stored for the pair, each operation fails with NoAuditFound |
| AuditManagers.NoEvaluationNoChange | src/Domain/Service/AuditManager.php:77-85 | on an audit without evaluations each operation fails with NoEvaluationsExist |
| AuditManagers.OnlyCurrentChanges | src/Domain/Service/AuditManager.php:77-85 | each operation changes only the last evaluation, by the evaluation's own operation; adding succeeds exactly when the evaluation accepts the watcher |
| AuditManagers.AddingOwnerFails | src/Domain/Service/AuditManager.php:45-59 | adding the audit's client as a watcher fails with OwnerCannotBeWatcher |
| AuditManagers.ManagementKeepsValid | src/Domain/Service/AuditManager.php:39-74 | the three operations keep the audit's invariant |
| AuditManagers.AuditManager.constructor | src/Domain/Service/AuditManager.php:16-20 | the manager uses the given repositories |
| AuditManagers.AuditManager.Find | src/Domain/Service/AuditManager.php:34-37 | the lookup is findFor's, and a found audit is the stored one for the pair |
| AuditManagers.AuditManager.ChangeManager | src/Domain/Service/AuditManager.php:22-43 | the outcome is ChangeManagerIn's on the stored value; on failure nothing is saved or changed; on success exactly one save and the stored value is ChangeManagerIn's |
| AuditManagers.AuditManager.AddWatcher | src/Domain/Service/AuditManager.php:45-59 | the same with AddWatcherIn |
| AuditManagers.AuditManager.RemoveWatcher | src/Domain/Service/AuditManager.php:61-75 | the same with RemoveWatcherIn |
| AuditManagers.AuditManager.Resave | src/Domain/Service/AuditManager.php:42 | one save of an audit already stored under its pair |
| AuditManagers.AuditManager.ChangeManagerOf | src/Domain/Service/AuditManager.php:39-42 | changes the current evaluation's manager in place, then saves once |
| AuditManagers.AuditManager.AddWatcherTo | src/Domain/Service/AuditManager.php:55-58 | adds the watcher to the current evaluation in place and saves once, only on success |
| AuditManagers.AuditManager.RemoveWatcherFrom | src/Domain/Service/AuditManager.php:71-74 | removes the watcher from the current evaluation in place, then saves once |
| EvaluationServices.RecordAfter | src/Domain/Service/RecordEvaluationService.php:33-59 | on success the new evaluation is the recorded state with the given client, supervisor and standard and the input report |
| EvaluationServices.ReportOf | src/Domain/Service/RecordEvaluationService.php:66-73 | the found evaluation's report, or none when nothing was found |
| EvaluationServices.ChecksInOrder | src/Domain/Service/RecordEvaluationService.php:41-50 | contract, then authority, then cadence against the prior (skipped when there is none), then the report's checks, each reported only when every earlier one passed |
| EvaluationServices.AgreesWithAggregate | src/Domain/Service/RecordEvaluationService.php:33-59 | against the aggregate's most recent evaluation, the service succeeds or fails exactly as the aggregate does, with the same error, and builds the evaluation the aggregate appends |
| EvaluationServices.StoreAndAggregatePickSamePrior | src/Domain/Service/RecordEvaluationService.php:66-69 | when the store holds one audit's evaluations, the store's most recent one is the aggregate's |
| EvaluationServices.RecordEvaluationService.constructor | src/Domain/Service/RecordEvaluationService.php:26-31 | the service uses the given repositories |
| EvaluationServices.RecordEvaluationService.RecordEvaluation | src/Domain/Service/RecordEvaluationService.php:33-59 | succeeds or fails as RecordAfter does against the store's most recent evaluation, with the same error; on success it returns a fresh evaluation in that state; it writes nothing |

The predicates `IsExpiredOn`, `IsSuspended`, `IsWithdrawn`, `IsLocked`, `IsReplaced` and `IsActiveOn` of `Evaluations.EvaluationState` are `src/Domain/Entity/Evaluation.php:84-119` as written. The lemmas above use them.

## Left out

- Calendar arithmetic of `DateTimeImmutable`: instants are day numbers. Time of day, time zones and month lengths are not modelled.
- The clock: `now` is a parameter. `suspendCurrent` and `withdrawCurrent` read the clock three times: for the lock instant, for the expiry check and for the event's instant. `unlockCurrent` reads it once, for the event's instant. The model takes every read to be the one instant `now`.
- Identifier generation and parsing: `EvaluationId::generate()` is replaced by a `newId` parameter. Ids are strings compared by value.
- Exception messages and their `sprintf` texts: each exception class is one `DomainError` constructor carrying its arguments.
- The repository interfaces and `Clock`: the services are bound to the in-memory repositories and to a `now` parameter.
- The lock-history projection, its Doctrine repository and the event projector: these are persistence and dispatch code.
- Getters of `Supervisor`, `Client`, `Standard`, `Contract`, `Evaluation` and `QualityAudit`: each is a datatype field or a `const` field.
- InMemoryQualityAuditRepository keys: the `clientId . '::' . standardId` string key is modelled as the pair `AuditKey`. Identifiers are UUID strings, which contain no `::`, so the pair and the string pick out the same stored audit.
- InMemoryEvaluationRepository.constructor: the optional initial list of the PHP constructor is not modelled, and the store starts empty. That list is keyed by position, not by id.
- Evaluations.EvaluationState.RemoveWatcher: `array_filter` keeps the surviving entries' numeric keys. The model renumbers them, which changes neither their order nor any later operation.
- The design description's recommendation that withdrawal clear the suspension and that unlock fail on a withdrawn evaluation is not what the code does. The model follows the code.

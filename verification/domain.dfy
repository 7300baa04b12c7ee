/**
 * Identifiers, small value records, domain events and the domain's error
 * kinds. Identifiers are opaque tokens compared by value; each carries its
 * canonical string form because watcher identity compares those strings
 * across identifier kinds.
 */
module Domain {

  /** An instant, as a whole day number. */
  type Instant = int

  datatype ClientId = ClientId(text: string)
  datatype SupervisorId = SupervisorId(text: string)
  datatype StandardId = StandardId(text: string)
  datatype EvaluationId = EvaluationId(text: string)
  datatype ContractId = ContractId(text: string)

  /** The `ClientId|SupervisorId` union accepted as a watcher. */
  datatype WatcherId = ClientWatcher(client: ClientId) | SupervisorWatcher(supervisor: SupervisorId) {
    /** The identifier's string form (`toString()`). */
    function Text(): string {
      match this
      case ClientWatcher(c) => c.text
      case SupervisorWatcher(s) => s.text
    }
  }

  datatype Rating = Positive | Negative {
    predicate IsPositive() { this == Positive }
    predicate IsNegative() { this == Negative }
  }

  datatype Client = Client(id: ClientId, name: string)
  datatype Standard = Standard(id: StandardId, name: string)
  datatype Contract = Contract(id: ContractId, clientId: ClientId, supervisorId: SupervisorId, active: bool)
  datatype Suspension = Suspension(suspendedAt: Instant)
  datatype Withdrawal = Withdrawal(withdrawnAt: Instant)

  /** Events queued by the lock transitions of a quality audit. */
  datatype DomainEvent =
    | EvaluationSuspended(evaluationId: EvaluationId, suspendedAt: Instant)
    | EvaluationUnlocked(evaluationId: EvaluationId, unlockedAt: Instant)
    | EvaluationWithdrawn(evaluationId: EvaluationId, withdrawnAt: Instant)

  /** Which cadence rule rejected an audit. */
  datatype CadenceRule = AfterPositive | AfterNegative

  /** One constructor per exception class the core throws. */
  datatype DomainError =
    | NoActiveContract(clientId: ClientId, supervisorId: SupervisorId)
    | SupervisorNotAuthorized(supervisorId: SupervisorId, standardName: string)
    | AuditDateCannotBeInFuture
    | ExpirationDateTooEarly
    | CannotAuditTooSoon(rule: CadenceRule, daysRequired: nat, daysPassed: nat)
    | AlreadySuspended
    | AlreadyWithdrawn
    | CannotSuspendWithdrawn
    | CannotUnlock
    | CannotLockExpired
    | OwnerCannotBeWatcher
    | ManagerCannotBeWatcher
    | NoAuditFound
    | NoEvaluationsExist
}

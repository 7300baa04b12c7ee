/**
 * The flat recording service: the same prerequisites and cadence rule as
 * the aggregate, judged against the evaluation store's most recent
 * evaluation for the client and standard; it builds the new evaluation
 * and leaves saving it, and any replacement, to its caller.
 */
module EvaluationServices {
  import opened Wrappers
  import opened Domain
  import opened Chrono
  import opened Reports
  import opened Evaluations
  import opened Audits
  import opened Supervisors
  import opened ContractRepository
  import opened EvaluationRepository
  import opened AuditRecorders

  /** Prerequisites, then the cadence after `prior` (if any), then the report's own checks. */
  function RecordAfter(
    contracts: seq<Contract>, client: Client, supervisor: Supervisor, standard: Standard, prior: Option<EvaluationReport>,
    rating: Rating, auditDate: Instant, expirationDate: Instant, now: Instant, newId: EvaluationId)
    : (r: Result<EvaluationState, DomainError>)
    ensures r.Success? ==>
      && r.value == Recorded(newId, client.id, supervisor.id, standard.id,
                             EvaluationReport(rating, auditDate, expirationDate, standard.id))
      && r.value.ownerId == client.id && r.value.managerId == supervisor.id && r.value.standardId == standard.id
  {
    match ValidatePrerequisites(contracts, client, supervisor, standard)
    case Fail(e) => Failure(e)
    case Pass =>
      match (if prior.Some? then CadenceCheck(prior.value, auditDate) else Pass)
      case Fail(e) => Failure(e)
      case Pass =>
        match Create(rating, auditDate, expirationDate, standard.id, now)
        case Failure(e) => Failure(e)
        case Success(report) => Success(Recorded(newId, client.id, supervisor.id, standard.id, report))
  }

  function ReportOf(found: Option<Evaluation>): (prior: Option<EvaluationReport>)
    ensures prior.Some? <==> found.Some?
    ensures prior.Some? ==> prior.value == found.value.report
  {
    if found.Some? then Some(found.value.report) else None
  }

  /**
   * Contract first, then authority, then cadence, then the report: each
   * error is reported only when every earlier check passed; with no prior
   * evaluation the cadence rule does not apply.
   */
  lemma ChecksInOrder(
    contracts: seq<Contract>, client: Client, supervisor: Supervisor, standard: Standard, prior: Option<EvaluationReport>,
    rating: Rating, auditDate: Instant, expirationDate: Instant, now: Instant, newId: EvaluationId)
    ensures var r := RecordAfter(contracts, client, supervisor, standard, prior, rating, auditDate, expirationDate, now, newId);
      var admitted := AnyActiveBetween(contracts, client.id, supervisor.id) && supervisor.HasAuthorityFor(standard.id);
      && (!AnyActiveBetween(contracts, client.id, supervisor.id) ==> r == Failure(NoActiveContract(client.id, supervisor.id)))
      && (AnyActiveBetween(contracts, client.id, supervisor.id) && !supervisor.HasAuthorityFor(standard.id) ==>
            r == Failure(SupervisorNotAuthorized(supervisor.id, standard.name)))
      && (admitted && prior.Some? && CadenceCheck(prior.value, auditDate).Fail? ==>
            r == Failure(CadenceCheck(prior.value, auditDate).error))
      && (admitted && (prior.None? || CadenceCheck(prior.value, auditDate).Pass?) ==>
            r.ToOutcome() == Create(rating, auditDate, expirationDate, standard.id, now).ToOutcome())
  {
  }

  /**
   * Judged against the same prior evaluation, the service and the
   * aggregate admit the same audits, fail with the same errors, and build
   * the same evaluation; the service replaces nothing.
   */
  lemma AgreesWithAggregate(
    contracts: seq<Contract>, client: Client, supervisor: Supervisor, standard: Standard, a: AuditState,
    rating: Rating, auditDate: Instant, expirationDate: Instant, now: Instant, newId: EvaluationId)
    requires ValidatePrerequisites(contracts, client, supervisor, standard).Pass?
    requires a.clientId == client.id && a.standardId == standard.id
    ensures var prior := if a.evaluations == [] then None else Some(a.evaluations[MostRecentIndex(a.evaluations)].report);
      var r := RecordAfter(contracts, client, supervisor, standard, prior, rating, auditDate, expirationDate, now, newId);
      var b := a.RecordEvaluation(supervisor.id, rating, auditDate, expirationDate, now, newId);
      && r.ToOutcome() == b.ToOutcome()
      && (r.Success? ==> b.value.evaluations[|a.evaluations|] == r.value)
  {
    var r := RecordAfter(contracts, client, supervisor, standard,
      if a.evaluations == [] then None else Some(a.evaluations[MostRecentIndex(a.evaluations)].report),
      rating, auditDate, expirationDate, now, newId);
    if r.Success? {
      RecordAppendsOne(a, supervisor.id, rating, auditDate, expirationDate, now, newId);
    }
  }

  /**
   * When the store holds exactly the evaluations of one audit, the store's
   * most recent evaluation is the one the aggregate's cadence rule uses.
   */
  lemma StoreAndAggregatePickSamePrior(es: seq<Evaluation>, clientId: ClientId, standardId: StandardId)
    requires es != []
    requires forall k :: 0 <= k < |es| ==> Matches(es[k], clientId, standardId)
    ensures MostRecentMatching(es, clientId, standardId) == Some(MostRecentIndex(StatesOf(es)))
  {
    var m := MostRecentMatching(es, clientId, standardId).value;
    LatestIndexUnique(AuditDates(StatesOf(es)), m);
  }

  class RecordEvaluationService {
    const contracts: InMemoryContractRepository
    const evaluations: InMemoryEvaluationRepository

    constructor (contracts: InMemoryContractRepository, evaluations: InMemoryEvaluationRepository)
      ensures this.contracts == contracts && this.evaluations == evaluations
    {
      this.contracts := contracts;
      this.evaluations := evaluations;
    }

    /** Builds the new evaluation; changes nothing it can reach. */
    method RecordEvaluation(
      client: Client, supervisor: Supervisor, standard: Standard, rating: Rating,
      auditDate: Instant, expirationDate: Instant, now: Instant, newId: EvaluationId)
      returns (r: Result<Evaluation, DomainError>)
      requires evaluations.Valid()
      ensures var expected := RecordAfter(contracts.contracts, client, supervisor, standard,
                                          ReportOf(evaluations.FindMostRecentFor(client.id, standard.id)),
                                          rating, auditDate, expirationDate, now, newId);
        && (r.Success? <==> expected.Success?)
        && (r.Failure? ==> expected == Failure(r.error))
        && (r.Success? ==> fresh(r.value) && r.value.State() == expected.value)
    {
      ghost var found := evaluations.FindMostRecentFor(client.id, standard.id);
      ghost var expected := RecordAfter(contracts.contracts, client, supervisor, standard, ReportOf(found),
                                        rating, auditDate, expirationDate, now, newId);
      if !contracts.HasActiveContract(client.id, supervisor.id) {
        assert expected == Failure(NoActiveContract(client.id, supervisor.id));
        return Failure(NoActiveContract(client.id, supervisor.id));
      }
      if !supervisor.HasAuthorityFor(standard.id) {
        assert expected == Failure(SupervisorNotAuthorized(supervisor.id, standard.name));
        return Failure(SupervisorNotAuthorized(supervisor.id, standard.name));
      }
      var prior := evaluations.FindMostRecentFor(client.id, standard.id);
      if prior.Some? {
        var timing := CadenceCheck(prior.value.report, auditDate);
        if timing.Fail? {
          assert expected == Failure(timing.error);
          return Failure(timing.error);
        }
      }
      assert expected.ToOutcome() == Create(rating, auditDate, expirationDate, standard.id, now).ToOutcome();
      var report :- Create(rating, auditDate, expirationDate, standard.id, now);
      var evaluation := new Evaluation.Record(newId, client.id, supervisor.id, standard.id, report);
      r := Success(evaluation);
    }
  }
}

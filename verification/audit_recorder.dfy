/**
 * The recording service over the aggregate: checks that the supervisor
 * may audit the client for the standard, loads the client's audit for the
 * standard (or starts an empty one), records through it and saves it.
 */
module AuditRecorders {
  import opened Wrappers
  import opened Domain
  import opened Reports
  import opened Evaluations
  import opened Audits
  import opened Supervisors
  import opened ContractRepository
  import opened QualityAuditRepository

  /** Contract first, then authority. */
  function ValidatePrerequisites(
    contracts: seq<Contract>, client: Client, supervisor: Supervisor, standard: Standard): (r: Outcome<DomainError>)
    ensures r.Pass? <==> AnyActiveBetween(contracts, client.id, supervisor.id) && supervisor.HasAuthorityFor(standard.id)
    ensures !AnyActiveBetween(contracts, client.id, supervisor.id) ==> r == Fail(NoActiveContract(client.id, supervisor.id))
    ensures AnyActiveBetween(contracts, client.id, supervisor.id) && !supervisor.HasAuthorityFor(standard.id) ==>
      r == Fail(SupervisorNotAuthorized(supervisor.id, standard.name))
  {
    if !AnyActiveBetween(contracts, client.id, supervisor.id) then Fail(NoActiveContract(client.id, supervisor.id))
    else if !supervisor.HasAuthorityFor(standard.id) then Fail(SupervisorNotAuthorized(supervisor.id, standard.name))
    else Pass
  }

  /** The value of the stored audit after a recording, given the audit stored before it (if any). */
  function RecordIn(
    contracts: seq<Contract>, stored: Option<AuditState>, client: Client, supervisor: Supervisor, standard: Standard,
    rating: Rating, auditDate: Instant, expirationDate: Instant, now: Instant, newId: EvaluationId): (r: Result<AuditState, DomainError>)
    // the prerequisites are checked before anything is loaded or recorded
    ensures ValidatePrerequisites(contracts, client, supervisor, standard).Fail? ==>
      r == Failure(ValidatePrerequisites(contracts, client, supervisor, standard).error)
    // a first recording is judged by the report's checks alone
    ensures stored.None? && ValidatePrerequisites(contracts, client, supervisor, standard).Pass? ==>
      r.ToOutcome() == Create(rating, auditDate, expirationDate, standard.id, now).ToOutcome()
    // success appends one evaluation, with the new id and the recording supervisor as manager
    ensures r.Success? ==>
      var before := stored.GetOr(EmptyAudit(client.id, standard.id)).evaluations;
      && |r.value.evaluations| == |before| + 1
      && r.value.evaluations[|before|].id == newId
      && r.value.evaluations[|before|].managerId == supervisor.id
  {
    match ValidatePrerequisites(contracts, client, supervisor, standard)
    case Fail(e) => Failure(e)
    case Pass =>
      stored.GetOr(EmptyAudit(client.id, standard.id)).RecordEvaluation(supervisor.id, rating, auditDate, expirationDate, now, newId)
  }

  /**
   * Without an active contract the call fails with that error, whatever
   * else is wrong; with a contract but without authority it fails with the
   * authority error. Neither depends on the stored audit.
   */
  lemma PrerequisitesComeFirst(
    contracts: seq<Contract>, stored: Option<AuditState>, client: Client, supervisor: Supervisor, standard: Standard,
    rating: Rating, auditDate: Instant, expirationDate: Instant, now: Instant, newId: EvaluationId)
    ensures var r := RecordIn(contracts, stored, client, supervisor, standard, rating, auditDate, expirationDate, now, newId);
      && (!AnyActiveBetween(contracts, client.id, supervisor.id) ==> r == Failure(NoActiveContract(client.id, supervisor.id)))
      && (AnyActiveBetween(contracts, client.id, supervisor.id) && !supervisor.HasAuthorityFor(standard.id) ==>
            r == Failure(SupervisorNotAuthorized(supervisor.id, standard.name)))
  {
  }

  /**
   * With no stored audit the first evaluation lands in a new audit for the
   * client and standard, with no cadence rule applied.
   */
  lemma FirstRecordingStartsAudit(
    contracts: seq<Contract>, client: Client, supervisor: Supervisor, standard: Standard,
    rating: Rating, auditDate: Instant, expirationDate: Instant, now: Instant, newId: EvaluationId)
    requires ValidatePrerequisites(contracts, client, supervisor, standard).Pass?
    requires auditDate <= now && auditDate + MinimumValidityDays <= expirationDate
    ensures var r := RecordIn(contracts, None, client, supervisor, standard, rating, auditDate, expirationDate, now, newId);
      && r.Success?
      && r.value.clientId == client.id && r.value.standardId == standard.id
      && r.value.evaluations
         == [Recorded(newId, client.id, supervisor.id, standard.id, EvaluationReport(rating, auditDate, expirationDate, standard.id))]
      && r.value.recordedEvents == []
  {
    RecordFirstEvaluation(EmptyAudit(client.id, standard.id), supervisor.id, rating, auditDate, expirationDate, now, newId);
    RecordAppendsOne(EmptyAudit(client.id, standard.id), supervisor.id, rating, auditDate, expirationDate, now, newId);
  }

  class AuditRecorder {
    const contracts: InMemoryContractRepository
    const audits: InMemoryQualityAuditRepository

    constructor (contracts: InMemoryContractRepository, audits: InMemoryQualityAuditRepository)
      ensures this.contracts == contracts && this.audits == audits
    {
      this.contracts := contracts;
      this.audits := audits;
    }

    /** The stored audit for the pair, or a new empty one (not stored). */
    method LoadOrCreate(clientId: ClientId, standardId: StandardId) returns (audit: QualityAudit)
      requires audits.ValidAt(AuditKey(clientId, standardId))
      ensures audit.Valid()
      ensures audit.clientId == clientId && audit.standardId == standardId
      ensures audit.Model() == audits.ModelAt(AuditKey(clientId, standardId)).GetOr(EmptyAudit(clientId, standardId))
      ensures AuditKey(clientId, standardId) in audits.audits ==> audit == audits.audits[AuditKey(clientId, standardId)]
      ensures AuditKey(clientId, standardId) !in audits.audits ==> fresh(audit) && audit.evaluations == []
    {
      var found := audits.FindFor(clientId, standardId);
      if found.Some? {
        audit := found.value;
      } else {
        audit := new QualityAudit(clientId, standardId);
      }
    }

    /**
     * Saves the audit once, and only when recording succeeded; the
     * evaluation returned is the one appended to the stored audit.
     */
    method RecordEvaluation(
      client: Client, supervisor: Supervisor, standard: Standard, rating: Rating,
      auditDate: Instant, expirationDate: Instant, now: Instant, newId: EvaluationId)
      returns (r: Result<Evaluation, DomainError>)
      requires audits.ValidAt(AuditKey(client.id, standard.id))
      modifies audits, audits.StoredAt(AuditKey(client.id, standard.id))
      ensures r.ToOutcome() == RecordIn(contracts.contracts, old(audits.ModelAt(AuditKey(client.id, standard.id))), client, supervisor, standard,
                 rating, auditDate, expirationDate, now, newId).ToOutcome()
      ensures r.Failure? ==> audits.Untouched() && audits.ModelAt(AuditKey(client.id, standard.id)) == old(audits.ModelAt(AuditKey(client.id, standard.id)))
      ensures r.Success? ==>
        && AuditKey(client.id, standard.id) in audits.audits
        && audits.SavedOnce(audits.audits[AuditKey(client.id, standard.id)])
        && audits.ValidAt(AuditKey(client.id, standard.id))
        && audits.ModelAt(AuditKey(client.id, standard.id)) == Some(RecordIn(contracts.contracts, old(audits.ModelAt(AuditKey(client.id, standard.id))), client, supervisor, standard,
                 rating, auditDate, expirationDate, now, newId).value)
        && fresh(r.value)
        && audits.audits[AuditKey(client.id, standard.id)].GetCurrentEvaluation() == Success(r.value)
    {
      ghost var key := AuditKey(client.id, standard.id);
      ghost var expected := RecordIn(contracts.contracts, audits.ModelAt(key), client, supervisor, standard,
                                     rating, auditDate, expirationDate, now, newId);
      if !contracts.HasActiveContract(client.id, supervisor.id) {
        assert expected == Failure(NoActiveContract(client.id, supervisor.id));
        return Failure(NoActiveContract(client.id, supervisor.id));
      }
      if !supervisor.HasAuthorityFor(standard.id) {
        assert expected == Failure(SupervisorNotAuthorized(supervisor.id, standard.name));
        return Failure(SupervisorNotAuthorized(supervisor.id, standard.name));
      }
      var audit := LoadOrCreate(client.id, standard.id);
      assert expected == audit.Model().RecordEvaluation(supervisor.id, rating, auditDate, expirationDate, now, newId);
      assert audit in audits.StoredAt(AuditKey(client.id, standard.id)) || fresh(audit);
      assert forall e :: e in audit.evaluations ==> e in audits.StoredAt(AuditKey(client.id, standard.id));
      r := RecordInto(audit, supervisor.id, rating, auditDate, expirationDate, now, newId);
    }

    /**
     * Records through `audit`, which is either stored under its own pair
     * or not stored at all, and saves it only on success.
     */
    method RecordInto(
      audit: QualityAudit, supervisorId: SupervisorId, rating: Rating,
      auditDate: Instant, expirationDate: Instant, now: Instant, newId: EvaluationId)
      returns (r: Result<Evaluation, DomainError>)
      requires audit.Valid() && audits.Keyed()
      requires KeyOf(audit) in audits.audits ==> audits.audits[KeyOf(audit)] == audit
      modifies audits, audit`evaluations, audit.evaluations
      ensures r.ToOutcome() == old(audit.Model()).RecordEvaluation(supervisorId, rating, auditDate, expirationDate, now, newId).ToOutcome()
      ensures r.Failure? ==> audits.Untouched() && audits.ModelAt(KeyOf(audit)) == old(audits.ModelAt(KeyOf(audit)))
      ensures r.Success? ==>
        && KeyOf(audit) in audits.audits && audits.audits[KeyOf(audit)] == audit
        && audits.SavedOnce(audit)
        && audits.ValidAt(KeyOf(audit))
        && audits.ModelAt(KeyOf(audit))
           == Some(old(audit.Model()).RecordEvaluation(supervisorId, rating, auditDate, expirationDate, now, newId).value)
        && fresh(r.value)
        && audit.GetCurrentEvaluation() == Success(r.value)
    {
      r := audit.RecordEvaluation(supervisorId, rating, auditDate, expirationDate, now, newId);
      if r.Failure? {
        return;
      }
      audits.Save(audit);
    }
  }
}

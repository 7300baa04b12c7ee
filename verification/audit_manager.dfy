/**
 * The management service: changes the manager of, and adds or removes a
 * watcher on, the current (last appended) evaluation of a stored audit,
 * then saves the audit.
 */
module AuditManagers {
  import opened Wrappers
  import opened Domain
  import opened Evaluations
  import opened Audits
  import opened ContractRepository
  import opened QualityAuditRepository

  /** Puts `s` in the current evaluation's place; no event is queued. */
  function WithCurrent(a: AuditState, s: EvaluationState): (b: AuditState)
    requires a.evaluations != []
    ensures |b.evaluations| == |a.evaluations|
    ensures b.evaluations[..|a.evaluations| - 1] == a.evaluations[..|a.evaluations| - 1]
    ensures b.evaluations[|a.evaluations| - 1] == s
    ensures b.clientId == a.clientId && b.standardId == a.standardId && b.recordedEvents == a.recordedEvents
  {
    a.(evaluations := a.evaluations[|a.evaluations| - 1 := s])
  }

  function ChangeManagerOfCurrent(a: AuditState, newManagerId: SupervisorId): Result<AuditState, DomainError> {
    match a.Current()
    case Failure(e) => Failure(e)
    case Success(current) => Success(WithCurrent(a, current.ChangeManager(newManagerId)))
  }

  function AddWatcherToCurrent(a: AuditState, w: WatcherId): Result<AuditState, DomainError> {
    match a.Current()
    case Failure(e) => Failure(e)
    case Success(current) =>
      match current.AddWatcher(w)
      case Failure(e) => Failure(e)
      case Success(s) => Success(WithCurrent(a, s))
  }

  function RemoveWatcherFromCurrent(a: AuditState, w: WatcherId): Result<AuditState, DomainError> {
    match a.Current()
    case Failure(e) => Failure(e)
    case Success(current) => Success(WithCurrent(a, current.RemoveWatcher(w)))
  }

  /** `changeManager`: contract check first, then the audit lookup, then the current evaluation. */
  function ChangeManagerIn(
    contracts: seq<Contract>, stored: Option<AuditState>, clientId: ClientId, newManagerId: SupervisorId)
    : (r: Result<AuditState, DomainError>)
    ensures !AnyActiveBetween(contracts, clientId, newManagerId) ==> r == Failure(NoActiveContract(clientId, newManagerId))
    ensures AnyActiveBetween(contracts, clientId, newManagerId) && stored.None? ==> r == Failure(NoAuditFound)
    ensures AnyActiveBetween(contracts, clientId, newManagerId) && stored.Some? && stored.value.evaluations == [] ==>
      r == Failure(NoEvaluationsExist)
    ensures r.Success? <==> AnyActiveBetween(contracts, clientId, newManagerId) && stored.Some? && stored.value.evaluations != []
    // only the current evaluation changes: it takes the new manager
    ensures r.Success? ==>
      var n := |stored.value.evaluations|;
      && r.value.evaluations == stored.value.evaluations[..n - 1] + [stored.value.evaluations[n - 1].ChangeManager(newManagerId)]
      && r.value.clientId == stored.value.clientId && r.value.standardId == stored.value.standardId
      && r.value.recordedEvents == stored.value.recordedEvents
  {
    if !AnyActiveBetween(contracts, clientId, newManagerId) then Failure(NoActiveContract(clientId, newManagerId))
    else if stored.None? then Failure(NoAuditFound)
    else ChangeManagerOfCurrent(stored.value, newManagerId)
  }

  function AddWatcherIn(stored: Option<AuditState>, w: WatcherId): (r: Result<AuditState, DomainError>)
    ensures stored.None? ==> r == Failure(NoAuditFound)
    ensures stored.Some? && stored.value.evaluations == [] ==> r == Failure(NoEvaluationsExist)
    ensures r.Success? <==>
      stored.Some? && stored.value.evaluations != []
      && stored.value.evaluations[|stored.value.evaluations| - 1].AddWatcher(w).Success?
    // only the current evaluation changes: it gains the watcher
    ensures r.Success? ==>
      var n := |stored.value.evaluations|;
      && r.value.evaluations == stored.value.evaluations[..n - 1] + [stored.value.evaluations[n - 1].AddWatcher(w).value]
      && r.value.clientId == stored.value.clientId && r.value.standardId == stored.value.standardId
      && r.value.recordedEvents == stored.value.recordedEvents
  {
    if stored.None? then Failure(NoAuditFound) else AddWatcherToCurrent(stored.value, w)
  }

  function RemoveWatcherIn(stored: Option<AuditState>, w: WatcherId): (r: Result<AuditState, DomainError>)
    ensures stored.None? ==> r == Failure(NoAuditFound)
    ensures r.Success? <==> stored.Some? && stored.value.evaluations != []
    ensures stored.Some? && stored.value.evaluations == [] ==> r == Failure(NoEvaluationsExist)
    // only the current evaluation changes: the watcher is gone from it
    ensures r.Success? ==>
      var n := |stored.value.evaluations|;
      && r.value.evaluations == stored.value.evaluations[..n - 1] + [stored.value.evaluations[n - 1].RemoveWatcher(w)]
      && r.value.clientId == stored.value.clientId && r.value.standardId == stored.value.standardId
      && r.value.recordedEvents == stored.value.recordedEvents
  {
    if stored.None? then Failure(NoAuditFound) else RemoveWatcherFromCurrent(stored.value, w)
  }

  // ---- Properties ---------------------------------------------------------

  /** The contract check precedes the audit lookup. */
  lemma ContractCheckedBeforeLookup(
    contracts: seq<Contract>, stored: Option<AuditState>, clientId: ClientId, newManagerId: SupervisorId)
    requires !AnyActiveBetween(contracts, clientId, newManagerId)
    ensures ChangeManagerIn(contracts, stored, clientId, newManagerId) == Failure(NoActiveContract(clientId, newManagerId))
  {
  }

  /** Every operation fails when nothing is stored for the pair. */
  lemma NoAuditNoChange(contracts: seq<Contract>, clientId: ClientId, m: SupervisorId, w: WatcherId)
    requires AnyActiveBetween(contracts, clientId, m)
    ensures ChangeManagerIn(contracts, None, clientId, m) == Failure(NoAuditFound)
    ensures AddWatcherIn(None, w) == Failure(NoAuditFound)
    ensures RemoveWatcherIn(None, w) == Failure(NoAuditFound)
  {
  }

  /** Every operation fails on an audit without evaluations. */
  lemma NoEvaluationNoChange(a: AuditState, m: SupervisorId, w: WatcherId)
    requires a.evaluations == []
    ensures ChangeManagerOfCurrent(a, m) == Failure(NoEvaluationsExist)
    ensures AddWatcherToCurrent(a, w) == Failure(NoEvaluationsExist)
    ensures RemoveWatcherFromCurrent(a, w) == Failure(NoEvaluationsExist)
  {
  }

  /**
   * Each operation touches only the last evaluation: earlier ones, the
   * pair and the event queue are unchanged.
   */
  lemma OnlyCurrentChanges(a: AuditState, m: SupervisorId, w: WatcherId)
    requires a.evaluations != []
    ensures var n := |a.evaluations|;
      var last := a.evaluations[n - 1];
      && ChangeManagerOfCurrent(a, m).Success?
      && ChangeManagerOfCurrent(a, m).value.evaluations == a.evaluations[..n - 1] + [last.ChangeManager(m)]
      && RemoveWatcherFromCurrent(a, w).Success?
      && RemoveWatcherFromCurrent(a, w).value.evaluations == a.evaluations[..n - 1] + [last.RemoveWatcher(w)]
      && (AddWatcherToCurrent(a, w).Success? <==> last.AddWatcher(w).Success?)
      && (AddWatcherToCurrent(a, w).Success? ==>
            AddWatcherToCurrent(a, w).value.evaluations == a.evaluations[..n - 1] + [last.AddWatcher(w).value])
  {
    var n := |a.evaluations|;
    var last := a.evaluations[n - 1];
    assert WithCurrent(a, last.ChangeManager(m)).evaluations == a.evaluations[..n - 1] + [last.ChangeManager(m)];
    assert WithCurrent(a, last.RemoveWatcher(w)).evaluations == a.evaluations[..n - 1] + [last.RemoveWatcher(w)];
    if last.AddWatcher(w).Success? {
      assert WithCurrent(a, last.AddWatcher(w).value).evaluations == a.evaluations[..n - 1] + [last.AddWatcher(w).value];
    }
  }

  /** The audit's client cannot be added as a watcher of its evaluations. */
  lemma AddingOwnerFails(a: AuditState)
    requires a.Valid() && a.evaluations != []
    ensures AddWatcherToCurrent(a, ClientWatcher(a.clientId)) == Failure(OwnerCannotBeWatcher)
  {
  }

  /** The three operations keep the audit well formed. */
  lemma ManagementKeepsValid(a: AuditState, m: SupervisorId, w: WatcherId)
    requires a.Valid()
    ensures ChangeManagerOfCurrent(a, m).Success? ==> ChangeManagerOfCurrent(a, m).value.Valid()
    ensures AddWatcherToCurrent(a, w).Success? ==> AddWatcherToCurrent(a, w).value.Valid()
    ensures RemoveWatcherFromCurrent(a, w).Success? ==> RemoveWatcherFromCurrent(a, w).value.Valid()
  {
    if a.evaluations != [] {
      var last := a.evaluations[|a.evaluations| - 1];
      if last.AddWatcher(w).Success? {
        AddWatcherKeepsWellFormed(last, w);
      }
      RemoveWatcherKeepsWellFormed(last, w);
    }
  }

  /**
   * When only the last evaluation object of an audit changed, the audit's
   * value is the old one with the last evaluation's new state in its place.
   */
  twostate lemma CurrentUpdatedInPlace(audit: QualityAudit)
    requires old(audit.Valid()) && old(audit.evaluations) != []
    requires unchanged(audit)
    requires forall k :: 0 <= k < |audit.evaluations| - 1 ==> unchanged(audit.evaluations[k])
    ensures audit.Model() == WithCurrent(old(audit.Model()), audit.evaluations[|audit.evaluations| - 1].State())
    ensures audit.evaluations[|audit.evaluations| - 1].State().WatchersWellFormed() ==> audit.Valid()
  {
    var n := |audit.evaluations|;
    assert StatesOf(audit.evaluations) == old(StatesOf(audit.evaluations))[n - 1 := audit.evaluations[n - 1].State()];
  }

  class AuditManager {
    const contracts: InMemoryContractRepository
    const audits: InMemoryQualityAuditRepository

    constructor (contracts: InMemoryContractRepository, audits: InMemoryQualityAuditRepository)
      ensures this.contracts == contracts && this.audits == audits
    {
      this.contracts := contracts;
      this.audits := audits;
    }

    /** The audit stored under the pair, with its evaluations, may be changed by the caller. */
    method Find(clientId: ClientId, standardId: StandardId) returns (found: Option<QualityAudit>)
      requires audits.ValidAt(AuditKey(clientId, standardId))
      ensures found == audits.FindFor(clientId, standardId)
      ensures found.Some? ==>
        && found.value.Valid()
        && KeyOf(found.value) == AuditKey(clientId, standardId)
        && found.value.Model() == audits.ModelAt(AuditKey(clientId, standardId)).value
        && found.value in audits.StoredAt(AuditKey(clientId, standardId))
        && forall e :: e in found.value.evaluations ==> e in audits.StoredAt(AuditKey(clientId, standardId))
    {
      found := audits.FindFor(clientId, standardId);
    }

    method ChangeManager(clientId: ClientId, standardId: StandardId, newManagerId: SupervisorId)
      returns (r: Outcome<DomainError>)
      requires audits.ValidAt(AuditKey(clientId, standardId))
      modifies audits, audits.StoredAt(AuditKey(clientId, standardId))
      ensures audits.ValidAt(AuditKey(clientId, standardId))
      ensures audits.audits == old(audits.audits)
      ensures r == ChangeManagerIn(contracts.contracts, old(audits.ModelAt(AuditKey(clientId, standardId))), clientId, newManagerId).ToOutcome()
      ensures r.Fail? ==> audits.Untouched() && audits.ModelAt(AuditKey(clientId, standardId)) == old(audits.ModelAt(AuditKey(clientId, standardId)))
      ensures r.Pass? ==>
        && audits.SavedOnce(audits.audits[AuditKey(clientId, standardId)])
        && audits.ModelAt(AuditKey(clientId, standardId))
           == Some(ChangeManagerIn(contracts.contracts, old(audits.ModelAt(AuditKey(clientId, standardId))), clientId, newManagerId).value)
    {
      if !contracts.HasActiveContract(clientId, newManagerId) {
        return Fail(NoActiveContract(clientId, newManagerId));
      }
      var found := Find(clientId, standardId);
      if found.None? {
        return Fail(NoAuditFound);
      }
      r := ChangeManagerOf(found.value, newManagerId);
    }

    method AddWatcher(clientId: ClientId, standardId: StandardId, w: WatcherId)
      returns (r: Outcome<DomainError>)
      requires audits.ValidAt(AuditKey(clientId, standardId))
      modifies audits, audits.StoredAt(AuditKey(clientId, standardId))
      ensures audits.ValidAt(AuditKey(clientId, standardId))
      ensures audits.audits == old(audits.audits)
      ensures r == AddWatcherIn(old(audits.ModelAt(AuditKey(clientId, standardId))), w).ToOutcome()
      ensures r.Fail? ==> audits.Untouched() && audits.ModelAt(AuditKey(clientId, standardId)) == old(audits.ModelAt(AuditKey(clientId, standardId)))
      ensures r.Pass? ==>
        && audits.SavedOnce(audits.audits[AuditKey(clientId, standardId)])
        && audits.ModelAt(AuditKey(clientId, standardId))
           == Some(AddWatcherIn(old(audits.ModelAt(AuditKey(clientId, standardId))), w).value)
    {
      var found := Find(clientId, standardId);
      if found.None? {
        return Fail(NoAuditFound);
      }
      r := AddWatcherTo(found.value, w);
    }

    method RemoveWatcher(clientId: ClientId, standardId: StandardId, w: WatcherId)
      returns (r: Outcome<DomainError>)
      requires audits.ValidAt(AuditKey(clientId, standardId))
      modifies audits, audits.StoredAt(AuditKey(clientId, standardId))
      ensures audits.ValidAt(AuditKey(clientId, standardId))
      ensures audits.audits == old(audits.audits)
      ensures r == RemoveWatcherIn(old(audits.ModelAt(AuditKey(clientId, standardId))), w).ToOutcome()
      ensures r.Fail? ==> audits.Untouched() && audits.ModelAt(AuditKey(clientId, standardId)) == old(audits.ModelAt(AuditKey(clientId, standardId)))
      ensures r.Pass? ==>
        && audits.SavedOnce(audits.audits[AuditKey(clientId, standardId)])
        && audits.ModelAt(AuditKey(clientId, standardId))
           == Some(RemoveWatcherIn(old(audits.ModelAt(AuditKey(clientId, standardId))), w).value)
    {
      var found := Find(clientId, standardId);
      if found.None? {
        return Fail(NoAuditFound);
      }
      r := RemoveWatcherFrom(found.value, w);
    }

    /** Saves an audit back under the pair it is already stored under. */
    method Resave(audit: QualityAudit)
      requires audit.Valid() && audits.Keyed() && KeyOf(audit) in audits.audits && audits.audits[KeyOf(audit)] == audit
      modifies audits
      ensures audits.ValidAt(KeyOf(audit)) && audits.audits == old(audits.audits)
      ensures audits.SavedOnce(audit)
      ensures audits.ModelAt(KeyOf(audit)) == Some(audit.Model())
    {
      audits.Save(audit);
    }

    /** The steps after the lookup of `changeManager`: change the current evaluation's manager, then save. */
    method ChangeManagerOf(audit: QualityAudit, newManagerId: SupervisorId) returns (r: Outcome<DomainError>)
      requires audit.Valid() && audits.Keyed() && KeyOf(audit) in audits.audits && audits.audits[KeyOf(audit)] == audit
      modifies audits, audit.evaluations
      ensures audits.ValidAt(KeyOf(audit)) && audits.audits == old(audits.audits)
      ensures r == ChangeManagerOfCurrent(old(audit.Model()), newManagerId).ToOutcome()
      ensures r.Fail? ==> audits.Untouched() && audit.Model() == old(audit.Model())
      ensures r.Pass? ==>
        && audits.SavedOnce(audit)
        && audits.ModelAt(KeyOf(audit)) == Some(ChangeManagerOfCurrent(old(audit.Model()), newManagerId).value)
    {
      var current := audit.GetCurrentEvaluation();
      if current.Failure? {
        return Fail(current.error);
      }
      current.value.ChangeManager(newManagerId);
      CurrentUpdatedInPlace(audit);
      Resave(audit);
      r := Pass;
    }

    /** The steps after the lookup of `addWatcher`. */
    method AddWatcherTo(audit: QualityAudit, w: WatcherId) returns (r: Outcome<DomainError>)
      requires audit.Valid() && audits.Keyed() && KeyOf(audit) in audits.audits && audits.audits[KeyOf(audit)] == audit
      modifies audits, audit.evaluations
      ensures audits.ValidAt(KeyOf(audit)) && audits.audits == old(audits.audits)
      ensures r == AddWatcherToCurrent(old(audit.Model()), w).ToOutcome()
      ensures r.Fail? ==> audits.Untouched() && audit.Model() == old(audit.Model())
      ensures r.Pass? ==>
        && audits.SavedOnce(audit)
        && audits.ModelAt(KeyOf(audit)) == Some(AddWatcherToCurrent(old(audit.Model()), w).value)
    {
      var current := audit.GetCurrentEvaluation();
      if current.Failure? {
        return Fail(current.error);
      }
      ghost var before := current.value.State();
      r := current.value.AddWatcher(w);
      CurrentUpdatedInPlace(audit);
      if r.Fail? {
        assert old(audit.Model()).evaluations[|audit.evaluations| - 1 := before] == old(audit.Model()).evaluations;
        return;
      }
      AddWatcherKeepsWellFormed(before, w);
      Resave(audit);
    }

    /** The steps after the lookup of `removeWatcher`. */
    method RemoveWatcherFrom(audit: QualityAudit, w: WatcherId) returns (r: Outcome<DomainError>)
      requires audit.Valid() && audits.Keyed() && KeyOf(audit) in audits.audits && audits.audits[KeyOf(audit)] == audit
      modifies audits, audit.evaluations
      ensures audits.ValidAt(KeyOf(audit)) && audits.audits == old(audits.audits)
      ensures r == RemoveWatcherFromCurrent(old(audit.Model()), w).ToOutcome()
      ensures r.Fail? ==> audits.Untouched() && audit.Model() == old(audit.Model())
      ensures r.Pass? ==>
        && audits.SavedOnce(audit)
        && audits.ModelAt(KeyOf(audit)) == Some(RemoveWatcherFromCurrent(old(audit.Model()), w).value)
    {
      var current := audit.GetCurrentEvaluation();
      if current.Failure? {
        return Fail(current.error);
      }
      ghost var before := current.value.State();
      current.value.RemoveWatcher(w);
      RemoveWatcherKeepsWellFormed(before, w);
      CurrentUpdatedInPlace(audit);
      Resave(audit);
      r := Pass;
    }
  }
}

/**
 * The aggregate that owns every evaluation of one client against one
 * standard: the cadence rule between audits, replacement of an active
 * positive evaluation by a newer positive one, the lock transitions on the
 * current (last appended) evaluation, and the queue of domain events.
 * `AuditState` is the aggregate's value and carries the pure operations;
 * the class `QualityAudit` updates its list and queue in place and is
 * proved against them.
 */
module Audits {
  import opened Wrappers
  import opened Domain
  import opened Chrono
  import opened Reports
  import opened Evaluations

  const PositiveEvaluationDelayDays: nat := 180
  const NegativeEvaluationDelayDays: nat := 30

  function AuditDates(states: seq<EvaluationState>): (dates: seq<Instant>)
    ensures |dates| == |states|
    ensures forall k :: 0 <= k < |states| ==> dates[k] == states[k].report.auditDate
  {
    seq(|states|, k requires 0 <= k < |states| => states[k].report.auditDate)
  }

  /** The most recent evaluation by audit date (not by position); ties go to the earliest appended. */
  function MostRecentIndex(states: seq<EvaluationState>): (m: nat)
    requires |states| > 0
    ensures m < |states|
    ensures forall k :: 0 <= k < |states| ==> states[k].report.auditDate <= states[m].report.auditDate
    ensures forall k :: 0 <= k < m ==> states[k].report.auditDate < states[m].report.auditDate
  {
    LatestIndex(AuditDates(states))
  }

  /** The minimum gap after `prior`: 180 days after a positive, 30 after a negative; the bound itself passes. */
  function CadenceCheck(prior: EvaluationReport, newAuditDate: Instant): (r: Outcome<DomainError>)
    ensures prior.rating.IsPositive() ==> (r.Pass? <==> DaysBetween(prior.auditDate, newAuditDate) >= 180)
    ensures prior.rating.IsNegative() ==> (r.Pass? <==> DaysBetween(prior.auditDate, newAuditDate) >= 30)
    ensures r.Fail? && prior.rating.IsPositive() ==>
      r.error == CannotAuditTooSoon(AfterPositive, 180, DaysBetween(prior.auditDate, newAuditDate))
    ensures r.Fail? && prior.rating.IsNegative() ==>
      r.error == CannotAuditTooSoon(AfterNegative, 30, DaysBetween(prior.auditDate, newAuditDate))
  {
    var daysPassed := DaysBetween(prior.auditDate, newAuditDate);
    if prior.rating.IsPositive() then
      if daysPassed < PositiveEvaluationDelayDays then
        Fail(CannotAuditTooSoon(AfterPositive, PositiveEvaluationDelayDays, daysPassed))
      else Pass
    else
      if daysPassed < NegativeEvaluationDelayDays then
        Fail(CannotAuditTooSoon(AfterNegative, NegativeEvaluationDelayDays, daysPassed))
      else Pass
  }

  /** Position `m` holds the evaluation with the greatest audit date, the earliest appended among equals. */
  predicate IsMostRecent(states: seq<EvaluationState>, m: nat)
    requires m < |states|
  {
    && (forall k :: 0 <= k < |states| ==> states[k].report.auditDate <= states[m].report.auditDate)
    && (forall k :: 0 <= k < m ==> states[k].report.auditDate < states[m].report.auditDate)
  }

  /** Only one position is the most recent, the one `MostRecentIndex` picks. */
  lemma MostRecentIsUnique(states: seq<EvaluationState>)
    requires |states| > 0
    ensures forall m :: 0 <= m < |states| && IsMostRecent(states, m) ==> m == MostRecentIndex(states)
  {
    forall m | 0 <= m < |states| && IsMostRecent(states, m)
      ensures m == MostRecentIndex(states)
    {
      LatestIndexUnique(AuditDates(states), m);
    }
  }

  /** No check for a first evaluation; otherwise the cadence after the most recent one. */
  function ValidateTiming(states: seq<EvaluationState>, newAuditDate: Instant): (r: Outcome<DomainError>)
    ensures states == [] ==> r == Pass
    ensures forall m :: 0 <= m < |states| && IsMostRecent(states, m) ==> r == CadenceCheck(states[m].report, newAuditDate)
    ensures r.Fail? ==> r.error.CannotAuditTooSoon?
  {
    if states == [] then Pass
    else
      MostRecentIsUnique(states);
      CadenceCheck(states[MostRecentIndex(states)].report, newAuditDate)
  }

  predicate IsActivePositive(s: EvaluationState, date: Instant) {
    s.report.rating.IsPositive() && s.IsActiveOn(date)
  }

  /** Position `k` holds the first active positive evaluation, in append order. */
  predicate IsFirstActivePositive(states: seq<EvaluationState>, date: Instant, k: nat)
    requires k < |states|
  {
    IsActivePositive(states[k], date) && forall j :: 0 <= j < k ==> !IsActivePositive(states[j], date)
  }

  function FirstActivePositive(states: seq<EvaluationState>, date: Instant): (r: Option<nat>)
    ensures r.Some? ==> r.value < |states| && IsFirstActivePositive(states, date, r.value)
    ensures r.None? ==> forall k :: 0 <= k < |states| ==> !IsActivePositive(states[k], date)
  {
    if states == [] then None
    else if IsActivePositive(states[0], date) then Some(0)
    else
      match FirstActivePositive(states[1..], date)
      case None => None
      case Some(i) => Some(i + 1)
  }

  /** Marks the first active positive evaluation as replaced by `newId`; every other one is left alone. */
  function WithActivePositiveReplaced(states: seq<EvaluationState>, date: Instant, newId: EvaluationId)
    : (r: seq<EvaluationState>)
    ensures |r| == |states|
    ensures forall k :: 0 <= k < |states| ==>
      r[k] == if IsFirstActivePositive(states, date, k) then states[k].MarkAsReplaced(newId) else states[k]
  {
    match FirstActivePositive(states, date)
    case None => states
    case Some(i) => states[i := states[i].MarkAsReplaced(newId)]
  }

  datatype AuditState = AuditState(
    clientId: ClientId,
    standardId: StandardId,
    evaluations: seq<EvaluationState>,
    recordedEvents: seq<DomainEvent>)
  {
    /** Every evaluation belongs to this client and standard and has a well-formed watcher list. */
    predicate Valid() {
      forall k :: 0 <= k < |evaluations| ==>
        && evaluations[k].ownerId == clientId
        && evaluations[k].standardId == standardId
        && evaluations[k].WatchersWellFormed()
    }

    /**
     * Cadence first, then the report's own checks; on success a positive
     * rating replaces the first active positive evaluation (the new one is
     * not yet in the list) and the new evaluation is appended.
     */
    function RecordEvaluation(
      supervisorId: SupervisorId, rating: Rating, auditDate: Instant, expirationDate: Instant,
      now: Instant, newId: EvaluationId): (r: Result<AuditState, DomainError>)
      // the cadence is checked before the report
      ensures ValidateTiming(evaluations, auditDate).Fail? ==> r == Failure(ValidateTiming(evaluations, auditDate).error)
      ensures ValidateTiming(evaluations, auditDate).Pass? ==>
        r.ToOutcome() == Create(rating, auditDate, expirationDate, standardId, now).ToOutcome()
      // on success one evaluation is appended, for this client and standard, and no event is queued
      ensures r.Success? ==>
        && r.value.clientId == clientId && r.value.standardId == standardId
        && r.value.recordedEvents == recordedEvents
        && |r.value.evaluations| == |evaluations| + 1
        && r.value.evaluations[|evaluations|].id == newId
        && r.value.evaluations[|evaluations|].ownerId == clientId
        && r.value.evaluations[|evaluations|].managerId == supervisorId
        && r.value.evaluations[|evaluations|].report == EvaluationReport(rating, auditDate, expirationDate, standardId)
    {
      match ValidateTiming(evaluations, auditDate)
      case Fail(e) => Failure(e)
      case Pass =>
        match Create(rating, auditDate, expirationDate, standardId, now)
        case Failure(e) => Failure(e)
        case Success(report) =>
          var recorded := Recorded(newId, clientId, supervisorId, standardId, report);
          var prior := if rating.IsPositive() then WithActivePositiveReplaced(evaluations, auditDate, newId) else evaluations;
          Success(this.(evaluations := prior + [recorded]))
    }

    /** The current evaluation is the last one appended, not the most recent by date. */
    function Current(): (r: Result<EvaluationState, DomainError>)
      ensures r.Failure? <==> evaluations == []
      ensures r.Failure? ==> r.error == NoEvaluationsExist
      ensures r.Success? ==> r.value == evaluations[|evaluations| - 1]
    {
      if evaluations == [] then Failure(NoEvaluationsExist)
      else Success(evaluations[|evaluations| - 1])
    }

    /** Puts `s` in the current evaluation's place and queues `event`. */
    function ReplaceCurrent(s: EvaluationState, event: DomainEvent): AuditState
      requires evaluations != []
    {
      this.(evaluations := evaluations[|evaluations| - 1 := s], recordedEvents := recordedEvents + [event])
    }

    function SuspendCurrent(now: Instant): (r: Result<AuditState, DomainError>)
      ensures evaluations == [] ==> r == Failure(NoEvaluationsExist)
      ensures r.Failure? <==> evaluations == [] || evaluations[|evaluations| - 1].Suspend(now, now).Failure?
      ensures r.Success? ==>
        && r.value.clientId == clientId && r.value.standardId == standardId
        && |r.value.evaluations| == |evaluations|
        && r.value.recordedEvents == recordedEvents + [EvaluationSuspended(evaluations[|evaluations| - 1].id, now)]
    {
      match Current()
      case Failure(e) => Failure(e)
      case Success(current) =>
        match current.Suspend(now, now)
        case Failure(e) => Failure(e)
        case Success(s) => Success(ReplaceCurrent(s, EvaluationSuspended(current.id, now)))
    }

    function UnlockCurrent(now: Instant): (r: Result<AuditState, DomainError>)
      ensures evaluations == [] ==> r == Failure(NoEvaluationsExist)
      ensures r.Failure? <==> evaluations == [] || evaluations[|evaluations| - 1].Unlock().Failure?
      ensures r.Success? ==>
        && r.value.clientId == clientId && r.value.standardId == standardId
        && |r.value.evaluations| == |evaluations|
        && r.value.recordedEvents == recordedEvents + [EvaluationUnlocked(evaluations[|evaluations| - 1].id, now)]
    {
      match Current()
      case Failure(e) => Failure(e)
      case Success(current) =>
        match current.Unlock()
        case Failure(e) => Failure(e)
        case Success(s) => Success(ReplaceCurrent(s, EvaluationUnlocked(current.id, now)))
    }

    function WithdrawCurrent(now: Instant): (r: Result<AuditState, DomainError>)
      ensures evaluations == [] ==> r == Failure(NoEvaluationsExist)
      ensures r.Failure? <==> evaluations == [] || evaluations[|evaluations| - 1].Withdraw(now, now).Failure?
      ensures r.Success? ==>
        && r.value.clientId == clientId && r.value.standardId == standardId
        && |r.value.evaluations| == |evaluations|
        && r.value.recordedEvents == recordedEvents + [EvaluationWithdrawn(evaluations[|evaluations| - 1].id, now)]
    {
      match Current()
      case Failure(e) => Failure(e)
      case Success(current) =>
        match current.Withdraw(now, now)
        case Failure(e) => Failure(e)
        case Success(s) => Success(ReplaceCurrent(s, EvaluationWithdrawn(current.id, now)))
    }

    /** The queued events, and the aggregate with its queue emptied. */
    function PopEvents(): (r: (seq<DomainEvent>, AuditState))
      ensures r.0 == recordedEvents
      // the queue is emptied and nothing else changes
      ensures r.1.recordedEvents == []
      ensures r.1.evaluations == evaluations && r.1.clientId == clientId && r.1.standardId == standardId
    {
      (recordedEvents, this.(recordedEvents := []))
    }
  }

  function EmptyAudit(clientId: ClientId, standardId: StandardId): (a: AuditState)
    ensures a.Valid() && a.evaluations == [] && a.recordedEvents == []
  {
    AuditState(clientId, standardId, [], [])
  }

  // ---- Properties of recording -------------------------------------------

  /**
   * A successful recording appends exactly one evaluation, owned by the
   * audit's client, for its standard, managed by the given supervisor;
   * earlier entries keep their positions and can differ only in their
   * replacement link; no event is queued.
   */
  lemma RecordAppendsOne(
    a: AuditState, supervisorId: SupervisorId, rating: Rating, auditDate: Instant, expirationDate: Instant,
    now: Instant, newId: EvaluationId)
    requires a.RecordEvaluation(supervisorId, rating, auditDate, expirationDate, now, newId).Success?
    ensures var b := a.RecordEvaluation(supervisorId, rating, auditDate, expirationDate, now, newId).value;
      && b.clientId == a.clientId && b.standardId == a.standardId
      && b.recordedEvents == a.recordedEvents
      && |b.evaluations| == |a.evaluations| + 1
      && b.evaluations[|a.evaluations|]
         == Recorded(newId, a.clientId, supervisorId, a.standardId,
                     EvaluationReport(rating, auditDate, expirationDate, a.standardId))
      && forall k :: 0 <= k < |a.evaluations| ==>
           b.evaluations[k].(replacedBy := a.evaluations[k].replacedBy) == a.evaluations[k]
  {
    var report := EvaluationReport(rating, auditDate, expirationDate, a.standardId);
    RecordEvaluationSucceeds(a, supervisorId, rating, auditDate, expirationDate, now, newId, report);
  }

  /**
   * The cadence is judged against the evaluation with the greatest audit
   * date (the earliest appended among equals): under 180 days after a
   * positive or under 30 days after a negative is refused, and once the
   * gap is long enough the report's own checks decide.
   */
  lemma RecordCadence(
    a: AuditState, supervisorId: SupervisorId, rating: Rating, auditDate: Instant, expirationDate: Instant,
    now: Instant, newId: EvaluationId, m: nat)
    requires m < |a.evaluations|
    requires forall k :: 0 <= k < |a.evaluations| ==> a.evaluations[k].report.auditDate <= a.evaluations[m].report.auditDate
    requires forall k :: 0 <= k < m ==> a.evaluations[k].report.auditDate < a.evaluations[m].report.auditDate
    ensures var prior := a.evaluations[m].report;
      var gap := DaysBetween(prior.auditDate, auditDate);
      var r := a.RecordEvaluation(supervisorId, rating, auditDate, expirationDate, now, newId);
      && (prior.rating.IsPositive() && gap < 180 ==> r == Failure(CannotAuditTooSoon(AfterPositive, 180, gap)))
      && (prior.rating.IsNegative() && gap < 30 ==> r == Failure(CannotAuditTooSoon(AfterNegative, 30, gap)))
      && (CadenceCheck(prior, auditDate).Pass? ==>
            r.ToOutcome() == Create(rating, auditDate, expirationDate, a.standardId, now).ToOutcome())
  {
    LatestIndexUnique(AuditDates(a.evaluations), m);
  }

  /** The first evaluation of an audit is subject to no cadence rule. */
  lemma RecordFirstEvaluation(
    a: AuditState, supervisorId: SupervisorId, rating: Rating, auditDate: Instant, expirationDate: Instant,
    now: Instant, newId: EvaluationId)
    requires a.evaluations == []
    ensures a.RecordEvaluation(supervisorId, rating, auditDate, expirationDate, now, newId).ToOutcome()
         == Create(rating, auditDate, expirationDate, a.standardId, now).ToOutcome()
  {
  }

  /**
   * A positive recording marks, by the new id, only the first evaluation in
   * append order that is positive and active on the new audit date; the
   * new evaluation itself is not replaced.
   */
  lemma RecordPositiveReplacesFirstActivePositive(
    a: AuditState, supervisorId: SupervisorId, auditDate: Instant, expirationDate: Instant,
    now: Instant, newId: EvaluationId)
    requires a.RecordEvaluation(supervisorId, Positive, auditDate, expirationDate, now, newId).Success?
    ensures var b := a.RecordEvaluation(supervisorId, Positive, auditDate, expirationDate, now, newId).value;
      && !b.evaluations[|a.evaluations|].IsReplaced()
      && forall k :: 0 <= k < |a.evaluations| ==>
           b.evaluations[k] == if IsFirstActivePositive(a.evaluations, auditDate, k)
                               then a.evaluations[k].MarkAsReplaced(newId)
                               else a.evaluations[k]
  {
    var report := EvaluationReport(Positive, auditDate, expirationDate, a.standardId);
    RecordEvaluationSucceeds(a, supervisorId, Positive, auditDate, expirationDate, now, newId, report);
  }

  /** A negative recording changes no earlier evaluation. */
  lemma RecordNegativeReplacesNothing(
    a: AuditState, supervisorId: SupervisorId, auditDate: Instant, expirationDate: Instant,
    now: Instant, newId: EvaluationId)
    requires a.RecordEvaluation(supervisorId, Negative, auditDate, expirationDate, now, newId).Success?
    ensures a.RecordEvaluation(supervisorId, Negative, auditDate, expirationDate, now, newId).value.evaluations[..|a.evaluations|]
         == a.evaluations
  {
    var report := EvaluationReport(Negative, auditDate, expirationDate, a.standardId);
    RecordEvaluationSucceeds(a, supervisorId, Negative, auditDate, expirationDate, now, newId, report);
  }

  /** An evaluation already expired, replaced or locked on the new audit date is never replaced. */
  lemma InactivePriorIsNotReplaced(
    a: AuditState, supervisorId: SupervisorId, rating: Rating, auditDate: Instant, expirationDate: Instant,
    now: Instant, newId: EvaluationId, k: nat)
    requires a.RecordEvaluation(supervisorId, rating, auditDate, expirationDate, now, newId).Success?
    requires k < |a.evaluations| && !a.evaluations[k].IsActiveOn(auditDate)
    ensures a.RecordEvaluation(supervisorId, rating, auditDate, expirationDate, now, newId).value.evaluations[k]
         == a.evaluations[k]
  {
    var report := EvaluationReport(rating, auditDate, expirationDate, a.standardId);
    RecordEvaluationSucceeds(a, supervisorId, rating, auditDate, expirationDate, now, newId, report);
  }

  lemma RecordKeepsValid(
    a: AuditState, supervisorId: SupervisorId, rating: Rating, auditDate: Instant, expirationDate: Instant,
    now: Instant, newId: EvaluationId)
    requires a.Valid()
    requires a.RecordEvaluation(supervisorId, rating, auditDate, expirationDate, now, newId).Success?
    ensures a.RecordEvaluation(supervisorId, rating, auditDate, expirationDate, now, newId).value.Valid()
  {
    RecordAppendsOne(a, supervisorId, rating, auditDate, expirationDate, now, newId);
  }

  /** The exact cadence boundaries, and the gap counted in either direction. */
  lemma CadenceBoundaries(prior: EvaluationReport, d: Instant)
    requires prior.auditDate == d
    ensures prior.rating.IsPositive() ==>
      && CadenceCheck(prior, d + 179) == Fail(CannotAuditTooSoon(AfterPositive, 180, 179))
      && CadenceCheck(prior, d + 180) == Pass
      && CadenceCheck(prior, d - 180) == Pass
    ensures prior.rating.IsNegative() ==>
      && CadenceCheck(prior, d + 29) == Fail(CannotAuditTooSoon(AfterNegative, 30, 29))
      && CadenceCheck(prior, d + 30) == Pass
      && CadenceCheck(prior, d - 29) == Fail(CannotAuditTooSoon(AfterNegative, 30, 29))
  {
  }

  /**
   * Worked example in day numbers from 2024-01-01: a positive audit on day
   * 0 valid to day 213, then a positive audit on day 201: the first is
   * replaced by the second. Had the first expired on day 182, it would not
   * have been replaced.
   */
  lemma ReplacementExample(c: ClientId, s: StandardId, m: SupervisorId, e1: EvaluationId, e2: EvaluationId)
    ensures var a1 := EmptyAudit(c, s).RecordEvaluation(m, Positive, 0, 213, 335, e1);
      && a1.Success?
      && var a2 := a1.value.RecordEvaluation(m, Positive, 201, 385, 335, e2);
      && a2.Success?
      && |a2.value.evaluations| == 2
      && a2.value.evaluations[0].replacedBy == Some(e2)
      && !a2.value.evaluations[1].IsReplaced()
    ensures var a1 := EmptyAudit(c, s).RecordEvaluation(m, Positive, 0, 182, 335, e1);
      && a1.Success?
      && var a2 := a1.value.RecordEvaluation(m, Positive, 200, 384, 335, e2);
      && a2.Success?
      && !a2.value.evaluations[0].IsReplaced()
  {
    var a1 := EmptyAudit(c, s).RecordEvaluation(m, Positive, 0, 213, 335, e1);
    assert a1.value.evaluations == [Recorded(e1, c, m, s, EvaluationReport(Positive, 0, 213, s))];
    assert MostRecentIndex(a1.value.evaluations) == 0;
    assert IsFirstActivePositive(a1.value.evaluations, 201, 0);
    var b1 := EmptyAudit(c, s).RecordEvaluation(m, Positive, 0, 182, 335, e1);
    assert b1.value.evaluations == [Recorded(e1, c, m, s, EvaluationReport(Positive, 0, 182, s))];
    assert MostRecentIndex(b1.value.evaluations) == 0;
  }

  // ---- Properties of the lock transitions and the event queue --------------

  /** Each lock transition fails on an audit without evaluations. */
  lemma LockTransitionsNeedAnEvaluation(a: AuditState, now: Instant)
    requires a.evaluations == []
    ensures a.SuspendCurrent(now) == Failure(NoEvaluationsExist)
    ensures a.UnlockCurrent(now) == Failure(NoEvaluationsExist)
    ensures a.WithdrawCurrent(now) == Failure(NoEvaluationsExist)
  {
  }

  /**
   * Suspension acts on the last appended evaluation only; on success it
   * queues exactly one event carrying that evaluation's id.
   */
  lemma SuspendCurrentActsOnLast(a: AuditState, now: Instant)
    requires a.evaluations != []
    ensures var last := a.evaluations[|a.evaluations| - 1];
      var r := a.SuspendCurrent(now);
      && (r.Failure? <==> last.Suspend(now, now).Failure?)
      && (r.Failure? ==> r.error == last.Suspend(now, now).error)
      && (r.Success? ==>
            && |r.value.evaluations| == |a.evaluations|
            && r.value.evaluations[..|a.evaluations| - 1] == a.evaluations[..|a.evaluations| - 1]
            && r.value.evaluations[|a.evaluations| - 1] == last.Suspend(now, now).value
            && r.value.recordedEvents == a.recordedEvents + [EvaluationSuspended(last.id, now)])
  {
  }

  lemma UnlockCurrentActsOnLast(a: AuditState, now: Instant)
    requires a.evaluations != []
    ensures var last := a.evaluations[|a.evaluations| - 1];
      var r := a.UnlockCurrent(now);
      && (r.Failure? <==> last.Unlock().Failure?)
      && (r.Failure? ==> r.error == CannotUnlock)
      && (r.Success? ==>
            && |r.value.evaluations| == |a.evaluations|
            && r.value.evaluations[..|a.evaluations| - 1] == a.evaluations[..|a.evaluations| - 1]
            && r.value.evaluations[|a.evaluations| - 1] == last.Unlock().value
            && r.value.recordedEvents == a.recordedEvents + [EvaluationUnlocked(last.id, now)])
  {
  }

  lemma WithdrawCurrentActsOnLast(a: AuditState, now: Instant)
    requires a.evaluations != []
    ensures var last := a.evaluations[|a.evaluations| - 1];
      var r := a.WithdrawCurrent(now);
      && (r.Failure? <==> last.Withdraw(now, now).Failure?)
      && (r.Failure? ==> r.error == last.Withdraw(now, now).error)
      && (r.Success? ==>
            && |r.value.evaluations| == |a.evaluations|
            && r.value.evaluations[..|a.evaluations| - 1] == a.evaluations[..|a.evaluations| - 1]
            && r.value.evaluations[|a.evaluations| - 1] == last.Withdraw(now, now).value
            && r.value.recordedEvents == a.recordedEvents + [EvaluationWithdrawn(last.id, now)])
  {
  }

  /** Suspending and then unlocking the current evaluation restores it and queues two events. */
  lemma SuspendThenUnlockCurrent(a: AuditState, now: Instant, later: Instant)
    requires a.SuspendCurrent(now).Success?
    ensures a.SuspendCurrent(now).value.UnlockCurrent(later).Success?
    ensures a.SuspendCurrent(now).value.UnlockCurrent(later).value.evaluations == a.evaluations
    ensures var id := a.evaluations[|a.evaluations| - 1].id;
      a.SuspendCurrent(now).value.UnlockCurrent(later).value.recordedEvents
        == a.recordedEvents + [EvaluationSuspended(id, now), EvaluationUnlocked(id, later)]
  {
    var last := a.evaluations[|a.evaluations| - 1];
    SuspendThenUnlock(last, now, now);
    assert a.evaluations[|a.evaluations| - 1 := last] == a.evaluations;
  }

  lemma LockTransitionsKeepValid(a: AuditState, now: Instant)
    requires a.Valid()
    ensures a.SuspendCurrent(now).Success? ==> a.SuspendCurrent(now).value.Valid()
    ensures a.UnlockCurrent(now).Success? ==> a.UnlockCurrent(now).value.Valid()
    ensures a.WithdrawCurrent(now).Success? ==> a.WithdrawCurrent(now).value.Valid()
  {
  }

  /** popEvents hands back the queue in order and empties it: a second call returns nothing. */
  lemma PopEventsDrains(a: AuditState)
    ensures a.PopEvents().0 == a.recordedEvents
    ensures a.PopEvents().1.recordedEvents == []
    ensures a.PopEvents().1.evaluations == a.evaluations
    ensures a.PopEvents().1.PopEvents().0 == []
  {
  }

  function StatesOf(es: seq<Evaluation>): (states: seq<EvaluationState>)
    reads es
    ensures |states| == |es|
    ensures forall k :: 0 <= k < |es| ==> states[k] == es[k].State()
  {
    seq(|es|, k requires 0 <= k < |es| reads es => es[k].State())
  }

  lemma StatesOfAppend(es: seq<Evaluation>, e: Evaluation)
    ensures StatesOf(es + [e]) == StatesOf(es) + [e.State()]
  {
  }

  lemma RecordEvaluationSucceeds(
    a: AuditState, supervisorId: SupervisorId, rating: Rating, auditDate: Instant, expirationDate: Instant,
    now: Instant, newId: EvaluationId, report: EvaluationReport)
    requires ValidateTiming(a.evaluations, auditDate).Pass?
    requires Create(rating, auditDate, expirationDate, a.standardId, now) == Success(report)
    ensures a.RecordEvaluation(supervisorId, rating, auditDate, expirationDate, now, newId)
         == Success(a.(evaluations :=
              (if rating.IsPositive() then WithActivePositiveReplaced(a.evaluations, auditDate, newId) else a.evaluations)
              + [Recorded(newId, a.clientId, supervisorId, a.standardId, report)]))
  {
  }

  class QualityAudit {
    const clientId: ClientId
    const standardId: StandardId
    var evaluations: seq<Evaluation>
    var recordedEvents: seq<DomainEvent>

    /** The aggregate's value. */
    function Model(): AuditState
      reads this, evaluations
    {
      AuditState(clientId, standardId, StatesOf(evaluations), recordedEvents)
    }

    ghost predicate Valid()
      reads this, evaluations
    {
      && (forall i, j :: 0 <= i < j < |evaluations| ==> evaluations[i] != evaluations[j])
      && Model().Valid()
    }

    constructor (clientId: ClientId, standardId: StandardId)
      ensures Valid()
      ensures Model() == EmptyAudit(clientId, standardId)
    {
      this.clientId := clientId;
      this.standardId := standardId;
      evaluations := [];
      recordedEvents := [];
    }

    /** The current evaluation: the last one appended. */
    function GetCurrentEvaluation(): (r: Result<Evaluation, DomainError>)
      reads this
      ensures r.Failure? <==> evaluations == []
      ensures r.Failure? ==> r.error == NoEvaluationsExist
      ensures r.Success? ==> r.value == evaluations[|evaluations| - 1]
    {
      if evaluations == [] then Failure(NoEvaluationsExist)
      else Success(evaluations[|evaluations| - 1])
    }

    /** The foreach scan: the position of the first active positive evaluation. */
    method FindActivePositiveOn(date: Instant) returns (index: Option<nat>)
      ensures index == FirstActivePositive(Model().evaluations, date)
    {
      var i := 0;
      while i < |evaluations|
        invariant 0 <= i <= |evaluations|
        invariant forall k :: 0 <= k < i ==> !IsActivePositive(evaluations[k].State(), date)
      {
        if evaluations[i].report.rating.IsPositive() && evaluations[i].State().IsActiveOn(date) {
          return Some(i);
        }
        i := i + 1;
      }
      return None;
    }

    method ReplaceActivePositive(date: Instant, newId: EvaluationId)
      requires Valid()
      modifies evaluations
      ensures Valid()
      ensures Model() == old(Model()).(evaluations := WithActivePositiveReplaced(old(Model().evaluations), date, newId))
    {
      var found := FindActivePositiveOn(date);
      if found.Some? {
        var i := found.value;
        evaluations[i].MarkAsReplaced(newId);
        assert StatesOf(evaluations) == old(StatesOf(evaluations))[i := evaluations[i].State()];
      } else {
        assert StatesOf(evaluations) == old(StatesOf(evaluations));
      }
    }

    method RecordEvaluation(
      supervisorId: SupervisorId, rating: Rating, auditDate: Instant, expirationDate: Instant,
      now: Instant, newId: EvaluationId) returns (r: Result<Evaluation, DomainError>)
      requires Valid()
      modifies this`evaluations, evaluations
      ensures Valid()
      ensures r.Success? <==> old(Model()).RecordEvaluation(supervisorId, rating, auditDate, expirationDate, now, newId).Success?
      ensures r.Failure? ==>
        && old(Model()).RecordEvaluation(supervisorId, rating, auditDate, expirationDate, now, newId) == Failure(r.error)
        && evaluations == old(evaluations)
        && Model() == old(Model())
      ensures r.Success? ==>
        && fresh(r.value)
        && evaluations == old(evaluations) + [r.value]
        && Model() == old(Model()).RecordEvaluation(supervisorId, rating, auditDate, expirationDate, now, newId).value
    {
      ghost var before := Model();
      var timing := ValidateTiming(Model().evaluations, auditDate);
      if timing.Fail? {
        return Failure(timing.error);
      }
      var report :- Create(rating, auditDate, expirationDate, standardId, now);
      var evaluation := new Evaluation.Record(newId, clientId, supervisorId, standardId, report);
      if rating.IsPositive() {
        ReplaceActivePositive(auditDate, newId);
      }
      Append(evaluation);
      RecordEvaluationSucceeds(before, supervisorId, rating, auditDate, expirationDate, now, newId, report);
      r := Success(evaluation);
    }

    /** `$this->evaluations[] = $evaluation`. */
    method Append(evaluation: Evaluation)
      requires Valid() && evaluation !in evaluations
      requires evaluation.ownerId == clientId && evaluation.standardId == standardId
      requires evaluation.State().WatchersWellFormed()
      modifies this`evaluations
      ensures Valid()
      ensures evaluations == old(evaluations) + [evaluation]
      ensures Model() == old(Model()).(evaluations := old(Model().evaluations) + [evaluation.State()])
    {
      StatesOfAppend(evaluations, evaluation);
      evaluations := evaluations + [evaluation];
    }

    method SuspendCurrent(now: Instant) returns (r: Outcome<DomainError>)
      requires Valid()
      modifies this`recordedEvents, evaluations
      ensures Valid() && evaluations == old(evaluations)
      ensures r == old(Model()).SuspendCurrent(now).ToOutcome()
      ensures Model() == old(Model()).SuspendCurrent(now).GetOr(old(Model()))
    {
      var found := GetCurrentEvaluation();
      if found.Failure? {
        return Fail(found.error);
      }
      var current := found.value;
      ghost var before := Model();
      ghost var pre := current.State();
      assert before.Current() == Success(pre);
      r := current.Suspend(now, now);
      assert StatesOf(evaluations) == old(StatesOf(evaluations))[|evaluations| - 1 := current.State()];
      if r.Pass? {
        recordedEvents := recordedEvents + [EvaluationSuspended(current.id, now)];
        assert before.SuspendCurrent(now) == Success(before.ReplaceCurrent(pre.Suspend(now, now).value, EvaluationSuspended(pre.id, now)));
        assert Model() == before.ReplaceCurrent(current.State(), EvaluationSuspended(current.id, now));
      } else {
        assert before.SuspendCurrent(now) == Failure(r.error);
        assert StatesOf(evaluations) == old(StatesOf(evaluations));
      }
    }

    method UnlockCurrent(now: Instant) returns (r: Outcome<DomainError>)
      requires Valid()
      modifies this`recordedEvents, evaluations
      ensures Valid() && evaluations == old(evaluations)
      ensures r == old(Model()).UnlockCurrent(now).ToOutcome()
      ensures Model() == old(Model()).UnlockCurrent(now).GetOr(old(Model()))
    {
      var found := GetCurrentEvaluation();
      if found.Failure? {
        return Fail(found.error);
      }
      var current := found.value;
      ghost var before := Model();
      ghost var pre := current.State();
      assert before.Current() == Success(pre);
      r := current.Unlock();
      assert StatesOf(evaluations) == old(StatesOf(evaluations))[|evaluations| - 1 := current.State()];
      if r.Pass? {
        recordedEvents := recordedEvents + [EvaluationUnlocked(current.id, now)];
        assert before.UnlockCurrent(now) == Success(before.ReplaceCurrent(pre.Unlock().value, EvaluationUnlocked(pre.id, now)));
        assert Model() == before.ReplaceCurrent(current.State(), EvaluationUnlocked(current.id, now));
      } else {
        assert before.UnlockCurrent(now) == Failure(r.error);
        assert StatesOf(evaluations) == old(StatesOf(evaluations));
      }
    }

    method WithdrawCurrent(now: Instant) returns (r: Outcome<DomainError>)
      requires Valid()
      modifies this`recordedEvents, evaluations
      ensures Valid() && evaluations == old(evaluations)
      ensures r == old(Model()).WithdrawCurrent(now).ToOutcome()
      ensures Model() == old(Model()).WithdrawCurrent(now).GetOr(old(Model()))
    {
      var found := GetCurrentEvaluation();
      if found.Failure? {
        return Fail(found.error);
      }
      var current := found.value;
      ghost var before := Model();
      ghost var pre := current.State();
      assert before.Current() == Success(pre);
      r := current.Withdraw(now, now);
      assert StatesOf(evaluations) == old(StatesOf(evaluations))[|evaluations| - 1 := current.State()];
      if r.Pass? {
        recordedEvents := recordedEvents + [EvaluationWithdrawn(current.id, now)];
        assert before.WithdrawCurrent(now) == Success(before.ReplaceCurrent(pre.Withdraw(now, now).value, EvaluationWithdrawn(pre.id, now)));
        assert Model() == before.ReplaceCurrent(current.State(), EvaluationWithdrawn(current.id, now));
      } else {
        assert before.WithdrawCurrent(now) == Failure(r.error);
        assert StatesOf(evaluations) == old(StatesOf(evaluations));
      }
    }

    method PopEvents() returns (events: seq<DomainEvent>)
      modifies this`recordedEvents
      ensures (events, Model()) == old(Model()).PopEvents()
    {
      events := recordedEvents;
      recordedEvents := [];
    }
  }
}

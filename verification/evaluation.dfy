/**
 * One recorded audit outcome: its lock state (suspension, withdrawal), the
 * link to the evaluation that replaced it, its manager and its watchers.
 * `EvaluationState` is the value of an evaluation at one moment and carries
 * the pure predicates and transitions; the class `Evaluation` holds the
 * same fields and updates them in place, each method proved against the
 * transition of the same name.
 */
module Evaluations {
  import opened Wrappers
  import opened Domain
  import opened Reports

  /** Watcher identity compares string forms, whatever the identifier kind. */
  function WatcherIdsEqual(a: WatcherId, b: WatcherId): (equal: bool)
    ensures a == b ==> equal
    // within one kind, equality of identifiers
    ensures a.ClientWatcher? && b.ClientWatcher? ==> (equal <==> a.client == b.client)
    ensures a.SupervisorWatcher? && b.SupervisorWatcher? ==> (equal <==> a.supervisor == b.supervisor)
    // across kinds, a client and a supervisor with the same string form are the same watcher
    ensures a.ClientWatcher? && b.SupervisorWatcher? ==> (equal <==> a.client.text == b.supervisor.text)
    ensures a.SupervisorWatcher? && b.ClientWatcher? ==> (equal <==> a.supervisor.text == b.client.text)
  {
    a.Text() == b.Text()
  }

  predicate HasWatcher(watchers: seq<WatcherId>, w: WatcherId) {
    exists k :: 0 <= k < |watchers| && WatcherIdsEqual(watchers[k], w)
  }

  /** No two entries share a string form. */
  predicate DistinctWatchers(watchers: seq<WatcherId>) {
    forall i, j :: 0 <= i < j < |watchers| ==> !WatcherIdsEqual(watchers[i], watchers[j])
  }

  /** The watchers that remain after removing every entry equal to `w`, in their order. */
  function WithoutWatcher(watchers: seq<WatcherId>, w: WatcherId): (r: seq<WatcherId>)
    ensures forall x :: x in r <==> x in watchers && !WatcherIdsEqual(x, w)
    ensures |r| <= |watchers|
  {
    if watchers == [] then []
    else if WatcherIdsEqual(watchers[0], w) then WithoutWatcher(watchers[1..], w)
    else [watchers[0]] + WithoutWatcher(watchers[1..], w)
  }

  datatype EvaluationState = EvaluationState(
    id: EvaluationId,
    ownerId: ClientId,
    managerId: SupervisorId,
    standardId: StandardId,
    report: EvaluationReport,
    suspension: Option<Suspension>,
    withdrawal: Option<Withdrawal>,
    replacedBy: Option<EvaluationId>,
    watchers: seq<WatcherId>)
  {
    /** The expiration day itself is not yet expired. */
    predicate IsExpiredOn(date: Instant) { date > report.expirationDate }
    predicate IsSuspended() { suspension.Some? }
    predicate IsWithdrawn() { withdrawal.Some? }
    predicate IsLocked() { IsSuspended() || IsWithdrawn() }
    predicate IsReplaced() { replacedBy.Some? }
    predicate IsActiveOn(date: Instant) { !IsExpiredOn(date) && !IsReplaced() && !IsLocked() }

    /** What addWatcher and removeWatcher keep true of the watcher list. */
    predicate WatchersWellFormed() {
      DistinctWatchers(watchers) && ClientWatcher(ownerId) !in watchers
    }

    function MarkAsReplaced(replacement: EvaluationId): (r: EvaluationState)
      ensures r.IsReplaced() && r.replacedBy == Some(replacement)
      ensures r.(replacedBy := replacedBy) == this
    {
      this.(replacedBy := Some(replacement))
    }

    /** Suspension checks expiry, then an existing suspension, then withdrawal. */
    function Suspend(at: Instant, now: Instant): (r: Result<EvaluationState, DomainError>)
      ensures IsExpiredOn(now) ==> r == Failure(CannotLockExpired)
      ensures !IsExpiredOn(now) && IsSuspended() ==> r == Failure(AlreadySuspended)
      ensures !IsExpiredOn(now) && !IsSuspended() && IsWithdrawn() ==> r == Failure(CannotSuspendWithdrawn)
      ensures r.Success? <==> !IsExpiredOn(now) && !IsLocked()
      ensures r.Success? ==> r.value.suspension == Some(Suspension(at)) && r.value.(suspension := suspension) == this
    {
      if IsExpiredOn(now) then Failure(CannotLockExpired)
      else if IsSuspended() then Failure(AlreadySuspended)
      else if IsWithdrawn() then Failure(CannotSuspendWithdrawn)
      else Success(this.(suspension := Some(Suspension(at))))
    }

    /** Unlocking clears a suspension and nothing else; withdrawal is not consulted. */
    function Unlock(): (r: Result<EvaluationState, DomainError>)
      ensures r.Success? <==> IsSuspended()
      ensures r.Failure? ==> r.error == CannotUnlock
      ensures r.Success? ==> !r.value.IsSuspended() && r.value.(suspension := suspension) == this
    {
      if !IsSuspended() then Failure(CannotUnlock)
      else Success(this.(suspension := None))
    }

    /** Withdrawal checks expiry, then an existing withdrawal; a suspension stays set. */
    function Withdraw(at: Instant, now: Instant): (r: Result<EvaluationState, DomainError>)
      ensures IsExpiredOn(now) ==> r == Failure(CannotLockExpired)
      ensures !IsExpiredOn(now) && IsWithdrawn() ==> r == Failure(AlreadyWithdrawn)
      ensures r.Success? <==> !IsExpiredOn(now) && !IsWithdrawn()
      ensures r.Success? ==> r.value.withdrawal == Some(Withdrawal(at)) && r.value.(withdrawal := withdrawal) == this
    {
      if IsExpiredOn(now) then Failure(CannotLockExpired)
      else if IsWithdrawn() then Failure(AlreadyWithdrawn)
      else Success(this.(withdrawal := Some(Withdrawal(at))))
    }

    /** The manager is overwritten without looking at the watchers. */
    function ChangeManager(newManagerId: SupervisorId): (r: EvaluationState)
      ensures r.managerId == newManagerId
      ensures r.(managerId := managerId) == this
    {
      this.(managerId := newManagerId)
    }

    function AddWatcher(w: WatcherId): (r: Result<EvaluationState, DomainError>)
      ensures w.ClientWatcher? && w.client == ownerId ==> r == Failure(OwnerCannotBeWatcher)
      ensures w.SupervisorWatcher? && w.supervisor == managerId ==> r == Failure(ManagerCannotBeWatcher)
      ensures r.Success? <==> w != ClientWatcher(ownerId) && w != SupervisorWatcher(managerId)
      ensures r.Success? ==> r.value.(watchers := watchers) == this
      // an id already present by string form is a no-op; otherwise it goes at the end
      ensures r.Success? && HasWatcher(watchers, w) ==> r.value.watchers == watchers
      ensures r.Success? && !HasWatcher(watchers, w) ==> r.value.watchers == watchers + [w]
    {
      if w.ClientWatcher? && w.client == ownerId then Failure(OwnerCannotBeWatcher)
      else if w.SupervisorWatcher? && w.supervisor == managerId then Failure(ManagerCannotBeWatcher)
      else if HasWatcher(watchers, w) then Success(this)
      else Success(this.(watchers := watchers + [w]))
    }

    function RemoveWatcher(w: WatcherId): (r: EvaluationState)
      ensures !HasWatcher(r.watchers, w)
      ensures forall x :: x in watchers && !WatcherIdsEqual(x, w) ==> x in r.watchers
      ensures r.(watchers := watchers) == this
    {
      this.(watchers := WithoutWatcher(watchers, w))
    }
  }

  /** The state `Evaluation::record` produces. */
  function Recorded(id: EvaluationId, ownerId: ClientId, managerId: SupervisorId, standardId: StandardId, report: EvaluationReport)
    : (s: EvaluationState)
    ensures s.id == id && s.ownerId == ownerId && s.managerId == managerId
    ensures s.standardId == standardId && s.report == report
    ensures !s.IsSuspended() && !s.IsWithdrawn() && !s.IsLocked() && !s.IsReplaced()
    ensures s.watchers == [] && s.WatchersWellFormed()
  {
    EvaluationState(id, ownerId, managerId, standardId, report, None, None, None, [])
  }

  /** A freshly recorded evaluation built on a report that was created is active on its audit date. */
  lemma RecordedIsActiveOnAuditDate(
    id: EvaluationId, ownerId: ClientId, managerId: SupervisorId, standardId: StandardId,
    rating: Rating, auditDate: Instant, expirationDate: Instant, now: Instant)
    requires Create(rating, auditDate, expirationDate, standardId, now).Success?
    ensures !Recorded(id, ownerId, managerId, standardId, Create(rating, auditDate, expirationDate, standardId, now).value).IsExpiredOn(auditDate)
    ensures Recorded(id, ownerId, managerId, standardId, Create(rating, auditDate, expirationDate, standardId, now).value).IsActiveOn(auditDate)
  {
  }

  /** Unlock undoes a suspension exactly. */
  lemma SuspendThenUnlock(s: EvaluationState, at: Instant, now: Instant)
    requires s.Suspend(at, now).Success?
    ensures s.Suspend(at, now).value.IsLocked()
    ensures s.Suspend(at, now).value.Unlock() == Success(s)
  {
  }

  /** A second suspension is refused, whatever the time. */
  lemma SuspendTwiceFails(s: EvaluationState, at: Instant, now: Instant, at2: Instant, now2: Instant)
    requires s.Suspend(at, now).Success?
    ensures s.Suspend(at, now).value.Suspend(at2, now2).Failure?
  {
  }

  /** Once withdrawn, an evaluation can never be suspended or withdrawn again. */
  lemma WithdrawnIsNeverLockedAgain(s: EvaluationState, at: Instant, now: Instant)
    requires s.IsWithdrawn()
    ensures s.Suspend(at, now).Failure? && s.Withdraw(at, now).Failure?
    ensures !s.IsExpiredOn(now) && !s.IsSuspended() ==> s.Suspend(at, now) == Failure(CannotSuspendWithdrawn)
    ensures !s.IsExpiredOn(now) ==> s.Withdraw(at, now) == Failure(AlreadyWithdrawn)
  {
  }

  /**
   * Withdrawing a suspended evaluation leaves both marks set, and unlock
   * then still succeeds: the evaluation stays locked through its withdrawal.
   */
  lemma WithdrawWhileSuspended(s: EvaluationState, at: Instant, now: Instant)
    requires s.IsSuspended() && !s.IsWithdrawn() && !s.IsExpiredOn(now)
    ensures s.Withdraw(at, now).Success?
    ensures s.Withdraw(at, now).value.IsSuspended() && s.Withdraw(at, now).value.IsWithdrawn()
    ensures s.Withdraw(at, now).value.Unlock().Success?
    ensures s.Withdraw(at, now).value.Unlock().value.IsLocked()
  {
  }

  /** No transition clears a withdrawal. */
  lemma WithdrawalIsPermanent(s: EvaluationState, at: Instant, now: Instant, w: WatcherId, m: SupervisorId, e: EvaluationId)
    requires s.IsWithdrawn()
    ensures s.Unlock().Success? ==> s.Unlock().value.IsWithdrawn()
    ensures s.AddWatcher(w).Success? ==> s.AddWatcher(w).value.IsWithdrawn()
    ensures s.RemoveWatcher(w).IsWithdrawn() && s.ChangeManager(m).IsWithdrawn() && s.MarkAsReplaced(e).IsWithdrawn()
  {
  }

  /** Every lock transition is refused on an expired evaluation, whatever its lock state. */
  lemma ExpiredCannotBeLocked(s: EvaluationState, at: Instant, now: Instant)
    requires s.IsExpiredOn(now)
    ensures s.Suspend(at, now) == Failure(CannotLockExpired)
    ensures s.Withdraw(at, now) == Failure(CannotLockExpired)
  {
  }

  /** Removing an id that no entry matches leaves the list as it was. */
  lemma {:induction false} WithoutAbsentWatcher(watchers: seq<WatcherId>, w: WatcherId)
    requires !HasWatcher(watchers, w)
    ensures WithoutWatcher(watchers, w) == watchers
  {
    if watchers != [] {
      assert !WatcherIdsEqual(watchers[0], w);
      assert !HasWatcher(watchers[1..], w) by {
        forall k | 0 <= k < |watchers[1..]|
          ensures !WatcherIdsEqual(watchers[1..][k], w)
        {
          assert watchers[1..][k] == watchers[k + 1];
        }
      }
      WithoutAbsentWatcher(watchers[1..], w);
    }
  }

  /** Removal works entry by entry, so the survivors keep their order. */
  lemma {:induction false} WithoutWatcherDistributes(a: seq<WatcherId>, b: seq<WatcherId>, w: WatcherId)
    ensures WithoutWatcher(a + b, w) == WithoutWatcher(a, w) + WithoutWatcher(b, w)
  {
    if a == [] {
      assert a + b == b;
    } else {
      assert (a + b)[0] == a[0];
      assert (a + b)[1..] == a[1..] + b;
      WithoutWatcherDistributes(a[1..], b, w);
    }
  }

  lemma {:induction false} WithoutWatcherKeepsDistinct(watchers: seq<WatcherId>, w: WatcherId)
    requires DistinctWatchers(watchers)
    ensures DistinctWatchers(WithoutWatcher(watchers, w))
  {
    if watchers != [] {
      var rest := watchers[1..];
      assert DistinctWatchers(rest) by {
        forall i, j | 0 <= i < j < |rest|
          ensures !WatcherIdsEqual(rest[i], rest[j])
        {
          assert rest[i] == watchers[i + 1] && rest[j] == watchers[j + 1];
        }
      }
      WithoutWatcherKeepsDistinct(rest, w);
      if !WatcherIdsEqual(watchers[0], w) {
        var tail := WithoutWatcher(rest, w);
        forall x | x in tail
          ensures !WatcherIdsEqual(watchers[0], x)
        {
          var k :| 0 <= k < |rest| && rest[k] == x;
          assert watchers[k + 1] == x;
        }
        var r := [watchers[0]] + tail;
        forall i, j | 0 <= i < j < |r|
          ensures !WatcherIdsEqual(r[i], r[j])
        {
          if i == 0 {
            assert r[j] == tail[j - 1];
            assert r[j] in tail;
          } else {
            assert r[i] == tail[i - 1] && r[j] == tail[j - 1];
          }
        }
      }
    }
  }

  /** Adding a watcher keeps the list free of duplicates and of the owner. */
  lemma AddWatcherKeepsWellFormed(s: EvaluationState, w: WatcherId)
    requires s.WatchersWellFormed() && s.AddWatcher(w).Success?
    ensures s.AddWatcher(w).value.WatchersWellFormed()
  {
    if !HasWatcher(s.watchers, w) {
      var ws := s.watchers + [w];
      forall i, j | 0 <= i < j < |ws|
        ensures !WatcherIdsEqual(ws[i], ws[j])
      {
        if j == |ws| - 1 {
          assert ws[i] == s.watchers[i];
        } else {
          assert ws[i] == s.watchers[i] && ws[j] == s.watchers[j];
        }
      }
    }
  }

  /** Removing a watcher keeps the list free of duplicates and of the owner. */
  lemma RemoveWatcherKeepsWellFormed(s: EvaluationState, w: WatcherId)
    requires s.WatchersWellFormed()
    ensures s.RemoveWatcher(w).WatchersWellFormed()
  {
    WithoutWatcherKeepsDistinct(s.watchers, w);
  }

  /** Adding an id twice leaves one entry: the second call changes nothing. */
  lemma AddWatcherIdempotent(s: EvaluationState, w: WatcherId)
    requires s.AddWatcher(w).Success?
    ensures s.AddWatcher(w).value.AddWatcher(w) == s.AddWatcher(w)
  {
    var t := s.AddWatcher(w).value;
    if !HasWatcher(s.watchers, w) {
      assert t.watchers[|s.watchers|] == w;
    }
  }

  /** Removing a watcher that was just added restores the evaluation. */
  lemma AddThenRemoveWatcher(s: EvaluationState, w: WatcherId)
    requires s.AddWatcher(w).Success? && !HasWatcher(s.watchers, w)
    ensures s.AddWatcher(w).value.RemoveWatcher(w) == s
  {
    WithoutWatcherDistributes(s.watchers, [w], w);
    WithoutAbsentWatcher(s.watchers, w);
    assert WithoutWatcher([w], w) == [];
  }

  /** The manager rule is checked only when a watcher is added: a watcher can become the manager. */
  lemma ChangeManagerDoesNotConsultWatchers(s: EvaluationState, m: SupervisorId)
    requires SupervisorWatcher(m) in s.watchers
    ensures SupervisorWatcher(s.ChangeManager(m).managerId) in s.ChangeManager(m).watchers
  {
  }

  class Evaluation {
    const id: EvaluationId
    const ownerId: ClientId
    var managerId: SupervisorId
    const standardId: StandardId
    const report: EvaluationReport
    var suspension: Option<Suspension>
    var withdrawal: Option<Withdrawal>
    var replacedBy: Option<EvaluationId>
    var watchers: seq<WatcherId>

    /** The evaluation's current value. */
    function State(): EvaluationState
      reads this
    {
      EvaluationState(id, ownerId, managerId, standardId, report, suspension, withdrawal, replacedBy, watchers)
    }

    constructor Record(id: EvaluationId, ownerId: ClientId, managerId: SupervisorId, standardId: StandardId, report: EvaluationReport)
      ensures State() == Recorded(id, ownerId, managerId, standardId, report)
    {
      this.id := id;
      this.ownerId := ownerId;
      this.managerId := managerId;
      this.standardId := standardId;
      this.report := report;
      suspension := None;
      withdrawal := None;
      replacedBy := None;
      watchers := [];
    }

    method MarkAsReplaced(replacement: EvaluationId)
      modifies this`replacedBy
      ensures State() == old(State()).MarkAsReplaced(replacement)
    {
      replacedBy := Some(replacement);
    }

    method Suspend(at: Instant, now: Instant) returns (r: Outcome<DomainError>)
      modifies this`suspension
      ensures r == old(State()).Suspend(at, now).ToOutcome()
      ensures State() == old(State()).Suspend(at, now).GetOr(old(State()))
    {
      if State().IsExpiredOn(now) {
        return Fail(CannotLockExpired);
      }
      if suspension.Some? {
        return Fail(AlreadySuspended);
      }
      if withdrawal.Some? {
        return Fail(CannotSuspendWithdrawn);
      }
      suspension := Some(Suspension(at));
      r := Pass;
    }

    method Unlock() returns (r: Outcome<DomainError>)
      modifies this`suspension
      ensures r == old(State()).Unlock().ToOutcome()
      ensures State() == old(State()).Unlock().GetOr(old(State()))
    {
      if suspension.None? {
        return Fail(CannotUnlock);
      }
      suspension := None;
      r := Pass;
    }

    method Withdraw(at: Instant, now: Instant) returns (r: Outcome<DomainError>)
      modifies this`withdrawal
      ensures r == old(State()).Withdraw(at, now).ToOutcome()
      ensures State() == old(State()).Withdraw(at, now).GetOr(old(State()))
    {
      if State().IsExpiredOn(now) {
        return Fail(CannotLockExpired);
      }
      if withdrawal.Some? {
        return Fail(AlreadyWithdrawn);
      }
      withdrawal := Some(Withdrawal(at));
      r := Pass;
    }

    method ChangeManager(newManagerId: SupervisorId)
      modifies this`managerId
      ensures State() == old(State()).ChangeManager(newManagerId)
    {
      managerId := newManagerId;
    }

    /** Scans the watchers for the same string form before appending. */
    method AddWatcher(w: WatcherId) returns (r: Outcome<DomainError>)
      modifies this`watchers
      ensures r == old(State()).AddWatcher(w).ToOutcome()
      ensures State() == old(State()).AddWatcher(w).GetOr(old(State()))
    {
      if w.ClientWatcher? && w.client == ownerId {
        return Fail(OwnerCannotBeWatcher);
      }
      if w.SupervisorWatcher? && w.supervisor == managerId {
        return Fail(ManagerCannotBeWatcher);
      }
      var i := 0;
      while i < |watchers|
        invariant 0 <= i <= |watchers|
        invariant forall k :: 0 <= k < i ==> !WatcherIdsEqual(watchers[k], w)
      {
        if WatcherIdsEqual(watchers[i], w) {
          return Pass;
        }
        i := i + 1;
      }
      watchers := watchers + [w];
      r := Pass;
    }

    method RemoveWatcher(w: WatcherId)
      modifies this`watchers
      ensures State() == old(State()).RemoveWatcher(w)
    {
      watchers := WithoutWatcher(watchers, w);
    }
  }
}

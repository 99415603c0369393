/** Sequences of actions on one group, and what a later read sees of an
    earlier write. */
module Scenarios {
  import opened Domain
  import opened Ledger
  import opened TontineModel
  import RoundClock
  import TontineController
  import ContributionController

  /** A payment recorded for the current round succeeds when the creator
      records a registered user not yet paid, and then shows the member as
      paid in both status views. */
  method RecordThenStatus(t: Tontine, caller: UserId, users: set<UserId>, user: UserId, now: int)
    returns (r: Result<Payment>)
    requires t.Valid()
    modifies t`payments, t`history
    ensures r.Ok? <==>
              old(t.live) && TontineController.IsAdmin(t, caller) && user in users
              && (user, old(t.currentTurn)) !in old(t.payments)
    ensures r.Ok? ==>
      && TontineController.GetPaymentStatus(t, now).Ok?
      && ContributionController.GetStatus(t).Ok?
      && forall k :: 0 <= k < |t.roster| && t.roster[k] == user ==>
           && TontineController.GetPaymentStatus(t, now).value.members[k].hasPaid
           && !TontineController.GetPaymentStatus(t, now).value.members[k].isLate
           && ContributionController.GetStatus(t).value.members[k].hasPaid
  {
    r := TontineController.RecordPayment(t, caller, users, user, t.currentTurn);
  }

  /** Paying a penalty a second time succeeds again and changes nothing more. */
  method PayPenaltyTwice(t: Tontine, penaltyId: int) returns (first: Outcome, second: Outcome)
    requires t.Valid()
    modifies t`penalties
    ensures first == second
    ensures first.Pass? ==>
      && 0 <= penaltyId < |old(t.penalties)|
      && t.penalties == old(t.penalties)[penaltyId := old(t.penalties[penaltyId]).(status := Paid)]
    ensures first.Fail? ==> unchanged(t)
  {
    first := TontineController.PayPenalty(t, penaltyId);
    ghost var once := t.penalties;
    second := TontineController.PayPenalty(t, penaltyId);
    assert t.penalties == once;
  }

  /** Right after a start the first round runs one round length from the
      start day, so it is not overdue and has whole days left. */
  method StartThenClock(t: Tontine, caller: UserId, now: int, perm: seq<UserId>) returns (r: Outcome)
    requires t.Valid() && IsArrangement(perm, t.members)
    modifies t`members, t`status, t`startDate, t`currentTurn, t`orderType, t`orderLocked, t`history
    ensures r.Pass? ==>
      && t.Deadline() == Some(RoundClock.DayStart(now) + t.frequencyDays * RoundClock.DaySeconds)
      && !RoundClock.IsOverdue(t.Deadline(), now)
      && RoundClock.DaysLeft(t.Deadline(), now) >= t.frequencyDays - 1
  {
    r := TontineController.Start(t, caller, now, perm);
  }

  /** Closing a round twice moves the pointer by at most two and never back. */
  method CloseTwice(t: Tontine, caller: UserId) returns (first: Result<TontineController.RoundClosed>, second: Result<TontineController.RoundClosed>)
    requires t.Valid()
    modifies t`status, t`currentTurn, t`history
    ensures old(t.currentTurn) <= t.currentTurn <= old(t.currentTurn) + 2
    ensures first == Ok(TontineController.GroupCompleted) ==>
              second == Ok(TontineController.GroupCompleted) && t.currentTurn == old(t.currentTurn)
  {
    first := TontineController.CloseRound(t, caller);
    second := TontineController.CloseRound(t, caller);
  }
}

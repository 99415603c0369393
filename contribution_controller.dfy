/** The contributions controller: a second way of recording a payment, which
    writes no activity-log entry, and a status view of the current round. */
module ContributionController {
  import opened Domain
  import opened Ledger
  import opened TontineModel
  import TontineController

  /** Records `user`'s contribution for `round` at the group's fixed amount.
      Same checks as the group controller's recording, but nothing is logged. */
  method Store(t: Tontine, caller: UserId, users: set<UserId>, user: UserId, round: int)
    returns (r: Result<Payment>)
    requires t.Valid()
    modifies t`payments
    ensures t.Valid()
    ensures !old(t.live) ==> r == Err(NotFound)
    ensures old(t.live) && t.creatorId != caller ==> r == Err(Forbidden)
    ensures old(t.live) && t.creatorId == caller && (user !in users || round < 1) ==> r == Err(Invalid)
    ensures r == Err(AlreadyPaid) <==>
              old(t.live) && t.creatorId == caller && user in users && round >= 1 && (user, round) in old(t.payments)
    ensures r.Ok? <==>
              old(t.live) && t.creatorId == caller && user in users && round >= 1 && (user, round) !in old(t.payments)
    ensures r.Err? ==> unchanged(t)
    ensures r.Ok? ==>
      && r.value == Payment(user, round, t.amount)
      && t.payments == old(t.payments)[(user, round) := t.amount]
      && t.history == old(t.history)
  {
    if !t.live { return Err(NotFound); }
    if t.creatorId != caller { return Err(Forbidden); }
    if user !in users || round < 1 { return Err(Invalid); }
    if (user, round) in t.payments { return Err(AlreadyPaid); }
    t.payments := t.payments[(user, round) := t.amount];
    r := Ok(Payment(user, round, t.amount));
  }

  datatype MemberPaid = MemberPaid(user: UserId, hasPaid: bool)

  datatype ContributionStatus = ContributionStatus(
    status: GroupStatus, currentRound: int, potTotal: Money,
    beneficiary: Option<UserId>, members: seq<MemberPaid>)

  /** Who collects this round, the pot, and who has paid for it. A missing
      group surfaces as a caught exception (500). */
  function GetStatus(t: Tontine): (r: Result<ContributionStatus>)
    reads t
    ensures r.Err? <==> !t.live
    ensures r.Err? ==> r.error == ServerError
    ensures r.Ok? ==>
      var s := r.value;
      && s.status == t.status && s.currentRound == t.currentTurn
      && s.potTotal == t.amount * |t.members|
      && (s.beneficiary.Some? ==> s.beneficiary.value in t.roster && HoldsTurn(t.members, s.beneficiary.value, t.currentTurn))
      && (s.beneficiary.None? <==> forall u :: u in t.roster ==> !HoldsTurn(t.members, u, t.currentTurn))
      && |s.members| == |t.roster|
      && forall k :: 0 <= k < |t.roster| ==>
           s.members[k] == MemberPaid(t.roster[k], (t.roster[k], t.currentTurn) in t.payments)
  {
    if !t.live then Err(ServerError)
    else
      var round := t.currentTurn;
      var roster := t.roster;
      var paid := t.payments;
      Ok(ContributionStatus(
        t.status, round, t.amount * |t.members|, Beneficiary(roster, t.members, round),
        seq(|roster|, k requires 0 <= k < |roster| => MemberPaid(roster[k], (roster[k], round) in paid))))
  }

  /** The two status endpoints agree on the round, the pot, the beneficiary
      and who has paid. */
  lemma StatusViewsAgree(t: Tontine, now: int)
    requires t.live
    ensures GetStatus(t).Ok? && TontineController.GetPaymentStatus(t, now).Ok?
    ensures
      var c := GetStatus(t).value;
      var p := TontineController.GetPaymentStatus(t, now).value;
      && c.status == p.status && c.currentRound == p.currentRound && c.potTotal == p.totalPot && c.beneficiary == p.beneficiary
      && |c.members| == |p.members|
      && forall k :: 0 <= k < |c.members| ==> c.members[k].user == p.members[k].user && c.members[k].hasPaid == p.members[k].hasPaid
  {
  }
}

/** The group controller: creation, membership, turn order, lifecycle,
    payments, penalties, deletion and the read-side reports. Each action
    first resolves the group (NotFound once it is deleted) and every write
    except paying a penalty is reserved to the group's creator. */
module TontineController {
  import opened Domain
  import opened Ledger
  import opened TontineModel
  import RoundClock

  /** Only the creator administers a group, and the creator of an existing
      group is always one of its members. */
  predicate IsAdmin(t: Tontine, caller: UserId)
    reads t
    ensures IsAdmin(t, caller) && t.Valid() && t.live ==> caller in t.members
  {
    t.creatorId == caller
  }

  /** Creates a group owned by `caller` once the request passes validation. */
  method Store(caller: UserId, name: string, amount: Money, frequencyDays: int, lateFee: Option<Money>)
    returns (r: Result<Tontine>)
    ensures r.Ok? <==> 1 <= |name| <= 255 && amount >= 100 && frequencyDays >= 1
                       && (lateFee.Some? ==> lateFee.value >= 0)
    ensures r.Err? ==> r.error == Invalid
    ensures r.Ok? ==>
      var t := r.value;
      && fresh(t) && t.Valid() && t.live
      && t.name == name && t.amount == amount && t.frequencyDays == frequencyDays
      && t.lateFee == lateFee.GetOr(0) && t.creatorId == caller
      && t.status == Pending && t.currentTurn == 1 && t.orderType == NotDefined && !t.orderLocked
      && t.startDate == None
      && t.roster == [caller] && t.members == map[caller := Membership(Admin, Joined, None)]
      && t.payments == map[] && t.penalties == [] && t.history == []
  {
    if !(1 <= |name| <= 255 && amount >= 100 && frequencyDays >= 1 && (lateFee.Some? ==> lateFee.value >= 0)) {
      return Err(Invalid);
    }
    var t := new Tontine(name, amount, frequencyDays, lateFee, caller);
    r := Ok(t);
  }

  /** Attaches the user registered under `phone` as a pending member, or, if
      already attached, resets their role and status while keeping their
      turn order (an attach that never detaches). */
  method AddMember(t: Tontine, caller: UserId, phone: Phone, directory: map<Phone, UserId>) returns (r: Outcome)
    requires t.Valid()
    modifies t`members, t`roster
    ensures t.Valid()
    ensures !old(t.live) ==> r == Fail(NotFound)
    ensures old(t.live) && !IsAdmin(t, caller) ==> r == Fail(Forbidden)
    ensures old(t.live) && IsAdmin(t, caller) && phone !in directory ==> r == Fail(NotFound)
    ensures r.Pass? <==> old(t.live) && IsAdmin(t, caller) && phone in directory
    ensures r.Fail? ==> unchanged(t)
    ensures r.Pass? ==>
      var u := directory[phone];
      && t.members.Keys == old(t.members.Keys) + {u}
      && t.members[u].role == Member && t.members[u].status == Invited
      && t.members[u].turnOrder == (if u in old(t.members) then old(t.members[u].turnOrder) else None)
      && (forall v :: v in old(t.members) && v != u ==> t.members[v] == old(t.members[v]))
      && t.roster == (if u in old(t.members) then old(t.roster) else old(t.roster) + [u])
  {
    if !t.live { return Fail(NotFound); }
    if !IsAdmin(t, caller) { return Fail(Forbidden); }
    if phone !in directory { return Fail(NotFound); }
    var u := directory[phone];
    if u in t.members {
      t.members := t.members[u := t.members[u].(role := Member, status := Invited)];
    } else {
      t.members := t.members[u := Membership(Member, Invited, None)];
      t.roster := t.roster + [u];
    }
    r := Pass;
  }

  /** Gives the members the turns 1..N in the order of `perm` (the shuffled
      member ids) and locks the order, whatever the group's state. */
  method ShuffleMembers(t: Tontine, caller: UserId, perm: seq<UserId>) returns (r: Outcome)
    requires t.Valid() && IsArrangement(perm, t.members)
    modifies t`members, t`orderType, t`orderLocked
    ensures t.Valid()
    ensures !old(t.live) ==> r == Fail(NotFound)
    ensures old(t.live) && !IsAdmin(t, caller) ==> r == Fail(Forbidden)
    ensures r.Pass? <==> old(t.live) && IsAdmin(t, caller)
    ensures r.Fail? ==> unchanged(t)
    ensures r.Pass? ==>
      && IsTurnOrderBijection(t.members)
      && t.members.Keys == old(t.members.Keys)
      && (forall k :: 0 <= k < |perm| ==> t.members[perm[k]] == old(t.members[perm[k]]).(turnOrder := Some(k + 1)))
      && t.orderType == Random && t.orderLocked
  {
    if !t.live { return Fail(NotFound); }
    if !IsAdmin(t, caller) { return Fail(Forbidden); }
    t.AssignTurnOrder(perm);
    t.orderType := Random;
    t.orderLocked := true;
    r := Pass;
  }

  /** Activates a group of at least two members: draws the turn order from
      `perm` unless it is locked, stamps the start day, resets the round
      pointer to 1 and logs the start. Nothing prevents starting twice. */
  method Start(t: Tontine, caller: UserId, now: int, perm: seq<UserId>) returns (r: Outcome)
    requires t.Valid() && IsArrangement(perm, t.members)
    modifies t`members, t`status, t`startDate, t`currentTurn, t`orderType, t`orderLocked, t`history
    ensures t.Valid()
    ensures !old(t.live) ==> r == Fail(NotFound)
    ensures old(t.live) && !IsAdmin(t, caller) ==> r == Fail(Forbidden)
    ensures old(t.live) && IsAdmin(t, caller) && |t.members| < 2 ==> r == Fail(TooFewMembers)
    ensures r.Pass? <==> old(t.live) && IsAdmin(t, caller) && |old(t.members)| >= 2
    ensures r.Fail? ==> unchanged(t)
    ensures r.Pass? ==>
      && t.status == Active && t.currentTurn == 1 && t.orderLocked
      && t.startDate == Some(RoundClock.DayStart(now))
      && t.orderType == (if old(t.orderType) == NotDefined then Random else old(t.orderType))
      && t.members.Keys == old(t.members.Keys)
      && (old(t.orderLocked) ==> t.members == old(t.members))
      && (!old(t.orderLocked) ==>
            IsTurnOrderBijection(t.members)
            && forall k :: 0 <= k < |perm| ==> t.members[perm[k]] == old(t.members[perm[k]]).(turnOrder := Some(k + 1)))
      && t.history == old(t.history) + [Entry(StartEntry, None, 0, 1)]
  {
    if !t.live { return Fail(NotFound); }
    if !IsAdmin(t, caller) { return Fail(Forbidden); }
    if |t.members| < 2 { return Fail(TooFewMembers); }
    if !t.orderLocked {
      t.AssignTurnOrder(perm);
    }
    t.Activate(RoundClock.DayStart(now));
    r := Pass;
  }

  /** Records `user`'s contribution for `round` at the group's amount and
      logs it. `users` is the set of registered user ids: the user must
      exist but need not be a member, and the round has no upper bound. */
  method RecordPayment(t: Tontine, caller: UserId, users: set<UserId>, user: UserId, round: int)
    returns (r: Result<Payment>)
    requires t.Valid()
    modifies t`payments, t`history
    ensures t.Valid()
    ensures !old(t.live) ==> r == Err(NotFound)
    ensures old(t.live) && !IsAdmin(t, caller) ==> r == Err(Forbidden)
    ensures old(t.live) && IsAdmin(t, caller) && (user !in users || round < 1) ==> r == Err(Invalid)
    ensures r == Err(AlreadyPaid) <==>
              old(t.live) && IsAdmin(t, caller) && user in users && round >= 1 && (user, round) in old(t.payments)
    ensures r.Ok? <==>
              old(t.live) && IsAdmin(t, caller) && user in users && round >= 1 && (user, round) !in old(t.payments)
    ensures r.Err? ==> unchanged(t)
    ensures r.Ok? ==>
      && r.value == Payment(user, round, t.amount)
      && t.payments == old(t.payments)[(user, round) := t.amount]
      && t.history == old(t.history) + [Entry(PaymentEntry, Some(user), t.amount, t.currentTurn)]
  {
    if !t.live { return Err(NotFound); }
    if !IsAdmin(t, caller) { return Err(Forbidden); }
    if user !in users || round < 1 { return Err(Invalid); }
    if (user, round) in t.payments { return Err(AlreadyPaid); }
    t.payments := t.payments[(user, round) := t.amount];
    t.LogActivity(PaymentEntry, Some(user), t.amount);
    r := Ok(Payment(user, round, t.amount));
  }

  /** One member line of the payment status. */
  datatype MemberPaymentStatus = MemberPaymentStatus(user: UserId, hasPaid: bool, isLate: bool)

  datatype PaymentStatus = PaymentStatus(
    status: GroupStatus, currentRound: int, roundDeadline: Option<int>, daysLeft: int,
    totalPot: Money, beneficiary: Option<UserId>, members: seq<MemberPaymentStatus>)

  /** The state of the current round: who collects, the pot, and for each
      member whether they have paid and whether they are late. A missing
      group surfaces as a caught exception (500). */
  function GetPaymentStatus(t: Tontine, now: int): (r: Result<PaymentStatus>)
    reads t
    ensures r.Err? <==> !t.live
    ensures r.Err? ==> r.error == ServerError
    ensures r.Ok? ==>
      var s := r.value;
      && s.status == t.status && s.currentRound == t.currentTurn
      && s.roundDeadline == t.Deadline() && s.daysLeft == RoundClock.DaysLeft(s.roundDeadline, now)
      && s.totalPot == t.amount * |t.members|
      && (s.beneficiary.Some? ==> s.beneficiary.value in t.roster && HoldsTurn(t.members, s.beneficiary.value, t.currentTurn))
      && (s.beneficiary.None? <==> forall u :: u in t.roster ==> !HoldsTurn(t.members, u, t.currentTurn))
      && (s.roundDeadline.None? <==> t.startDate.None? || t.status != Active)
      && (RoundClock.IsOverdue(s.roundDeadline, now) ==> s.daysLeft <= 0)
      && |s.members| == |t.roster|
      && forall k :: 0 <= k < |t.roster| ==>
           && s.members[k].user == t.roster[k]
           && (s.members[k].hasPaid <==> (t.roster[k], t.currentTurn) in t.payments)
           && (s.members[k].isLate <==> !s.members[k].hasPaid && RoundClock.IsOverdue(s.roundDeadline, now))
  {
    if !t.live then Err(ServerError)
    else
      var round := t.currentTurn;
      var roster := t.roster;
      var paid := t.payments;
      var deadline := t.Deadline();
      var overdue := RoundClock.IsOverdue(deadline, now);
      RoundClock.OverdueAgreesWithDaysLeft(deadline, now);
      Ok(PaymentStatus(
        t.status, round, deadline, RoundClock.DaysLeft(deadline, now),
        t.amount * |t.members|, Beneficiary(roster, t.members, round),
        seq(|roster|, k requires 0 <= k < |roster| =>
          MemberPaymentStatus(roster[k], (roster[k], round) in paid, (roster[k], round) !in paid && overdue))))
  }

  /** In every state the actions leave, the payment status names as
      beneficiary exactly the member holding the current turn, if any. */
  lemma StatusBeneficiaryIsHolder(t: Tontine, now: int)
    requires t.Valid() && t.live
    ensures forall u: UserId :: HoldsTurn(t.members, u, t.currentTurn) <==> GetPaymentStatus(t, now).value.beneficiary == Some(u)
  {
    BeneficiaryDetermined(t.roster, t.members, t.currentTurn);
  }

  /** The rounds 1..current_turn, ascending, for which `user` has no payment. */
  method MissedRounds(t: Tontine, user: UserId) returns (rounds: seq<int>)
    ensures rounds == Missed(t.payments, user, t.currentTurn)
  {
    rounds := [];
    var i := 1;
    while i <= t.currentTurn
      invariant 1 <= i && (i <= t.currentTurn + 1 || i == 1)
      invariant rounds == Missed(t.payments, user, i - 1)
    {
      if (user, i) !in t.payments {
        rounds := rounds + [i];
      }
      i := i + 1;
    }
  }

  /** The debtors report: every member, in roster order, with a missed round
      up to the current one, their debt and their unpaid penalties. */
  method GetDebtors(t: Tontine) returns (r: Result<seq<Debtor>>)
    ensures r.Err? <==> !t.live
    ensures r.Err? ==> r.error == NotFound
    ensures r.Ok? ==> r.value == DebtorsAmong(t.roster, t.payments, t.penalties, t.currentTurn, t.amount)
  {
    if !t.live { return Err(NotFound); }
    var report: seq<Debtor> := [];
    for k := 0 to |t.roster|
      invariant report == DebtorsAmong(t.roster[..k], t.payments, t.penalties, t.currentTurn, t.amount)
    {
      var u := t.roster[k];
      var missed := MissedRounds(t, u);
      if missed != [] {
        report := report + [Debtor(u, missed, |missed| * t.amount, UnpaidPenaltyTotal(t.penalties, u))];
      }
      assert t.roster[..k + 1][..k] == t.roster[..k];
    }
    assert t.roster[..|t.roster|] == t.roster;
    r := Ok(report);
  }

  /** The debtors report as the action is written: the check for a payment
      of round i asks the already loaded payment collection for `exists()`,
      a query-builder method that in-memory collections do not have, so the
      first member visited raises and the request fails with 500. Only a
      group without members, or without a round to check, gets a report. */
  function GetDebtorsAsWritten(t: Tontine): Result<seq<Debtor>>
    reads t
  {
    if !t.live then Err(NotFound)
    else if t.roster != [] && t.currentTurn >= 1 then Err(ServerError)
    else Ok([])
  }

  /** As written, the debtors report of an existing group is never produced:
      the creator is always a member, so the failing check always runs. */
  lemma DebtorsAsWrittenAlwaysFails(t: Tontine)
    requires t.Valid() && t.live
    ensures GetDebtorsAsWritten(t) == Err(ServerError)
  {
    assert t.creatorId in t.roster;
  }

  /** Adds an unpaid fine for `user` in `round`, by default the group's late
      fee, and logs it. Fines are never deduplicated and the round is not
      bounded. */
  method ApplyPenalty(t: Tontine, caller: UserId, users: set<UserId>, user: UserId, round: int, amount: Option<Money>)
    returns (r: Result<Penalty>)
    requires t.Valid()
    modifies t`penalties, t`history
    ensures t.Valid()
    ensures !old(t.live) ==> r == Err(NotFound)
    ensures old(t.live) && !IsAdmin(t, caller) ==> r == Err(Forbidden)
    ensures old(t.live) && IsAdmin(t, caller) && user !in users ==> r == Err(Invalid)
    ensures r.Ok? <==> old(t.live) && IsAdmin(t, caller) && user in users
    ensures r.Err? ==> unchanged(t)
    ensures r.Ok? ==>
      && r.value == Penalty(user, round, amount.GetOr(t.lateFee), Unpaid)
      && t.penalties == old(t.penalties) + [r.value]
      && UnpaidPenaltyTotal(t.penalties, user) == UnpaidPenaltyTotal(old(t.penalties), user) + r.value.amount
      && t.history == old(t.history) + [Entry(PenaltyEntry, Some(user), r.value.amount, t.currentTurn)]
  {
    if !t.live { return Err(NotFound); }
    if !IsAdmin(t, caller) { return Err(Forbidden); }
    if user !in users { return Err(Invalid); }
    var p := Penalty(user, round, amount.GetOr(t.lateFee), Unpaid);
    UnpaidTotalAppend(t.penalties, p, user);
    t.penalties := t.penalties + [p];
    t.LogActivity(PenaltyEntry, Some(user), p.amount);
    r := Ok(p);
  }

  /** Marks penalty `penaltyId` as paid; open to any caller. The id is the
      penalty's position in the group's list. */
  method PayPenalty(t: Tontine, penaltyId: int) returns (r: Outcome)
    requires t.Valid()
    modifies t`penalties
    ensures t.Valid()
    ensures r.Pass? <==> 0 <= penaltyId < |old(t.penalties)|
    ensures r.Fail? ==> r.error == NotFound && unchanged(t)
    ensures r.Pass? ==>
      var p := old(t.penalties[penaltyId]);
      && t.penalties == old(t.penalties)[penaltyId := p.(status := Paid)]
      && UnpaidPenaltyTotal(t.penalties, p.user) == UnpaidPenaltyTotal(old(t.penalties), p.user) - UnpaidShare(p, p.user)
  {
    if !(0 <= penaltyId < |t.penalties|) { return Fail(NotFound); }
    var p := t.penalties[penaltyId];
    UnpaidTotalAfterPay(t.penalties, penaltyId, p.user);
    t.penalties := t.penalties[penaltyId := p.(status := Paid)];
    r := Pass;
  }

  /** Deletes the group with its memberships and everything recorded against it. */
  method Destroy(t: Tontine, caller: UserId) returns (r: Outcome)
    requires t.Valid()
    modifies t`live, t`members, t`roster, t`payments, t`penalties, t`history
    ensures t.Valid()
    ensures !old(t.live) ==> r == Fail(NotFound)
    ensures old(t.live) && !IsAdmin(t, caller) ==> r == Fail(Forbidden)
    ensures r.Pass? <==> old(t.live) && IsAdmin(t, caller)
    ensures r.Fail? ==> unchanged(t)
    ensures r.Pass? ==>
      && !t.live && t.members == map[] && t.roster == []
      && t.payments == map[] && t.penalties == [] && t.history == []
  {
    if !t.live { return Fail(NotFound); }
    if !IsAdmin(t, caller) { return Fail(Forbidden); }
    t.members := map[];
    t.roster := [];
    t.payments := map[];
    t.penalties := [];
    t.history := [];
    t.live := false;
    r := Pass;
  }

  datatype RoundClosed = NextRound(next: int) | GroupCompleted

  /** Closes the current round. Past the member count the group becomes
      completed and the pointer stays; otherwise the pointer moves on by one
      and the log entry, written after the move, names the outgoing
      beneficiary. Runs in any lifecycle state. */
  method CloseRound(t: Tontine, caller: UserId) returns (r: Result<RoundClosed>)
    requires t.Valid()
    modifies t`status, t`currentTurn, t`history
    ensures t.Valid()
    ensures !old(t.live) ==> r == Err(NotFound)
    ensures old(t.live) && !IsAdmin(t, caller) ==> r == Err(Forbidden)
    ensures r.Ok? <==> old(t.live) && IsAdmin(t, caller)
    ensures r.Err? ==> unchanged(t)
    ensures r.Ok? ==> t.currentTurn >= old(t.currentTurn)
    ensures r == Ok(GroupCompleted) <==> r.Ok? && old(t.currentTurn) + 1 > |t.members|
    ensures r.Ok? && old(t.currentTurn) + 1 <= |old(t.members)| ==> r == Ok(NextRound(old(t.currentTurn) + 1))
    ensures r == Ok(GroupCompleted) ==>
      && t.status == Completed && t.currentTurn == old(t.currentTurn)
      && t.history == old(t.history) + [Entry(InfoEntry, None, 0, old(t.currentTurn))]
    ensures r.Ok? && r.value.NextRound? ==>
      && r.value.next == t.currentTurn == old(t.currentTurn) + 1
      && t.status == old(t.status)
      && t.history == old(t.history) + [Entry(InfoEntry, Beneficiary(t.roster, t.members, old(t.currentTurn)), 0, t.currentTurn)]
      && (old(t.Deadline()).Some? ==> t.Deadline().value == old(t.Deadline()).value + t.frequencyDays * RoundClock.DaySeconds)
  {
    if !t.live { return Err(NotFound); }
    if !IsAdmin(t, caller) { return Err(Forbidden); }
    var current := t.currentTurn;
    var next := current + 1;
    var outgoing := Beneficiary(t.roster, t.members, current);
    if next > |t.members| {
      t.status := Completed;
      t.LogActivity(InfoEntry);
      return Ok(GroupCompleted);
    }
    if t.Deadline().Some? {
      RoundClock.DeadlineAdvance(t.startDate, t.status, t.frequencyDays, current);
    }
    t.currentTurn := next;
    t.LogActivity(InfoEntry, outgoing);
    r := Ok(NextRound(next));
  }

  /** The activity log, newest entry first. */
  function GetHistory(t: Tontine): (r: Result<seq<Entry>>)
    reads t
    ensures r.Err? <==> !t.live
    ensures r.Err? ==> r.error == NotFound
    ensures r.Ok? ==>
      && |r.value| == |t.history|
      && forall k :: 0 <= k < |t.history| ==> r.value[k] == t.history[|t.history| - 1 - k]
  {
    if !t.live then Err(NotFound) else Ok(NewestFirst(t.history))
  }
}

/** One tontine group and everything stored against it: the group row, its
    membership pivot, its payments, its penalties and its activity log. The
    rows of other groups are not part of this object. */
module TontineModel {
  import opened Domain
  import opened Ledger
  import RoundClock

  class Tontine {
    // Columns no action ever updates.
    const name: string
    const amount: Money
    const frequencyDays: int
    const lateFee: Money
    const creatorId: UserId

    /** Whether the group row still exists (false once deleted). */
    var live: bool
    var startDate: Option<int>
    var status: GroupStatus
    var orderType: OrderType
    var orderLocked: bool
    var currentTurn: int
    /** The member ids in pivot-row order: the order queries return them in. */
    var roster: seq<UserId>
    var members: map<UserId, Membership>
    var payments: Payments
    var penalties: seq<Penalty>
    /** The activity log in creation order. */
    var history: seq<Entry>

    ghost predicate Valid()
      reads this
    {
      && amount >= 100
      && frequencyDays >= 1
      && lateFee >= 0
      && currentTurn >= 1
      && RosterMatches(roster, members)
      && TurnsDistinct(members)
      && (live ==> creatorId in members)
      && (forall k :: k in payments ==> k.1 >= 1 && payments[k] == amount)
      && (!live ==> members == map[] && payments == map[] && penalties == [] && history == [])
    }

    /** The validated creation: the group row in its initial state and the
        creator attached as active admin without a turn. */
    constructor (name: string, amount: Money, frequencyDays: int, lateFee: Option<Money>, creator: UserId)
      requires amount >= 100 && frequencyDays >= 1
      requires lateFee.Some? ==> lateFee.value >= 0
      ensures Valid()
      ensures this.name == name && this.amount == amount && this.frequencyDays == frequencyDays
      ensures this.lateFee == lateFee.GetOr(0) && creatorId == creator
      ensures live && startDate == None
      ensures status == Pending && currentTurn == 1 && orderType == NotDefined && !orderLocked
      ensures roster == [creator] && members == map[creator := Membership(Admin, Joined, None)]
      ensures payments == map[] && penalties == [] && history == []
    {
      this.name := name;
      this.amount := amount;
      this.frequencyDays := frequencyDays;
      this.lateFee := lateFee.GetOr(0);
      creatorId := creator;
      live := true;
      startDate := None;
      status := Pending;
      currentTurn := 1;
      orderType := NotDefined;
      orderLocked := false;
      roster := [creator];
      members := map[creator := Membership(Admin, Joined, None)];
      payments := map[];
      penalties := [];
      history := [];
    }

    /** `members_count`: the number of attached users. */
    function MembersCount(): (n: nat)
      reads this
      requires Valid()
      ensures n == |roster|
    {
      RosterLength(roster, members);
      |members|
    }

    /** The deadline of the current round, from the stored columns. */
    function Deadline(): Option<int>
      reads this
    {
      RoundClock.RoundDeadline(startDate, status, frequencyDays, currentTurn)
    }

    /** Appends one log entry stamped with the current turn; nothing else changes. */
    method LogActivity(kind: EntryKind, user: Option<UserId> := None, amount: Money := 0)
      modifies this`history
      ensures history == old(history) + [Entry(kind, user, amount, currentTurn)]
    {
      history := history + [Entry(kind, user, amount, currentTurn)];
    }

    /** The activation update of a start: active from `startDay`, back at
        round 1, order locked (random if it was undefined), start logged. */
    method Activate(startDay: int)
      requires Valid() && live
      modifies this`status, this`startDate, this`currentTurn, this`orderType, this`orderLocked, this`history
      ensures Valid()
      ensures status == Active && startDate == Some(startDay) && currentTurn == 1 && orderLocked
      ensures orderType == (if old(orderType) == NotDefined then Random else old(orderType))
      ensures history == old(history) + [Entry(StartEntry, None, 0, 1)]
    {
      status := Active;
      startDate := Some(startDay);
      currentTurn := 1;
      orderType := if orderType == NotDefined then Random else orderType;
      orderLocked := true;
      LogActivity(StartEntry);
    }

    /** Writes turn k + 1 on the pivot row of the k-th user of `perm`, keeping
        role and status. */
    method AssignTurnOrder(perm: seq<UserId>)
      requires IsArrangement(perm, members)
      modifies this`members
      ensures members.Keys == old(members.Keys)
      ensures forall k :: 0 <= k < |perm| ==> members[perm[k]] == old(members[perm[k]]).(turnOrder := Some(k + 1))
      ensures IsTurnOrderBijection(members)
    {
      var i := 0;
      while i < |perm|
        invariant 0 <= i <= |perm|
        invariant members.Keys == old(members.Keys)
        invariant forall k :: 0 <= k < i ==> members[perm[k]] == old(members[perm[k]]).(turnOrder := Some(k + 1))
        invariant forall u :: u in members && u !in perm[..i] ==> members[u] == old(members[u])
      {
        var u := perm[i];
        assert u !in perm[..i];
        members := members[u := members[u].(turnOrder := Some(i + 1))];
        i := i + 1;
      }
      ArrangementGivesBijection(perm, members);
    }

    /** The database SUM of the amounts recorded for `round`. */
    method PaidForRound(round: int) returns (total: Money)
      ensures total == RoundTotal(payments, round)
    {
      total := 0;
      var rest := payments.Keys;
      while rest != {}
        invariant rest <= payments.Keys
        invariant total + RoundSum(payments, rest, round) == RoundTotal(payments, round)
        decreases |rest|
      {
        var k :| k in rest;
        RoundSumRemove(payments, rest, k, round);
        total := total + RoundShare(payments, k, round);
        rest := rest - {k};
      }
    }
  }
}

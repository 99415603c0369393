/** The dashboard: totals over a user's active groups for their current
    rounds, the number of late groups and the recovery rate. */
module DashboardController {
  import opened Domain
  import opened Ledger
  import opened TontineModel
  import RoundClock

  /** A group shown on `user`'s dashboard: still there, active, with `user` attached. */
  predicate Selected(g: Tontine, user: UserId)
    reads g
  {
    g.live && user in g.members && g.status == Active
  }

  /** The groups `user` belongs to whose status is active, in query order. */
  function ActiveGroups(groups: seq<Tontine>, user: UserId): (active: seq<Tontine>)
    reads groups
    ensures |active| <= |groups|
  {
    if groups == [] then []
    else
      var g := groups[|groups| - 1];
      ActiveGroups(groups[..|groups| - 1], user) + (if Selected(g, user) then [g] else [])
  }

  /** The active groups are exactly the selected ones among `groups`. */
  lemma {:induction false} ActiveGroupsSelect(groups: seq<Tontine>, user: UserId)
    ensures forall g :: g in ActiveGroups(groups, user) ==> g in groups && Selected(g, user)
    ensures forall g :: g in groups && Selected(g, user) ==> g in ActiveGroups(groups, user)
  {
    if groups != [] {
      var init := groups[..|groups| - 1];
      ActiveGroupsSelect(init, user);
      assert groups == init + [groups[|groups| - 1]];
    }
  }

  /** What a group expects for its round: its amount from every member. */
  function Expected(g: Tontine): Money
    reads g
  {
    g.amount * |g.members|
  }

  /** What the first `n` groups expect together. */
  function ExpectedTotal(gs: seq<Tontine>, n: nat): Money
    requires n <= |gs|
    reads gs
  {
    if n == 0 then 0 else ExpectedTotal(gs, n - 1) + Expected(gs[n - 1])
  }

  /** What a group has collected for its current round. */
  ghost function Collected(g: Tontine): Money
    reads g
  {
    RoundTotal(g.payments, g.currentTurn)
  }

  /** What the first `n` groups have collected together. */
  ghost function CollectedTotal(gs: seq<Tontine>, n: nat): Money
    requires n <= |gs|
    reads gs
  {
    if n == 0 then 0 else CollectedTotal(gs, n - 1) + Collected(gs[n - 1])
  }

  /** A group raises an alert when its round is overdue and not fully paid. */
  ghost predicate IsLate(g: Tontine, now: int)
    reads g
  {
    RoundClock.IsOverdue(g.Deadline(), now) && Collected(g) < Expected(g)
  }

  /** A valid group collects its amount once per payment of the round. */
  lemma CollectedCountsPayments(g: Tontine)
    requires g.Valid()
    ensures Collected(g) == g.amount * |PayersAmong(g.payments.Keys, g.currentTurn)|
  {
    RoundSumUniform(g.payments, g.payments.Keys, g.currentTurn, g.amount);
  }

  /** A group in which every member has paid the current round raises no alert. */
  lemma FullyPaidNotLate(g: Tontine, now: int)
    requires g.Valid()
    requires forall u :: u in g.members ==> (u, g.currentTurn) in g.payments
    ensures !IsLate(g, now)
  {
    CollectedCountsPayments(g);
    PayersCoverUsers(g.members.Keys, g.payments.Keys, g.currentTurn);
    ScaleMonotonic(g.amount, |g.members|, |PayersAmong(g.payments.Keys, g.currentTurn)|);
  }

  /** How many of the first `n` groups are late: none exactly when no group
      is late, all `n` exactly when every group is. */
  ghost function LateCount(gs: seq<Tontine>, n: nat, now: int): (count: nat)
    requires n <= |gs|
    reads gs
    ensures count <= n
    ensures count == 0 <==> forall k :: 0 <= k < n ==> !IsLate(gs[k], now)
    ensures count == n <==> forall k :: 0 <= k < n ==> IsLate(gs[k], now)
  {
    if n == 0 then 0
    else LateCount(gs, n - 1, now) + (if IsLate(gs[n - 1], now) then 1 else 0)
  }

  /** PHP's round() on num / den: to the nearest integer, halves away from zero. */
  function RoundHalfAway(num: int, den: int): int
    requires den > 0
  {
    if num >= 0 then (2 * num + den) / (2 * den) else -((-2 * num + den) / (2 * den))
  }

  /** The rounded quotient is within half a unit of num / den, and a half
      goes away from zero. */
  lemma RoundHalfAwayBounds(num: int, den: int)
    requires den > 0
    ensures var r := RoundHalfAway(num, den);
      && (num >= 0 ==> r >= 0 && 2 * den * r - den <= 2 * num < 2 * den * r + den)
      && (num < 0 ==> r <= 0 && 2 * den * r - den < 2 * num <= 2 * den * r + den)
  {
    if num >= 0 {
      RoundClock.DivBounds(2 * num + den, 2 * den);
    } else {
      var m := (-2 * num + den) / (2 * den);
      RoundClock.DivBounds(-2 * num + den, 2 * den);
      assert (-m) * (2 * den) == -(m * (2 * den));
    }
  }

  /** The recovery rate in percent: 0 when nothing is expected. */
  function RecoveryRate(paid: Money, expected: Money): int
  {
    if expected > 0 then RoundHalfAway(100 * paid, expected) else 0
  }

  /** Scaling both sides of `a <= b` by a non-negative factor. */
  lemma ScaleMonotonic(e: int, a: int, b: int)
    requires e >= 0 && a <= b
    ensures e * a <= e * b
  {
    assert e * b - e * a == e * (b - a);
  }

  /** While no more than expected has been collected the rate is a
      percentage, 100 exactly when everything was collected. */
  lemma RecoveryRateBounds(paid: Money, expected: Money)
    requires 0 <= paid <= expected
    ensures 0 <= RecoveryRate(paid, expected) <= 100
    ensures expected > 0 && paid == expected ==> RecoveryRate(paid, expected) == 100
    ensures paid == 0 ==> RecoveryRate(paid, expected) == 0
  {
    if expected > 0 {
      var r := RecoveryRate(paid, expected);
      var twice := 2 * expected;
      RoundHalfAwayBounds(100 * paid, expected);
      assert twice * r - expected <= 200 * paid < twice * r + expected;
      ScaleMonotonic(200, paid, expected);
      if r >= 101 {
        ScaleMonotonic(twice, 101, r);
        assert false;
      }
      if paid == expected && r <= 99 {
        ScaleMonotonic(twice, r, 99);
        assert false;
      }
      if paid == 0 && r >= 1 {
        ScaleMonotonic(twice, 1, r);
        assert false;
      }
    }
  }

  datatype DashboardStats = DashboardStats(
    totalToCollect: int, recoveryRate: int, lateAlerts: nat, activeGroups: seq<Tontine>)

  /** One pass over the active groups: what they expect, what they have
      collected for their current rounds and how many are late. */
  method Totals(active: seq<Tontine>, now: int) returns (expected: Money, paid: Money, late: nat)
    ensures expected == ExpectedTotal(active, |active|)
    ensures paid == CollectedTotal(active, |active|)
    ensures late == LateCount(active, |active|, now)
  {
    expected, paid, late := 0, 0, 0;
    for i := 0 to |active|
      invariant expected == ExpectedTotal(active, i)
      invariant paid == CollectedTotal(active, i)
      invariant late == LateCount(active, i, now)
    {
      var g := active[i];
      var groupExpected := Expected(g);
      var groupPaid := g.PaidForRound(g.currentTurn);
      expected := expected + groupExpected;
      paid := paid + groupPaid;
      if RoundClock.IsOverdue(g.Deadline(), now) && groupPaid < groupExpected {
        late := late + 1;
      }
    }
  }

  /** The dashboard of `user` over `groups` (every group, in query order). */
  method Index(groups: seq<Tontine>, user: UserId, now: int) returns (s: DashboardStats)
    ensures
      var active := ActiveGroups(groups, user);
      var expected, paid := ExpectedTotal(active, |active|), CollectedTotal(active, |active|);
      && s.lateAlerts == LateCount(active, |active|, now) && s.lateAlerts <= |active|
      && s.totalToCollect == RoundClock.TruncDiv(expected - paid, 100)
      && s.recoveryRate == RecoveryRate(paid, expected)
      && |s.activeGroups| == (if |active| < 5 then |active| else 5)
      && s.activeGroups == active[..|s.activeGroups|]
  {
    var active := ActiveGroups(groups, user);
    var expected, paid, late := Totals(active, now);
    var toCollect := RoundClock.TruncDiv(expected - paid, 100);
    var rate := RecoveryRate(paid, expected);
    var shown := if |active| < 5 then |active| else 5;
    s := DashboardStats(toCollect, rate, late, active[..shown]);
  }
}

/** Pure views of a group's ledger and roster: which rounds a member has
    missed, what penalties they still owe, how much was collected for a
    round, who holds a turn, and the properties of a complete turn order. */
module Ledger {
  import opened Domain

  type PaymentKey = (UserId, int)
  /** The payments of one group, keyed by (user, round) as the unique index is. */
  type Payments = map<PaymentKey, Money>

  // ---------------------------------------------------------------------
  // Missed rounds and debts

  /** The rounds in 1..n, ascending, for which `user` has no payment. */
  function Missed(payments: Payments, user: UserId, n: int): (rounds: seq<int>)
    ensures forall i :: i in rounds <==> 1 <= i <= n && (user, i) !in payments
    ensures forall a, b :: 0 <= a < b < |rounds| ==> rounds[a] < rounds[b]
    ensures forall a :: 0 <= a < |rounds| ==> rounds[a] <= n
    decreases n
  {
    if n < 1 then []
    else Missed(payments, user, n - 1) + (if (user, n) in payments then [] else [n])
  }

  /** A member with a payment for every round up to n has missed nothing, and
      conversely. */
  lemma MissedEmptyIffAllPaid(payments: Payments, user: UserId, n: int)
    ensures Missed(payments, user, n) == [] <==> forall i :: 1 <= i <= n ==> (user, i) in payments
  {
    if Missed(payments, user, n) != [] {
      assert Missed(payments, user, n)[0] in Missed(payments, user, n);
    }
  }

  /** Sum of the amounts of `user`'s penalties that are still unpaid. */
  function UnpaidPenaltyTotal(penalties: seq<Penalty>, user: UserId): Money
  {
    if penalties == [] then 0
    else
      var last := penalties[|penalties| - 1];
      UnpaidPenaltyTotal(penalties[..|penalties| - 1], user) + UnpaidShare(last, user)
  }

  /** What one penalty adds to `user`'s unpaid total. */
  function UnpaidShare(p: Penalty, user: UserId): Money
  {
    if p.user == user && p.status == Unpaid then p.amount else 0
  }

  /** Appending a penalty changes each member's unpaid total by that penalty's share only. */
  lemma UnpaidTotalAppend(penalties: seq<Penalty>, p: Penalty, user: UserId)
    ensures UnpaidPenaltyTotal(penalties + [p], user) == UnpaidPenaltyTotal(penalties, user) + UnpaidShare(p, user)
  {
    assert (penalties + [p])[..|penalties|] == penalties;
  }

  /** Marking penalty i as paid removes exactly its share from its owner's
      unpaid total; marking an already paid penalty changes nothing. */
  lemma {:induction false} UnpaidTotalAfterPay(penalties: seq<Penalty>, i: nat, user: UserId)
    requires i < |penalties|
    ensures UnpaidPenaltyTotal(penalties[i := penalties[i].(status := Paid)], user)
         == UnpaidPenaltyTotal(penalties, user) - UnpaidShare(penalties[i], user)
  {
    var paid := penalties[i := penalties[i].(status := Paid)];
    var n := |penalties|;
    if i == n - 1 {
      assert paid[..n - 1] == penalties[..n - 1];
    } else {
      UnpaidTotalAfterPay(penalties[..n - 1], i, user);
      assert paid[..n - 1] == penalties[..n - 1][i := penalties[i].(status := Paid)];
      assert paid[n - 1] == penalties[n - 1];
    }
  }

  /** One line of the debtors report. */
  datatype Debtor = Debtor(user: UserId, missedRounds: seq<int>, totalDebt: Money, unpaidPenalties: Money)

  /** The debtors report over `users`, in their order: every user with a
      missed round in 1..n, with the debt those rounds make and the unpaid
      penalties they owe. */
  function DebtorsAmong(users: seq<UserId>, payments: Payments, penalties: seq<Penalty>, n: int, amount: Money)
    : (report: seq<Debtor>)
    ensures |report| <= |users|
    ensures forall d :: d in report ==>
              && d.user in users
              && d.missedRounds == Missed(payments, d.user, n)
              && d.missedRounds != []
              && d.totalDebt == |d.missedRounds| * amount
              && d.unpaidPenalties == UnpaidPenaltyTotal(penalties, d.user)
    ensures forall u :: u in users && Missed(payments, u, n) != [] ==> exists d :: d in report && d.user == u
  {
    if users == [] then []
    else
      var u := users[|users| - 1];
      var missed := Missed(payments, u, n);
      DebtorsAmong(users[..|users| - 1], payments, penalties, n, amount)
        + (if missed == [] then [] else [Debtor(u, missed, |missed| * amount, UnpaidPenaltyTotal(penalties, u))])
  }

  /** A user is listed exactly when they are among `users` and some round in
      1..n has no payment from them. */
  lemma DebtorListed(users: seq<UserId>, payments: Payments, penalties: seq<Penalty>, n: int, amount: Money, u: UserId)
    ensures (exists d :: d in DebtorsAmong(users, payments, penalties, n, amount) && d.user == u)
        <==> u in users && exists i :: 1 <= i <= n && (u, i) !in payments
  {
    var report := DebtorsAmong(users, payments, penalties, n, amount);
    MissedEmptyIffAllPaid(payments, u, n);
    if exists d :: d in report && d.user == u {
      var d :| d in report && d.user == u;
      assert d.missedRounds[0] in Missed(payments, u, n);
    }
  }

  // ---------------------------------------------------------------------
  // Amount collected for one round (the database SUM over the payment rows)

  ghost function Pick(keys: set<PaymentKey>): (k: PaymentKey)
    requires keys != {}
    ensures k in keys
  {
    var k :| k in keys; k
  }

  /** What payment `k` contributes to the total of `round`. */
  function RoundShare(payments: Payments, k: PaymentKey, round: int): Money
    requires k in payments
  {
    if k.1 == round then payments[k] else 0
  }

  /** Sum of the amounts of the payments among `keys` recorded for `round`. */
  ghost function RoundSum(payments: Payments, keys: set<PaymentKey>, round: int): Money
    requires keys <= payments.Keys
    decreases |keys|
  {
    if keys == {} then 0
    else
      var k := Pick(keys);
      RoundShare(payments, k, round) + RoundSum(payments, keys - {k}, round)
  }

  /** Amount recorded for `round` across all of a group's payments. */
  ghost function RoundTotal(payments: Payments, round: int): Money
  {
    RoundSum(payments, payments.Keys, round)
  }

  /** The sum does not depend on which key is taken out first. */
  lemma {:induction false} RoundSumRemove(payments: Payments, keys: set<PaymentKey>, k: PaymentKey, round: int)
    requires keys <= payments.Keys && k in keys
    ensures RoundSum(payments, keys, round) == RoundShare(payments, k, round) + RoundSum(payments, keys - {k}, round)
    decreases |keys|
  {
    var j := Pick(keys);
    if j != k {
      RoundSumRemove(payments, keys - {j}, k, round);
      RoundSumRemove(payments, keys - {k}, j, round);
      assert keys - {j} - {k} == keys - {k} - {j};
    }
  }

  /** The users with a payment for `round` among `keys`. */
  ghost function PayersAmong(keys: set<PaymentKey>, round: int): set<PaymentKey>
  {
    set k | k in keys && k.1 == round
  }

  /** When every payment carries the group's amount, the total of a round is
      that amount times the number of payments recorded for it. */
  lemma {:induction false} RoundSumUniform(payments: Payments, keys: set<PaymentKey>, round: int, amount: Money)
    requires keys <= payments.Keys
    requires forall k :: k in payments ==> payments[k] == amount
    ensures RoundSum(payments, keys, round) == amount * |PayersAmong(keys, round)|
    decreases |keys|
  {
    if keys != {} {
      var k := Pick(keys);
      var rest := PayersAmong(keys - {k}, round);
      RoundSumUniform(payments, keys - {k}, round, amount);
      if k.1 == round {
        assert PayersAmong(keys, round) == rest + {k};
        assert k !in rest;
        assert |PayersAmong(keys, round)| == |rest| + 1;
        assert amount * (|rest| + 1) == amount * |rest| + amount;
      } else {
        assert PayersAmong(keys, round) == PayersAmong(keys - {k}, round);
      }
    } else {
      assert PayersAmong(keys, round) == {};
    }
  }

  /** Users who each hold a payment for `round` are at most as many as the
      payments recorded for it. */
  lemma {:induction false} PayersCoverUsers(users: set<UserId>, keys: set<PaymentKey>, round: int)
    requires forall u :: u in users ==> (u, round) in keys
    ensures |users| <= |PayersAmong(keys, round)|
    decreases |users|
  {
    if users != {} {
      var u :| u in users;
      var k := (u, round);
      PayersCoverUsers(users - {u}, keys - {k}, round);
      assert PayersAmong(keys - {k}, round) == PayersAmong(keys, round) - {k};
      assert k in PayersAmong(keys, round);
    }
  }

  // ---------------------------------------------------------------------
  // Roster, turn order and beneficiary

  /** `roster` lists each key of `members` exactly once. */
  ghost predicate RosterMatches(roster: seq<UserId>, members: map<UserId, Membership>)
  {
    && (forall a, b :: 0 <= a < b < |roster| ==> roster[a] != roster[b])
    && (forall u :: u in roster <==> u in members)
  }

  /** `perm` is an ordering of exactly the members: each once, nothing else. */
  ghost predicate IsArrangement(perm: seq<UserId>, members: map<UserId, Membership>)
  {
    RosterMatches(perm, members)
  }

  /** A list without repetitions is as long as the set of its elements. */
  lemma {:induction false} DistinctLength(s: seq<UserId>)
    requires forall a, b :: 0 <= a < b < |s| ==> s[a] != s[b]
    ensures |set u: UserId | u in s| == |s|
  {
    if s != [] {
      var rest := s[1..];
      DistinctLength(rest);
      assert s[0] !in rest;
      var others := set u: UserId | u in rest;
      assert (set u: UserId | u in s) == others + {s[0]};
      assert |others + {s[0]}| == |others| + 1;
    }
  }

  /** The roster is as long as the member map is large. */
  lemma RosterLength(roster: seq<UserId>, members: map<UserId, Membership>)
    requires RosterMatches(roster, members)
    ensures |roster| == |members|
  {
    DistinctLength(roster);
    assert (set u: UserId | u in roster) == members.Keys;
  }

  /** Whether `user` is a member holding turn `round`. */
  predicate HoldsTurn(members: map<UserId, Membership>, user: UserId, round: int)
  {
    user in members && members[user].turnOrder == Some(round)
  }

  /** The first member in roster order whose turn is `round`, if any. */
  function Beneficiary(roster: seq<UserId>, members: map<UserId, Membership>, round: int): (b: Option<UserId>)
    ensures b.Some? ==> b.value in roster && HoldsTurn(members, b.value, round)
    ensures b.None? <==> forall u :: u in roster ==> !HoldsTurn(members, u, round)
  {
    if roster == [] then None
    else if HoldsTurn(members, roster[0], round) then Some(roster[0])
    else Beneficiary(roster[1..], members, round)
  }

  /** The beneficiary comes no later in roster order than any member
      holding the turn. */
  lemma {:induction false} BeneficiaryFirst(roster: seq<UserId>, members: map<UserId, Membership>, round: int, j: int)
    requires 0 <= j < |roster| && HoldsTurn(members, roster[j], round)
    ensures Beneficiary(roster, members, round).Some?
    ensures Beneficiary(roster, members, round).value in roster[..j + 1]
  {
    if !HoldsTurn(members, roster[0], round) {
      BeneficiaryFirst(roster[1..], members, round, j - 1);
      assert roster[1..][..j] == roster[1..j + 1];
    }
  }

  /** Some member holds turn t. */
  ghost predicate TurnTaken(members: map<UserId, Membership>, t: int)
  {
    exists u :: HoldsTurn(members, u, t)
  }

  /** The turn orders are exactly 1..N, one per member, with no gaps or repeats. */
  ghost predicate IsTurnOrderBijection(members: map<UserId, Membership>)
  {
    && (forall u :: u in members ==> members[u].turnOrder.Some? && 1 <= members[u].turnOrder.value <= |members|)
    && (forall u, v :: u in members && v in members && u != v ==> members[u].turnOrder != members[v].turnOrder)
    && (forall t :: 1 <= t <= |members| ==> TurnTaken(members, t))
  }

  /** Giving the k-th user of an arrangement turn k + 1 is a bijection onto 1..N. */
  lemma ArrangementGivesBijection(perm: seq<UserId>, members: map<UserId, Membership>)
    requires IsArrangement(perm, members)
    requires forall k :: 0 <= k < |perm| ==> members[perm[k]].turnOrder == Some(k + 1)
    ensures IsTurnOrderBijection(members)
  {
    RosterLength(perm, members);
    forall u | u in members
      ensures members[u].turnOrder.Some? && 1 <= members[u].turnOrder.value <= |members|
    {
      var k :| 0 <= k < |perm| && perm[k] == u;
    }
    forall u, v | u in members && v in members && u != v
      ensures members[u].turnOrder != members[v].turnOrder
    {
      var a :| 0 <= a < |perm| && perm[a] == u;
      var b :| 0 <= b < |perm| && perm[b] == v;
    }
    forall t | 1 <= t <= |members|
      ensures TurnTaken(members, t)
    {
      assert HoldsTurn(members, perm[t - 1], t);
    }
  }

  /** Under a complete turn order, every round 1..N has exactly one beneficiary. */
  lemma BeneficiaryUnique(roster: seq<UserId>, members: map<UserId, Membership>, round: int)
    requires RosterMatches(roster, members)
    requires IsTurnOrderBijection(members)
    requires 1 <= round <= |members|
    ensures Beneficiary(roster, members, round).Some?
    ensures forall u: UserId :: HoldsTurn(members, u, round) ==> Beneficiary(roster, members, round) == Some(u)
  {
    assert TurnTaken(members, round);
    var w :| HoldsTurn(members, w, round);
    assert w in roster;
  }

  /** No two members hold the same assigned turn; members without a turn
      are unconstrained. */
  ghost predicate TurnsDistinct(members: map<UserId, Membership>)
  {
    forall u, v :: u in members && v in members && u != v && members[u].turnOrder.Some? ==>
      members[u].turnOrder != members[v].turnOrder
  }

  /** With distinct turns, a member holds a turn exactly when they are that
      round's beneficiary, whether or not the turn order is complete. */
  lemma BeneficiaryDetermined(roster: seq<UserId>, members: map<UserId, Membership>, round: int)
    requires RosterMatches(roster, members)
    requires TurnsDistinct(members)
    ensures forall u: UserId :: HoldsTurn(members, u, round) <==> Beneficiary(roster, members, round) == Some(u)
  {
    forall u: UserId | HoldsTurn(members, u, round)
      ensures Beneficiary(roster, members, round) == Some(u)
    {
      assert u in roster;
    }
  }

  // ---------------------------------------------------------------------
  // Activity log, read newest first

  /** The log in display order: the most recently appended entry first. */
  function NewestFirst(history: seq<Entry>): (shown: seq<Entry>)
    ensures |shown| == |history|
    ensures forall k :: 0 <= k < |history| ==> shown[k] == history[|history| - 1 - k]
  {
    if history == [] then [] else NewestFirst(history[1..]) + [history[0]]
  }

  /** A newly logged entry is shown first, ahead of everything shown before. */
  lemma LoggedEntryShownFirst(history: seq<Entry>, e: Entry)
    ensures NewestFirst(history + [e]) == [e] + NewestFirst(history)
  {
    var lhs := NewestFirst(history + [e]);
    var rhs := [e] + NewestFirst(history);
    assert |lhs| == |rhs|;
    forall k | 0 <= k < |lhs| ensures lhs[k] == rhs[k] {
      if k > 0 {
        assert rhs[k] == NewestFirst(history)[k - 1];
      }
    }
  }
}

/** The round clock of a group: the deadline of the current round and the
    two attributes derived from it and the current time. Time is an integer
    number of seconds; `now` is always passed in. */
module RoundClock {
  import opened Domain

  const DaySeconds: int := 86400

  /** PHP's `(int)` applied to a quotient: division truncated toward zero. */
  function TruncDiv(a: int, b: int): int
    requires b > 0
  {
    if a >= 0 then a / b else -((-a) / b)
  }

  /** Dafny's division of a non-negative number: the quotient times the
      divisor is at most the dividend and within one divisor of it. */
  lemma DivBounds(a: int, b: int)
    requires a >= 0 && b > 0
    ensures 0 <= a / b && (a / b) * b <= a < (a / b) * b + b
  {
    assert a == b * (a / b) + a % b && 0 <= a % b < b;
  }

  /** The truncated quotient is the multiple of `b` nearest to `a` on the side of zero. */
  lemma TruncDivBounds(a: int, b: int)
    requires b > 0
    ensures var q := TruncDiv(a, b);
      && (a >= 0 ==> 0 <= q && q * b <= a < q * b + b)
      && (a < 0 ==> q <= 0 && q * b - b < a <= q * b)
  {
    if a >= 0 {
      DivBounds(a, b);
    } else {
      var m := (-a) / b;
      DivBounds(-a, b);
      assert (-m) * b == -(m * b);
    }
  }

  /** `start_date` is a DATE column: what is read back is midnight of the day written. */
  function DayStart(now: int): (d: int)
    ensures d <= now < d + DaySeconds
    ensures d % DaySeconds == 0
  {
    now - now % DaySeconds
  }

  /** The deadline of the current round: absent unless the group has a start
      date and is active, otherwise `frequencyDays * currentTurn` days after
      the start date. */
  function RoundDeadline(startDate: Option<int>, status: GroupStatus, frequencyDays: int, currentTurn: int)
    : (d: Option<int>)
    ensures d.None? <==> startDate.None? || status != Active
  {
    if startDate.None? || status != Active then None
    else Some(startDate.value + frequencyDays * currentTurn * DaySeconds)
  }

  /** Moving to the next round moves an existing deadline by exactly one round length. */
  lemma DeadlineAdvance(startDate: Option<int>, status: GroupStatus, frequencyDays: int, currentTurn: int)
    requires startDate.Some? && status == Active
    ensures RoundDeadline(startDate, status, frequencyDays, currentTurn + 1).value
         == RoundDeadline(startDate, status, frequencyDays, currentTurn).value + frequencyDays * DaySeconds
  {
  }

  /** With a positive round length, later rounds have strictly later deadlines. */
  lemma {:induction false} DeadlineMonotonic(startDate: Option<int>, status: GroupStatus, frequencyDays: int, turn: int, later: int)
    requires startDate.Some? && status == Active && frequencyDays >= 1
    requires turn < later
    ensures RoundDeadline(startDate, status, frequencyDays, turn).value
          < RoundDeadline(startDate, status, frequencyDays, later).value
    decreases later - turn
  {
    DeadlineAdvance(startDate, status, frequencyDays, turn);
    if turn + 1 < later {
      DeadlineMonotonic(startDate, status, frequencyDays, turn + 1, later);
    }
  }

  /** `days_left`: 0 without a deadline, otherwise the signed number of whole
      days from `now` to the deadline, negative once it has passed by a day. */
  function DaysLeft(deadline: Option<int>, now: int): (days: int)
    ensures deadline.None? ==> days == 0
    ensures deadline.Some? && deadline.value >= now ==>
              days >= 0 && days * DaySeconds <= deadline.value - now < (days + 1) * DaySeconds
    ensures deadline.Some? && deadline.value < now ==>
              days <= 0 && (days - 1) * DaySeconds < deadline.value - now <= days * DaySeconds
  {
    if deadline.None? then 0
    else
      TruncDivBounds(deadline.value - now, DaySeconds);
      TruncDiv(deadline.value - now, DaySeconds)
  }

  /** `is_overdue`: false without a deadline, otherwise whether `now` is strictly after it. */
  function IsOverdue(deadline: Option<int>, now: int): (overdue: bool)
    ensures overdue ==> deadline.Some?
  {
    deadline.Some? && now > deadline.value
  }

  /** An overdue round has no whole day left, and a negative day count means overdue. */
  lemma OverdueAgreesWithDaysLeft(deadline: Option<int>, now: int)
    ensures IsOverdue(deadline, now) ==> DaysLeft(deadline, now) <= 0
    ensures DaysLeft(deadline, now) < 0 ==> IsOverdue(deadline, now)
    ensures DaysLeft(deadline, now) < 0 <==> deadline.Some? && now >= deadline.value + DaySeconds
  {
  }
}

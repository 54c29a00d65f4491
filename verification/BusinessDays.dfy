/**
 Working days in the store's time zone (`addBusinessDays` in
 backend/src/common/business-policy.ts). Instants are milliseconds since
 1970-01-01T00:00Z, a Thursday; the store is seven hours ahead, all year round.
 */
module BusinessDays {

  const HOUR_MS := 60 * 60 * 1000
  const DAY_MS := 24 * HOUR_MS
  const STORE_UTC_OFFSET_MS := 7 * HOUR_MS
  const DEPOSIT_REFUND_BUSINESS_DAYS: nat := 3

  /** The number of the store's calendar day. */
  function StoreDay(t: int): int {
    (t + STORE_UTC_OFFSET_MS) / DAY_MS
  }

  function TimeOfDay(t: int): int {
    (t + STORE_UTC_OFFSET_MS) % DAY_MS
  }

  /** 0 is Sunday, 6 is Saturday. */
  function Weekday(day: int): (w: int)
    ensures 0 <= w < 7
  {
    (day + 4) % 7
  }

  /** The first of January 2024 was a Monday, the seventh a Sunday; weeks go on as they do; midnight is at 17:00 UTC. */
  lemma CalendarIsReal(day: int)
    ensures Weekday(19723) == 1 && Weekday(19729) == 0
    ensures Weekday(day + 7) == Weekday(day) && Weekday(day + 1) == if Weekday(day) == 6 then 0 else Weekday(day) + 1
    ensures StoreDay(day * 86_400_000 + 61_200_000) == day + 1 && StoreDay(day * 86_400_000 + 61_199_999) == day
  {
    assert day * 86_400_000 + 61_199_999 + STORE_UTC_OFFSET_MS == day * DAY_MS + (DAY_MS - 1);
  }

  predicate IsWorkday(day: int) {
    1 <= Weekday(day) <= 5
  }

  /** How many working days there are among the `k` days that follow `day`. */
  function Workdays(day: int, k: nat): nat {
    if k == 0 then 0 else Workdays(day, k - 1) + if IsWorkday(day + k) then 1 else 0
  }

  /** The least number of days after which exactly `n` working days have passed. */
  predicate IsSpan(day: int, n: nat, k: nat) {
    Workdays(day, k) == n && (k == 0 || Workdays(day, k - 1) < n)
  }

  lemma {:induction false} WorkdaysGrow(day: int, j: nat, k: nat)
    requires j <= k
    ensures Workdays(day, j) <= Workdays(day, k)
  {
    if j < k {
      WorkdaysGrow(day, j, k - 1);
    }
  }

  lemma SpanIsUnique(day: int, n: nat, j: nat, k: nat)
    requires IsSpan(day, n, j) && IsSpan(day, n, k)
    ensures j == k
  {
    if j < k {
      WorkdaysGrow(day, j, k - 1);
    } else if k < j {
      WorkdaysGrow(day, k, j - 1);
    }
  }

  // ----------------------------------------------------------------- stepping

  /** Days to the next working day, by weekday. */
  function Gap(weekday: int): nat {
    if weekday == 5 then 3 else if weekday == 6 then 2 else 1
  }

  function DaysToNextWorkday(day: int): nat {
    Gap(Weekday(day))
  }

  /** How far the `n`-th working day after `day` is. */
  function Span(day: int, n: nat): nat
    decreases n
  {
    if n == 0 then 0
    else Span(day, n - 1) + DaysToNextWorkday(day + Span(day, n - 1))
  }

  lemma NextWorkday(day: int)
    ensures IsWorkday(day + DaysToNextWorkday(day))
    ensures forall d | day < d < day + DaysToNextWorkday(day) :: !IsWorkday(d)
  {
  }

  lemma {:induction false} SpanCountsWorkdays(day: int, n: nat)
    ensures IsSpan(day, n, Span(day, n))
    ensures n > 0 ==> IsWorkday(day + Span(day, n))
  {
    if n > 0 {
      SpanCountsWorkdays(day, n - 1);
      var k := Span(day, n - 1);
      NextWorkday(day + k);
      var s := DaysToNextWorkday(day + k);
      assert s >= 2 ==> Workdays(day, k + 1) == Workdays(day, k);
      assert s == 3 ==> Workdays(day, k + 2) == Workdays(day, k + 1);
    }
  }

  /** The span in closed form: two more days for every weekend on the way. */
  function ClosedSpan(weekday: nat, n: nat): nat {
    if n == 0 then 0
    else if weekday == 6 then n + 1 + 2 * ((n - 1) / 5)
    else if weekday == 0 then n + 2 * ((n - 1) / 5)
    else n + 2 * ((n + weekday - 1) / 5)
  }

  lemma WeekdayAfter(day: int, weeks: int, r: int)
    ensures Weekday(day + (7 * weeks + r)) == (Weekday(day) + r) % 7
  {
    var here := (day + 4) / 7;
    assert day + 4 == 7 * here + Weekday(day);
    SevenTimes(here + weeks, Weekday(day) + r);
  }

  lemma SevenTimes(a: int, b: int)
    ensures (7 * a + b) % 7 == b % 7
  {
  }

  /** The closed form, `rounds` five-day rounds and `r` working days on. */
  lemma ClosedSpanByRounds(weekday: nat, rounds: nat, r: nat)
    requires weekday < 7 && r <= 5 && rounds + r > 0
    ensures 1 <= weekday <= 5 ==>
      ClosedSpan(weekday, 5 * rounds + r) == 7 * rounds + r + 2 * ((r + weekday - 1) / 5)
    ensures weekday == 6 ==>
      ClosedSpan(weekday, 5 * rounds + r) == 7 * rounds + r + 1 - (if r == 0 then 2 else 0)
    ensures weekday == 0 ==>
      ClosedSpan(weekday, 5 * rounds + r) == 7 * rounds + r - (if r == 0 then 2 else 0)
  {
    FiveTimes(rounds, r + weekday - 1);
    FiveTimes(rounds, r - 1);
    assert (r - 1) / 5 == if r == 0 then -1 else 0;
  }

  /** One more working day, in the closed form: from a working day ... */
  lemma ClosedStepFromWorkday(weekday: nat, rounds: nat, r: nat, k: nat)
    requires 1 <= weekday <= 5 && r < 5 && k == ClosedSpan(weekday, 5 * rounds + r)
    ensures ClosedSpan(weekday, 5 * rounds + r + 1) == k + Gap((weekday + (k - 7 * rounds)) % 7)
  {
    ClosedSpanByRounds(weekday, rounds, r + 1);
    if rounds + r == 0 {
      assert k == 0;
    } else {
      ClosedSpanByRounds(weekday, rounds, r);
    }
    hide ClosedSpan;
    var before, after := r + weekday - 1, r + weekday;
    assert before / 5 == if before < 5 then 0 else 1;
    assert after / 5 == if after < 5 then 0 else 1;
  }

  /** ... and from any day. */
  lemma ClosedStep(weekday: nat, rounds: nat, r: nat, k: nat)
    requires weekday < 7 && r < 5 && k == ClosedSpan(weekday, 5 * rounds + r)
    ensures ClosedSpan(weekday, 5 * rounds + r + 1) == k + Gap((weekday + (k - 7 * rounds)) % 7)
  {
    if 1 <= weekday <= 5 {
      ClosedStepFromWorkday(weekday, rounds, r, k);
    } else {
      ClosedSpanByRounds(weekday, rounds, r + 1);
      if rounds + r == 0 {
        assert k == 0;
      } else {
        ClosedSpanByRounds(weekday, rounds, r);
      }
      hide ClosedSpan;
    }
  }

  lemma FiveTimes(a: int, b: int)
    ensures (5 * a + b) / 5 == a + b / 5
  {
  }

  lemma SpanStep(day: int, rounds: nat, r: nat)
    requires r < 5 && Span(day, 5 * rounds + r) == ClosedSpan(Weekday(day), 5 * rounds + r)
    ensures Span(day, 5 * rounds + r + 1) == ClosedSpan(Weekday(day), 5 * rounds + r + 1)
  {
    var k := Span(day, 5 * rounds + r);
    assert 0 <= Weekday(day) < 7;
    hide ClosedSpan, Weekday;
    WeekdayAfter(day, rounds, k - 7 * rounds);
    ClosedStep(Weekday(day), rounds, r, k);
  }

  lemma {:induction false} SpanInClosedForm(day: int, n: nat)
    ensures Span(day, n) == ClosedSpan(Weekday(day), n)
    decreases n
  {
    if n > 0 {
      var rounds, r := (n - 1) / 5, (n - 1) % 5;
      SpanInClosedForm(day, n - 1);
      hide ClosedSpan;
      SpanStep(day, rounds, r);
    }
  }

  /** Between the span when no weekend can be avoided and the span when one more is met. */
  lemma SpanBounds(day: int, n: nat)
    requires n > 0
    ensures n + 2 * ((n - 1) / 5) <= Span(day, n) <= n + 2 * ((n + 4) / 5)
  {
    SpanInClosedForm(day, n);
    var w := Weekday(day);
    hide Span, Weekday;
    assert w <= 5 ==> (n + w - 1) / 5 <= (n + 4) / 5;
  }

  lemma {:induction false} SpansCompose(day: int, a: nat, b: nat)
    ensures Span(day, a + b) == Span(day, a) + Span(day + Span(day, a), b)
    decreases b
  {
    if b > 0 {
      SpansCompose(day, a, b - 1);
    }
  }

  /** A later start never ends earlier, day by day. */
  lemma {:induction false} SpanIsMonotone(d: int, e: int, n: nat)
    requires d <= e
    ensures d + Span(d, n) <= e + Span(e, n)
  {
    if n > 0 {
      SpanIsMonotone(d, e, n - 1);
      NextIsMonotone(d + Span(d, n - 1), e + Span(e, n - 1));
    }
  }

  lemma NextIsMonotone(d: int, e: int)
    requires d <= e
    ensures d + DaysToNextWorkday(d) <= e + DaysToNextWorkday(e)
  {
    NextWorkday(d);
    NextWorkday(e);
  }

  // ----------------------------------------------------------------- the loop

  /** `n` working days later, at the same time of day. */
  function WorkdaysLater(from: int, n: nat): int {
    from + DAY_MS * Span(StoreDay(from), n)
  }

  lemma DaysLater(t: int, k: int)
    ensures StoreDay(t + DAY_MS * k) == StoreDay(t) + k
    ensures TimeOfDay(t + DAY_MS * k) == TimeOfDay(t)
  {
    var shifted, day := t + STORE_UTC_OFFSET_MS, StoreDay(t);
    assert shifted + DAY_MS * k == DAY_MS * (day + k) + shifted % DAY_MS;
  }

  /**
   The loop of `addBusinessDays`, one day at a time. It ends, on the `days`-th
   working day after `from` (or at `from` if `days` is not positive).
   */
  method AddBusinessDays(from: int, days: int) returns (result: int)
    ensures result == WorkdaysLater(from, if days > 0 then days else 0)
    ensures TimeOfDay(result) == TimeOfDay(from)
    ensures days > 0 ==> IsWorkday(StoreDay(result))
  {
    result := from;
    var added: nat := 0;
    ghost var day, passed: nat := StoreDay(from), 0;
    SpanCountsWorkdays(day, 0);
    hide TimeOfDay, StoreDay;
    while added < days
      invariant 0 <= added && (days > 0 ==> added <= days)
      invariant result == from + DAY_MS * passed
      invariant Workdays(day, passed) == added
      invariant added == days && days > 0 ==> IsSpan(day, added, passed)
      invariant days <= 0 ==> added == 0 && passed == 0
      decreases days - added, DaysToNextWorkday(day + passed)
    {
      result := result + DAY_MS;
      passed := passed + 1;
      DaysLater(from, passed);
      var weekday := Weekday(StoreDay(result));
      if !(weekday == 0 || weekday == 6) {
        added := added + 1;
      }
    }
    SpanCountsWorkdays(day, added);
    SpanIsUnique(day, added, passed, Span(day, added));
    DaysLater(from, passed);
  }

  /** Monday to Friday. */
  predicate IsMondayToFriday(day: int) {
    1 <= (day + 4) % 7 <= 5
  }

  /** How many of the `k` days after `day` are Mondays to Fridays. */
  function MondaysToFridays(day: int, k: nat): nat {
    |set d | day < d <= day + k && IsMondayToFriday(d)|
  }

  lemma {:induction false} WorkdaysAreMondaysToFridays(day: int, k: nat)
    ensures Workdays(day, k) == MondaysToFridays(day, k)
  {
    if k == 0 {
      assert (set d | day < d <= day && IsMondayToFriday(d)) == {};
    } else {
      WorkdaysAreMondaysToFridays(day, k - 1);
      var before := set d | day < d <= day + (k - 1) && IsMondayToFriday(d);
      var after := set d | day < d <= day + k && IsMondayToFriday(d);
      assert after == before + if IsMondayToFriday(day + k) then {day + k} else {};
    }
  }

  /** `due` is the third Monday to Friday after the store's day of `from`, at the same time of day. */
  ghost predicate IsDeadline(from: int, due: int) {
    var day := (from + 25_200_000) / 86_400_000;
    exists k: nat {:trigger MondaysToFridays(day, k)} | k <= 7 ::
      due == from + 86_400_000 * k && MondaysToFridays(day, k) == 3 && IsMondayToFriday(day + k)
  }

  lemma DeadlineIsThirdWorkday(from: int)
    ensures IsDeadline(from, WorkdaysLater(from, DEPOSIT_REFUND_BUSINESS_DAYS))
  {
    var day := StoreDay(from);
    var k := Span(day, DEPOSIT_REFUND_BUSINESS_DAYS);
    SpanCountsWorkdays(day, DEPOSIT_REFUND_BUSINESS_DAYS);
    SpanBounds(day, DEPOSIT_REFUND_BUSINESS_DAYS);
    WorkdaysAreMondaysToFridays(day, k);
    assert IsMondayToFriday(day + k) && MondaysToFridays(day, k) == 3;
    hide MondaysToFridays, Span;
    assert DAY_MS == 86_400_000;
  }

  /** The deadline for paying a deposit back: three working days. */
  lemma DepositRefundDeadline(from: int)
    ensures var due := WorkdaysLater(from, DEPOSIT_REFUND_BUSINESS_DAYS);
      && IsWorkday(StoreDay(due)) && TimeOfDay(due) == TimeOfDay(from)
      && 3 <= StoreDay(due) - StoreDay(from) <= 5
  {
    SpanCountsWorkdays(StoreDay(from), DEPOSIT_REFUND_BUSINESS_DAYS);
    SpanBounds(StoreDay(from), DEPOSIT_REFUND_BUSINESS_DAYS);
    DaysLater(from, Span(StoreDay(from), DEPOSIT_REFUND_BUSINESS_DAYS));
  }

  /** Adding `a` and then `b` working days is adding `a + b`. */
  lemma WorkdaysLaterCompose(from: int, a: nat, b: nat)
    ensures WorkdaysLater(WorkdaysLater(from, a), b) == WorkdaysLater(from, a + b)
  {
    var day := StoreDay(from);
    DaysLater(from, Span(day, a));
    SpansCompose(day, a, b);
    hide Span, StoreDay;
    assert DAY_MS * (Span(day, a) + Span(day + Span(day, a), b))
        == DAY_MS * Span(day, a) + DAY_MS * Span(day + Span(day, a), b);
  }

  /** By calendar day, a later start never ends earlier. */
  lemma WorkdaysLaterIsMonotone(from: int, later: int, n: nat)
    requires StoreDay(from) <= StoreDay(later)
    ensures StoreDay(WorkdaysLater(from, n)) <= StoreDay(WorkdaysLater(later, n))
  {
    DaysLater(from, Span(StoreDay(from), n));
    DaysLater(later, Span(StoreDay(later), n));
    SpanIsMonotone(StoreDay(from), StoreDay(later), n);
  }

  // ------------------------------------------------------------- by the clock

  function Landing(day: int, n: nat): int {
    day + Span(day, n)
  }

  lemma FirstStep(day: int, n: nat)
    requires n > 0
    ensures Landing(day, n) == Landing(Landing(day, 1), n - 1) && Landing(day, 1) == day + DaysToNextWorkday(day)
  {
    SpansCompose(day, 1, n - 1);
    assert Span(day, 0) == 0;
  }

  lemma {:induction false} LandsLater(d: int, e: int, n: nat)
    requires d < e && IsWorkday(e)
    ensures Landing(d, n) < Landing(e, n)
  {
    if n > 0 {
      LandsLater(d, e, n - 1);
      SpanCountsWorkdays(e, n - 1);
      assert Span(e, 0) == 0;
      NextWorkday(Landing(d, n - 1));
      NextWorkday(Landing(e, n - 1));
    }
  }

  lemma {:induction false} NoWorkdays(day: int, k: nat)
    ensures Workdays(day, k) == 0 <==> forall d | day < d <= day + k :: !IsWorkday(d)
  {
    if k > 0 {
      NoWorkdays(day, k - 1);
    }
  }

  /** Two starts land on the same day exactly if there is no working day after the first up to the second. */
  lemma LandingsMeet(d: int, e: int, n: nat)
    requires d <= e && n > 0
    ensures Landing(d, n) <= Landing(e, n)
    ensures Landing(d, n) == Landing(e, n) <==> Workdays(d, e - d) == 0
  {
    NoWorkdays(d, e - d);
    FirstStep(d, n);
    FirstStep(e, n);
    NextWorkday(d);
    NextWorkday(e);
    if Workdays(d, e - d) == 0 {
      assert Landing(d, 1) == Landing(e, 1);
    } else {
      assert Landing(d, 1) <= e < Landing(e, 1);
      hide Workdays, IsWorkday, Span;
      assert IsWorkday(Landing(e, 1));
      LandsLater(Landing(d, 1), Landing(e, 1), n - 1);
    }
  }

  lemma ByDayThenTime(t: int, u: int)
    ensures t <= u <==> StoreDay(t) < StoreDay(u) || (StoreDay(t) == StoreDay(u) && TimeOfDay(t) <= TimeOfDay(u))
  {
    var a, b := t + STORE_UTC_OFFSET_MS, u + STORE_UTC_OFFSET_MS;
    assert a == DAY_MS * StoreDay(t) + TimeOfDay(t) && b == DAY_MS * StoreDay(u) + TimeOfDay(u);
  }

  /**
   By the clock the order of two starts is kept, except that of a start with the
   later time of day when no working day has begun between the two.
   */
  lemma OrderByClock(from: int, later: int, n: nat)
    requires from <= later
    ensures StoreDay(from) <= StoreDay(later)
    ensures WorkdaysLater(from, n) > WorkdaysLater(later, n) <==>
            n > 0 && Workdays(StoreDay(from), StoreDay(later) - StoreDay(from)) == 0 && TimeOfDay(from) > TimeOfDay(later)
  {
    var d, e := StoreDay(from), StoreDay(later);
    ByDayThenTime(from, later);
    DaysLater(from, Span(d, n));
    DaysLater(later, Span(e, n));
    ByDayThenTime(WorkdaysLater(from, n), WorkdaysLater(later, n));
    if n > 0 {
      LandingsMeet(d, e, n);
    } else {
      assert WorkdaysLater(from, 0) == from && WorkdaysLater(later, 0) == later;
    }
    hide Span, Workdays;
  }

  /** Saturday at three in the afternoon and Sunday at ten in the morning: Monday, in the other order. */
  lemma WeekendReversesOrder()
    ensures var saturday, sunday := 2 * DAY_MS + 8 * HOUR_MS, 3 * DAY_MS + 3 * HOUR_MS;
      saturday < sunday && WorkdaysLater(saturday, 1) > WorkdaysLater(sunday, 1)
  {
    var saturday, sunday := 2 * DAY_MS + 8 * HOUR_MS, 3 * DAY_MS + 3 * HOUR_MS;
    assert StoreDay(saturday) == 2 && StoreDay(sunday) == 3;
    assert TimeOfDay(saturday) == 15 * HOUR_MS && TimeOfDay(sunday) == 10 * HOUR_MS;
    assert !IsWorkday(3);
    assert Workdays(2, 0) == 0 && Workdays(2, 1) == 0;
    hide *;
    OrderByClock(saturday, sunday, 1);
  }
}

/**
 Runs from the opening of a shop in which the cap on loss claims is exceeded.

 Two swaps of one booking are begun from the same report. The second one has
 locked the device the booking had at first; once the first has moved the
 booking, nothing keeps it from being confirmed lost between the second swap's
 check and its write. And five swaps, one after the other, are too many anyway.
 */
module ShopLossRace {
  import opened Bookings
  import opened BusinessDays
  import opened BusinessPolicy
  import opened Outcomes
  import opened Shop
  import opened ShopBooks
  import opened ShopLoss
  import opened ShopRuns

  // ---------------------------------------------------------------- the race

  /** An ongoing, marked booking with an open issue, in a quiet shop. */
  predicate Quiet(s: Shop, i: nat) {
    && Idle(s) && i < |s.rows| && Resolvable(s.rows[i].booking) && s.rows[i].booking.suspectedLostAt.Some?
  }

  /** Three devices: the one rented, one of the same value, and one a fifth cheaper. */
  predicate ThreeDevices(s: Shop, i: nat, b: int, c: int)
    requires i < |s.rows|
  {
    var a := s.rows[i].booking.device;
    && a in s.devices && a < b < c && Feasible(s, i, b) && Feasible(s, i, c)
    && s.devices[a].originalPrice > 0.0 && s.rows[i].booking.deposit == 0.5 * s.devices[a].originalPrice
    && s.devices[b].originalPrice == s.devices[a].originalPrice
    && s.devices[c].originalPrice == 0.8 * s.devices[a].originalPrice
  }

  /** Both swaps begin; the first completes; the second gets as far as its check. */
  function TwoSwaps(k: nat, i: nat, b: int, c: int): seq<Event> {
    [BeginSwap(i, b, HANDOVER_MIN_PHOTOS)]
    + ([BeginSwap(i, c, HANDOVER_MIN_PHOTOS)] + (Advances(k, 7) + Advances(k + 1, 5)))
  }

  function BothBegun(s: Shop, i: nat, b: int, c: int): Shop
    requires i < |s.rows|
  {
    var a := s.rows[i].booking.device;
    s.(transactions := s.transactions + [Transaction(Swap(i, b), [a, b], 0, Acquiring),
                                         Transaction(Swap(i, c), [a, c], 0, Acquiring)])
  }

  lemma BothBegin(s: Shop, i: nat, b: int, c: int, rest: seq<Event>)
    requires Quiet(s, i) && ThreeDevices(s, i, b, c)
    ensures Run(s, [BeginSwap(i, b, HANDOVER_MIN_PHOTOS)] + ([BeginSwap(i, c, HANDOVER_MIN_PHOTOS)] + rest))
         == Run(BothBegun(s, i, b, c), rest)
  {
    var one := Apply(s, BeginSwap(i, b, HANDOVER_MIN_PHOTOS));
    var two := Apply(one, BeginSwap(i, c, HANDOVER_MIN_PHOTOS));
    assert two.transactions == BothBegun(s, i, b, c).transactions;
    var last := [BeginSwap(i, c, HANDOVER_MIN_PHOTOS)] + rest;
    assert ([BeginSwap(i, b, HANDOVER_MIN_PHOTOS)] + last)[1..] == last && last[1..] == rest;
    hide Apply;
  }

  /** After the first swap the second is still feasible, from the device the booking has now. */
  lemma StillFeasible(s: Shop, i: nat, b: int, c: int)
    requires Quiet(s, i) && ThreeDevices(s, i, b, c)
    ensures var begun := BothBegun(s, i, b, c);
      Feasible(begun, i, b) && Feasible(AfterSwap(begun, |s.transactions|, i, b), i, c)
  {
    var begun := BothBegun(s, i, b, c);
    var after := AfterSwap(begun, |s.transactions|, i, b);
    assert Replaces(after.devices[b], after.devices[c]);
    assert forall j | 0 <= j < |s.rows| && j != i :: after.rows[j] == s.rows[j];
  }

  function Moved(s: Shop, i: nat, b: int, c: int): Shop
    requires Quiet(s, i) && ThreeDevices(s, i, b, c)
  {
    StillFeasible(s, i, b, c);
    AfterSwap(BothBegun(s, i, b, c), |s.transactions|, i, b)
  }

  /** The state in the middle of the second swap. */
  function MidSwap(s: Shop, i: nat, b: int, c: int): Shop
    requires Quiet(s, i) && ThreeDevices(s, i, b, c)
  {
    StillFeasible(s, i, b, c);
    AfterCheck(Moved(s, i, b, c), |s.transactions| + 1, i, c)
  }

  lemma FirstSwapCompletes(s: Shop, i: nat, b: int, c: int)
    requires Quiet(s, i) && ThreeDevices(s, i, b, c)
    ensures Run(BothBegun(s, i, b, c), Advances(|s.transactions|, 7)) == Moved(s, i, b, c)
  {
    var begun := BothBegun(s, i, b, c);
    StillFeasible(s, i, b, c);
    NothingLocked(begun);
    hide AfterSwap, Feasible, DeviceLocked, RowLocked;
    SwapCompletes(begun, |s.transactions|, i, b, s.rows[i].booking.device, b);
  }

  lemma SecondSwapChecks(s: Shop, i: nat, b: int, c: int)
    requires Quiet(s, i) && ThreeDevices(s, i, b, c)
    ensures Run(Moved(s, i, b, c), Advances(|s.transactions| + 1, 5)) == MidSwap(s, i, b, c)
  {
    var moved, k := Moved(s, i, b, c), |s.transactions| + 1;
    StillFeasible(s, i, b, c);
    NothingLocked(moved);
    assert Begun(moved, k, i, c, s.rows[i].booking.device, c);
    assert Advances(k, 0) == [];
    hide AfterCheck, Feasible, DeviceLocked, RowLocked, Quiet, ThreeDevices;
    SwapChecks(moved, k, i, c, s.rows[i].booking.device, c, 5);
  }

  lemma RunTwoSwaps(s: Shop, i: nat, b: int, c: int)
    requires Quiet(s, i) && ThreeDevices(s, i, b, c)
    ensures Run(s, TwoSwaps(|s.transactions|, i, b, c)) == MidSwap(s, i, b, c)
  {
    var k := |s.transactions|;
    assert i < |s.rows|;
    hide Run, Quiet, ThreeDevices, BothBegun, Moved, MidSwap;
    BothBegin(s, i, b, c, Advances(k, 7) + Advances(k + 1, 5));
    FirstSwapCompletes(s, i, b, c);
    SecondSwapChecks(s, i, b, c);
    RunBoth(BothBegun(s, i, b, c), Advances(k, 7), Advances(k + 1, 5));
  }

  /** In that state the booking's device is not locked, and it can be confirmed lost. */
  lemma MidSwapIsOpen(s: Shop, i: nat, b: int, c: int)
    requires Quiet(s, i) && ThreeDevices(s, i, b, c)
    ensures var mid := MidSwap(s, i, b, c);
      && !RowLocked(mid, i) && i < |mid.rows| && |mid.transactions| == |s.transactions| + 2
      && mid.rows[i] == Swapped(s.rows[i], b) && !DeviceLocked(mid, b)
      && mid.transactions[|s.transactions| + 1].phase.FoundFree?
      && mid.transactions[|s.transactions| + 1].phase.seen.device == b
      && mid.transactions[|s.transactions| + 1].locks == [s.rows[i].booking.device, c]
      && mid.transactions[|s.transactions| + 1].held == 2
      && mid.transactions[|s.transactions| + 1].task == Swap(i, c)
      && b in mid.devices && c in mid.devices
      && mid.devices[b].originalPrice == s.devices[b].originalPrice
      && mid.devices[b].pricePerDay == s.devices[b].pricePerDay
      && mid.devices[c].originalPrice == s.devices[c].originalPrice
  {
    var mid := MidSwap(s, i, b, c);
    var a := s.rows[i].booking.device;
    var k := |s.transactions|;
    assert mid.transactions[k].phase.Closed? && mid.transactions[k + 1].locks == [a, c];
    forall t | t in mid.transactions
      ensures !HoldsDevice(t, b)
    {
      assert t in s.transactions || t == mid.transactions[k] || t == mid.transactions[k + 1];
    }
  }

  /** A claim made for one device, and the booking then moved to a cheaper one. */
  lemma LostDuringSwap(s: Shop, i: nat, k: nat, target: int, now: int)
    requires i < |s.rows| && k < |s.transactions| && !RowLocked(s, i)
    requires s.rows[i].booking.status.Ongoing? && s.rows[i].booking.suspectedLostAt.Some?
    requires s.transactions[k].phase.FoundFree? && s.transactions[k].task == Swap(i, target)
    requires s.transactions[k].phase.seen.device == s.rows[i].booking.device
    requires s.rows[i].booking.device in s.devices && !DeviceLocked(s, s.rows[i].booking.device)
    requires var b, d := s.rows[i].booking, s.devices[s.rows[i].booking.device];
      && d.originalPrice > 0.0 && b.deposit == 0.5 * d.originalPrice
      && LateFee(now, b.endTime, d.pricePerDay, d.originalPrice) >= 0.5 * d.originalPrice
      && target in s.devices && s.devices[target].originalPrice == 0.8 * d.originalPrice
    ensures var after := Apply(Apply(Apply(s, Operate(i, ConfirmLost(now))), Advance(k)), Advance(k));
      && |after.rows| == |s.rows| && after.rows[i].booking.status.Lost? && target in after.devices
      && after.rows[i].booking.device == target && after.rows[i].history.swaps == s.rows[i].history.swaps + 1
      && after.rows[i].booking.deposit + after.rows[i].booking.owed
         > LOST_DEVICE_MAX_CLAIM_RATIO * after.devices[target].originalPrice
  {
    hide LateFee;
    var lost := Apply(s, Operate(i, ConfirmLost(now)));
    assert lost.transactions == s.transactions && lost.collections == s.collections && lost.operations == s.operations;
    assert lost.rows[i].booking.status.Lost?;
    TakesRow(lost, k);
    PhaseKeepsFree(lost, k);
  }

  /** Taking the booking's row locks no device. */
  lemma PhaseKeepsFree(s: Shop, k: nat)
    requires k < |s.transactions| && s.transactions[k].phase.FoundFree? && s.transactions[k].task.Swap?
    requires !RowLocked(s, s.transactions[k].task.row)
    ensures forall d :: !DeviceLocked(s, d) ==> !DeviceLocked(Apply(s, Advance(k)), d)
  {
    var t := s.transactions[k];
    var u := t.(phase := Writing(t.phase.seen, t.phase.device));
    TakesRow(s, k);
    assert t in s.transactions;
    forall d, v | v in s.transactions[k := u] && HoldsDevice(v, d)
      ensures DeviceLocked(s, d)
    {
      assert v == u ==> HoldsDevice(t, d);
    }
  }

  function RaceEvents(k: nat, i: nat, b: int, c: int, now: int): seq<Event> {
    TwoSwaps(k, i, b, c) + [Operate(i, ConfirmLost(now)), Advance(k + 1), Advance(k + 1)]
  }

  /**
   Two swaps of one booking are open at once, the second one to a device a fifth
   cheaper; between its check and its write the booking, long overdue, is
   confirmed lost. After two swaps the claim exceeds the cap.
   */
  lemma TwoSwapsBreakTheCap(s: Shop, i: nat, b: int, c: int, now: int)
    requires Quiet(s, i) && ThreeDevices(s, i, b, c) && s.rows[i].history.swaps == 0
    requires LateFee(now, s.rows[i].booking.endTime, s.devices[b].pricePerDay, s.devices[b].originalPrice)
          >= 0.5 * s.devices[b].originalPrice
    ensures var after := Run(s, RaceEvents(|s.transactions|, i, b, c, now));
      && i < |after.rows| && after.rows[i].booking.status.Lost? && after.rows[i].history.swaps == 2
      && after.rows[i].booking.device == c && c in after.devices
      && after.rows[i].booking.deposit + after.rows[i].booking.owed
         > LOST_DEVICE_MAX_CLAIM_RATIO * after.devices[c].originalPrice
  {
    var k := |s.transactions|;
    RunTwoSwaps(s, i, b, c);
    MidSwapIsOpen(s, i, b, c);
    var mid := MidSwap(s, i, b, c);
    assert mid.rows[i].booking.endTime == s.rows[i].booking.endTime
        && mid.rows[i].booking.deposit == s.rows[i].booking.deposit && mid.rows[i].history.swaps == 1
        && mid.rows[i].booking.status.Ongoing? && mid.rows[i].booking.suspectedLostAt.Some?
        && mid.rows[i].booking.device == b;
    assert s.devices[b].originalPrice > 0.0 && mid.rows[i].booking.deposit == 0.5 * s.devices[b].originalPrice
        && s.devices[c].originalPrice == 0.8 * s.devices[b].originalPrice;
    RaceEventsInTwo(s, k, i, b, c, now);
    hide *;
    LostDuringSwap(mid, i, k + 1, c, now);
  }

  lemma RaceEventsInTwo(s: Shop, k: nat, i: nat, b: int, c: int, now: int)
    ensures Run(s, RaceEvents(k, i, b, c, now))
         == Apply(Apply(Apply(Run(s, TwoSwaps(k, i, b, c)), Operate(i, ConfirmLost(now))), Advance(k + 1)), Advance(k + 1))
  {
    var end := [Operate(i, ConfirmLost(now)), Advance(k + 1), Advance(k + 1)];
    hide Apply, TwoSwaps;
    RunBoth(s, TwoSwaps(k, i, b, c), end);
    assert end == [Operate(i, ConfirmLost(now))] + ([Advance(k + 1)] + ([Advance(k + 1)] + []));
    var mid := Run(s, TwoSwaps(k, i, b, c));
    var lost := Apply(mid, Operate(i, ConfirmLost(now)));
    var taken := Apply(lost, Advance(k + 1));
    Chain(mid, Operate(i, ConfirmLost(now)), [Advance(k + 1)] + ([Advance(k + 1)] + []), lost);
    Chain(lost, Advance(k + 1), [Advance(k + 1)] + [], taken);
    Chain(taken, Advance(k + 1), [], Apply(taken, Advance(k + 1)));
    assert Run(Apply(taken, Advance(k + 1)), []) == Apply(taken, Advance(k + 1));
  }

  // ------------------------------------------------- from the opening of a shop

  /** Two devices of one value and one a fifth cheaper, all of one category and available. */
  function RaceShop(): Shop {
    Shop([],
         map[0 := Device(1000.0, 10000.0, 100000.0, Available, 0, false),
             1 := Device(1000.0, 10000.0, 100000.0, Available, 0, false),
             2 := Device(1000.0, 10000.0, 80000.0, Available, 0, false)],
         [], [], [], [])
  }

  /** A device is rented for a day and not returned; eight days after the end a fault is reported and the booking marked. */
  function OverdueEvents(): seq<Event> {
    RentEvents(0, 0, 0, DAY_MS) + ([Operate(0, ReportIssue(true))] + MarkEvents(9 * DAY_MS))
  }

  /** The state these events lead to. */
  predicate OverdueState(s: Shop) {
    var row := RentedRow(RaceShop(), 0, 0, 0, DAY_MS);
    && Idle(s) && |s.transactions| == 1
    && s.rows == [Mark(row.(booking := row.booking.(openIssue := true)), 9 * DAY_MS)]
    && s.devices == RaceShop().devices[0 := RaceShop().devices[0].(status := Rented)]
  }

  lemma RunOverdue()
    ensures OverdueState(Run(RaceShop(), OverdueEvents()))
  {
    var shop := RaceShop();
    var rent, report := RentEvents(0, 0, 0, DAY_MS), [Operate(0, ReportIssue(true))];
    RunBoth(shop, rent, report + MarkEvents(9 * DAY_MS));
    Rents(shop, 0, 0, 0, DAY_MS);
    var rented := Run(shop, rent);
    var row := RentedRow(shop, 0, 0, 0, DAY_MS);
    var late := row.(booking := row.booking.(openIssue := true));
    assert row.booking.status.Ongoing? && !row.booking.openIssue && row.booking.device == 0;
    assert IsOverdue(late.booking, 9 * DAY_MS);
    hide RentedRow, Run, RentEvents, MarkEvents, RaceShop, IsOverdue, OverdueEvents;
    Reports(rented, 0);
    var reported := rented.(rows := [late]);
    assert rented.rows[0 := late] == [late];
    Chain(rented, Operate(0, ReportIssue(true)), MarkEvents(9 * DAY_MS), reported);
    Marks(reported, 9 * DAY_MS);
    assert OverdueEvents() == rent + (report + MarkEvents(9 * DAY_MS)) by { SplitOverdue(); }
  }

  lemma SplitOverdue()
    ensures OverdueEvents()
         == RentEvents(0, 0, 0, DAY_MS) + ([Operate(0, ReportIssue(true))] + MarkEvents(9 * DAY_MS))
  {
  }

  lemma OverdueIsReady(s: Shop)
    requires OverdueState(s)
    ensures Quiet(s, 0) && ThreeDevices(s, 0, 1, 2) && s.rows[0].history.swaps == 0
    ensures s.rows[0].booking.endTime == DAY_MS && s.devices[1] == RaceShop().devices[1]
  {
    EquivalentValueBounds(100000.0, 100000.0);
    EquivalentValueBounds(100000.0, 80000.0);
  }

  /** The whole run, from a shop's opening: after two swaps the shop claims more than the cap allows. */
  lemma CapBreaksInRun()
    ensures Opening(RaceShop())
    ensures var after := Run(RaceShop(), OverdueEvents() + RaceEvents(1, 0, 1, 2, 10 * DAY_MS));
      && |after.rows| > 0 && after.rows[0].booking.status.Lost? && after.rows[0].history.swaps == 2
      && after.rows[0].booking.device == 2 && 2 in after.devices
      && after.rows[0].booking.deposit + after.rows[0].booking.owed
         > LOST_DEVICE_MAX_CLAIM_RATIO * after.devices[2].originalPrice
  {
    assert Opening(RaceShop());
    RunOverdue();
    hide RaceShop, OverdueEvents, OverdueState, RaceEvents, Run;
    OverdueBreaksTheCap(Run(RaceShop(), OverdueEvents()));
    RunBoth(RaceShop(), OverdueEvents(), RaceEvents(1, 0, 1, 2, 10 * DAY_MS));
  }

  lemma OverdueBreaksTheCap(s: Shop)
    requires OverdueState(s)
    ensures var after := Run(s, RaceEvents(1, 0, 1, 2, 10 * DAY_MS));
      && |after.rows| > 0 && after.rows[0].booking.status.Lost? && after.rows[0].history.swaps == 2
      && after.rows[0].booking.device == 2 && 2 in after.devices
      && after.rows[0].booking.deposit + after.rows[0].booking.owed
         > LOST_DEVICE_MAX_CLAIM_RATIO * after.devices[2].originalPrice
  {
    OverdueIsReady(s);
    NineDaysLate();
    assert s.devices[1].pricePerDay == 10000.0 && s.devices[1].originalPrice == 100000.0 && |s.transactions| == 1;
    hide *;
    TwoSwapsBreakTheCap(s, 0, 1, 2, 10 * DAY_MS);
  }

  /** Nine days late at 10000 a day: 90000, within the value. */
  lemma NineDaysLate()
    ensures LateFee(10 * DAY_MS, DAY_MS, 10000.0, 100000.0) == 90000.0
  {
    assert CeilDiv(9 * DAY_MS, DAY_MS) == 9;
    assert Escalated(9, 10000.0) == 90000.0;
  }

  // --------------------------------------------------- five swaps, one at a time

  /** Six devices, each a fifth cheaper than the one before. */
  function StairShop(): Shop {
    Shop([], map d | 0 <= d < 6 :: Device(1000.0, 10000.0, 100000.0 * Shrunk(d), Available, 0, false), [], [], [], [])
  }

  /** The device is rented and then swapped `n` times, each time for the next cheaper one. */
  function StairEvents(n: nat): seq<Event> {
    if n == 0 then RentEvents(0, 0, 0, DAY_MS) else StairEvents(n - 1) + SwapEvents(n, 0, n)
  }

  predicate OfStair(device: Device, d: nat, n: nat) {
    && device.originalPrice == 100000.0 * Shrunk(d) && device.pricePerDay == 10000.0 && device.category == 0
    && (d > n ==> device.status.Available? && !device.discontinued)
  }

  /** The state after `n` swaps. */
  predicate OnStair(s: Shop, n: nat) {
    && Idle(s) && |s.transactions| == n + 1 && s.runs == [] && |s.rows| == 1 && s.rows[0].history.swaps == n
    && (forall d | 0 <= d < 6 :: d in s.devices && OfStair(s.devices[d], d, n))
    && var b := s.rows[0].booking;
       && b.status.Ongoing? && !b.openIssue && b.suspectedLostAt.None? && b.device == n && b.endTime == DAY_MS
       && b.deposit == 50000.0
  }

  lemma NextStair(s: Shop, n: nat)
    requires n < 5 && OnStair(s, n)
    ensures OnStair(Run(s, SwapEvents(n + 1, 0, n + 1)), n + 1)
  {
    EquivalentValueBounds(s.devices[n].originalPrice, s.devices[n + 1].originalPrice);
    ShrunkFalls(n, n + 1);
    assert Shrunk(n + 1) == 0.8 * Shrunk(n);
    assert Replaces(s.devices[n], s.devices[n + 1]);
    assert Feasible(s, 0, n + 1);
    Swaps(s, 0, n + 1);
    hide Run, Feasible, Replaces, SwapEvents, Shrunk;
  }

  lemma {:induction false} Stairs(n: nat)
    requires n <= 5
    ensures OnStair(Run(StairShop(), StairEvents(n)), n)
  {
    if n == 0 {
      assert Opening(StairShop()) by { StairOpens(); }
      Rents(StairShop(), 0, 0, 0, DAY_MS);
      assert Shrunk(0) == 1.0;
      hide Run;
    } else {
      Stairs(n - 1);
      RunBoth(StairShop(), StairEvents(n - 1), SwapEvents(n, 0, n));
      hide OnStair, Run;
      NextStair(Run(StairShop(), StairEvents(n - 1)), n - 1);
    }
  }

  lemma StairOpens()
    ensures Opening(StairShop())
  {
    forall d | 0 <= d < 6
      ensures Shrunk(d) > 0.0
    {
      ShrunkFalls(0, d);
    }
  }

  function FiveSwapsAndLoss(): seq<Event> {
    StairEvents(5) + (MarkEvents(9 * DAY_MS) + ([Operate(0, ConfirmLost(10 * DAY_MS))] + []))
  }

  /**
   A whole run with five swaps, one at a time, each to the cheapest equivalent
   device: the deposit alone exceeds the cap on the claim for the last device.
   */
  lemma FiveSwapsBreakTheCap()
    ensures Opening(StairShop())
    ensures var after := Run(StairShop(), FiveSwapsAndLoss());
      && |after.rows| == 1 && after.rows[0].booking.status.Lost? && after.rows[0].history.swaps == 5
      && after.rows[0].booking.device in after.devices
      && after.rows[0].booking.deposit + after.rows[0].booking.owed
         > LOST_DEVICE_MAX_CLAIM_RATIO * after.devices[after.rows[0].booking.device].originalPrice
  {
    StairOpens();
    Stairs(5);
    ShrunkValues();
    RunBoth(StairShop(), StairEvents(5), MarkEvents(9 * DAY_MS) + ([Operate(0, ConfirmLost(10 * DAY_MS))] + []));
    var s := Run(StairShop(), StairEvents(5));
    RunBoth(s, MarkEvents(9 * DAY_MS), [Operate(0, ConfirmLost(10 * DAY_MS))] + []);
    Marks(s, 9 * DAY_MS);
    var marked := Run(s, MarkEvents(9 * DAY_MS));
    hide StairShop, StairEvents, MarkEvents, Shrunk;
    LosesOnStair(marked);
  }

  lemma LosesOnStair(s: Shop)
    requires Idle(s) && |s.rows| == 1
    requires var b := s.rows[0].booking;
      b.status.Ongoing? && b.suspectedLostAt.Some? && b.device == 5 && b.deposit == 50000.0
    requires 5 in s.devices && s.devices[5].originalPrice == 32768.0
    ensures var after := Run(s, [Operate(0, ConfirmLost(10 * DAY_MS))] + []);
      && |after.rows| == 1 && after.rows[0].booking.status.Lost?
      && after.rows[0].history.swaps == s.rows[0].history.swaps
      && after.rows[0].booking.device == 5 && 5 in after.devices && after.devices[5].originalPrice == 32768.0
      && after.rows[0].booking.deposit + after.rows[0].booking.owed >= 50000.0
  {
    var after := AfterLoss(s.rows[0], s.devices[5], 10 * DAY_MS);
    Operates(s, 0, ConfirmLost(10 * DAY_MS), after);
    hide LateFee;
    var next := Apply(s, Operate(0, ConfirmLost(10 * DAY_MS)));
    assert Run(next, []) == next;
    Chain(s, Operate(0, ConfirmLost(10 * DAY_MS)), [], next);
  }
}

/**
 Two ways in which transactions can block one another for good. A swap that has read a
 device it has not locked can wait for a transaction that waits for the swap. And an
 operation that has its booking and waits for the device can wait for a swap that
 waits for the booking. In each case neither ever goes on, and a run from a shop's
 opening ends so.
 */
module ShopDeadlock {
  import opened Bookings
  import opened BusinessDays
  import opened BusinessPolicy
  import opened Outcomes
  import opened Shop
  import opened ShopCalendar
  import opened ShopLossRace
  import opened ShopProgress
  import opened ShopRuns

  // ----------------------------------------------------------------- the circle

  /** A swap waits for a device that the other transaction holds, and that one for a device or the booking of the swap. */
  predicate Circle(s: Shop, k: nat, j: nat) {
    && k < |s.transactions| && j < |s.transactions| && k != j
    && var t, u := s.transactions[k], s.transactions[j];
       && t.phase.Writing? && t.task.Swap?
       && !HoldsDevice(t, t.phase.seen.device) && HoldsDevice(u, t.phase.seen.device)
       && ((u.phase.Acquiring? && u.held < |u.locks| && HoldsDevice(t, u.locks[u.held]))
           || (u.phase.FoundFree? && u.task.Swap? && u.task.row == t.task.row))
  }

  lemma BothWait(s: Shop, k: nat, j: nat)
    requires Circle(s, k, j)
    ensures MustWait(s, s.transactions[k]) && MustWait(s, s.transactions[j])
  {
    assert s.transactions[k] in s.transactions && s.transactions[j] in s.transactions;
  }

  lemma OthersLeaveAlone(s: Shop, e: Event, k: nat)
    requires k < |s.transactions| && e != Abort(k)
    requires e == Advance(k) ==> MustWait(s, s.transactions[k])
    ensures k < |Apply(s, e).transactions| && Apply(s, e).transactions[k] == s.transactions[k]
  {
    hide Perform, DeviceAfter, NextPhase, MustWait, Blocked, RowLocked, DeviceLocked, CandidatesFrom;
  }

  /** Whatever else happens, the two are stuck until one of them is rolled back. */
  lemma {:induction false} CircleLasts(s: Shop, k: nat, j: nat, events: seq<Event>)
    requires Circle(s, k, j) && Abort(k) !in events && Abort(j) !in events
    ensures Circle(Run(s, events), k, j) && !AllFinished(Run(s, events))
    decreases |events|
  {
    if events == [] {
      assert s.transactions[k] in s.transactions;
    } else {
      assert events[0] in events && forall e <- events[1..] :: e in events;
      BothWait(s, k, j);
      OthersLeaveAlone(s, events[0], k);
      OthersLeaveAlone(s, events[0], j);
      hide Apply, MustWait, AllFinished;
      CircleLasts(Apply(s, events[0]), k, j, events[1..]);
    }
  }

  // ------------------------------------------------------------ reaching a circle

  /** A swap whose target is free, with a booking that is still on the device it has read and not locked. */
  predicate Outdated(s: Shop, k: nat) {
    && k < |s.transactions|
    && var t := s.transactions[k];
       && t.task.Swap? && t.phase.FoundFree? && t.held == |t.locks| && t.task.row < |s.rows|
       && var b := s.rows[t.task.row].booking;
          && b.status.Ongoing? && b.device == t.phase.seen.device && b.device in s.devices && b.device !in t.locks
          && !RowLocked(s, t.task.row) && !DeviceLocked(s, b.device)
  }

  /** Somebody else begins to swap the booking for `device`. */
  function SecondSwap(i: nat, device: int): seq<Event> {
    [Operate(i, ReportIssue(true)), BeginSwap(i, device, HANDOVER_MIN_PHOTOS)]
  }

  /** With the fault reported and the second swap begun. */
  function SecondBegun(s: Shop, i: nat, device: int): Shop
    requires i < |s.rows|
  {
    var b := s.rows[i].booking;
    Begin(s.(rows := s.rows[i := s.rows[i].(booking := b.(openIssue := true))]),
          Transaction(Swap(i, device), LockOrder(b.device, device), 0, Acquiring))
  }

  lemma SecondBegins(s: Shop, k: nat, device: int, rest: seq<Event>)
    requires Outdated(s, k) && device != s.rows[s.transactions[k].task.row].booking.device
    ensures var i := s.transactions[k].task.row;
      Run(s, SecondSwap(i, device) + rest) == Run(SecondBegun(s, i, device), rest)
  {
    var i := s.transactions[k].task.row;
    var d := s.rows[i].booking.device;
    var reported := s.(rows := s.rows[i := s.rows[i].(booking := s.rows[i].booking.(openIssue := true))]);
    assert s.devices[d := s.devices[d]] == s.devices;
    assert s.rows[i := s.rows[i]] == s.rows;
    assert Apply(s, Operate(i, ReportIssue(true))) == reported;
    assert Apply(reported, BeginSwap(i, device, HANDOVER_MIN_PHOTOS)) == SecondBegun(s, i, device);
    hide Apply, SecondBegun;
    Chain(s, Operate(i, ReportIssue(true)), [BeginSwap(i, device, HANDOVER_MIN_PHOTOS)] + rest, reported);
    Chain(reported, BeginSwap(i, device, HANDOVER_MIN_PHOTOS), rest, SecondBegun(s, i, device));
    assert SecondSwap(i, device) + rest
        == [Operate(i, ReportIssue(true))] + ([BeginSwap(i, device, HANDOVER_MIN_PHOTOS)] + rest);
  }

  lemma SameLocksInSecond(s: Shop, i: nat, device: int)
    requires i < |s.rows|
    ensures forall d :: DeviceLocked(SecondBegun(s, i, device), d) ==> DeviceLocked(s, d)
    ensures forall row: nat :: RowLocked(SecondBegun(s, i, device), row) ==> RowLocked(s, row)
  {
    var after := SecondBegun(s, i, device);
    assert forall t <- after.transactions :: t in s.transactions || (t.phase.Acquiring? && t.held == 0);
  }

  /** The swap takes the row of its booking, and the circle is closed. */
  lemma CircleCloses(s: Shop, k: nat, j: nat)
    requires k < |s.transactions| && j < |s.transactions| && k != j
    requires var t, u := s.transactions[k], s.transactions[j];
      && t.phase.FoundFree? && t.task.Swap? && t.held == |t.locks| && !RowLocked(s, t.task.row)
      && t.phase.seen.device !in t.locks && HoldsDevice(u, t.phase.seen.device)
      && ((u.phase.Acquiring? && u.held < |u.locks| && u.locks[u.held] in t.locks)
          || (u.phase.FoundFree? && u.task.Swap? && u.task.row == t.task.row))
    ensures Circle(Apply(s, Advance(k)), k, j)
  {
    var t := s.transactions[k];
    TakesRow(s, k);
    assert t.locks[..t.held] == t.locks;
  }

  /**
   A second swap that wants one of the first one's devices, if that comes after the
   device of the booking in the order of locking ...
   */
  lemma LockedTargetCloses(s: Shop, k: nat, device: int)
    requires Outdated(s, k)
    requires device in s.transactions[k].locks && s.rows[s.transactions[k].task.row].booking.device < device
    ensures var i, j := s.transactions[k].task.row, |s.transactions|;
      Circle(Run(s, SecondSwap(i, device) + [Advance(j), Advance(k)]), k, j)
  {
    var t, i, j := s.transactions[k], s.transactions[k].task.row, |s.transactions|;
    var begun, b := SecondBegun(s, i, device), s.rows[i].booking.device;
    SecondBegins(s, k, device, [Advance(j), Advance(k)]);
    SameLocksInSecond(s, i, device);
    var u := Transaction(Swap(i, device), [b, device], 0, Acquiring);
    assert begun.transactions[j] == u && begun.transactions[k] == t;
    AcquiresLock(begun, j);
    var held := WithTransaction(begun, j, u.(held := 1));
    RowsStayFree(begun, held, j, u.(held := 1));
    assert HoldsDevice(u.(held := 1), b) by { assert [b, device][..1] == [b]; }
    CircleCloses(held, k, j);
    hide Apply, Circle, Outdated, WithTransaction;
    assert [Advance(j), Advance(k)] == [Advance(j)] + ([Advance(k)] + []);
    Chain(begun, Advance(j), [Advance(k)] + [], held);
    Chain(held, Advance(k), [], Apply(held, Advance(k)));
    assert Run(Apply(held, Advance(k)), []) == Apply(held, Advance(k));
  }

  /** ... or one that wants any other device that would do. */
  lemma FreeTargetCloses(s: Shop, k: nat, device: int)
    requires Outdated(s, k)
    requires Feasible(s, s.transactions[k].task.row, device) && !DeviceLocked(s, device)
    requires device != s.rows[s.transactions[k].task.row].booking.device
    ensures var i, j := s.transactions[k].task.row, |s.transactions|;
      Circle(Run(s, SecondSwap(i, device) + (Advances(j, 5) + [Advance(k)])), k, j)
  {
    var t, i, j := s.transactions[k], s.transactions[k].task.row, |s.transactions|;
    var begun, b := SecondBegun(s, i, device), s.rows[i].booking.device;
    SecondBegins(s, k, device, Advances(j, 5) + [Advance(k)]);
    SameLocksInSecond(s, i, device);
    var locks := LockOrder(b, device);
    assert begun.transactions[j] == Transaction(Swap(i, device), locks, 0, Acquiring) && begun.transactions[k] == t;
    ReportKeepsFeasible(s, i, device, begun.rows[i], begun);
    SwapChecks(begun, j, i, device, locks[0], locks[1], 5);
    var checked := AfterCheck(begun, j, i, device);
    RowsStayFree(begun, checked, j, checked.transactions[j]);
    assert HoldsDevice(checked.transactions[j], b) by { assert locks[..2] == locks && b in locks; }
    CircleCloses(checked, k, j);
    hide Apply, Circle, Outdated, AfterCheck, Feasible;
    assert Advances(j, 0) == [];
    RunBoth(begun, Advances(j, 5), [Advance(k)]);
    assert [Advance(k)] == [Advance(k)] + [];
    Chain(checked, Advance(k), [], Apply(checked, Advance(k)));
    assert Run(Apply(checked, Advance(k)), []) == Apply(checked, Advance(k));
  }

  /** A swap that can be carried out and reads a device it has not locked is outdated at its check. */
  lemma StaleReadOutdates(s: Shop, k: nat)
    requires StaleRead(s, Advance(k))
    requires var t := s.transactions[k];
      && Feasible(s, t.task.row, t.task.newDevice) && !RowLocked(s, t.task.row)
      && !DeviceLocked(s, s.rows[t.task.row].booking.device)
    ensures var t, after := s.transactions[k], Run(s, Advances(k, 3));
      && Outdated(after, k) && after.rows == s.rows && after.devices == s.devices
      && after.transactions[k].locks == t.locks && after.transactions[k].task == t.task
      && |after.transactions| == |s.transactions|
      && (forall d :: DeviceLocked(after, d) ==> DeviceLocked(s, d))
  {
    var t := s.transactions[k];
    var i, target := t.task.row, t.task.newDevice;
    var u := t.(phase := FoundFree(s.rows[i].booking, s.devices[target]));
    var after := WithTransaction(s, k, u);
    ReadsAll(s, k, i, target, t.locks, 3);
    assert Advances(k, 0) == [] && Run(after, []) == after;
    RowsStayFree(s, after, k, u);
    assert t in s.transactions;
    forall d, v | v in after.transactions && HoldsDevice(v, d)
      ensures DeviceLocked(s, d)
    {
      assert v == u ==> HoldsDevice(t, d);
    }
    hide Run, Replaces, Taken;
  }

  /**
   Wherever a swap that can be carried out reads a device it has not locked, the run
   can go on to a circle, if the swap has locked a device that comes later in the
   order, or if another device would do for the booking.
   */
  lemma StaleReadCanDeadlock(s: Shop, k: nat, device: int) returns (events: seq<Event>)
    requires StaleRead(s, Advance(k))
    requires var t := s.transactions[k];
      var b := s.rows[t.task.row].booking.device;
      && Feasible(s, t.task.row, t.task.newDevice) && !RowLocked(s, t.task.row) && !DeviceLocked(s, b)
      && ((device in t.locks && b < device)
          || (device != b && Feasible(s, t.task.row, device) && !DeviceLocked(s, device)))
    ensures Circle(Run(s, events), k, |s.transactions|)
    ensures forall e <- events :: !e.Abort?
  {
    var t, i, j := s.transactions[k], s.transactions[k].task.row, |s.transactions|;
    StaleReadOutdates(s, k);
    var outdated := Run(s, Advances(k, 3));
    AdvancesOnly(k, 3);
    AdvancesOnly(j, 5);
    var second: seq<Event>;
    if device in t.locks && s.rows[i].booking.device < device {
      LockedTargetCloses(outdated, k, device);
      second := SecondSwap(i, device) + [Advance(j), Advance(k)];
    } else {
      FeasibleStays(s, outdated, i, device);
      FreeTargetCloses(outdated, k, device);
      second := SecondSwap(i, device) + (Advances(j, 5) + [Advance(k)]);
    }
    hide Run, Circle, Outdated, Feasible;
    events := Advances(k, 3) + second;
    RunBoth(s, Advances(k, 3), second);
  }

  lemma FeasibleStays(s: Shop, after: Shop, i: nat, device: int)
    requires Feasible(s, i, device) && after.rows == s.rows && after.devices == s.devices
    ensures Feasible(after, i, device)
  {
  }

  lemma {:induction false} AdvancesOnly(k: nat, n: nat)
    ensures forall e <- Advances(k, n) :: e.Advance?
    decreases n
  {
    if n > 0 {
      AdvancesOnly(k, n - 1);
    }
  }

  // ------------------------------------------------------------- when it can wait

  predicate WaitsAt(s: Shop, k: nat) {
    k < |s.transactions| && WaitsForOld(s, s.transactions[k])
  }

  /** A swap that has checked its target never changes what it has read and locked. */
  lemma {:induction false} ReadIsKept(s: Shop, k: nat, events: seq<Event>)
    requires k < |s.transactions| && s.transactions[k].task.Swap?
    requires var t := s.transactions[k]; t.phase.FoundFree? || t.phase.Writing? || t.phase.Closed?
    ensures k < |Run(s, events).transactions|
    ensures var t, u := s.transactions[k], Run(s, events).transactions[k];
      && u.locks == t.locks && u.held == t.held
      && (u.phase.Closed? || ((u.phase.FoundFree? || u.phase.Writing?) && !t.phase.Closed? && u.phase.seen == t.phase.seen))
    decreases |events|
  {
    if events != [] {
      OneEventKeepsRead(s, k, events[0]);
      hide Apply;
      ReadIsKept(Apply(s, events[0]), k, events[1..]);
    }
  }

  lemma OneEventKeepsRead(s: Shop, k: nat, e: Event)
    requires k < |s.transactions| && s.transactions[k].task.Swap?
    requires var t := s.transactions[k]; t.phase.FoundFree? || t.phase.Writing? || t.phase.Closed?
    ensures k < |Apply(s, e).transactions|
    ensures var t, u := s.transactions[k], Apply(s, e).transactions[k];
      && u.locks == t.locks && u.held == t.held && u.task == t.task
      && (u.phase.Closed? || ((u.phase.FoundFree? || u.phase.Writing?) && !t.phase.Closed? && u.phase.seen == t.phase.seen))
  {
    hide Perform, DeviceAfter, MustWait, Blocked, RowLocked, DeviceLocked, CandidatesFrom, Taken, Replaces, Rentable;
  }

  /** Somebody creates a booking for the device: its row is locked. */
  lemma OthersCanLock(s: Shop, device: int) returns (events: seq<Event>)
    ensures DeviceLocked(Run(s, events), device)
    ensures var after := Run(s, events);
      && |after.transactions| >= |s.transactions| && after.transactions[..|s.transactions|] == s.transactions
      && forall row: nat :: RowLocked(after, row) ==> RowLocked(s, row)
  {
    var n := |s.transactions|;
    if DeviceLocked(s, device) {
      events := [];
    } else {
      var begin := BeginCreate(0, device, 0, 1);
      var t := Transaction(Create(0, device, 0, 1), [device], 0, Acquiring);
      var begun := Begin(s, t);
      assert Apply(s, begin) == begun;
      assert forall u <- begun.transactions :: u in s.transactions || u == t;
      AcquiresLock(begun, n);
      var held := WithTransaction(begun, n, t.(held := 1));
      RowsStayFree(begun, held, n, t.(held := 1));
      assert HoldsDevice(held.transactions[n], device) && held.transactions[n] in held.transactions;
      events := [begin] + ([Advance(n)] + []);
      assert held.transactions[..n] == s.transactions;
      hide Apply;
      Chain(s, begin, [Advance(n)] + [], begun);
      Chain(begun, Advance(n), [], held);
      assert Run(held, []) == held;
    }
  }

  /**
   A swap that has found its target free can come to wait for the device it leaves
   if and only if that is not one of the devices it has locked.
   */
  lemma WaitsForOldExactly(s: Shop, k: nat)
    requires LocksInOrder(s) && k < |s.transactions|
    requires var t := s.transactions[k]; t.phase.FoundFree? && t.task.Swap? && !RowLocked(s, t.task.row)
    ensures (exists events: seq<Event> :: WaitsAt(Run(s, events), k))
       <==> s.transactions[k].phase.seen.device !in s.transactions[k].locks
  {
    var t := s.transactions[k];
    assert t in s.transactions && LocksOk(t);
    assert t.locks[..t.held] == t.locks;
    if t.phase.seen.device in t.locks {
      forall events: seq<Event>
        ensures !WaitsAt(Run(s, events), k)
      {
        ReadIsKept(s, k, events);
      }
    } else {
      var lock := OthersCanLock(s, t.phase.seen.device);
      var locked := Run(s, lock);
      assert locked.transactions[k] == t;
      TakesRow(locked, k);
      PhaseKeepsLocked(locked, k);
      RunBoth(s, lock, [Advance(k)]);
      assert [Advance(k)][1..] == [] && Run(Apply(locked, Advance(k)), []) == Apply(locked, Advance(k));
      assert WaitsAt(Run(s, lock + [Advance(k)]), k);
    }
  }

  lemma PhaseKeepsLocked(s: Shop, k: nat)
    requires k < |s.transactions| && s.transactions[k].phase.FoundFree? && s.transactions[k].task.Swap?
    requires !RowLocked(s, s.transactions[k].task.row)
    ensures forall d :: DeviceLocked(s, d) ==> DeviceLocked(Apply(s, Advance(k)), d)
  {
    var t := s.transactions[k];
    var u := t.(phase := Writing(t.phase.seen, t.phase.device));
    TakesRow(s, k);
    var after := s.transactions[k := u];
    forall d, v | v in s.transactions && HoldsDevice(v, d)
      ensures exists w <- after :: HoldsDevice(w, d)
    {
      var j :| 0 <= j < |s.transactions| && s.transactions[j] == v;
      assert after[j] in after && HoldsDevice(after[j], d);
    }
  }

  // ------------------------------------------------- from the opening of a shop

  /** Up to the second swap's check; then the booking is to be swapped once more. */
  function DeadlockEvents(): seq<Event> {
    OverdueEvents() + (TwoSwaps(1, 0, 1, 2) + (SecondSwap(0, 2) + [Advance(3), Advance(2)]))
  }

  lemma MidSwapIsOutdated(s: Shop, i: nat, b: int, c: int)
    requires Quiet(s, i) && ThreeDevices(s, i, b, c)
    ensures var mid, k := MidSwap(s, i, b, c), |s.transactions| + 1;
      && Outdated(mid, k) && |mid.transactions| == k + 1 && mid.transactions[k].task == Swap(i, c)
      && c in mid.transactions[k].locks && mid.rows[i].booking.device == b
  {
    MidSwapIsOpen(s, i, b, c);
    hide MidSwap, RowLocked, DeviceLocked, Feasible;
  }

  lemma OverdueDeadlocks(s: Shop)
    requires OverdueState(s)
    ensures Circle(Run(s, TwoSwaps(1, 0, 1, 2) + (SecondSwap(0, 2) + [Advance(3), Advance(2)])), 2, 3)
  {
    OverdueIsReady(s);
    assert |s.transactions| == 1;
    hide OverdueState, Quiet, ThreeDevices, Run, MidSwap, Outdated, Circle, TwoSwaps, SecondSwap;
    RunTwoSwaps(s, 0, 1, 2);
    MidSwapIsOutdated(s, 0, 1, 2);
    LockedTargetCloses(MidSwap(s, 0, 1, 2), 2, 2);
    RunBoth(s, TwoSwaps(1, 0, 1, 2), SecondSwap(0, 2) + [Advance(3), Advance(2)]);
  }

  lemma RunReachesCircle()
    ensures Circle(Run(RaceShop(), DeadlockEvents()), 2, 3)
  {
    RunOverdue();
    hide RaceShop, OverdueEvents, OverdueState, Run, TwoSwaps, SecondSwap, Circle;
    OverdueDeadlocks(Run(RaceShop(), OverdueEvents()));
    RunBoth(RaceShop(), OverdueEvents(), TwoSwaps(1, 0, 1, 2) + (SecondSwap(0, 2) + [Advance(3), Advance(2)]));
  }

  /** A run from a shop's opening that nothing but a rollback brings to an end. */
  lemma SwapsDeadlockInRun(after: seq<Event>)
    requires Abort(2) !in after && Abort(3) !in after
    ensures Opening(RaceShop())
    ensures var end := Run(RaceShop(), DeadlockEvents());
      && Circle(end, 2, 3) && MustWait(end, end.transactions[2]) && MustWait(end, end.transactions[3])
      && !AllFinished(Run(end, after))
  {
    assert Opening(RaceShop());
    RunReachesCircle();
    var end := Run(RaceShop(), DeadlockEvents());
    hide RaceShop, DeadlockEvents, Run, MustWait, AllFinished;
    BothWait(end, 2, 3);
    CircleLasts(end, 2, 3, after);
  }

  // ------------------------------------------------------ a swap and an operation

  /** A swap waits for its booking, which an operation has, and the operation for a device, which the swap has. */
  predicate Crossing(s: Shop, k: nat, j: nat) {
    && k < |s.transactions| && j < |s.operations|
    && var t, o := s.transactions[k], s.operations[j];
       && t.phase.FoundFree? && t.task.Swap? && t.task.row < |s.rows| && HasRow(o, t.task.row)
       && HoldsDevice(t, s.rows[t.task.row].booking.device) && !Written(s, t.task.row)
  }

  lemma CrossingWaits(s: Shop, k: nat, j: nat)
    requires Crossing(s, k, j)
    ensures MustWait(s, s.transactions[k]) && WaitsForDevice(s, s.operations[j])
  {
    assert s.transactions[k] in s.transactions && s.operations[j] in s.operations;
  }

  lemma AdvanceLeavesRow(s: Shop, k: nat, i: nat)
    requires k < |s.transactions| && i < |s.rows| && RowLocked(s, i) && !Written(s, i)
    ensures var after := AdvanceTransaction(s, k);
      i < |after.rows| && after.rows[i].booking.device == s.rows[i].booking.device && !Written(after, i)
  {
    hide Rentable, Replaces, Taken, DeviceLocked, RowLocked;
    var t, after := s.transactions[k], AdvanceTransaction(s, k);
    assert t in s.transactions && !WritesRow(t, i);
    assert after.transactions == s.transactions[k := after.transactions[k]];
    assert forall u <- after.transactions :: u == after.transactions[k] || u in s.transactions;
  }

  lemma RowStaysOnDevice(s: Shop, e: Event, i: nat)
    requires i < |s.rows| && !e.Advance?
    ensures i < |Apply(s, e).rows| && Apply(s, e).rows[i].booking.device == s.rows[i].booking.device
  {
    match e
    case Operate(j, op) =>
      CarriedOutIsCalm(s, j, op);
      hide CarriedOut, Blocked;
    case AdvanceOperation(k) =>
      OperationIsCalm(s, k);
      hide Apply;
    case AdvanceCollect(k) =>
      OthersAreCalm(s, e);
      hide Apply;
    case AdvanceFlagRun(k) =>
      OthersAreCalm(s, e);
      hide Apply;
    case _ =>
  }

  /** A booking whose row is locked, and that no swap is writing, stays on its device. */
  lemma DeviceStays(s: Shop, e: Event, i: nat)
    requires i < |s.rows| && RowLocked(s, i) && !Written(s, i)
    ensures i < |Apply(s, e).rows| && Apply(s, e).rows[i].booking.device == s.rows[i].booking.device
    ensures !Written(Apply(s, e), i)
  {
    hide RowLocked;
    if e.Advance? && e.transaction < |s.transactions| {
      AdvanceLeavesRow(s, e.transaction, i);
      hide AdvanceTransaction;
    } else if e.Abort? && e.transaction < |s.transactions| {
      assert forall u <- Apply(s, e).transactions :: u.phase.Closed? || u in s.transactions;
    } else {
      OnlyBegins(s, e);
      if !e.Advance? {
        RowStaysOnDevice(s, e, i);
        hide Apply;
      }
    }
  }

  lemma OperationLeftAlone(s: Shop, e: Event, j: nat)
    requires j < |s.operations| && e != AbortOperation(j)
    requires s.operations[j].phase.HasBooking? && WaitsForDevice(s, s.operations[j])
    ensures j < |Apply(s, e).operations| && Apply(s, e).operations[j] == s.operations[j]
  {
    hide Perform, DeviceAfter, NextPhase, MustWait, WaitsForDevice, Blocked, RowLocked, DeviceLocked, CandidatesFrom;
  }

  lemma {:induction false} CrossingLasts(s: Shop, k: nat, j: nat, events: seq<Event>)
    requires Crossing(s, k, j) && Abort(k) !in events && AbortOperation(j) !in events
    ensures Crossing(Run(s, events), k, j) && !AllFinished(Run(s, events))
    decreases |events|
  {
    if events == [] {
      assert s.transactions[k] in s.transactions;
    } else {
      assert events[0] in events && forall e <- events[1..] :: e in events;
      CrossingWaits(s, k, j);
      OthersLeaveAlone(s, events[0], k);
      OperationLeftAlone(s, events[0], j);
      assert s.operations[j] in s.operations;
      DeviceStays(s, events[0], s.transactions[k].task.row);
      hide Apply, MustWait, AllFinished, Written, HoldsDevice;
      CrossingLasts(Apply(s, events[0]), k, j, events[1..]);
    }
  }

  /** Somebody takes the device back, or confirms it lost, in the middle of the swap. */
  function OperationMeanwhile(i: nat, op: Op, j: nat): seq<Event> {
    [BeginOperation(i, op)] + ([AdvanceOperation(j)] + [])
  }

  lemma RunNothing(s: Shop)
    ensures Run(s, []) == s
  {
  }

  function WithOperation(s: Shop, o: Operation): Shop {
    s.(operations := s.operations + [o])
  }

  lemma TakesBooking(s: Shop, k: nat)
    requires k < |s.operations| && s.operations[k].phase.Queued? && !RowLocked(s, s.operations[k].row)
    ensures Apply(s, AdvanceOperation(k))
         == s.(operations := s.operations[k := s.operations[k].(phase := HasBooking)])
  {
    hide RowLocked, WaitsForDevice, CarriedOut;
  }

  lemma OperationBegins(s: Shop, i: nat, op: Op)
    requires i < |s.rows| && WritesBoth(op)
    ensures Apply(s, BeginOperation(i, op)) == WithOperation(s, Operation(i, op, Queued))
  {
  }

  lemma LastTakesBooking(s: Shop, o: Operation)
    requires o.phase.Queued? && !RowLocked(s, o.row)
    ensures Apply(WithOperation(s, o), AdvanceOperation(|s.operations|)) == WithOperation(s, o.(phase := HasBooking))
  {
    QueuedHoldsNothing(s, o);
    hide Apply, RowLocked;
    TakesBooking(WithOperation(s, o), |s.operations|);
    assert (s.operations + [o])[|s.operations| := o.(phase := HasBooking)] == s.operations + [o.(phase := HasBooking)];
  }

  lemma OperationTakesRow(s: Shop, i: nat, op: Op)
    requires i < |s.rows| && WritesBoth(op) && !RowLocked(s, i)
    ensures Run(s, OperationMeanwhile(i, op, |s.operations|)) == WithOperation(s, Operation(i, op, HasBooking))
  {
    var j, o := |s.operations|, Operation(i, op, Queued);
    var begun, taken := WithOperation(s, o), WithOperation(s, o.(phase := HasBooking));
    OperationBegins(s, i, op);
    LastTakesBooking(s, o);
    hide Apply, RowLocked, Run, WithOperation;
    Chain(s, BeginOperation(i, op), [AdvanceOperation(j)] + [], begun);
    Chain(begun, AdvanceOperation(j), [], taken);
    RunNothing(taken);
  }

  lemma QueuedHoldsNothing(s: Shop, o: Operation)
    requires o.phase.Queued?
    ensures forall row: nat :: RowLocked(WithOperation(s, o), row) ==> RowLocked(s, row)
  {
    assert forall p <- WithOperation(s, o).operations :: p == o || p in s.operations;
  }

  /** Wherever a swap has found its target free, an operation on its booking can block it for good, and itself. */
  lemma OperationCanDeadlock(s: Shop, k: nat, op: Op)
    requires k < |s.transactions| && WritesBoth(op)
    requires var t := s.transactions[k];
      && t.phase.FoundFree? && t.task.Swap? && t.task.row < |s.rows| && !RowLocked(s, t.task.row)
      && HoldsDevice(t, s.rows[t.task.row].booking.device)
    ensures var i, j := s.transactions[k].task.row, |s.operations|;
      Crossing(Run(s, OperationMeanwhile(i, op, j)), k, j)
  {
    var i, o := s.transactions[k].task.row, Operation(s.transactions[k].task.row, op, HasBooking);
    assert Crossing(WithOperation(s, o), k, |s.operations|);
    hide Crossing, Run, RowLocked, WithOperation;
    OperationTakesRow(s, i, op);
  }

  /** A device is rented and not returned; in the middle of its swap its return is recorded. */
  function ReturnDuringSwap(op: Op): seq<Event> {
    OverdueEvents() + ([BeginSwap(0, 1, HANDOVER_MIN_PHOTOS)] + (Advances(1, 5) + OperationMeanwhile(0, op, 0)))
  }

  lemma OverdueCrosses(s: Shop, op: Op)
    requires OverdueState(s) && WritesBoth(op)
    ensures Crossing(Run(s, [BeginSwap(0, 1, HANDOVER_MIN_PHOTOS)] + (Advances(1, 5) + OperationMeanwhile(0, op, 0))), 1, 0)
  {
    OverdueIsReady(s);
    var begun := Begin(s, Transaction(Swap(0, 1), [0, 1], 0, Acquiring));
    assert Apply(s, BeginSwap(0, 1, HANDOVER_MIN_PHOTOS)) == begun;
    NothingLocked(begun);
    assert Feasible(begun, 0, 1) && Begun(begun, 1, 0, 1, 0, 1) && s.operations == [];
    var checked := AfterCheck(begun, 1, 0, 1);
    RowsStayFree(begun, checked, 1, checked.transactions[1]);
    assert checked.transactions[1].locks[..2] == [0, 1];
    assert HoldsDevice(checked.transactions[1], 0) && checked.rows[0].booking.device == 0;
    hide OverdueState, Quiet, ThreeDevices, Feasible, Run, Crossing, OperationMeanwhile, AfterCheck, Apply, RowLocked,
      DeviceLocked;
    Chain(s, BeginSwap(0, 1, HANDOVER_MIN_PHOTOS), Advances(1, 5) + OperationMeanwhile(0, op, 0), begun);
    SwapChecks(begun, 1, 0, 1, 0, 1, 5);
    assert Advances(1, 0) == [] && Run(checked, []) == checked by { RunNothing(checked); }
    RunBoth(begun, Advances(1, 5), OperationMeanwhile(0, op, 0));
    OperationCanDeadlock(checked, 1, op);
  }

  /** A run from a shop's opening, with any of these operations, that only a rollback brings to an end. */
  lemma OperationDeadlocksInRun(op: Op, after: seq<Event>)
    requires WritesBoth(op) && Abort(1) !in after && AbortOperation(0) !in after
    ensures Opening(RaceShop())
    ensures var end := Run(RaceShop(), ReturnDuringSwap(op));
      && Crossing(end, 1, 0) && MustWait(end, end.transactions[1]) && WaitsForDevice(end, end.operations[0])
      && !AllFinished(Run(end, after))
  {
    assert Opening(RaceShop());
    RunOverdue();
    hide RaceShop, OverdueEvents, OverdueState, Run, OperationMeanwhile, Crossing, MustWait, WaitsForDevice, AllFinished;
    OverdueCrosses(Run(RaceShop(), OverdueEvents()), op);
    RunBoth(RaceShop(), OverdueEvents(),
            [BeginSwap(0, 1, HANDOVER_MIN_PHOTOS)] + (Advances(1, 5) + OperationMeanwhile(0, op, 0)));
    var end := Run(RaceShop(), ReturnDuringSwap(op));
    CrossingWaits(end, 1, 0);
    CrossingLasts(end, 1, 0, after);
  }
}

/**
 No device is promised twice for the same time, however creations, swaps and
 all other operations interleave.
 */
module ShopCalendar {
  import opened Bookings
  import opened BusinessDays
  import opened BusinessPolicy
  import opened Outcomes
  import opened Shop
  import opened ShopBooks

  predicate Clash(b: Booking, c: Booking) {
    Active(b) && Active(c) && b.device == c.device && Overlaps(b, c.startTime, c.endTime)
  }

  /** No two active bookings of one device overlap, as half-open intervals. */
  predicate NoDoubleBooking(rows: seq<Row>) {
    forall i, j | 0 <= i < j < |rows| :: !Clash(rows[i].booking, rows[j].booking)
  }

  /** At this instant the booking, not yet over, has the device. */
  predicate HasAt(b: Booking, device: int, t: int) {
    b.device == device && (b.status.Pending? || b.status.Confirmed? || b.status.Ongoing?) && b.startTime <= t < b.endTime
  }

  /** At no instant do two bookings have the same device. */
  ghost predicate OnceAtATime(rows: seq<Row>) {
    forall i, j, device, t | 0 <= i < j < |rows| && HasAt(rows[i].booking, device, t) ::
      !HasAt(rows[j].booking, device, t)
  }

  /** At no instant of the interval does another booking have the device. */
  ghost predicate FreeFor(rows: seq<Row>, device: int, from: int, to: int, except: int) {
    forall i, t | 0 <= i < |rows| && i != except && from <= t < to :: !HasAt(rows[i].booking, device, t)
  }

  lemma NoDoubleBookingIsOnce(rows: seq<Row>)
    requires NoDoubleBooking(rows)
    ensures OnceAtATime(rows)
  {
    forall i, j, device, t | 0 <= i < j < |rows| && HasAt(rows[i].booking, device, t)
      ensures !HasAt(rows[j].booking, device, t)
    {
      assert !Clash(rows[i].booking, rows[j].booking);
    }
  }

  /** What the query for overlapping bookings decides. */
  lemma TakenIsNotFree(rows: seq<Row>, device: int, from: int, to: int, except: int)
    requires from < to && forall i | 0 <= i < |rows| :: rows[i].booking.startTime < rows[i].booking.endTime
    ensures Taken(rows, device, from, to, except) <==> !FreeFor(rows, device, from, to, except)
  {
    if Taken(rows, device, from, to, except) {
      var i :| 0 <= i < |rows| && i != except && Active(rows[i].booking) && rows[i].booking.device == device
               && Overlaps(rows[i].booking, from, to);
      var b := rows[i].booking;
      assert HasAt(b, device, if b.startTime < from then from else b.startTime);
    }
  }

  predicate BothLock(t: Transaction, u: Transaction) {
    exists d <- t.locks :: HoldsDevice(t, d) && HoldsDevice(u, d)
  }

  predicate DeviceLocksOk(transactions: seq<Transaction>) {
    forall j, k | 0 <= j < |transactions| && 0 <= k < |transactions| && j != k ::
      !BothLock(transactions[j], transactions[k])
  }

  /** What a swap has read of its booking is still true of the interval. */
  predicate ReadStillHolds(rows: seq<Row>, t: Transaction, seen: Booking) {
    t.task.Create? ||
    (t.task.row < |rows| && rows[t.task.row].booking.startTime == seen.startTime
     && rows[t.task.row].booking.endTime == seen.endTime)
  }

  predicate StillFree(rows: seq<Row>, t: Transaction, seen: Booking) {
    && t.held == |t.locks| && ReadStillHolds(rows, t, seen)
    && !Taken(rows, Target(t.task), Wanted(t.task, seen).0, Wanted(t.task, seen).1, Own(t.task))
  }

  predicate Checked(phase: Phase) {
    phase.FoundFree? || phase.Writing?
  }

  /** Nothing has come between a transaction's check and its write. */
  predicate TransactionOk(rows: seq<Row>, t: Transaction) {
    && Target(t.task) in t.locks && t.held <= |t.locks|
    && (t.task.Create? ==> t.task.startTime < t.task.endTime)
    && match t.phase
       case Acquiring => true
       case RowSeen(seen) => t.held == |t.locks| && ReadStillHolds(rows, t, seen)
       case DeviceSeen(seen, _) => t.held == |t.locks| && ReadStillHolds(rows, t, seen)
       case FoundFree(seen, _) => StillFree(rows, t, seen)
       case Writing(seen, _) => StillFree(rows, t, seen)
       case Closed => true
  }

  predicate TransactionsOk(s: Shop) {
    forall k | 0 <= k < |s.transactions| :: TransactionOk(s.rows, s.transactions[k])
  }

  predicate CalendarOk(s: Shop) {
    NoDoubleBooking(s.rows) && DeviceLocksOk(s.transactions) && TransactionsOk(s)
  }

  // --------------------------------------------- changes that take up no time

  /** Bookings keep device and interval, and none becomes active. */
  predicate Calm(rows: seq<Row>, after: seq<Row>) {
    && |after| == |rows|
    && forall i | 0 <= i < |rows| :: CalmRow(rows[i].booking, after[i].booking)
  }

  predicate CalmRow(b: Booking, after: Booking) {
    && after.device == b.device && after.startTime == b.startTime && after.endTime == b.endTime
    && (Active(after) ==> Active(b))
  }

  lemma CalmTakesNothing(rows: seq<Row>, after: seq<Row>, device: int, from: int, to: int, except: int)
    requires Calm(rows, after) && Taken(after, device, from, to, except)
    ensures Taken(rows, device, from, to, except)
  {
    var i :| 0 <= i < |after| && i != except && Active(after[i].booking) && after[i].booking.device == device
             && Overlaps(after[i].booking, from, to);
    assert CalmRow(rows[i].booking, after[i].booking);
  }

  lemma CalmKeepsCalendar(s: Shop, after: Shop)
    requires CalendarOk(s) && Calm(s.rows, after.rows) && after.transactions == s.transactions
    ensures CalendarOk(after)
  {
    forall i, j | 0 <= i < j < |after.rows|
      ensures !Clash(after.rows[i].booking, after.rows[j].booking)
    {
      assert CalmRow(s.rows[i].booking, after.rows[i].booking) && CalmRow(s.rows[j].booking, after.rows[j].booking);
      assert !Clash(s.rows[i].booking, s.rows[j].booking);
    }
    forall k | 0 <= k < |s.transactions|
      ensures TransactionOk(after.rows, s.transactions[k])
    {
      var t := s.transactions[k];
      assert TransactionOk(s.rows, t);
      if t.task.Swap? && t.task.row < |s.rows| {
        assert CalmRow(s.rows[t.task.row].booking, after.rows[t.task.row].booking);
      }
      if Checked(t.phase) {
        var (from, to) := Wanted(t.task, t.phase.seen);
        if Taken(after.rows, Target(t.task), from, to, Own(t.task)) {
          CalmTakesNothing(s.rows, after.rows, Target(t.task), from, to, Own(t.task));
        }
      }
    }
  }

  lemma ClosingDeactivates(row: Row, device: Device, now: int, amount: real)
    ensures !Active(AfterReturn(row, device, now, amount).booking) && !Active(AfterCancel(row, amount, now).booking)
    ensures !Active(AfterEndEarly(row, now).booking) && !Active(AfterLoss(row, device, now).booking)
  {
    hide LateFee, WorkdaysLater, DepositSettlement, UnusedRentalRefund, LostDeviceDebt;
  }

  lemma PerformNeverActivates(op: Op, row: Row, device: Device)
    requires Perform(op, row, device).Done? && Active(Perform(op, row, device).value.booking)
    ensures Active(row.booking)
  {
    forall now, amount
      ensures !Active(AfterReturn(row, device, now, amount).booking) && !Active(AfterCancel(row, amount, now).booking)
      ensures !Active(AfterEndEarly(row, now).booking) && !Active(AfterLoss(row, device, now).booking)
    {
      ClosingDeactivates(row, device, now, amount);
    }
    hide AfterReturn, AfterCancel, AfterEndEarly, AfterLoss, RefundShare, DepositShare;
  }

  lemma CarriedOutIsCalm(s: Shop, i: nat, op: Op)
    ensures Calm(s.rows, CarriedOut(s, i, op).rows) && CarriedOut(s, i, op).transactions == s.transactions
  {
    hide Perform, DeviceAfter, Active;
    if i < |s.rows| && s.rows[i].booking.device in s.devices {
      var device := s.devices[s.rows[i].booking.device];
      if Perform(op, s.rows[i], device).Done? {
        PerformKeepsPlan(op, s.rows[i], device);
        if Active(Perform(op, s.rows[i], device).value.booking) {
          PerformNeverActivates(op, s.rows[i], device);
        }
      }
    }
  }

  // ---------------------------------------------------------- one transaction

  lemma OnlyOneHolds(s: Shop, j: nat, k: nat, device: int)
    requires DeviceLocksOk(s.transactions) && j < |s.transactions| && k < |s.transactions| && j != k
    requires HoldsDevice(s.transactions[j], device)
    ensures !HoldsDevice(s.transactions[k], device)
  {
    assert !BothLock(s.transactions[j], s.transactions[k]);
    assert device in s.transactions[j].locks;
  }

  lemma AcquireKeepsLocks(s: Shop, k: nat)
    requires DeviceLocksOk(s.transactions) && k < |s.transactions|
    requires s.transactions[k].phase.Acquiring? && s.transactions[k].held < |s.transactions[k].locks|
    requires !DeviceLocked(s, s.transactions[k].locks[s.transactions[k].held])
    ensures DeviceLocksOk(s.transactions[k := s.transactions[k].(held := s.transactions[k].held + 1)])
  {
    var t := s.transactions[k];
    var u := t.(held := t.held + 1);
    var d := t.locks[t.held];
    assert t.locks[..t.held + 1] == t.locks[..t.held] + [d];
    forall j | 0 <= j < |s.transactions| && j != k
      ensures !BothLock(u, s.transactions[j]) && !BothLock(s.transactions[j], u)
    {
      var other := s.transactions[j];
      assert other in s.transactions && !HoldsDevice(other, d);
      assert !BothLock(t, other) && !BothLock(other, t);
      assert forall e :: HoldsDevice(u, e) ==> e == d || HoldsDevice(t, e);
    }
  }

  lemma PhaseKeepsLocks(transactions: seq<Transaction>, k: nat, phase: Phase)
    requires DeviceLocksOk(transactions) && k < |transactions|
    requires transactions[k].phase.Closed? ==> phase.Closed?
    ensures DeviceLocksOk(transactions[k := transactions[k].(phase := phase)])
  {
    var t := transactions[k];
    var u := t.(phase := phase);
    forall j | 0 <= j < |transactions| && j != k
      ensures !BothLock(u, transactions[j]) && !BothLock(transactions[j], u)
    {
      assert !BothLock(t, transactions[j]) && !BothLock(transactions[j], t);
      assert forall e :: HoldsDevice(u, e) ==> HoldsDevice(t, e);
    }
  }

  lemma NextPhaseOk(s: Shop, t: Transaction)
    requires TransactionOk(s.rows, t) && (t.phase.Acquiring? ==> t.held == |t.locks|)
    ensures TransactionOk(s.rows, t.(phase := NextPhase(s, t)))
  {
    hide Taken, Rentable, Replaces;
  }

  /** The row a transaction has checked against fits into the calendar. */
  lemma NewRowFits(rows: seq<Row>, row: Row)
    requires NoDoubleBooking(rows)
    requires !Taken(rows, row.booking.device, row.booking.startTime, row.booking.endTime, -1)
    ensures NoDoubleBooking(rows + [row])
  {
    var after := rows + [row];
    forall i, j | 0 <= i < j < |after|
      ensures !Clash(after[i].booking, after[j].booking)
    {
      if j < |rows| {
        assert !Clash(rows[i].booking, rows[j].booking);
      }
    }
  }

  lemma MovedRowFits(rows: seq<Row>, k: nat, row: Row)
    requires NoDoubleBooking(rows) && k < |rows|
    requires row.booking.startTime == rows[k].booking.startTime && row.booking.endTime == rows[k].booking.endTime
    requires !Taken(rows, row.booking.device, row.booking.startTime, row.booking.endTime, k)
    ensures NoDoubleBooking(rows[k := row])
  {
    var after := rows[k := row];
    forall i, j | 0 <= i < j < |after|
      ensures !Clash(after[i].booking, after[j].booking)
    {
      assert !Clash(rows[i].booking, rows[j].booking);
    }
  }

  /** One row has been added or replaced. */
  predicate OneRowPut(rows: seq<Row>, after: seq<Row>, put: nat) {
    && (if put < |rows| then |after| == |rows| else put == |rows| && |after| == |rows| + 1)
    && forall i | 0 <= i < |rows| && i != put :: after[i] == rows[i]
  }

  /** A device that no row is put on gets no less free. */
  lemma OtherDevicesStayFree(rows: seq<Row>, after: seq<Row>, put: nat, device: int, from: int, to: int, except: int)
    requires OneRowPut(rows, after, put)
    requires after[put].booking.device != device
    requires !Taken(rows, device, from, to, except)
    ensures !Taken(after, device, from, to, except)
  {
  }

  predicate SameInterval(b: Booking, c: Booking) {
    b.startTime == c.startTime && b.endTime == c.endTime
  }

  lemma CommitKeepsOthers(s: Shop, k: nat, after: seq<Row>, put: nat)
    requires CalendarOk(s) && k < |s.transactions| && Commits(s.transactions[k])
    requires OneRowPut(s.rows, after, put)
    requires after[put].booking.device == Target(s.transactions[k].task)
    requires put < |s.rows| ==> SameInterval(s.rows[put].booking, after[put].booking)
    ensures forall j | 0 <= j < |s.transactions| && j != k :: TransactionOk(after, s.transactions[j])
  {
    var t := s.transactions[k];
    assert TransactionOk(s.rows, t);
    assert t.locks[..t.held] == t.locks;
    assert HoldsDevice(t, Target(t.task));
    forall j | 0 <= j < |s.transactions| && j != k
      ensures TransactionOk(after, s.transactions[j])
    {
      var u := s.transactions[j];
      assert TransactionOk(s.rows, u);
      if Checked(u.phase) {
        assert u.locks[..u.held] == u.locks;
        assert HoldsDevice(u, Target(u.task));
        OnlyOneHolds(s, k, j, Target(t.task));
        var (from, to) := Wanted(u.task, u.phase.seen);
        OtherDevicesStayFree(s.rows, after, put, Target(u.task), from, to, Own(u.task));
      }
    }
  }

  lemma CreateCommits(s: Shop, k: nat)
    requires CalendarOk(s) && k < |s.transactions|
    requires Commits(s.transactions[k]) && s.transactions[k].task.Create?
    ensures CalendarOk(AdvanceTransaction(s, k))
  {
    var t := s.transactions[k];
    var after := AdvanceTransaction(s, k);
    assert TransactionOk(s.rows, t);
    PhaseKeepsLocks(s.transactions, k, Closed);
    NewRowFits(s.rows, after.rows[|s.rows|]);
    CommitKeepsOthers(s, k, after.rows, |s.rows|);
    assert after.transactions == s.transactions[k := t.(phase := Closed)];
  }

  lemma SwapCommits(s: Shop, k: nat)
    requires CalendarOk(s) && k < |s.transactions|
    requires Commits(s.transactions[k]) && s.transactions[k].task.Swap?
    ensures CalendarOk(AdvanceTransaction(s, k))
  {
    var t := s.transactions[k];
    var i := t.task.row;
    assert TransactionOk(s.rows, t);
    if !MustWait(s, t) {
      var after := AdvanceTransaction(s, k);
      PhaseKeepsLocks(s.transactions, k, Closed);
      assert after.rows == s.rows[i := Swapped(s.rows[i], t.task.newDevice)];
      assert after.transactions == s.transactions[k := t.(phase := Closed)];
      hide MustWait;
      MovedRowFits(s.rows, i, Swapped(s.rows[i], t.task.newDevice));
      CommitKeepsOthers(s, k, after.rows, i);
    }
  }

  lemma AdvanceKeepsCalendar(s: Shop, k: nat)
    requires CalendarOk(s) && k < |s.transactions|
    ensures CalendarOk(AdvanceTransaction(s, k))
  {
    var t := s.transactions[k];
    assert TransactionOk(s.rows, t);
    if Commits(t) {
      if t.task.Create? {
        CreateCommits(s, k);
      } else {
        SwapCommits(s, k);
      }
    } else if !t.phase.Closed? && !MustWait(s, t) {
      if t.phase.Acquiring? && t.held < |t.locks| {
        AcquireKeepsLocks(s, k);
      } else {
        NextPhaseOk(s, t);
        PhaseKeepsLocks(s.transactions, k, NextPhase(s, t));
      }
    }
  }

  // ------------------------------------------------------------------ all runs

  lemma BeginKeepsCalendar(s: Shop, t: Transaction)
    requires CalendarOk(s) && t.phase.Acquiring? && t.held == 0 && Target(t.task) in t.locks
    requires t.task.Create? ==> t.task.startTime < t.task.endTime
    ensures CalendarOk(Begin(s, t))
  {
    var after := Begin(s, t);
    assert forall d :: !HoldsDevice(t, d);
    forall j, k | 0 <= j < |after.transactions| && 0 <= k < |after.transactions| && j != k
      ensures !BothLock(after.transactions[j], after.transactions[k])
    {
      if j < |s.transactions| && k < |s.transactions| {
        assert !BothLock(s.transactions[j], s.transactions[k]);
      }
    }
  }

  lemma ApplyKeepsCalendar(s: Shop, e: Event)
    requires CalendarOk(s)
    ensures CalendarOk(Apply(s, e))
  {
    hide CarriedOut, Blocked, AdvanceTransaction, Active, CalendarOk;
    match e
    case Operate(i, op) =>
      CarriedOutIsCalm(s, i, op);
      CalmKeepsCalendar(s, Apply(s, e));
    case BeginCreate(user, device, startTime, endTime) =>
      if startTime < endTime {
        BeginKeepsCalendar(s, Transaction(Create(user, device, startTime, endTime), [device], 0, Acquiring));
      }
    case BeginSwap(i, newDevice, photos) =>
      if Apply(s, e) != s {
        BeginKeepsCalendar(s, Transaction(Swap(i, newDevice), LockOrder(s.rows[i].booking.device, newDevice), 0, Acquiring));
      }
    case Advance(k) =>
      if k < |s.transactions| {
        AdvanceKeepsCalendar(s, k);
      }
    case Abort(k) =>
      if k < |s.transactions| {
        AbortKeepsCalendar(s, k);
      }
    case AdvanceOperation(k) =>
      OperationIsCalm(s, k);
      CalmKeepsCalendar(s, Apply(s, e));
    case AdvanceFlagRun(k) =>
      OthersAreCalm(s, e);
      CalmKeepsCalendar(s, Apply(s, e));
    case AdvanceCollect(k) =>
      OthersAreCalm(s, e);
      CalmKeepsCalendar(s, Apply(s, e));
    case _ => CalmKeepsCalendar(s, Apply(s, e));
  }

  lemma AbortKeepsCalendar(s: Shop, k: nat)
    requires CalendarOk(s) && k < |s.transactions|
    ensures CalendarOk(Apply(s, Abort(k)))
  {
    assert TransactionOk(s.rows, s.transactions[k]);
    PhaseKeepsLocks(s.transactions, k, Closed);
  }

  lemma OperationIsCalm(s: Shop, k: nat)
    ensures Calm(s.rows, Apply(s, AdvanceOperation(k)).rows)
    ensures Apply(s, AdvanceOperation(k)).transactions == s.transactions
  {
    if k < |s.operations| {
      var o := s.operations[k];
      CarriedOutIsCalm(s.(operations := s.operations[k := o.(phase := Ended)]), o.row, o.op);
    }
    hide CarriedOut, RowLocked, WaitsForDevice;
  }

  lemma OthersAreCalm(s: Shop, e: Event)
    requires e.AdvanceFlagRun? || e.AdvanceCollect?
    ensures Calm(s.rows, Apply(s, e).rows) && Apply(s, e).transactions == s.transactions
  {
  }

  /**
   Under every interleaving of creations, swaps and all other operations, from
   the opening on, no two active bookings of a device overlap.
   */
  lemma {:induction false} RunNeverDoubleBooks(s: Shop, events: seq<Event>)
    requires CalendarOk(s)
    ensures CalendarOk(Run(s, events)) && NoDoubleBooking(Run(s, events).rows)
    decreases |events|
  {
    if events != [] {
      ApplyKeepsCalendar(s, events[0]);
      RunNeverDoubleBooks(Apply(s, events[0]), events[1..]);
    }
  }

  lemma OpeningCalendarOk(s: Shop)
    requires Opening(s)
    ensures CalendarOk(s)
  {
  }

  /** At no instant is a device given to two bookings. */
  lemma NeverDoubleBooked(s: Shop, events: seq<Event>)
    requires Opening(s)
    ensures OnceAtATime(Run(s, events).rows)
  {
    OpeningCalendarOk(s);
    RunNeverDoubleBooks(s, events);
    NoDoubleBookingIsOnce(Run(s, events).rows);
  }
}

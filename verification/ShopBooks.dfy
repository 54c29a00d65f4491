/**
 Whatever runs at the same time, the books of every booking stay in order: its
 deposit is taken once and returned at most once, its debt is never overpaid,
 and it is lost only after it was overdue for a week.
 */
module ShopBooks {
  import opened Bookings
  import opened BusinessDays
  import opened BusinessPolicy
  import opened Outcomes
  import opened Shop

  predicate AllInOrder(rows: seq<Row>) {
    forall i | 0 <= i < |rows| :: InOrder(rows[i])
  }

  /** A device a transaction has read had a price. */
  predicate DeviceReadOk(t: Transaction) {
    (t.phase.DeviceSeen? || t.phase.FoundFree? || t.phase.Writing?) ==> t.phase.device.originalPrice >= 0.0
  }

  predicate DevicesReadOk(transactions: seq<Transaction>) {
    forall k | 0 <= k < |transactions| :: DeviceReadOk(transactions[k])
  }

  /** An approved collection does not take more than is still owed. */
  predicate CollectionOk(rows: seq<Row>, c: Collection) {
    && c.amount >= 1000.0
    && (c.phase.Approved? ==>
          c.row < |rows| && c.amount <= rows[c.row].booking.owed - rows[c.row].booking.paid)
  }

  predicate BothHold(c: Collection, d: Collection) {
    HoldsRow(c, c.row) && HoldsRow(d, c.row)
  }

  /** Approved amounts are covered, and no booking row is held twice. */
  predicate CollectionsOk(s: Shop) {
    && (forall k | 0 <= k < |s.collections| :: CollectionOk(s.rows, s.collections[k]))
    && (forall j, k | 0 <= j < k < |s.collections| :: !BothHold(s.collections[j], s.collections[k]))
    && (forall t <- s.transactions, c <- s.collections :: !(HoldsRow(c, c.row) && WritesRow(t, c.row)))
    && forall o <- s.operations, c <- s.collections :: !(HoldsRow(c, c.row) && HasRow(o, c.row))
  }

  predicate BooksOk(s: Shop) {
    AllInOrder(s.rows) && PricesOk(s.devices) && DevicesReadOk(s.transactions) && CollectionsOk(s)
  }

  // --------------------------------------------------------------- row changes

  /** A row that nobody has locked may change in any way as far as collections are concerned. */
  lemma UnlockedRowMayChange(s: Shop, rows: seq<Row>, i: nat)
    requires CollectionsOk(s) && i < |s.rows| && !Collected(s, i)
    requires |rows| >= |s.rows| && forall j | 0 <= j < |s.rows| && j != i :: rows[j] == s.rows[j]
    ensures forall k | 0 <= k < |s.collections| :: CollectionOk(rows, s.collections[k])
  {
    forall k | 0 <= k < |s.collections|
      ensures CollectionOk(rows, s.collections[k])
    {
      assert CollectionOk(s.rows, s.collections[k]);
      assert !HoldsRow(s.collections[k], i);
    }
  }

  lemma RowAdded(s: Shop, rows: seq<Row>)
    requires CollectionsOk(s) && s.rows <= rows
    ensures forall k | 0 <= k < |s.collections| :: CollectionOk(rows, s.collections[k])
  {
    forall k | 0 <= k < |s.collections|
      ensures CollectionOk(rows, s.collections[k])
    {
      assert CollectionOk(s.rows, s.collections[k]);
    }
  }

  lemma DeviceAfterKeepsPrices(op: Op, row: Row, d: Device)
    ensures DeviceAfter(op, row, d).originalPrice == d.originalPrice
    ensures DeviceAfter(op, row, d).pricePerDay == d.pricePerDay
    ensures DeviceAfter(op, row, d).pricePerHour == d.pricePerHour
    ensures DeviceAfter(op, row, d).category == d.category
  {
  }

  lemma CarriedOutKeepsBooks(s: Shop, i: nat, op: Op)
    requires BooksOk(s) && !Collected(s, i)
    ensures BooksOk(CarriedOut(s, i, op))
  {
    if i < |s.rows| && s.rows[i].booking.device in s.devices {
      var row := s.rows[i];
      var device := s.devices[row.booking.device];
      hide Perform, InOrder, DeviceAfter, CollectionOk, Collected;
      if Perform(op, row, device).Done? {
        PerformKeepsOrder(op, row, device);
        DeviceAfterKeepsPrices(op, row, device);
        UnlockedRowMayChange(s, CarriedOut(s, i, op).rows, i);
      }
    }
  }

  lemma OperateKeepsBooks(s: Shop, i: nat, op: Op)
    requires BooksOk(s)
    ensures BooksOk(OperateOn(s, i, op))
  {
    hide BooksOk, DeviceLocked, CarriedOut, Collected;
    if i < |s.rows| && !Blocked(s, i, op) {
      CarriedOutKeepsBooks(s, i, op);
    }
  }

  lemma OperationMayChange(s: Shop, k: nat, o: Operation)
    requires BooksOk(s) && k < |s.operations| && (o.phase.HasBooking? ==> !Collected(s, o.row))
    ensures BooksOk(s.(operations := s.operations[k := o]))
  {
    var after := s.operations[k := o];
    forall p, c | p in after && c in s.collections
      ensures !(HoldsRow(c, c.row) && HasRow(p, c.row))
    {
      assert p == o || p in s.operations;
    }
    hide AllInOrder, CollectionOk;
  }

  lemma AdvanceOperationKeepsBooks(s: Shop, k: nat)
    requires BooksOk(s) && k < |s.operations|
    ensures BooksOk(AdvanceOperationOn(s, k))
  {
    var o := s.operations[k];
    assert o in s.operations;
    match o.phase
    case Queued =>
      if !RowLocked(s, o.row) {
        OperationMayChange(s, k, o.(phase := HasBooking));
      }
    case HasBooking =>
      forall c <- s.collections
        ensures !HoldsRow(c, o.row)
      {
        assert !(HoldsRow(c, c.row) && HasRow(o, c.row));
      }
      OperationMayChange(s, k, o.(phase := Ended));
      hide BooksOk, DeviceLocked, CarriedOut;
      CarriedOutKeepsBooks(s.(operations := s.operations[k := o.(phase := Ended)]), o.row, o.op);
    case Ended =>
  }

  lemma SwappedInOrder(row: Row, newDevice: int)
    requires InOrder(row)
    ensures InOrder(Swapped(row, newDevice))
  {
  }

  lemma MarkedInOrder(row: Row, now: int)
    requires InOrder(row) && row.booking.endTime < now - LOST_SUSPECT_OVERDUE_DAYS * DAY_MS
    ensures InOrder(Mark(row, now))
  {
  }

  lemma PaidInOrder(row: Row, amount: real)
    requires InOrder(row) && 1000.0 <= amount <= row.booking.owed - row.booking.paid
    ensures InOrder(Pay(row, amount))
  {
    var payments := row.history.debtPayments;
    assert (payments + [amount])[..|payments|] == payments;
  }

  // -------------------------------------------------------------- transactions

  lemma NextPhaseReads(s: Shop, t: Transaction)
    requires PricesOk(s.devices) && DeviceReadOk(t)
    ensures DeviceReadOk(t.(phase := NextPhase(s, t)))
  {
  }

  lemma CommitKeepsBooks(s: Shop, t: Transaction)
    requires BooksOk(s) && Commits(t) && DeviceReadOk(t) && (t.task.Swap? ==> !Collected(s, t.task.row))
    ensures BooksOk(Commit(s, t))
  {
    var after := Commit(s, t);
    hide InOrder, CollectionOk, RowLocked;
    if t.task.Create? {
      NewRowInOrder(t.task.user, t.task.device, t.task.startTime, t.task.endTime, t.phase.device);
      RowAdded(s, after.rows);
    } else if t.task.row < |s.rows| {
      SwappedInOrder(s.rows[t.task.row], t.task.newDevice);
      UnlockedRowMayChange(s, after.rows, t.task.row);
    }
  }

  /** A transaction that does not take a booking row leaves the books in order. */
  lemma TransactionMayChange(s: Shop, k: nat, t: Transaction)
    requires BooksOk(s) && k < |s.transactions| && DeviceReadOk(t)
    requires t.phase.Writing? && t.task.Swap? ==> !Collected(s, t.task.row)
    ensures BooksOk(s.(transactions := s.transactions[k := t]))
  {
    var after := s.transactions[k := t];
    forall u, c | u in after && c in s.collections
      ensures !(HoldsRow(c, c.row) && WritesRow(u, c.row))
    {
      assert u == t || u in s.transactions;
    }
    hide AllInOrder, CollectionOk;
  }

  lemma AdvanceKeepsBooks(s: Shop, k: nat)
    requires BooksOk(s) && k < |s.transactions|
    ensures BooksOk(AdvanceTransaction(s, k))
  {
    var t := s.transactions[k];
    assert DeviceReadOk(t) && DeviceReadOk(t.(held := t.held + 1)) && t in s.transactions;
    NextPhaseReads(s, t);
    hide BooksOk, DeviceReadOk, DeviceLocked, Commit, Commits;
    if !t.phase.Closed? && !MustWait(s, t) {
      if t.phase.Acquiring? && t.held < |t.locks| {
        TransactionMayChange(s, k, t.(held := t.held + 1));
      } else {
        CommitterHasRow(s, t);
        TransactionMayChange(s, k, t.(phase := NextPhase(s, t)));
        if Commits(t) {
          CommitKeepsBooks(s.(transactions := s.transactions[k := t.(phase := NextPhase(s, t))]), t);
        }
      }
    }
  }

  /** Nobody collects from a booking that a swap is writing, or is about to write without waiting. */
  lemma CommitterHasRow(s: Shop, t: Transaction)
    requires BooksOk(s) && t in s.transactions && !MustWait(s, t)
    ensures t.task.Swap? && (t.phase.FoundFree? || t.phase.Writing?) ==> !Collected(s, t.task.row)
  {
    if t.task.Swap? && t.phase.Writing? {
      forall c <- s.collections
        ensures !HoldsRow(c, t.task.row)
      {
        assert !(HoldsRow(c, c.row) && WritesRow(t, c.row));
      }
    }
  }

  // ---------------------------------------------------------------- collections

  lemma AdvanceCollectionKeepsBooks(s: Shop, k: nat)
    requires BooksOk(s) && k < |s.collections|
    ensures BooksOk(AdvanceCollection(s, k))
  {
    var c := s.collections[k];
    var after := AdvanceCollection(s, k);
    assert CollectionOk(s.rows, c);
    hide InOrder;
    if c.phase.Approved? {
      PaidInOrder(s.rows[c.row], c.amount);
      forall j | 0 <= j < |s.collections| && j != k
        ensures CollectionOk(after.rows, s.collections[j])
      {
        assert CollectionOk(s.rows, s.collections[j]);
        assert !BothHold(s.collections[if j < k then j else k], s.collections[if j < k then k else j]);
      }
    } else if c.phase.Waiting? {
      LockStep(s, k);
    }
  }

  lemma LockStep(s: Shop, k: nat)
    requires CollectionsOk(s) && k < |s.collections| && s.collections[k].phase.Waiting?
    ensures CollectionsOk(AdvanceCollection(s, k))
  {
    if !RowLocked(s, s.collections[k].row) {
      forall j | 0 <= j < |s.collections|
        ensures !HoldsRow(s.collections[j], s.collections[k].row)
      {
        assert s.collections[j] in s.collections;
      }
    }
  }

  // --------------------------------------------------------------- overdue runs

  /** The candidates of a run were overdue when it began, and their end never moves. */
  predicate RunOk(rows: seq<Row>, run: FlagRun) {
    forall i <- run.candidates ::
      i < |rows| && rows[i].booking.endTime < run.now - LOST_SUSPECT_OVERDUE_DAYS * DAY_MS
  }

  predicate RunsOk(s: Shop) {
    forall k | 0 <= k < |s.runs| :: RunOk(s.rows, s.runs[k])
  }

  lemma AdvanceRunKeepsBooks(s: Shop, k: nat)
    requires BooksOk(s) && k < |s.runs| && RunOk(s.rows, s.runs[k])
    ensures BooksOk(AdvanceRun(s, k))
  {
    var run := s.runs[k];
    hide InOrder, CollectionOk;
    if run.candidates != [] {
      var i := run.candidates[0];
      assert i in run.candidates;
      if !RowLocked(s, i) && s.rows[i].booking.suspectedLostAt.None? {
        MarkedInOrder(s.rows[i], run.now);
        UnlockedRowMayChange(s, AdvanceRun(s, k).rows, i);
      }
    }
  }

  /** Rows are only ever added, and keep their interval. */
  predicate Later(rows: seq<Row>, after: seq<Row>) {
    && |rows| <= |after|
    && forall i | 0 <= i < |rows| ::
         after[i].booking.endTime == rows[i].booking.endTime && after[i].booking.startTime == rows[i].booking.startTime
  }

  /** The columns no operation touches. */
  predicate SamePlan(row: Row, after: Row) {
    && after.booking.device == row.booking.device && after.booking.user == row.booking.user
    && after.booking.startTime == row.booking.startTime && after.booking.endTime == row.booking.endTime
    && after.booking.deposit == row.booking.deposit && after.history.swaps == row.history.swaps
  }

  lemma ClosingKeepsPlan(row: Row, device: Device, now: int, amount: real)
    ensures SamePlan(row, AfterReturn(row, device, now, amount)) && SamePlan(row, AfterCancel(row, amount, now))
    ensures SamePlan(row, AfterEndEarly(row, now)) && SamePlan(row, AfterLoss(row, device, now))
  {
    hide LateFee, WorkdaysLater, DepositSettlement, UnusedRentalRefund, LostDeviceDebt;
  }

  lemma PerformKeepsPlan(op: Op, row: Row, device: Device)
    requires Perform(op, row, device).Done?
    ensures SamePlan(row, Perform(op, row, device).value)
  {
    forall now, amount
      ensures SamePlan(row, AfterReturn(row, device, now, amount)) && SamePlan(row, AfterCancel(row, amount, now))
      ensures SamePlan(row, AfterEndEarly(row, now)) && SamePlan(row, AfterLoss(row, device, now))
    {
      ClosingKeepsPlan(row, device, now, amount);
    }
    hide AfterReturn, AfterCancel, AfterEndEarly, AfterLoss, RefundShare, DepositShare;
  }

  lemma CarriedOutIsLater(s: Shop, i: nat, op: Op)
    ensures Later(s.rows, CarriedOut(s, i, op).rows)
    ensures CarriedOut(s, i, op) == s.(rows := CarriedOut(s, i, op).rows, devices := CarriedOut(s, i, op).devices)
  {
    hide Perform, DeviceAfter;
    if i < |s.rows| && s.rows[i].booking.device in s.devices {
      var device := s.devices[s.rows[i].booking.device];
      if Perform(op, s.rows[i], device).Done? {
        PerformKeepsPlan(op, s.rows[i], device);
      }
    }
  }

  lemma ApplyIsLater(s: Shop, e: Event)
    ensures Later(s.rows, Apply(s, e).rows)
  {
    hide CarriedOut, NextPhase, MustWait, RowLocked, Blocked;
    match e
    case Operate(i, op) => CarriedOutIsLater(s, i, op);
    case AdvanceOperation(k) =>
      if k < |s.operations| {
        var o := s.operations[k];
        CarriedOutIsLater(s.(operations := s.operations[k := o.(phase := Ended)]), o.row, o.op);
      }
    case _ =>
  }

  lemma {:induction false} CandidatesAreOverdue(rows: seq<Row>, from: nat, now: int)
    ensures forall i <- CandidatesFrom(rows, from, now) :: from <= i < |rows| && IsOverdue(rows[i].booking, now)
    ensures forall i | from <= i < |rows| && IsOverdue(rows[i].booking, now) :: i in CandidatesFrom(rows, from, now)
    decreases |rows| - from
  {
    if from < |rows| {
      CandidatesAreOverdue(rows, from + 1, now);
    }
  }

  lemma ApplyKeepsRuns(s: Shop, e: Event)
    requires RunsOk(s)
    ensures RunsOk(Apply(s, e))
  {
    var after := Apply(s, e);
    ApplyIsLater(s, e);
    assert forall k | 0 <= k < |s.runs| :: RunOk(after.rows, s.runs[k]);
    hide CarriedOut, NextPhase, MustWait, RowLocked, Blocked;
    match e
    case Operate(i, op) => CarriedOutIsLater(s, i, op);
    case AdvanceOperation(k) =>
      if k < |s.operations| {
        var o := s.operations[k];
        CarriedOutIsLater(s.(operations := s.operations[k := o.(phase := Ended)]), o.row, o.op);
      }
    case BeginFlagRun(now) =>
      CandidatesAreOverdue(s.rows, 0, now);
      assert RunOk(s.rows, FlagRun(now, CandidatesFrom(s.rows, 0, now), 0));
      assert after.runs[..|s.runs|] == s.runs;
    case AdvanceFlagRun(k) =>
      if k < |s.runs| {
        assert forall j | 0 <= j < |s.runs| && j != k :: after.runs[j] == s.runs[j];
        assert forall i <- after.runs[k].candidates :: i in s.runs[k].candidates;
      }
    case _ =>
      assert after.runs == s.runs;
  }

  // ------------------------------------------------------------------- all runs

  lemma ApplyKeepsBooks(s: Shop, e: Event)
    requires BooksOk(s) && RunsOk(s)
    ensures BooksOk(Apply(s, e))
  {
    hide InOrder, CollectionOk, OperateOn, AdvanceTransaction, AdvanceCollection, AdvanceRun, AdvanceOperationOn,
      CandidatesFrom;
    match e
    case Operate(i, op) => OperateKeepsBooks(s, i, op);
    case AdvanceOperation(k) => if k < |s.operations| { AdvanceOperationKeepsBooks(s, k); }
    case AbortOperation(k) =>
      if k < |s.operations| {
        OperationMayChange(s, k, s.operations[k].(phase := Ended));
      }
    case BeginOperation(i, op) => BeginOperationKeepsBooks(s, Operation(i, op, Queued));
    case Advance(k) => if k < |s.transactions| { AdvanceKeepsBooks(s, k); }
    case AdvanceCollect(k) => if k < |s.collections| { AdvanceCollectionKeepsBooks(s, k); }
    case AdvanceFlagRun(k) => if k < |s.runs| { AdvanceRunKeepsBooks(s, k); }
    case BeginCollect(i, amount) =>
      if amount >= 1000.0 {
        BeginsOk(s.rows, i, amount);
        assert forall c: Collection :: !BothHold(c, Collection(i, amount, Waiting));
      }
    case BeginCreate(user, device, startTime, endTime) =>
      BeginKeepsBooks(s, Transaction(Create(user, device, startTime, endTime), [device], 0, Acquiring));
    case BeginSwap(i, newDevice, _) =>
      if Apply(s, e) != s {
        BeginKeepsBooks(s, Transaction(Swap(i, newDevice), LockOrder(s.rows[i].booking.device, newDevice), 0, Acquiring));
      }
    case Abort(k) =>
      if k < |s.transactions| {
        TransactionMayChange(s, k, s.transactions[k].(phase := Closed));
      }
    case _ =>
  }

  lemma BeginKeepsBooks(s: Shop, t: Transaction)
    requires BooksOk(s) && t.phase.Acquiring?
    ensures BooksOk(Begin(s, t))
  {
    forall u, c | u in Begin(s, t).transactions && c in s.collections
      ensures !(HoldsRow(c, c.row) && WritesRow(u, c.row))
    {
      assert u == t || u in s.transactions;
    }
    hide AllInOrder, CollectionOk;
  }

  lemma BeginOperationKeepsBooks(s: Shop, o: Operation)
    requires BooksOk(s) && o.phase.Queued?
    ensures BooksOk(s.(operations := s.operations + [o]))
  {
    forall p, c | p in s.operations + [o] && c in s.collections
      ensures !(HoldsRow(c, c.row) && HasRow(p, c.row))
    {
      assert p == o || p in s.operations;
    }
    hide AllInOrder, CollectionOk;
  }

  lemma BeginsOk(rows: seq<Row>, i: nat, amount: real)
    requires amount >= 1000.0
    ensures CollectionOk(rows, Collection(i, amount, Waiting))
  {
  }

  /** From the opening on, through every interleaving, the books are in order. */
  lemma {:induction false} RunKeepsBooks(s: Shop, events: seq<Event>)
    requires BooksOk(s) && RunsOk(s)
    ensures BooksOk(Run(s, events)) && RunsOk(Run(s, events))
    decreases |events|
  {
    if events != [] {
      ApplyKeepsBooks(s, events[0]);
      ApplyKeepsRuns(s, events[0]);
      RunKeepsBooks(Apply(s, events[0]), events[1..]);
    }
  }

  lemma OpeningOk(s: Shop)
    requires Opening(s)
    ensures BooksOk(s) && RunsOk(s)
  {
  }
}

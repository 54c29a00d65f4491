/**
 How much the shop can claim for a lost device when the device was swapped
 before. A replacement is worth at least 80% of the device it replaces, the
 deposit half of the first device; so after at most four swaps the deposit and
 the debt stay within one and a half times the value of the lost device.

 List prices are not edited here. The update with which a swap ends does not look
 at the booking's status again; the promise holds for the runs in which no swap
 ends on a booking that has been confirmed lost meanwhile, and `SwapOntoLost`
 says what happens otherwise (`ShopLossRace` gives such runs).
 */
module ShopLoss {
  import opened Bookings
  import opened BusinessDays
  import opened BusinessPolicy
  import opened Outcomes
  import opened Shop
  import opened ShopBooks

  const SAFE_SWAPS := 4

  /** What is left of a value after `k` swaps to the cheapest replacement. */
  function Shrunk(k: nat): real {
    if k == 0 then 1.0 else 0.8 * Shrunk(k - 1)
  }

  lemma ShrunkValues()
    ensures Shrunk(4) == 0.4096 && Shrunk(5) == 0.32768
  {
    assert Shrunk(1) == 0.8 && Shrunk(2) == 0.64 && Shrunk(3) == 0.512;
  }

  lemma {:induction false} ShrunkFalls(j: nat, k: nat)
    requires j <= k
    ensures 0.0 < Shrunk(k) <= Shrunk(j) <= 1.0
  {
    if k > j {
      ShrunkFalls(j, k - 1);
    } else if k > 0 {
      ShrunkFalls(j - 1, k - 1);
    }
  }

  function Value(s: Shop, device: int): real {
    if device in s.devices then s.devices[device].originalPrice else -1.0
  }

  // ------------------------------------------------------------- the invariant

  /** The deposit bounds the value of the device from below, swap after swap. */
  predicate WorthAfter(deposit: real, swaps: nat, worth: real) {
    2.0 * deposit * Shrunk(swaps) <= worth
  }

  predicate ClaimCapped(row: Row, worth: real) {
    var b := row.booking;
    b.status.Lost? && row.history.swaps <= 4 ==> b.deposit + b.owed <= 1.5 * worth
  }

  predicate RowValued(s: Shop, row: Row) {
    && row.booking.deposit >= 0.0 && row.booking.device in s.devices
    && WorthAfter(row.booking.deposit, row.history.swaps, Value(s, row.booking.device))
    && ClaimCapped(row, Value(s, row.booking.device))
  }

  /** What an open transaction has read bounds the value of the device it is about to write. */
  predicate TransactionValued(s: Shop, t: Transaction) {
    match t.task
    case Create(_, device, _, _) =>
      t.phase.DeviceSeen? || t.phase.FoundFree? || t.phase.Writing? ==>
        device in s.devices && t.phase.device.originalPrice == Value(s, device)
    case Swap(i, target) =>
      match t.phase
      case RowSeen(seen) => i < |s.rows| && Bounded(s, s.rows[i], 0, seen.device)
      case DeviceSeen(_, _) => i < |s.rows| && Bounded(s, s.rows[i], 1, target)
      case FoundFree(_, _) => i < |s.rows| && Bounded(s, s.rows[i], 1, target)
      case Writing(_, _) => i < |s.rows| && Bounded(s, s.rows[i], 1, target)
      case _ => true
  }

  /** The device is worth enough for the booking after `more` further swaps. */
  predicate Bounded(s: Shop, row: Row, more: nat, device: int) {
    device in s.devices && WorthAfter(row.booking.deposit, row.history.swaps + more, Value(s, device))
  }

  predicate LossOk(s: Shop) {
    && (forall i | 0 <= i < |s.rows| :: RowValued(s, s.rows[i]))
    && (forall k | 0 <= k < |s.transactions| :: TransactionValued(s, s.transactions[k]))
  }

  /** Is the event a swap's write to a booking that has become lost? */
  predicate WritesLostBooking(s: Shop, e: Event) {
    e.Advance? && e.transaction < |s.transactions|
    && var t := s.transactions[e.transaction];
       && Commits(t) && t.task.Swap? && !MustWait(s, t)
       && t.task.row < |s.rows| && s.rows[t.task.row].booking.status.Lost?
  }

  /** What the shop claims for a lost booking. */
  function Claim(b: Booking): real {
    b.deposit + b.owed
  }

  /** Such a write, for one of the first four swaps, of a device that is worth too little for the claim. */
  predicate Overclaims(s: Shop, e: Event) {
    && WritesLostBooking(s, e)
    && var task := s.transactions[e.transaction].task;
       && s.rows[task.row].history.swaps < SAFE_SWAPS
       && Claim(s.rows[task.row].booking) > LOST_DEVICE_MAX_CLAIM_RATIO * Value(s, task.newDevice)
  }

  predicate NeverOverclaims(s: Shop, events: seq<Event>)
    decreases |events|
  {
    events == [] || (!Overclaims(s, events[0]) && NeverOverclaims(Apply(s, events[0]), events[1..]))
  }

  /** No swap ends on a lost booking. */
  predicate NeverWritesLost(s: Shop, events: seq<Event>)
    decreases |events|
  {
    events == [] || (!WritesLostBooking(s, events[0]) && NeverWritesLost(Apply(s, events[0]), events[1..]))
  }

  /** Every lost booking's claim is within the cap of the device it has now. */
  predicate Capped(s: Shop) {
    forall i | 0 <= i < |s.rows| :: ClaimCapped(s.rows[i], Value(s, s.rows[i].booking.device))
  }

  /** In every state of the run. */
  predicate AlwaysCapped(s: Shop, events: seq<Event>)
    decreases |events|
  {
    Capped(s) && (events == [] || AlwaysCapped(Apply(s, events[0]), events[1..]))
  }

  // ---------------------------------------------------------------- arithmetic

  /** Half the first value, after four falls of a fifth, is still within the cap. */
  lemma DepositWithinCap(deposit: real, swaps: nat, worth: real)
    requires deposit >= 0.0 && WorthAfter(deposit, swaps, worth) && swaps <= SAFE_SWAPS
    ensures deposit <= LOST_DEVICE_MAX_CLAIM_RATIO * worth && worth >= 0.0
  {
    ShrunkValues();
    ShrunkFalls(swaps, 4);
    Product(2.0 * deposit, Shrunk(swaps) - 0.4096);
    assert 2.0 * deposit * Shrunk(swaps) >= 2.0 * deposit * 0.4096;
  }

  lemma NextWorth(deposit: real, swaps: nat, worth: real, next: real)
    requires WorthAfter(deposit, swaps, worth) && next >= 0.8 * worth
    ensures WorthAfter(deposit, swaps + 1, next)
  {
    var d, k := 2.0 * deposit, Shrunk(swaps);
    assert d * (0.8 * k) == 0.8 * (d * k);
  }

  lemma LossIsCapped(row: Row, device: Device, now: int)
    requires row.booking.deposit >= 0.0 && device.originalPrice >= 0.0
    requires WorthAfter(row.booking.deposit, row.history.swaps, device.originalPrice)
    ensures ClaimCapped(AfterLoss(row, device, now), device.originalPrice)
  {
    var late := LateFee(now, row.booking.endTime, device.pricePerDay, device.originalPrice);
    LossClaimCap(device.originalPrice, row.booking.deposit, late);
    if row.history.swaps <= SAFE_SWAPS {
      DepositWithinCap(row.booking.deposit, row.history.swaps, device.originalPrice);
    }
    hide LateFee, LostDeviceDebt, WorthAfter;
  }

  lemma WorthLasts(deposit: real, j: nat, k: nat, worth: real)
    requires deposit >= 0.0 && j <= k && WorthAfter(deposit, j, worth)
    ensures WorthAfter(deposit, k, worth)
  {
    ShrunkFalls(j, k);
    Product(2.0 * deposit, Shrunk(j) - Shrunk(k));
  }

  // -------------------------------------------------------------- what changes

  predicate SameValues(s: Shop, after: Shop) {
    && after.devices.Keys == s.devices.Keys
    && forall d <- s.devices :: after.devices[d].originalPrice == s.devices[d].originalPrice
  }

  lemma RowStaysValued(s: Shop, after: Shop, row: Row)
    requires RowValued(s, row) && SameValues(s, after)
    ensures RowValued(after, row)
  {
    hide WorthAfter, ClaimCapped;
  }

  /** A transaction stays consistent when bookings keep their deposit and are only swapped further. */
  lemma TransactionStaysValued(s: Shop, after: Shop, t: Transaction)
    requires TransactionValued(s, t) && SameValues(s, after) && |s.rows| <= |after.rows|
    requires t.task.Swap? && t.task.row < |s.rows| ==>
      && s.rows[t.task.row].booking.deposit >= 0.0
      && after.rows[t.task.row].booking.deposit == s.rows[t.task.row].booking.deposit
      && after.rows[t.task.row].history.swaps >= s.rows[t.task.row].history.swaps
    ensures TransactionValued(after, t)
  {
    if t.task.Swap? && t.task.row < |s.rows| {
      var i := t.task.row;
      var device := if t.phase.RowSeen? then t.phase.seen.device else t.task.newDevice;
      var more := if t.phase.RowSeen? then 0 else 1;
      hide WorthAfter;
      if (t.phase.RowSeen? || t.phase.DeviceSeen? || t.phase.FoundFree? || t.phase.Writing?) && device in s.devices {
        WorthLasts(s.rows[i].booking.deposit, s.rows[i].history.swaps + more, after.rows[i].history.swaps + more,
                   Value(s, device));
      }
    }
  }

  /** All bookings but one are as before, that one is valued, and transactions have not changed. */
  lemma OneRowChanged(s: Shop, after: Shop, i: nat)
    requires LossOk(s) && SameValues(s, after) && after.transactions == s.transactions
    requires i < |s.rows| == |after.rows| && after.rows == s.rows[i := after.rows[i]] && RowValued(s, after.rows[i])
    requires after.rows[i].booking.deposit == s.rows[i].booking.deposit
    requires after.rows[i].history.swaps >= s.rows[i].history.swaps
    ensures LossOk(after)
  {
    forall j | 0 <= j < |after.rows|
      ensures RowValued(after, after.rows[j])
    {
      RowStaysValued(s, after, after.rows[j]);
    }
    forall k | 0 <= k < |s.transactions|
      ensures TransactionValued(after, s.transactions[k])
    {
      assert TransactionValued(s, s.transactions[k]);
      DepositsOk(s);
      TransactionStaysValued(s, after, s.transactions[k]);
    }
  }

  lemma DepositsOk(s: Shop)
    requires LossOk(s)
    ensures forall i | 0 <= i < |s.rows| :: s.rows[i].booking.deposit >= 0.0
  {
    forall i | 0 <= i < |s.rows|
      ensures s.rows[i].booking.deposit >= 0.0
    {
      assert RowValued(s, s.rows[i]);
    }
  }

  lemma ClosingNeverLoses(row: Row, device: Device, now: int, amount: real)
    ensures AfterReturn(row, device, now, amount).booking.status.Completed?
    ensures AfterCancel(row, amount, now).booking.status.Cancelled?
    ensures AfterEndEarly(row, now).booking.status.Completed?
  {
    hide LateFee, WorkdaysLater, DepositSettlement, UnusedRentalRefund;
  }

  lemma OnlyLossLoses(op: Op, row: Row, device: Device)
    requires Perform(op, row, device).Done? && !op.ConfirmLost?
    ensures Perform(op, row, device).value.booking.status.Lost? ==> row.booking.status.Lost?
    ensures Perform(op, row, device).value.booking.status.Lost? ==>
      Perform(op, row, device).value.booking.owed == row.booking.owed
  {
    forall now, amount
      ensures AfterReturn(row, device, now, amount).booking.status.Completed?
      ensures AfterCancel(row, amount, now).booking.status.Cancelled?
      ensures AfterEndEarly(row, now).booking.status.Completed?
    {
      ClosingNeverLoses(row, device, now, amount);
    }
    hide AfterReturn, AfterCancel, AfterEndEarly, AfterLoss, RefundShare, DepositShare;
  }

  lemma PerformKeepsValued(s: Shop, op: Op, row: Row)
    requires RowValued(s, row) && PricesOk(s.devices)
    requires Perform(op, row, s.devices[row.booking.device]).Done?
    ensures RowValued(s, Perform(op, row, s.devices[row.booking.device]).value)
  {
    var device := s.devices[row.booking.device];
    PerformKeepsPlan(op, row, device);
    if op.ConfirmLost? {
      LossIsCapped(row, device, op.now);
    } else {
      OnlyLossLoses(op, row, device);
    }
    hide Perform, AfterLoss, WorthAfter;
  }

  lemma CarriedOutKeepsLoss(s: Shop, i: nat, op: Op)
    requires LossOk(s) && PricesOk(s.devices)
    ensures LossOk(CarriedOut(s, i, op))
  {
    if i < |s.rows| && s.rows[i].booking.device in s.devices {
      var row := s.rows[i];
      var device := s.devices[row.booking.device];
      hide Perform, DeviceAfter, RowValued, TransactionValued;
      if Perform(op, row, device).Done? {
        assert RowValued(s, row);
        PerformKeepsValued(s, op, row);
        PerformKeepsPlan(op, row, device);
        DeviceAfterKeepsPrices(op, row, device);
        if !op.ConfirmLost? {
          OnlyLossLoses(op, row, device);
        }
        OneRowChanged(s, CarriedOut(s, i, op), i);
      }
    }
  }

  // -------------------------------------------------------------- transactions

  lemma NextPhaseValued(s: Shop, t: Transaction)
    requires LossOk(s) && TransactionValued(s, t)
    ensures TransactionValued(s, t.(phase := NextPhase(s, t)))
  {
    if t.task.Swap? && t.task.row < |s.rows| {
      var row := s.rows[t.task.row];
      assert RowValued(s, row);
      if t.phase.RowSeen? && NextPhase(s, t).DeviceSeen? {
        var seen, target := t.phase.seen.device, t.task.newDevice;
        EquivalentValueBounds(Value(s, seen), Value(s, target));
        NextWorth(row.booking.deposit, row.history.swaps, Value(s, seen), Value(s, target));
      }
    }
    hide Taken, Rentable, IsEquivalentValue, WorthAfter, ClaimCapped;
  }

  lemma TransactionsStayValued(s: Shop, after: Shop, k: nat, t: Transaction)
    requires LossOk(s) && SameValues(s, after) && |s.rows| <= |after.rows| && k < |s.transactions|
    requires after.transactions == s.transactions[k := t] && TransactionValued(after, t)
    requires forall i | 0 <= i < |s.rows| ::
      && after.rows[i].booking.deposit == s.rows[i].booking.deposit
      && after.rows[i].history.swaps >= s.rows[i].history.swaps
    ensures forall j | 0 <= j < |after.transactions| :: TransactionValued(after, after.transactions[j])
  {
    DepositsOk(s);
    hide RowValued;
    forall j | 0 <= j < |after.transactions| && j != k
      ensures TransactionValued(after, after.transactions[j])
    {
      assert TransactionValued(s, s.transactions[j]);
      TransactionStaysValued(s, after, s.transactions[j]);
    }
  }

  lemma CreateKeepsLoss(s: Shop, k: nat)
    requires LossOk(s) && PricesOk(s.devices) && k < |s.transactions|
    requires Commits(s.transactions[k]) && s.transactions[k].task.Create?
    ensures LossOk(AdvanceTransaction(s, k))
  {
    var t := s.transactions[k];
    var after := AdvanceTransaction(s, k);
    var u := t.(phase := Closed);
    assert TransactionValued(s, t);
    assert after.transactions == s.transactions[k := u] && after.devices == s.devices;
    assert RowValued(s, after.rows[|s.rows|]);
    hide WorthAfter, ClaimCapped;
    forall i | 0 <= i < |s.rows|
      ensures RowValued(after, after.rows[i])
    {
      RowStaysValued(s, after, s.rows[i]);
    }
    TransactionsStayValued(s, after, k, u);
  }

  /** One more swap: the bound on the value goes on, and so does the cap unless the booking is lost. */
  lemma SwappedValued(s: Shop, row: Row, target: int)
    requires RowValued(s, row) && Bounded(s, row, 1, target)
    ensures RowValued(s, Swapped(row, target)) <==> ClaimCapped(Swapped(row, target), Value(s, target))
  {
    hide WorthAfter;
  }

  /**
   A swap that ends on a lost booking breaks the cap exactly if the claim, made
   for the device that was lost, is above the cap of the device it writes.
   */
  lemma SwapOntoLost(s: Shop, k: nat)
    requires LossOk(s) && WritesLostBooking(s, Advance(k))
    ensures var task := s.transactions[k].task;
      var row, after := s.rows[task.row], Apply(s, Advance(k));
      && |after.rows| == |s.rows| && after.rows[task.row].booking.device == task.newDevice
      && after.rows[task.row].booking.status.Lost? && after.rows[task.row].history.swaps == row.history.swaps + 1
      && Value(after, task.newDevice) == Value(s, task.newDevice)
      && (row.history.swaps < SAFE_SWAPS ==>
            (ClaimCapped(after.rows[task.row], Value(after, task.newDevice))
             <==> row.booking.deposit + row.booking.owed <= 1.5 * Value(s, task.newDevice)))
      && (Overclaims(s, Advance(k)) <==> !ClaimCapped(after.rows[task.row], Value(after, task.newDevice)))
  {
    assert TransactionValued(s, s.transactions[k]);
  }

  lemma SwapKeepsLoss(s: Shop, k: nat)
    requires LossOk(s) && k < |s.transactions| && !Overclaims(s, Advance(k))
    requires Commits(s.transactions[k]) && s.transactions[k].task.Swap?
    ensures LossOk(AdvanceTransaction(s, k))
  {
    var t := s.transactions[k];
    var i := t.task.row;
    assert TransactionValued(s, t) && RowValued(s, s.rows[i]);
    if !MustWait(s, t) {
      var after := AdvanceTransaction(s, k);
      var u := t.(phase := Closed);
      assert after.transactions == s.transactions[k := u];
      assert after.rows == s.rows[i := Swapped(s.rows[i], t.task.newDevice)];
      assert SameValues(s, after);
      SwappedValued(s, s.rows[i], t.task.newDevice);
      assert RowValued(s, Swapped(s.rows[i], t.task.newDevice));
      hide AdvanceTransaction, MustWait, RowValued;
      forall j | 0 <= j < |s.rows|
        ensures RowValued(after, after.rows[j])
      {
        RowStaysValued(s, after, after.rows[j]);
      }
      TransactionsStayValued(s, after, k, u);
    }
  }

  lemma TransactionStepKeepsLoss(s: Shop, k: nat, t: Transaction)
    requires LossOk(s) && k < |s.transactions| && TransactionValued(s, t)
    ensures LossOk(s.(transactions := s.transactions[k := t]))
  {
    var after := s.(transactions := s.transactions[k := t]);
    forall i | 0 <= i < |s.rows|
      ensures RowValued(after, after.rows[i])
    {
      RowStaysValued(s, after, s.rows[i]);
    }
    DepositsOk(s);
    TransactionStaysValued(s, after, t);
    TransactionsStayValued(s, after, k, t);
  }

  lemma AdvanceKeepsLoss(s: Shop, k: nat)
    requires LossOk(s) && PricesOk(s.devices) && k < |s.transactions| && !Overclaims(s, Advance(k))
    ensures LossOk(AdvanceTransaction(s, k))
  {
    var t := s.transactions[k];
    assert TransactionValued(s, t);
    if Commits(t) {
      if t.task.Create? {
        CreateKeepsLoss(s, k);
      } else {
        SwapKeepsLoss(s, k);
      }
    } else if !t.phase.Closed? && !MustWait(s, t) {
      if t.phase.Acquiring? && t.held < |t.locks| {
        TransactionStepKeepsLoss(s, k, t.(held := t.held + 1));
      } else {
        NextPhaseValued(s, t);
        TransactionStepKeepsLoss(s, k, t.(phase := NextPhase(s, t)));
      }
    }
  }

  lemma BeginKeepsLoss(s: Shop, t: Transaction)
    requires LossOk(s) && t.phase.Acquiring?
    ensures LossOk(Begin(s, t))
  {
    var after := Begin(s, t);
    forall i | 0 <= i < |s.rows|
      ensures RowValued(after, after.rows[i])
    {
      RowStaysValued(s, after, s.rows[i]);
    }
    DepositsOk(s);
    forall k | 0 <= k < |after.transactions|
      ensures TransactionValued(after, after.transactions[k])
    {
      if k < |s.transactions| {
        assert TransactionValued(s, s.transactions[k]);
        TransactionStaysValued(s, after, after.transactions[k]);
      }
    }
  }

  // ------------------------------------------------------------------ all runs

  lemma PaidAndMarkedStayValued(s: Shop, row: Row, amount: real, now: int)
    requires RowValued(s, row)
    ensures RowValued(s, Pay(row, amount)) && RowValued(s, Mark(row, now))
  {
    hide WorthAfter;
  }

  lemma CollectKeepsLoss(s: Shop, k: nat)
    requires LossOk(s) && k < |s.collections|
    ensures LossOk(AdvanceCollection(s, k))
  {
    var c := s.collections[k];
    var after := AdvanceCollection(s, k);
    assert after.devices == s.devices && after.transactions == s.transactions;
    if c.phase.Approved? && c.row < |s.rows| {
      assert RowValued(s, s.rows[c.row]);
      PaidAndMarkedStayValued(s, s.rows[c.row], c.amount, 0);
      OneRowChanged(s, after, c.row);
    } else {
      NothingChanged(s, after);
    }
  }

  lemma OperationKeepsLoss(s: Shop, k: nat)
    requires LossOk(s) && PricesOk(s.devices) && k < |s.operations|
    ensures LossOk(AdvanceOperationOn(s, k))
  {
    var o := s.operations[k];
    hide CarriedOut, LossOk, RowLocked, WaitsForDevice;
    NothingChanged(s, s.(operations := s.operations[k := o.(phase := HasBooking)]));
    NothingChanged(s, s.(operations := s.operations[k := o.(phase := Ended)]));
    CarriedOutKeepsLoss(s.(operations := s.operations[k := o.(phase := Ended)]), o.row, o.op);
  }

  lemma NothingChanged(s: Shop, after: Shop)
    requires LossOk(s) && after.rows == s.rows && after.transactions == s.transactions && SameValues(s, after)
    ensures LossOk(after)
  {
    forall i | 0 <= i < |s.rows|
      ensures RowValued(after, after.rows[i])
    {
      RowStaysValued(s, after, s.rows[i]);
    }
    forall k | 0 <= k < |s.transactions|
      ensures TransactionValued(after, s.transactions[k])
    {
      assert TransactionValued(s, s.transactions[k]);
      TransactionStaysValued(s, after, s.transactions[k]);
    }
  }

  lemma RunKeepsLoss(s: Shop, k: nat)
    requires LossOk(s) && k < |s.runs|
    ensures LossOk(AdvanceRun(s, k))
  {
    var run := s.runs[k];
    var after := AdvanceRun(s, k);
    hide RowLocked;
    if after.rows != s.rows {
      var i := run.candidates[0];
      assert RowValued(s, s.rows[i]);
      PaidAndMarkedStayValued(s, s.rows[i], 0.0, run.now);
      OneRowChanged(s, after, i);
    } else {
      NothingChanged(s, after);
    }
  }

  lemma ApplyKeepsLoss(s: Shop, e: Event)
    requires LossOk(s) && PricesOk(s.devices) && !Overclaims(s, e)
    ensures LossOk(Apply(s, e))
  {
    hide CarriedOut, Blocked, AdvanceOperationOn, AdvanceTransaction, AdvanceCollection, AdvanceRun,
      CandidatesFrom, LossOk, DeviceLocked, Overclaims;
    match e
    case Operate(i, op) => CarriedOutKeepsLoss(s, i, op);
    case AdvanceOperation(k) =>
      if k < |s.operations| {
        OperationKeepsLoss(s, k);
      }
    case BeginCreate(user, device, startTime, endTime) =>
      if startTime < endTime {
        BeginKeepsLoss(s, Transaction(Create(user, device, startTime, endTime), [device], 0, Acquiring));
      }
    case BeginSwap(i, newDevice, _) =>
      if Apply(s, e) != s {
        BeginKeepsLoss(s, Transaction(Swap(i, newDevice), LockOrder(s.rows[i].booking.device, newDevice), 0, Acquiring));
      }
    case Advance(k) =>
      if k < |s.transactions| {
        AdvanceKeepsLoss(s, k);
      }
    case Abort(k) =>
      if k < |s.transactions| {
        var t := s.transactions[k].(phase := Closed);
        assert TransactionValued(s, t);
        TransactionStepKeepsLoss(s, k, t);
      }
    case AdvanceCollect(k) =>
      if k < |s.collections| {
        CollectKeepsLoss(s, k);
      }
    case AdvanceFlagRun(k) =>
      if k < |s.runs| {
        RunKeepsLoss(s, k);
      }
    case _ => NothingChanged(s, Apply(s, e));
  }

  lemma {:induction false} RunCapsClaims(s: Shop, events: seq<Event>)
    requires LossOk(s) && BooksOk(s) && RunsOk(s) && NeverOverclaims(s, events)
    ensures LossOk(Run(s, events))
    decreases |events|
  {
    if events != [] {
      hide Apply, LossOk, BooksOk, RunsOk, Overclaims;
      assert PricesOk(s.devices) by { PricesOfBooks(s); }
      ApplyKeepsLoss(s, events[0]);
      ApplyKeepsBooks(s, events[0]);
      ApplyKeepsRuns(s, events[0]);
      RunCapsClaims(Apply(s, events[0]), events[1..]);
    }
  }

  lemma PricesOfBooks(s: Shop)
    requires BooksOk(s)
    ensures PricesOk(s.devices)
  {
  }

  lemma LossOkIsCapped(s: Shop)
    requires LossOk(s)
    ensures Capped(s)
  {
    forall i | 0 <= i < |s.rows|
      ensures ClaimCapped(s.rows[i], Value(s, s.rows[i].booking.device))
    {
      assert RowValued(s, s.rows[i]);
    }
  }

  lemma OverclaimBreaksCap(s: Shop, e: Event)
    requires LossOk(s) && Overclaims(s, e)
    ensures !Capped(Apply(s, e))
  {
    SwapOntoLost(s, e.transaction);
    hide ClaimCapped, Value;
  }

  lemma {:induction false} CappedExactly(s: Shop, events: seq<Event>)
    requires LossOk(s) && BooksOk(s) && RunsOk(s)
    ensures AlwaysCapped(s, events) <==> NeverOverclaims(s, events)
    decreases |events|
  {
    LossOkIsCapped(s);
    if events != [] {
      hide Apply, LossOk, BooksOk, RunsOk, Overclaims, Capped;
      if Overclaims(s, events[0]) {
        OverclaimBreaksCap(s, events[0]);
      } else {
        assert PricesOk(s.devices) by { PricesOfBooks(s); }
        ApplyKeepsLoss(s, events[0]);
        ApplyKeepsBooks(s, events[0]);
        ApplyKeepsRuns(s, events[0]);
        CappedExactly(Apply(s, events[0]), events[1..]);
      }
    }
  }

  lemma OpeningLossOk(s: Shop)
    requires Opening(s)
    ensures LossOk(s) && BooksOk(s) && RunsOk(s)
  {
    OpeningOk(s);
  }

  /**
   From the opening on: in every state, for every lost booking whose device was
   swapped at most four times, deposit and debt together are at most one and a
   half times the value of the booking's device, if and only if no swap, among
   the first four of a booking, writes a device that is worth too little onto a
   booking that has been confirmed lost since the swap looked at it.
   */
  lemma ClaimsAreCappedExactly(s: Shop, events: seq<Event>)
    requires Opening(s)
    ensures AlwaysCapped(s, events) <==> NeverOverclaims(s, events)
  {
    OpeningLossOk(s);
    CappedExactly(s, events);
  }

  /** In particular when no swap ends on a lost booking at all. */
  lemma LostClaimsAreCapped(s: Shop, events: seq<Event>, i: nat)
    requires Opening(s) && NeverWritesLost(s, events) && i < |Run(s, events).rows|
    ensures var after, row := Run(s, events), Run(s, events).rows[i];
      row.booking.status.Lost? && row.history.swaps <= 4 ==>
        && row.booking.device in after.devices
        && row.booking.deposit + row.booking.owed <= 1.5 * after.devices[row.booking.device].originalPrice
  {
    OpeningLossOk(s);
    NoWriteNoOverclaim(s, events);
    RunCapsClaims(s, events);
    assert RowValued(Run(s, events), Run(s, events).rows[i]);
  }

  lemma {:induction false} NoWriteNoOverclaim(s: Shop, events: seq<Event>)
    requires NeverWritesLost(s, events)
    ensures NeverOverclaims(s, events)
    decreases |events|
  {
    if events != [] {
      NoWriteNoOverclaim(Apply(s, events[0]), events[1..]);
    }
  }
}

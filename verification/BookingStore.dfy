/**
 The booking services as they change the database in place: bookings.service.ts,
 booking-issues.service.ts, booking-loss.service.ts, debts.service.ts and
 payments.service.ts, each call running without interruption. Every method does
 exactly what its step in the concurrent model does, and keeps the store valid.
 */
module BookingStore {
  import opened BookingEffects
  import opened Bookings
  import opened BusinessDays
  import opened BusinessPolicy
  import opened Lists
  import opened Outcomes
  import opened Shop
  import opened ShopBooks
  import opened ShopCalendar

  /** Books in order, no double booking, and every booking has its device and some time. */
  predicate ValidTables(rows: seq<Row>, devices: map<int, Device>) {
    && AllInOrder(rows) && NoDoubleBooking(rows) && PricesOk(devices)
    && forall i | 0 <= i < |rows| ::
         rows[i].booking.device in devices && rows[i].booking.startTime < rows[i].booking.endTime
  }

  /** The tables after an operation on one booking, and its answer. */
  function Answer(op: Op, id: nat, rows: seq<Row>, devices: map<int, Device>): Outcome<Row, Refusal>
    requires ValidTables(rows, devices)
  {
    if id >= |rows| then Refused(NotFound) else Perform(op, rows[id], devices[rows[id].booking.device])
  }

  predicate Performed(op: Op, id: nat, answer: Outcome<Row, Refusal>,
                      rows: seq<Row>, devices: map<int, Device>,
                      rowsAfter: seq<Row>, devicesAfter: map<int, Device>)
    requires ValidTables(rows, devices)
  {
    && answer == Answer(op, id, rows, devices)
    && match answer
       case Refused(_) => rowsAfter == rows && devicesAfter == devices
       case Done(row) =>
         var d := rows[id].booking.device;
         rowsAfter == rows[id := row] && devicesAfter == devices[d := DeviceAfter(op, rows[id], devices[d])]
  }

  /**
   The answer and the tables after an operation on one booking: allowed, it has its
   effect on the booking and its device and on nothing else; otherwise nothing changes.
   */
  ghost predicate Effected(op: Op, id: nat, answer: Outcome<Row, Refusal>,
                           rows: seq<Row>, devices: map<int, Device>,
                           rowsAfter: seq<Row>, devicesAfter: map<int, Device>)
    requires ValidTables(rows, devices)
  {
    if id >= |rows| then answer == Refused(NotFound) && rowsAfter == rows && devicesAfter == devices
    else
      var d := rows[id].booking.device;
      if !Allowed(op, rows[id], devices[d]) then
        answer == Refused(WhyRefused(op, rows[id])) && rowsAfter == rows && devicesAfter == devices
      else
        && answer.Done? && rowsAfter == rows[id := answer.value]
        && devicesAfter.Keys == devices.Keys && (forall e <- devices | e != d :: devicesAfter[e] == devices[e])
        && Effect(op, rows[id], devices[d], answer.value, devicesAfter[d])
  }

  lemma PerformedIsEffected(op: Op, id: nat, answer: Outcome<Row, Refusal>,
                            rows: seq<Row>, devices: map<int, Device>,
                            rowsAfter: seq<Row>, devicesAfter: map<int, Device>)
    requires ValidTables(rows, devices) && Performed(op, id, answer, rows, devices, rowsAfter, devicesAfter)
    ensures Effected(op, id, answer, rows, devices, rowsAfter, devicesAfter)
  {
    if id < |rows| {
      Performs(op, rows[id], devices[rows[id].booking.device]);
    }
    hide Perform, DeviceAfter, Effect, Allowed, AllInOrder, NoDoubleBooking;
  }

  lemma PerformedKeepsValid(op: Op, id: nat, rows: seq<Row>, devices: map<int, Device>)
    requires ValidTables(rows, devices) && id < |rows|
    requires Perform(op, rows[id], devices[rows[id].booking.device]).Done?
    ensures var d := rows[id].booking.device;
      ValidTables(rows[id := Perform(op, rows[id], devices[d]).value],
                  devices[d := DeviceAfter(op, rows[id], devices[d])])
  {
    var d := rows[id].booking.device;
    var row := Perform(op, rows[id], devices[d]).value;
    PerformKeepsOrder(op, rows[id], devices[d]);
    PerformKeepsPlan(op, rows[id], devices[d]);
    DeviceAfterKeepsPrices(op, rows[id], devices[d]);
    if Active(row.booking) {
      PerformNeverActivates(op, rows[id], devices[d]);
    }
    hide Perform, DeviceAfter, InOrder, Active;
    var after := rows[id := row];
    forall i, j | 0 <= i < j < |rows|
      ensures !Clash(after[i].booking, after[j].booking)
    {
      assert !Clash(rows[i].booking, rows[j].booking);
    }
  }

  class BookingStore {
    var rows: seq<Row>
    var devices: map<int, Device>

    ghost predicate Valid()
      reads this
    {
      ValidTables(rows, devices)
    }

    constructor (devices: map<int, Device>)
      requires PricesOk(devices)
      ensures Valid() && rows == [] && this.devices == devices
    {
      this.rows, this.devices := [], devices;
    }

    /** Writes one booking, and its device, back. */
    method Save(id: nat, row: Row, device: Device, ghost op: Op) returns (answer: Outcome<Row, Refusal>)
      requires Valid() && id < |rows|
      requires Perform(op, rows[id], devices[rows[id].booking.device]) == Done(row)
      requires DeviceAfter(op, rows[id], devices[rows[id].booking.device]) == device
      modifies this
      ensures Valid() && Effected(op, id, answer, old(rows), old(devices), rows, devices)
      ensures Performed(op, id, answer, old(rows), old(devices), rows, devices)
    {
      PerformedKeepsValid(op, id, rows, devices);
      devices := devices[rows[id].booking.device := device];
      rows := rows[id := row];
      answer := Done(row);
      PerformedIsEffected(op, id, answer, old(rows), old(devices), rows, devices);
    }

    method Confirm(id: nat) returns (answer: Outcome<Row, Refusal>)
      requires Valid()
      modifies this
      ensures Valid() && Effected(Op.Confirm, id, answer, old(rows), old(devices), rows, devices)
      ensures Performed(Op.Confirm, id, answer, old(rows), old(devices), rows, devices)
    {
      if id >= |rows| {
        return Refused(NotFound);
      }
      var b, h := rows[id].booking, rows[id].history;
      if !b.status.Pending? {
        return Refused(BadRequest);
      }
      var confirmed := Row(b.(status := Status.Confirmed), h.(depositsTaken := h.depositsTaken + [b.deposit]));
      answer := Save(id, confirmed, devices[b.device], Op.Confirm);
    }

    /** The conditional update after a successful payment: it changes a pending booking only. */
    method ConfirmBookingAfterPayment(id: nat) returns (answer: Outcome<Row, Refusal>)
      requires Valid()
      modifies this
      ensures Valid() && Effected(PaymentConfirms, id, answer, old(rows), old(devices), rows, devices)
      ensures Performed(PaymentConfirms, id, answer, old(rows), old(devices), rows, devices)
    {
      if id >= |rows| {
        return Refused(NotFound);
      }
      var b, h := rows[id].booking, rows[id].history;
      var row := rows[id];
      if b.status.Pending? {
        row := Row(b.(status := Status.Confirmed), h.(depositsTaken := h.depositsTaken + [b.deposit]));
      }
      answer := Save(id, row, devices[b.device], PaymentConfirms);
    }

    method ExpireIfStillPending(id: nat) returns (answer: Outcome<Row, Refusal>)
      requires Valid()
      modifies this
      ensures Valid() && Effected(Op.ExpireIfStillPending, id, answer, old(rows), old(devices), rows, devices)
      ensures Performed(Op.ExpireIfStillPending, id, answer, old(rows), old(devices), rows, devices)
    {
      if id >= |rows| {
        return Refused(NotFound);
      }
      var row := rows[id];
      if row.booking.status.Pending? {
        row := row.(booking := row.booking.(status := Cancelled));
      }
      answer := Save(id, row, devices[row.booking.device], Op.ExpireIfStillPending);
    }

    /** Only a confirmed booking that is paid, signed and documented is handed over. */
    method Start(id: nat) returns (answer: Outcome<Row, Refusal>)
      requires Valid()
      modifies this
      ensures Valid() && Effected(Op.Start, id, answer, old(rows), old(devices), rows, devices)
      ensures Performed(Op.Start, id, answer, old(rows), old(devices), rows, devices)
    {
      if id >= |rows| {
        return Refused(NotFound);
      }
      var row := rows[id];
      var b := row.booking;
      if !b.status.Confirmed? {
        return Refused(BadRequest);
      }
      var missing: seq<string> := [];
      if !b.rentalPaid {
        missing := missing + ["rental not paid"];
      }
      if !b.contractSigned {
        missing := missing + ["contract not signed"];
      }
      if !b.handover {
        missing := missing + ["no handover record"];
      }
      if missing != [] {
        return Refused(BadRequest);
      }
      answer := Save(id, row.(booking := b.(status := Ongoing)), devices[b.device].(status := Rented), Op.Start);
    }

    method ConfirmReturn(id: nat, now: int, condition: Condition, fee: real, described: bool, photos: nat)
      returns (answer: Outcome<Row, Refusal>)
      requires Valid()
      modifies this
      ensures Valid()
      ensures Effected(Op.ConfirmReturn(now, condition, fee, described, photos), id, answer,
                       old(rows), old(devices), rows, devices)
      ensures Performed(Op.ConfirmReturn(now, condition, fee, described, photos), id, answer,
                        old(rows), old(devices), rows, devices)
    {
      ghost var op := Op.ConfirmReturn(now, condition, fee, described, photos);
      if id >= |rows| {
        return Refused(NotFound);
      }
      var row := rows[id];
      var b, device := row.booking, devices[row.booking.device];
      if !b.status.Ongoing? {
        return Refused(BadRequest);
      }
      var intact := condition.Intact?;
      var damageFee := if intact then 0.0 else fee;
      if !intact {
        if !described {
          return Refused(BadRequest);
        }
        if damageFee <= 0.0 {
          return Refused(BadRequest);
        }
        if photos < RETURN_DAMAGE_MIN_PHOTOS {
          return Refused(BadRequest);
        }
      }
      if damageFee > device.originalPrice {
        return Refused(BadRequest);
      }
      var lateFee := CalculateLateFee(now, b.endTime, device.pricePerDay, device.originalPrice);
      var settlement := DepositSettlement(b.deposit, lateFee, damageFee, b.repairFee);
      b := b.(status := Completed, lateFee := lateFee, damageFee := damageFee);
      b := b.(owed := settlement.amountOwed, refund := settlement.refundAmount);
      if settlement.refundAmount > 0.0 {
        var due := AddBusinessDays(now, DEPOSIT_REFUND_BUSINESS_DAYS);
        b := b.(refundStatus := RefundDue, refundDueAt := Some(due));
      } else {
        b := b.(refundStatus := NotRefunded, refundDueAt := None);
      }
      hide DepositSettlement, LateFee, WorkdaysLater;
      var next := device.(status := if intact then Available else Maintenance);
      answer := Save(id, row.(booking := b), next, op);
    }

    method MarkDepositRefunded(id: nat) returns (answer: Outcome<Row, Refusal>)
      requires Valid()
      modifies this
      ensures Valid() && Effected(Op.MarkDepositRefunded, id, answer, old(rows), old(devices), rows, devices)
      ensures Performed(Op.MarkDepositRefunded, id, answer, old(rows), old(devices), rows, devices)
    {
      if id >= |rows| {
        return Refused(NotFound);
      }
      var b, h := rows[id].booking, rows[id].history;
      if !b.refundStatus.RefundDue? {
        return Refused(BadRequest);
      }
      var paid := Row(b.(refundStatus := Refunded), h.(depositsReturned := h.depositsReturned + [b.refund]));
      answer := Save(id, paid, devices[b.device], Op.MarkDepositRefunded);
    }

    method Cancel(id: nat, byOwner: bool, byStaff: bool, storeFault: bool, now: int)
      returns (answer: Outcome<Row, Refusal>)
      requires Valid()
      modifies this
      ensures Valid()
      ensures Effected(Op.Cancel(byOwner, byStaff, storeFault, now), id, answer, old(rows), old(devices), rows, devices)
      ensures Performed(Op.Cancel(byOwner, byStaff, storeFault, now), id, answer, old(rows), old(devices), rows, devices)
    {
      ghost var op := Op.Cancel(byOwner, byStaff, storeFault, now);
      if id >= |rows| {
        return Refused(NotFound);
      }
      var row := rows[id];
      var b, device := row.booking, devices[row.booking.device];
      if !byOwner && !byStaff {
        return Refused(Forbidden);
      }
      if b.status.Completed? || b.status.Cancelled? {
        return Refused(BadRequest);
      }
      if b.status.Ongoing? && !byStaff {
        return Refused(Forbidden);
      }
      var hoursUntilStart := (b.startTime - now) as real / HOUR_MS as real;
      var percentage := CalculateRefundPercentage(hoursUntilStart, storeFault && byStaff);
      var collected := !b.status.Pending?;
      var refund := if collected then DepositShare(b.deposit, percentage) else 0.0;
      var updated := b.(status := Cancelled);
      if collected {
        updated := updated.(refund := refund);
        if refund > 0.0 {
          var due := AddBusinessDays(now, DEPOSIT_REFUND_BUSINESS_DAYS);
          updated := updated.(refundStatus := RefundDue, refundDueAt := Some(due));
        } else {
          updated := updated.(refundStatus := NotRefunded, refundDueAt := None);
        }
      }
      if b.status.Ongoing? {
        device := device.(status := Available);
      }
      hide RefundShare, DepositShare, WorkdaysLater;
      answer := Save(id, row.(booking := updated), device, op);
    }

    method EndEarly(id: nat, now: int) returns (answer: Outcome<Row, Refusal>)
      requires Valid()
      modifies this
      ensures Valid() && Effected(Op.EndEarly(now), id, answer, old(rows), old(devices), rows, devices)
      ensures Performed(Op.EndEarly(now), id, answer, old(rows), old(devices), rows, devices)
    {
      if id >= |rows| {
        return Refused(NotFound);
      }
      var row := rows[id];
      var b := row.booking;
      if !b.openIssue {
        return Refused(BadRequest);
      }
      if !b.status.Ongoing? {
        return Refused(BadRequest);
      }
      var rentalRefund := UnusedRentalRefund(b.totalPrice, b.startTime, b.endTime, now);
      var due := AddBusinessDays(now, DEPOSIT_REFUND_BUSINESS_DAYS);
      var ended := b.(status := Completed, openIssue := false, rentalRefund := rentalRefund as real,
                      refund := b.deposit, refundStatus := RefundDue, refundDueAt := Some(due));
      hide UnusedRentalRefund, WorkdaysLater;
      answer := Save(id, Row(ended, row.history.(endedEarly := true)),
                     devices[b.device].(status := Maintenance), Op.EndEarly(now));
    }

    /** Repair costs caused by the customer: added to the booking, deducted when the device is returned. */
    method ChargeCustomerFault(id: nat, repairCost: real) returns (answer: Outcome<Row, Refusal>)
      requires Valid()
      modifies this
      ensures Valid()
      ensures Effected(Op.ChargeCustomerFault(repairCost), id, answer, old(rows), old(devices), rows, devices)
      ensures Performed(Op.ChargeCustomerFault(repairCost), id, answer, old(rows), old(devices), rows, devices)
    {
      if id >= |rows| {
        return Refused(NotFound);
      }
      var row := rows[id];
      var b := row.booking;
      if !b.openIssue {
        return Refused(BadRequest);
      }
      if !b.status.Ongoing? {
        return Refused(BadRequest);
      }
      if repairCost <= 0.0 {
        return Refused(BadRequest);
      }
      if repairCost > devices[b.device].originalPrice {
        return Refused(BadRequest);
      }
      answer := Save(id, row.(booking := b.(repairFee := b.repairFee + repairCost, openIssue := false)),
                     devices[b.device], Op.ChargeCustomerFault(repairCost));
    }

    method ConfirmLost(id: nat, now: int) returns (answer: Outcome<Row, Refusal>)
      requires Valid()
      modifies this
      ensures Valid() && Effected(Op.ConfirmLost(now), id, answer, old(rows), old(devices), rows, devices)
      ensures Performed(Op.ConfirmLost(now), id, answer, old(rows), old(devices), rows, devices)
    {
      if id >= |rows| {
        return Refused(NotFound);
      }
      var row := rows[id];
      var b, device := row.booking, devices[row.booking.device];
      if !b.status.Ongoing? || b.suspectedLostAt.None? {
        return Refused(BadRequest);
      }
      var lateFee := CalculateLateFee(now, b.endTime, device.pricePerDay, device.originalPrice);
      var debt := LostDeviceDebt(device.originalPrice, b.deposit, lateFee);
      var lost := b.(status := Lost, lateFee := debt.lateFee, owed := debt.amountOwed,
                     refund := 0.0, refundStatus := NotRefunded);
      hide LostDeviceDebt, LateFee;
      answer := Save(id, row.(booking := lost), device.(status := LostDevice, discontinued := true), Op.ConfirmLost(now));
    }

    /** Part of a debt, or all of it, is paid: never more than is outstanding. */
    method Collect(id: nat, amount: real) returns (answer: Outcome<real, Refusal>)
      requires Valid() && amount >= 1000.0
      modifies this
      ensures Valid() && devices == old(devices)
      ensures id < |old(rows)| && amount <= old(rows)[id].booking.owed - old(rows)[id].booking.paid ==>
        && answer == Done(old(rows)[id].booking.owed - old(rows)[id].booking.paid - amount)
        && |rows| == |old(rows)| && rows == old(rows)[id := rows[id]] && PaidOff(old(rows)[id], rows[id], amount)
      ensures !(id < |old(rows)| && amount <= old(rows)[id].booking.owed - old(rows)[id].booking.paid) ==>
        answer == Refused(if id < |old(rows)| then BadRequest else NotFound) && rows == old(rows)
    {
      if id >= |rows| {
        return Refused(NotFound);
      }
      var row := rows[id];
      var outstanding := row.booking.owed - row.booking.paid;
      if outstanding <= 0.0 {
        return Refused(BadRequest);
      }
      if amount > outstanding {
        return Refused(BadRequest);
      }
      PaidInOrder(row, amount);
      ChangedRowKeepsValid(rows, devices, id, Pay(row, amount));
      rows := rows[id := Row(row.booking.(paid := row.booking.paid + amount),
                             row.history.(debtPayments := row.history.debtPayments + [amount]))];
      answer := Done(outstanding - amount);
    }

    /** The overdue check: every overdue booking is marked, and the number of them returned. */
    method FlagSuspectedLost(now: int) returns (flagged: nat)
      requires Valid()
      modifies this
      ensures Valid() && devices == old(devices) && LongOverdueMarked(old(rows), rows, now)
      ensures flagged == |AllLongOverdue(old(rows), now)|
    {
      ghost var before := rows;
      var candidates := CandidatesFrom(rows, 0, now);
      CandidatesAreOverdue(rows, 0, now);
      CandidatesAscend(rows, 0, now);
      flagged := 0;
      var k := 0;
      hide *;
      assert AllBelow(candidates, |before|) && MarkFirst(before, candidates, 0, now) == rows by {
        NoneMarked(before, candidates, now);
      }
      while k < |candidates|
        invariant 0 <= k <= |candidates| && flagged == k
        invariant Valid() && devices == old(devices)
        invariant rows == MarkFirst(before, candidates, k, now)
      {
        var marked := MarkCandidate(before, candidates, k, now);
        if marked {
          flagged := flagged + 1;
        }
        k := k + 1;
      }
      AllMarked(before, candidates, now);
      AreLongOverdue(before, rows, now);
      CountOverdue(before, candidates, now);
    }

    /** The conditional update of one candidate; it reports whether it changed anything. */
    method MarkCandidate(ghost before: seq<Row>, candidates: seq<nat>, k: nat, now: int) returns (marked: bool)
      requires Valid() && k < |candidates| && AllBelow(candidates, |before|)
      requires Ascending(candidates) && AreOverdue(before, candidates, now)
      requires rows == MarkFirst(before, candidates, k, now)
      modifies this
      ensures Valid() && devices == old(devices) && marked
      ensures rows == MarkFirst(before, candidates, k + 1, now)
    {
      NextMarked(before, candidates, k, now);
      var i := candidates[k];
      var row := rows[i];
      marked := row.booking.suspectedLostAt.None?;
      if marked {
        assert InOrder(row);
        MarkedInOrder(row, now);
        ChangedRowKeepsValid(rows, devices, i, Mark(row, now));
        hide InOrder, MarkFirst, AreOverdue, Ascending;
        rows := rows[i := row.(booking := row.booking.(suspectedLostAt := Some(now)))];
      }
    }

    /** A new booking: the device must be rentable and free for the whole interval. */
    method CreateBooking(user: int, device: int, startTime: int, endTime: int) returns (answer: Outcome<Row, Refusal>)
      requires Valid() && startTime < endTime
      modifies this
      ensures Valid() && devices == old(devices)
      ensures answer.Done? <==>
        && device in devices && !devices[device].discontinued
        && !devices[device].status.Broken? && !devices[device].status.Maintenance?
        && FreeFor(old(rows), device, startTime, endTime, -1)
      ensures answer.Done? ==>
        rows == old(rows) + [answer.value] && IsNew(answer.value, user, device, startTime, endTime, devices[device])
      ensures answer.Refused? ==>
        && rows == old(rows)
        && answer.error ==
           if device !in devices then NotFound
           else if devices[device].discontinued || devices[device].status.Broken? || devices[device].status.Maintenance?
           then BadRequest
           else Conflict
    {
      TakenIsNotFree(rows, device, startTime, endTime, -1);
      if device !in devices {
        return Refused(NotFound);
      }
      var d := devices[device];
      if d.discontinued {
        return Refused(BadRequest);
      }
      if d.status.Broken? || d.status.Maintenance? {
        return Refused(BadRequest);
      }
      if Taken(rows, device, startTime, endTime, -1) {
        return Refused(Conflict);
      }
      var row := NewRow(user, device, startTime, endTime, d);
      NewRowInOrder(user, device, startTime, endTime, d);
      NewRowIsNew(user, device, startTime, endTime, d);
      NewRowFits(rows, row);
      hide InOrder, NoDoubleBooking, IsNew, FreeFor, Taken;
      rows := rows + [row];
      answer := Done(row);
    }

    /** Moving a booking to another device, which must be on the list of candidates. */
    method SwapDevice(id: nat, newDevice: int, photos: nat) returns (answer: Outcome<Row, Refusal>)
      requires Valid()
      modifies this
      ensures Valid()
      ensures answer.Done? <==>
        && id < |old(rows)| && old(rows)[id].booking.status.Ongoing? && old(rows)[id].booking.openIssue && photos >= 3
        && Suits(old(rows), old(devices), id, newDevice)
      ensures answer.Done? ==>
        && var previous := old(rows)[id].booking.device;
        && rows == old(rows)[id := answer.value] && MovedTo(old(rows)[id], answer.value, newDevice)
        && devices == old(devices)[previous := old(devices)[previous].(status := Maintenance)]
                                  [newDevice := old(devices)[newDevice].(status := Rented)]
      ensures answer.Refused? ==> rows == old(rows) && devices == old(devices)
    {
      if id >= |rows| {
        return Refused(NotFound);
      }
      var row := rows[id];
      var b := row.booking;
      if !b.openIssue || !b.status.Ongoing? {
        return Refused(BadRequest);
      }
      if newDevice == b.device || photos < HANDOVER_MIN_PHOTOS {
        return Refused(BadRequest);
      }
      if newDevice !in devices {
        return Refused(NotFound);
      }
      CandidatesSuit(rows, devices, id, newDevice);
      var current, candidate := devices[b.device], devices[newDevice];
      if candidate.category != current.category || !candidate.status.Available? || candidate.discontinued
         || !IsEquivalentValue(current.originalPrice, candidate.originalPrice) {
        return Refused(BadRequest);
      }
      if Taken(rows, newDevice, b.startTime, b.endTime, id) {
        return Refused(Conflict);
      }
      var moved := Swapped(row, newDevice);
      SwappedInOrder(row, newDevice);
      MovedRowFits(rows, id, moved);
      hide InOrder, NoDoubleBooking, IsEquivalentValue, Suits, Taken;
      devices := devices[b.device := current.(status := Maintenance)][newDevice := candidate.(status := Rented)];
      rows := rows[id := moved];
      answer := Done(moved);
    }

    /** The devices offered for a swap: exactly those it would accept, nearest value first. */
    method FindReplacementCandidates(id: nat, deviceIds: seq<int>) returns (candidates: seq<int>)
      requires Valid() && id < |rows|
      ensures forall d :: d in candidates <==> d in deviceIds && Suits(rows, devices, id, d)
      ensures forall j, k | 0 <= j < k < |candidates| && candidates[j] in devices && candidates[k] in devices ::
        Apart(devices[candidates[j]], devices[rows[id].booking.device])
        <= Apart(devices[candidates[k]], devices[rows[id].booking.device])
    {
      var b := rows[id].booking;
      var found: seq<int> := [];
      for k := 0 to |deviceIds|
        invariant forall d :: d in found <==> d in deviceIds[..k] && IsCandidate(rows, devices, id, d)
      {
        var d := deviceIds[k];
        assert deviceIds[..k + 1] == deviceIds[..k] + [d];
        if d in devices && d != b.device && Replaces(devices[b.device], devices[d])
           && !Taken(rows, d, b.startTime, b.endTime, id) {
          found := found + [d];
        }
      }
      assert deviceIds[..|deviceIds|] == deviceIds;
      var key := Distance(devices, b.device);
      SortIsOrdered(found, key);
      candidates := SortBy(found, key);
      NearestFirst(candidates, devices, b.device);
      forall d
        ensures d in candidates <==> d in found
        ensures IsCandidate(rows, devices, id, d) <==> Suits(rows, devices, id, d)
      {
        assert d in candidates <==> d in multiset(candidates);
        assert d in found <==> d in multiset(found);
        CandidatesSuit(rows, devices, id, d);
      }
    }
  }

  /** By how much two devices differ in value. */
  function Apart(d: Device, current: Device): real {
    if d.originalPrice >= current.originalPrice then d.originalPrice - current.originalPrice
    else current.originalPrice - d.originalPrice
  }

  /** A device that can take over a booking: a different one, equivalent, and free all the time. */
  ghost predicate Suits(rows: seq<Row>, devices: map<int, Device>, id: nat, d: int)
    requires id < |rows|
  {
    var b := rows[id].booking;
    && d in devices && b.device in devices && d != b.device && Equivalent(devices[b.device], devices[d])
    && FreeFor(rows, d, b.startTime, b.endTime, id)
  }

  lemma CandidatesSuit(rows: seq<Row>, devices: map<int, Device>, id: nat, d: int)
    requires id < |rows| && ValidTables(rows, devices)
    ensures IsCandidate(rows, devices, id, d) <==> Suits(rows, devices, id, d)
  {
    var b := rows[id].booking;
    TakenIsNotFree(rows, d, b.startTime, b.endTime, id);
    if d in devices {
      EquivalentValueBounds(devices[b.device].originalPrice, devices[d].originalPrice);
    }
    hide AllInOrder, NoDoubleBooking, Taken, FreeFor, IsEquivalentValue;
  }

  /** How far a device's value is from another's, as the sort computes it. */
  function Distance(devices: map<int, Device>, current: int): int -> real {
    (d: int) =>
      if d in devices && current in devices then
        var difference := devices[d].originalPrice - devices[current].originalPrice;
        if difference >= 0.0 then difference else -difference
      else 0.0
  }

  lemma NearestFirst(candidates: seq<int>, devices: map<int, Device>, current: int)
    requires Ordered(candidates, Distance(devices, current)) && current in devices
    ensures forall j, k | 0 <= j < k < |candidates| && candidates[j] in devices && candidates[k] in devices ::
      Apart(devices[candidates[j]], devices[current]) <= Apart(devices[candidates[k]], devices[current])
  {
    var key := Distance(devices, current);
    forall j, k | 0 <= j < k < |candidates| && candidates[j] in devices && candidates[k] in devices
      ensures Apart(devices[candidates[j]], devices[current]) <= Apart(devices[candidates[k]], devices[current])
    {
      assert key(candidates[j]) <= key(candidates[k]);
    }
  }

  /** What the query and the filter after it let through. */
  predicate IsCandidate(rows: seq<Row>, devices: map<int, Device>, id: nat, d: int)
    requires id < |rows|
  {
    var b := rows[id].booking;
    && d in devices && b.device in devices && d != b.device && Replaces(devices[b.device], devices[d])
    && !Taken(rows, d, b.startTime, b.endTime, id)
  }

  lemma ChangedRowKeepsValid(rows: seq<Row>, devices: map<int, Device>, id: nat, row: Row)
    requires ValidTables(rows, devices) && id < |rows| && InOrder(row) && CalmRow(rows[id].booking, row.booking)
    ensures ValidTables(rows[id := row], devices)
  {
    hide InOrder, Active;
    var after := rows[id := row];
    forall i, j | 0 <= i < j < |rows|
      ensures !Clash(after[i].booking, after[j].booking)
    {
      assert !Clash(rows[i].booking, rows[j].booking);
    }
  }

  predicate AllBelow(chosen: seq<nat>, n: nat) {
    forall k | 0 <= k < |chosen| :: chosen[k] < n
  }

  /** The first `k` chosen bookings marked, one after the other. */
  function MarkFirst(rows: seq<Row>, chosen: seq<nat>, k: nat, now: int): (r: seq<Row>)
    requires AllBelow(chosen, |rows|) && k <= |chosen|
    ensures |r| == |rows|
  {
    if k == 0 then rows else MarkFirst(rows, chosen, k - 1, now)[chosen[k - 1] := Mark(rows[chosen[k - 1]], now)]
  }

  lemma {:induction false} MarkFirstAt(rows: seq<Row>, chosen: seq<nat>, k: nat, now: int, i: nat)
    requires AllBelow(chosen, |rows|) && k <= |chosen| && i < |rows|
    ensures MarkFirst(rows, chosen, k, now)[i] == if i in chosen[..k] then Mark(rows[i], now) else rows[i]
  {
    if k > 0 {
      MarkFirstAt(rows, chosen, k - 1, now, i);
      assert chosen[..k] == chosen[..k - 1] + [chosen[k - 1]];
    }
  }

  /** Exactly the overdue bookings have been marked, and nothing else has changed. */
  predicate OverdueMarked(rows: seq<Row>, after: seq<Row>, now: int) {
    && |after| == |rows|
    && forall i | 0 <= i < |rows| ::
         after[i] == if IsOverdue(rows[i].booking, now) then Mark(rows[i], now) else rows[i]
  }

  ghost predicate LongOverdueMarked(rows: seq<Row>, after: seq<Row>, now: int) {
    && |after| == |rows|
    && forall i | 0 <= i < |rows| ::
         after[i] == if LongOverdue(rows[i].booking, now)
                     then rows[i].(booking := rows[i].booking.(suspectedLostAt := Some(now)))
                     else rows[i]
  }

  ghost function AllLongOverdue(rows: seq<Row>, now: int): set<nat> {
    set i: nat | i < |rows| && LongOverdue(rows[i].booking, now)
  }

  lemma OverdueIsLongOverdue(b: Booking, now: int)
    ensures IsOverdue(b, now) <==> LongOverdue(b, now)
  {
    assert LOST_SUSPECT_OVERDUE_DAYS * DAY_MS == 604_800_000;
  }

  lemma AreLongOverdue(rows: seq<Row>, after: seq<Row>, now: int)
    requires OverdueMarked(rows, after, now)
    ensures LongOverdueMarked(rows, after, now)
  {
    hide IsOverdue, LongOverdue;
    forall i | 0 <= i < |rows|
      ensures IsOverdue(rows[i].booking, now) <==> LongOverdue(rows[i].booking, now)
    {
      OverdueIsLongOverdue(rows[i].booking, now);
    }
  }

  /** The candidates are as many as there are overdue bookings. */
  lemma CountOverdue(rows: seq<Row>, candidates: seq<nat>, now: int)
    requires Ascending(candidates) && AreOverdue(rows, candidates, now)
    ensures |candidates| == |AllLongOverdue(rows, now)|
  {
    hide IsOverdue, LongOverdue;
    forall i: nat
      ensures i in AllLongOverdue(rows, now) <==> i in candidates
    {
      if i < |rows| {
        OverdueIsLongOverdue(rows[i].booking, now);
      }
    }
    SizeOfAscending(candidates);
    assert AllLongOverdue(rows, now) == Members(candidates);
  }

  function Members(xs: seq<nat>): set<nat> {
    set i | i in xs
  }

  lemma OneMoreMember(init: seq<nat>, last: nat)
    requires last !in init
    ensures |Members(init + [last])| == |Members(init)| + 1
  {
    assert Members(init + [last]) == Members(init) + {last};
  }

  lemma {:induction false} SizeOfAscending(xs: seq<nat>)
    requires Ascending(xs)
    ensures |Members(xs)| == |xs|
  {
    if xs == [] {
      assert Members(xs) == {};
    } else {
      var init, last := xs[..|xs| - 1], xs[|xs| - 1];
      assert xs == init + [last];
      assert last !in init by {
        assert forall j | 0 <= j < |init| :: init[j] == xs[j] < last;
      }
      SizeOfAscending(init) by {
        assert Ascending(init);
      }
      hide Members, Ascending;
      OneMoreMember(init, last);
    }
  }

  predicate AreOverdue(rows: seq<Row>, candidates: seq<nat>, now: int) {
    && (forall i <- candidates :: i < |rows| && IsOverdue(rows[i].booking, now))
    && forall i | 0 <= i < |rows| && IsOverdue(rows[i].booking, now) :: i in candidates
  }

  lemma NoneMarked(rows: seq<Row>, candidates: seq<nat>, now: int)
    requires AreOverdue(rows, candidates, now)
    ensures AllBelow(candidates, |rows|) && MarkFirst(rows, candidates, 0, now) == rows
  {
    assert forall k | 0 <= k < |candidates| :: candidates[k] in candidates;
  }

  lemma NextMarked(rows: seq<Row>, candidates: seq<nat>, k: nat, now: int)
    requires Ascending(candidates) && AreOverdue(rows, candidates, now) && k < |candidates|
    requires AllBelow(candidates, |rows|)
    ensures var i, marked := candidates[k], MarkFirst(rows, candidates, k, now);
      && i < |rows| && marked[i] == rows[i] && IsOverdue(rows[i].booking, now) && rows[i].booking.suspectedLostAt.None?
      && MarkFirst(rows, candidates, k + 1, now) == marked[i := Mark(marked[i], now)]
  {
    assert candidates[k] in candidates && candidates[k] !in candidates[..k];
    MarkFirstAt(rows, candidates, k, now, candidates[k]);
  }

  lemma AllMarked(rows: seq<Row>, candidates: seq<nat>, now: int)
    requires AreOverdue(rows, candidates, now) && AllBelow(candidates, |rows|)
    ensures OverdueMarked(rows, MarkFirst(rows, candidates, |candidates|, now), now)
  {
    assert candidates[..|candidates|] == candidates;
    forall i | 0 <= i < |rows|
      ensures MarkFirst(rows, candidates, |candidates|, now)[i]
           == if IsOverdue(rows[i].booking, now) then Mark(rows[i], now) else rows[i]
    {
      MarkFirstAt(rows, candidates, |candidates|, now, i);
    }
  }

  predicate Ascending(xs: seq<nat>) {
    forall j, k | 0 <= j < k < |xs| :: xs[j] < xs[k]
  }

  lemma {:induction false} CandidatesAscend(rows: seq<Row>, from: nat, now: int)
    ensures Ascending(CandidatesFrom(rows, from, now))
    decreases |rows| - from
  {
    if from < |rows| {
      CandidatesAscend(rows, from + 1, now);
      CandidatesAreOverdue(rows, from + 1, now);
      var rest := CandidatesFrom(rows, from + 1, now);
      hide IsOverdue;
      assert forall k | 0 <= k < |rest| :: rest[k] in rest && from < rest[k];
      var all := [from] + rest;
      assert forall k | 0 < k < |all| :: all[k] == rest[k - 1];
      assert Ascending(all);
    }
  }
}

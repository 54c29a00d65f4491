/**
 What each operation on a booking does, said without the functions that carry it
 out: when it succeeds, with which answer it is refused, and column by column what
 it leaves behind. `Performs` proves it of the operations of `Bookings`.
 */
module BookingEffects {
  import opened Bookings
  import opened BusinessDays
  import opened BusinessPolicy
  import opened Outcomes

  /** When an operation succeeds. */
  predicate Allowed(op: Op, row: Row, device: Device) {
    var b := row.booking;
    match op
    case Confirm => b.status.Pending?
    case PaymentConfirms => true
    case ExpireIfStillPending => true
    case SetContractSigned(_) => true
    case RecordHandover(photos) => b.status.Confirmed? && photos >= 3
    case RecordRentalPayment => b.status.Confirmed? && !b.rentalPaid
    case Start => b.status.Confirmed? && b.rentalPaid && b.contractSigned && b.handover
    case ConfirmReturn(_, condition, fee, described, photos) =>
      b.status.Ongoing? && (condition.Intact? || (described && 0.0 < fee <= device.originalPrice && photos >= 1))
    case MarkDepositRefunded => b.refundStatus.RefundDue?
    case Cancel(byOwner, byStaff, _, _) =>
      !b.status.Completed? && !b.status.Cancelled? && (byStaff || (byOwner && !b.status.Ongoing?))
    case ReportIssue(byOwner) => byOwner && b.status.Ongoing? && !b.openIssue
    case EndEarly(_) => b.status.Ongoing? && b.openIssue
    case ChargeCustomerFault(cost) => b.status.Ongoing? && b.openIssue && 0.0 < cost <= device.originalPrice
    case ConfirmLost(_) => b.status.Ongoing? && b.suspectedLostAt.Some?
  }

  /** The answer when it does not. */
  function WhyRefused(op: Op, row: Row): Refusal {
    var b := row.booking;
    match op
    case Cancel(byOwner, byStaff, _, _) =>
      if (byOwner || byStaff) && (b.status.Completed? || b.status.Cancelled?) then BadRequest else Forbidden
    case ReportIssue(byOwner) =>
      if !byOwner then Forbidden else if b.status.Ongoing? then Conflict else BadRequest
    case _ => BadRequest
  }

  /** A refund is due on the third working day, and is promised only if there is one. */
  ghost predicate RefundPromised(b: Booking, now: int) {
    if b.refund > 0.0 then b.refundStatus.RefundDue? && b.refundDueAt.Some? && IsDeadline(now, b.refundDueAt.value)
    else b.refundStatus.NotRefunded? && b.refundDueAt.None?
  }

  /** Only these columns differ, and the deposit balances the fees. */
  ghost predicate Returned(b: Booking, a: Booking, device: Device, now: int, intact: bool, fee: real) {
    && a == b.(status := Completed, lateFee := a.lateFee, damageFee := a.damageFee, owed := a.owed,
               refund := a.refund, refundStatus := a.refundStatus, refundDueAt := a.refundDueAt)
    && IsLateFee(a.lateFee, now, b.endTime, device.pricePerDay, device.originalPrice)
    && a.damageFee == (if intact then 0.0 else fee)
    && b.deposit + a.owed == a.refund + a.lateFee + a.damageFee + b.repairFee
    && a.refund >= 0.0 && a.owed >= 0.0 && (a.refund == 0.0 || a.owed == 0.0)
    && RefundPromised(a, now)
  }

  /** The whole deposit a day ahead or for a store's fault reported by staff, half of it six hours ahead. */
  ghost predicate CancelledAt(b: Booking, a: Booking, storeFault: bool, now: int) {
    if b.status.Pending? then a == b.(status := Cancelled)
    else
      && a == b.(status := Cancelled, refund := a.refund, refundStatus := a.refundStatus, refundDueAt := a.refundDueAt)
      && a.refund == (if storeFault || b.startTime - now >= 86_400_000 then b.deposit
                      else if b.startTime - now >= 21_600_000 then b.deposit / 2.0
                      else 0.0)
      && RefundPromised(a, now)
  }

  ghost predicate EndedEarly(b: Booking, a: Booking, now: int) {
    && a == b.(status := Completed, openIssue := false, rentalRefund := a.rentalRefund,
               refund := b.deposit, refundStatus := RefundDue, refundDueAt := a.refundDueAt)
    && a.refundDueAt.Some? && IsDeadline(now, a.refundDueAt.value)
    && a.rentalRefund == a.rentalRefund.Floor as real
    && IsUnusedRefund(a.rentalRefund.Floor, b.totalPrice, b.startTime, b.endTime, now)
  }

  /** The late fee counts up to half the value; the deposit is kept and the rest is owed. */
  ghost predicate LostAt(b: Booking, a: Booking, device: Device, now: int) {
    && a == b.(status := Lost, lateFee := a.lateFee, owed := a.owed, refund := 0.0, refundStatus := NotRefunded)
    && (exists late: real {:trigger IsLateFee(late, now, b.endTime, device.pricePerDay, device.originalPrice)} ::
          && IsLateFee(late, now, b.endTime, device.pricePerDay, device.originalPrice)
          && a.lateFee == if late <= device.originalPrice / 2.0 then late else device.originalPrice / 2.0)
    && a.owed == (if device.originalPrice + a.lateFee >= b.deposit then device.originalPrice + a.lateFee - b.deposit
                  else 0.0)
  }

  /** What is on record afterwards, of the booking and of its device. */
  ghost predicate Effect(op: Op, row: Row, device: Device, after: Row, deviceAfter: Device) {
    var b, h := row.booking, row.history;
    var a := after.booking;
    match op
    case Confirm => Deposited(row, after) && deviceAfter == device
    case PaymentConfirms => (if b.status.Pending? then Deposited(row, after) else after == row) && deviceAfter == device
    case ExpireIfStillPending =>
      && after == row.(booking := b.(status := if b.status.Pending? then Cancelled else b.status))
      && deviceAfter == device
    case SetContractSigned(signed) => after == row.(booking := b.(contractSigned := signed)) && deviceAfter == device
    case RecordHandover(_) => after == row.(booking := b.(handover := true)) && deviceAfter == device
    case RecordRentalPayment => after == row.(booking := b.(rentalPaid := true)) && deviceAfter == device
    case Start => after == row.(booking := b.(status := Ongoing)) && deviceAfter == device.(status := Rented)
    case ConfirmReturn(now, condition, fee, _, _) =>
      && Returned(b, a, device, now, condition.Intact?, fee) && after.history == h
      && deviceAfter == device.(status := if condition.Intact? then Available else Maintenance)
    case MarkDepositRefunded =>
      && after == Row(b.(refundStatus := Refunded), h.(depositsReturned := h.depositsReturned + [b.refund]))
      && deviceAfter == device
    case Cancel(_, byStaff, storeFault, now) =>
      && CancelledAt(b, a, storeFault && byStaff, now) && after.history == h
      && deviceAfter == if b.status.Ongoing? then device.(status := Available) else device
    case ReportIssue(_) => after == row.(booking := b.(openIssue := true)) && deviceAfter == device
    case EndEarly(now) =>
      && EndedEarly(b, a, now) && after.history == h.(endedEarly := true)
      && deviceAfter == device.(status := Maintenance)
    case ChargeCustomerFault(cost) =>
      && after == row.(booking := b.(repairFee := b.repairFee + cost, openIssue := false))
      && deviceAfter == device
    case ConfirmLost(now) =>
      && LostAt(b, a, device, now) && after.history == h
      && deviceAfter == device.(status := LostDevice, discontinued := true)
  }

  /** The booking is confirmed and its deposit is in. */
  predicate Deposited(row: Row, after: Row) {
    && after.booking == row.booking.(status := Status.Confirmed)
    && after.history == row.history.(depositsTaken := row.history.depositsTaken + [row.booking.deposit])
  }

  /** A payment on the debt is on record. */
  predicate PaidOff(row: Row, after: Row, amount: real) {
    && after.booking == row.booking.(paid := row.booking.paid + amount)
    && after.history == row.history.(debtPayments := row.history.debtPayments + [amount])
  }

  /** Out, not marked yet, and more than seven days after the end of the rental. */
  predicate LongOverdue(b: Booking, now: int) {
    b.status.Ongoing? && b.suspectedLostAt.None? && b.endTime + 604_800_000 < now
  }

  /** Of the same kind, to be had, and worth at least 80% and at most 120% of the other. */
  predicate Equivalent(current: Device, d: Device) {
    && d.category == current.category && d.status.Available? && !d.discontinued
    && 0.8 * current.originalPrice <= d.originalPrice <= 1.2 * current.originalPrice
  }

  /** The booking has another device, and its fault has been dealt with. */
  predicate MovedTo(row: Row, after: Row, device: int) {
    && after.booking == row.booking.(device := device, openIssue := false)
    && after.history == row.history.(swaps := row.history.swaps + 1)
  }

  // -------------------------------------------------------------------- proofs

  lemma ReturnIsReturned(row: Row, device: Device, now: int, intact: bool, fee: real)
    ensures Returned(row.booking, AfterReturn(row, device, now, if intact then 0.0 else fee).booking, device, now,
                     intact, fee)
    ensures AfterReturn(row, device, now, if intact then 0.0 else fee).history == row.history
  {
    var b, damage := row.booking, if intact then 0.0 else fee;
    var late := LateFee(now, b.endTime, device.pricePerDay, device.originalPrice);
    var settled := DepositSettlement(b.deposit, late, damage, b.repairFee);
    LateFeeIsLateFee(now, b.endTime, device.pricePerDay, device.originalPrice);
    SettlementBalances(b.deposit, late, damage, b.repairFee, settled.refundAmount, settled.amountOwed);
    DeadlineIsThirdWorkday(now);
    hide LateFee, IsLateFee, WorkdaysLater, IsDeadline;
  }

  lemma CancelIsCancelled(row: Row, op: Op)
    requires op.Cancel? && CancelRow(row, op).Done?
    ensures CancelledAt(row.booking, CancelRow(row, op).value.booking, op.storeFault && op.byStaff, op.now)
    ensures CancelRow(row, op).value.history == row.history
  {
    RefundShareByTime(row.booking.startTime - op.now, op.storeFault && op.byStaff);
    DeadlineIsThirdWorkday(op.now);
    hide RefundShare, WorkdaysLater, IsDeadline;
  }

  lemma EndEarlyIsEnded(row: Row, now: int)
    ensures EndedEarly(row.booking, AfterEndEarly(row, now).booking, now)
  {
    var b := row.booking;
    var refund := UnusedRentalRefund(b.totalPrice, b.startTime, b.endTime, now);
    UnusedRefundIsExact(b.totalPrice, b.startTime, b.endTime, now);
    DeadlineIsThirdWorkday(now);
    assert (refund as real).Floor == refund;
    hide UnusedRentalRefund, IsUnusedRefund, WorkdaysLater, IsDeadline;
  }

  lemma LossIsLost(row: Row, device: Device, now: int)
    requires device.originalPrice >= 0.0 && device.pricePerDay >= 0.0
    ensures LostAt(row.booking, AfterLoss(row, device, now).booking, device, now)
  {
    var b := row.booking;
    var late := LateFee(now, b.endTime, device.pricePerDay, device.originalPrice);
    LateFeeIsLateFee(now, b.endTime, device.pricePerDay, device.originalPrice);
    LateFeeBounds(now, now, b.endTime, device.pricePerDay, device.originalPrice);
    LossDebtIs(device.originalPrice, b.deposit, late);
    hide LateFee, IsLateFee, LostDeviceDebt;
  }

  /** Every operation succeeds when it is allowed, is refused as it should be, and has its effect. */
  lemma Performs(op: Op, row: Row, device: Device)
    requires device.originalPrice >= 0.0 && device.pricePerDay >= 0.0
    ensures Perform(op, row, device).Done? <==> Allowed(op, row, device)
    ensures Perform(op, row, device).Refused? ==> Perform(op, row, device).error == WhyRefused(op, row)
    ensures Perform(op, row, device).Done? ==>
      Effect(op, row, device, Perform(op, row, device).value, DeviceAfter(op, row, device))
  {
    match op
    case ConfirmReturn(now, condition, fee, _, _) =>
      ReturnIsReturned(row, device, now, condition.Intact?, fee);
      hide AfterReturn, Returned;
    case Cancel(_, _, _, _) =>
      if CancelRow(row, op).Done? {
        CancelIsCancelled(row, op);
      }
      hide AfterCancel, CancelledAt, RefundShare, DepositShare;
    case EndEarly(now) =>
      EndEarlyIsEnded(row, now);
      hide EndedEarly, UnusedRentalRefund, WorkdaysLater;
    case ConfirmLost(now) =>
      LossIsLost(row, device, now);
      hide LostAt, LateFee, LostDeviceDebt;
    case _ =>
  }

  /** A new booking: its price, half the value as deposit, and nothing else yet. */
  ghost predicate IsNew(row: Row, user: int, device: int, startTime: int, endTime: int, d: Device) {
    var b := row.booking;
    && b.user == user && b.device == device && b.startTime == startTime && b.endTime == endTime
    && b.status.Pending? && b.deposit == d.originalPrice / 2.0
    && IsRentalPrice(b.totalPrice, d.pricePerHour, d.pricePerDay, startTime, endTime)
    && b.lateFee == b.damageFee == b.repairFee == b.owed == b.paid == b.refund == b.rentalRefund == 0.0
    && b.refundStatus.NoRefund? && b.refundDueAt.None? && b.suspectedLostAt.None?
    && !b.rentalPaid && !b.contractSigned && !b.handover && !b.openIssue && !b.isDemo
    && row.history == History([], [], [], 0, false)
  }

  lemma NewRowIsNew(user: int, device: int, startTime: int, endTime: int, d: Device)
    requires startTime < endTime
    ensures IsNew(NewRow(user, device, startTime, endTime, d), user, device, startTime, endTime, d)
  {
    RentalPriceIsRentalPrice(d.pricePerHour, d.pricePerDay, startTime, endTime);
    hide RentalPrice, IsRentalPrice;
  }
}

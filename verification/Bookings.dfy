/**
 One booking and the operations that read it, check it and write it back
 (the services under backend/src/bookings and backend/src/payments).
 Each operation is an atomic step on the booking's row.
 */
module Bookings {
  import opened BusinessDays
  import opened BusinessPolicy
  import opened Outcomes

  datatype Status = Pending | Confirmed | Ongoing | Completed | Cancelled | Lost

  datatype RefundStatus = NoRefund | RefundDue | Refunded | NotRefunded

  datatype DeviceStatus = Available | Rented | Broken | Maintenance | LostDevice

  datatype Condition = Intact | Damaged | MissingAccessories

  /** The exceptions of the program, by HTTP status. */
  datatype Refusal = BadRequest | Forbidden | NotFound | Conflict

  datatype Device = Device(
    pricePerHour: real, pricePerDay: real, originalPrice: real,
    status: DeviceStatus, category: int, discontinued: bool)

  datatype Booking = Booking(
    user: int, device: int, startTime: int, endTime: int, status: Status,
    totalPrice: real, deposit: real,
    lateFee: real, damageFee: real, repairFee: real,
    owed: real, paid: real,
    refundStatus: RefundStatus, refund: real, refundDueAt: Option<int>,
    rentalPaid: bool, rentalRefund: real,
    contractSigned: bool, handover: bool, openIssue: bool,
    suspectedLostAt: Option<int>, isDemo: bool)

  /**
   What has happened to a booking outside its own columns: the money that has
   changed hands, how often the device was swapped, and whether the rental was
   ended early because of a device fault.
   */
  datatype History = History(
    depositsTaken: seq<real>, depositsReturned: seq<real>, debtPayments: seq<real>,
    swaps: nat, endedEarly: bool)

  datatype Row = Row(booking: Booking, history: History)

  function NewRow(user: int, device: int, startTime: int, endTime: int, d: Device): Row {
    Row(Booking(user, device, startTime, endTime, Pending,
                RentalPrice(d.pricePerHour, d.pricePerDay, startTime, endTime), Deposit(d.originalPrice),
                0.0, 0.0, 0.0, 0.0, 0.0, NoRefund, 0.0, None, false, 0.0, false, false, false, None, false),
        History([], [], [], 0, false))
  }

  predicate Active(b: Booking) {
    b.status.Pending? || b.status.Confirmed? || b.status.Ongoing?
  }

  // --------------------------------------------------------------- operations

  datatype Op =
    | Confirm
    | PaymentConfirms
    | ExpireIfStillPending
    | SetContractSigned(signed: bool)
    | RecordHandover(photos: nat)
    | RecordRentalPayment
    | Start
    | ConfirmReturn(now: int, condition: Condition, fee: real, described: bool, photos: nat)
    | MarkDepositRefunded
    | Cancel(byOwner: bool, byStaff: bool, storeFault: bool, now: int)
    | ReportIssue(byOwner: bool)
    | EndEarly(now: int)
    | ChargeCustomerFault(repairCost: real)
    | ConfirmLost(now: int)

  /** Confirming is when the shop has the deposit. */
  function AfterConfirm(row: Row): Row {
    var b, h := row.booking, row.history;
    Row(b.(status := Status.Confirmed), h.(depositsTaken := h.depositsTaken + [b.deposit]))
  }

  function AfterReturn(row: Row, device: Device, now: int, damageFee: real): Row {
    var b := row.booking;
    var late := LateFee(now, b.endTime, device.pricePerDay, device.originalPrice);
    var settlement := DepositSettlement(b.deposit, late, damageFee, b.repairFee);
    var refunds := settlement.refundAmount > 0.0;
    row.(booking := b.(
      status := Completed, lateFee := late, damageFee := damageFee, owed := settlement.amountOwed,
      refund := settlement.refundAmount, refundStatus := if refunds then RefundDue else NotRefunded,
      refundDueAt := if refunds then Some(WorkdaysLater(now, DEPOSIT_REFUND_BUSINESS_DAYS)) else None))
  }

  function Return(row: Row, device: Device, op: Op): Outcome<Row, Refusal>
    requires op.ConfirmReturn?
  {
    var damageFee := if op.condition.Intact? then 0.0 else op.fee;
    if !row.booking.status.Ongoing? then Refused(BadRequest)
    else if !op.condition.Intact? && (!op.described || damageFee <= 0.0 || op.photos < RETURN_DAMAGE_MIN_PHOTOS) then
      Refused(BadRequest)
    else if damageFee > device.originalPrice then Refused(BadRequest)
    else Done(AfterReturn(row, device, op.now, damageFee))
  }

  /** A percentage of the deposit. */
  function DepositShare(deposit: real, percentage: real): real {
    deposit * percentage / 100.0
  }

  /** Before the deposit has been taken there is nothing to pay back. */
  function AfterCancel(row: Row, refund: real, now: int): Row {
    var b := row.booking;
    if b.status.Pending? then row.(booking := b.(status := Cancelled))
    else
      row.(booking := b.(
        status := Cancelled, refund := refund,
        refundStatus := if refund > 0.0 then RefundDue else NotRefunded,
        refundDueAt := if refund > 0.0 then Some(WorkdaysLater(now, DEPOSIT_REFUND_BUSINESS_DAYS)) else None))
  }

  function CancelRow(row: Row, op: Op): Outcome<Row, Refusal>
    requires op.Cancel?
  {
    var b := row.booking;
    if !op.byOwner && !op.byStaff then Refused(Forbidden)
    else if b.status.Completed? || b.status.Cancelled? then Refused(BadRequest)
    else if b.status.Ongoing? && !op.byStaff then Refused(Forbidden)
    else
      var hours := (b.startTime - op.now) as real / HOUR_MS as real;
      var percentage := RefundShare(hours, op.storeFault && op.byStaff);
      Done(AfterCancel(row, DepositShare(b.deposit, percentage), op.now))
  }

  function AfterEndEarly(row: Row, now: int): Row {
    var b := row.booking;
    Row(b.(status := Completed, openIssue := false,
           rentalRefund := UnusedRentalRefund(b.totalPrice, b.startTime, b.endTime, now) as real,
           refund := b.deposit, refundStatus := RefundDue,
           refundDueAt := Some(WorkdaysLater(now, DEPOSIT_REFUND_BUSINESS_DAYS))),
        row.history.(endedEarly := true))
  }

  function AfterLoss(row: Row, device: Device, now: int): Row {
    var b := row.booking;
    var late := LateFee(now, b.endTime, device.pricePerDay, device.originalPrice);
    var debt := LostDeviceDebt(device.originalPrice, b.deposit, late);
    row.(booking := b.(status := Lost, lateFee := debt.lateFee, owed := debt.amountOwed,
                       refund := 0.0, refundStatus := NotRefunded))
  }

  /** Reports are resolved only while they are open and the device is out. */
  predicate Resolvable(b: Booking) {
    b.openIssue && b.status.Ongoing?
  }

  function Perform(op: Op, row: Row, device: Device): Outcome<Row, Refusal> {
    var b, h := row.booking, row.history;
    match op
    case Confirm => if b.status.Pending? then Done(AfterConfirm(row)) else Refused(BadRequest)
    case PaymentConfirms => if b.status.Pending? then Done(AfterConfirm(row)) else Done(row)
    case ExpireIfStillPending =>
      if b.status.Pending? then Done(row.(booking := b.(status := Cancelled))) else Done(row)
    case SetContractSigned(signed) => Done(row.(booking := b.(contractSigned := signed)))
    case RecordHandover(photos) =>
      if !b.status.Confirmed? || photos < HANDOVER_MIN_PHOTOS then Refused(BadRequest)
      else Done(row.(booking := b.(handover := true)))
    case RecordRentalPayment =>
      if !b.status.Confirmed? || b.rentalPaid then Refused(BadRequest)
      else Done(row.(booking := b.(rentalPaid := true)))
    case Start =>
      if !b.status.Confirmed? || !b.rentalPaid || !b.contractSigned || !b.handover then Refused(BadRequest)
      else Done(row.(booking := b.(status := Ongoing)))
    case ConfirmReturn(_, _, _, _, _) => Return(row, device, op)
    case MarkDepositRefunded =>
      if !b.refundStatus.RefundDue? then Refused(BadRequest)
      else Done(Row(b.(refundStatus := Refunded), h.(depositsReturned := h.depositsReturned + [b.refund])))
    case Cancel(_, _, _, _) => CancelRow(row, op)
    case ReportIssue(byOwner) =>
      if !byOwner then Refused(Forbidden)
      else if !b.status.Ongoing? then Refused(BadRequest)
      else if b.openIssue then Refused(Conflict)
      else Done(row.(booking := b.(openIssue := true)))
    case EndEarly(now) =>
      if !Resolvable(b) then Refused(BadRequest) else Done(AfterEndEarly(row, now))
    case ChargeCustomerFault(cost) =>
      if !Resolvable(b) || cost <= 0.0 || cost > device.originalPrice then Refused(BadRequest)
      else Done(row.(booking := b.(repairFee := b.repairFee + cost, openIssue := false)))
    case ConfirmLost(now) =>
      if !b.status.Ongoing? || b.suspectedLostAt.None? then Refused(BadRequest)
      else Done(AfterLoss(row, device, now))
  }

  /** What the operation does to the booking's device when it succeeds. */
  function DeviceAfter(op: Op, row: Row, device: Device): Device {
    match op
    case Start => device.(status := Rented)
    case ConfirmReturn(_, condition, _, _, _) =>
      device.(status := if condition.Intact? then Available else Maintenance)
    case Cancel(_, _, _, _) => if row.booking.status.Ongoing? then device.(status := Available) else device
    case EndEarly(_) => device.(status := Maintenance)
    case ConfirmLost(_) => device.(status := LostDevice, discontinued := true)
    case _ => device
  }

  // ------------------------------------------------------------ the row's books

  function Sum(amounts: seq<real>): real {
    if amounts == [] then 0.0 else Sum(amounts[..|amounts| - 1]) + amounts[|amounts| - 1]
  }

  /** The deposit was taken exactly once if the booking was ever confirmed, and is settled once it is closed. */
  predicate DepositTakenOnce(row: Row) {
    var b, taken := row.booking, row.history.depositsTaken;
    match b.status
    case Pending => taken == [] && b.refundStatus.NoRefund?
    case Confirmed => taken == [b.deposit] && b.refundStatus.NoRefund?
    case Ongoing => taken == [b.deposit] && b.refundStatus.NoRefund?
    case Completed => taken == [b.deposit] && !b.refundStatus.NoRefund?
    case Lost => taken == [b.deposit] && b.refundStatus.NotRefunded?
    case Cancelled => if b.refundStatus.NoRefund? then taken == [] else taken == [b.deposit]
  }

  /** The refund is between nothing and the deposit, and has been paid once if at all. */
  predicate DepositReturnedOnce(row: Row) {
    var b, returned := row.booking, row.history.depositsReturned;
    && 0.0 <= b.refund <= b.deposit
    && (b.refundStatus.NoRefund? || b.refundStatus.NotRefunded? ==> b.refund == 0.0)
    && returned == if b.refundStatus.Refunded? then [b.refund] else []
  }

  /** What was paid are the recorded payments, each at least 1000, and never more than is owed. */
  predicate DebtCovered(row: Row) {
    var b, payments := row.booking, row.history.debtPayments;
    && b.paid == Sum(payments) && b.paid <= b.owed
    && (Active(b) ==> b.owed == 0.0 && payments == [])
    && forall p <- payments :: p >= 1000.0
  }

  /** A completed booking is settled: by the settlement formula, or in full if it ended early. */
  predicate SettledWhenCompleted(row: Row) {
    var b := row.booking;
    b.status.Completed? ==>
      if row.history.endedEarly then b.refund == b.deposit && b.owed == 0.0
      else b.deposit + b.owed == b.refund + b.lateFee + b.damageFee + b.repairFee && (b.refund == 0.0 || b.owed == 0.0)
  }

  /** A booking is marked only when it is more than a week overdue, and lost only when it is marked. */
  predicate FlaggedWhenLost(row: Row) {
    var b := row.booking;
    && (b.suspectedLostAt.Some? ==> b.suspectedLostAt.value > b.endTime + LOST_SUSPECT_OVERDUE_DAYS * DAY_MS)
    && (b.status.Lost? ==> b.suspectedLostAt.Some?)
  }

  predicate InOrder(row: Row) {
    && DepositTakenOnce(row) && DepositReturnedOnce(row) && DebtCovered(row)
    && SettledWhenCompleted(row) && FlaggedWhenLost(row)
    && row.booking.repairFee >= 0.0
    && (Active(row.booking) ==> !row.history.endedEarly)
  }

  lemma NewRowInOrder(user: int, device: int, startTime: int, endTime: int, d: Device)
    requires d.originalPrice >= 0.0
    ensures InOrder(NewRow(user, device, startTime, endTime, d))
  {
  }

  lemma ReturnKeepsOrder(op: Op, row: Row, device: Device)
    requires InOrder(row) && op.ConfirmReturn? && Return(row, device, op).Done?
    requires device.originalPrice >= 0.0 && device.pricePerDay >= 0.0
    ensures InOrder(Return(row, device, op).value)
  {
    LateFeeBounds(op.now, op.now, row.booking.endTime, device.pricePerDay, device.originalPrice);
    hide LateFee, WorkdaysLater;
  }

  lemma CancelKeepsOrder(op: Op, row: Row)
    requires InOrder(row) && op.Cancel? && CancelRow(row, op).Done?
    ensures InOrder(CancelRow(row, op).value)
  {
    var hours := (row.booking.startTime - op.now) as real / HOUR_MS as real;
    var percentage := RefundShare(hours, op.storeFault && op.byStaff);
    ShareOfDeposit(row.booking.deposit, percentage);
    hide RefundShare, InOrder, AfterCancel, DepositShare;
    AfterCancelInOrder(row, DepositShare(row.booking.deposit, percentage), op.now);
  }

  lemma AfterCancelInOrder(row: Row, refund: real, now: int)
    requires InOrder(row) && !row.booking.status.Completed? && !row.booking.status.Cancelled?
    requires 0.0 <= refund <= row.booking.deposit
    ensures InOrder(AfterCancel(row, refund, now))
  {
    hide WorkdaysLater;
  }

  lemma ShareOfDeposit(deposit: real, percentage: real)
    requires percentage == 0.0 || percentage == 50.0 || percentage == 100.0
    ensures deposit >= 0.0 ==> 0.0 <= DepositShare(deposit, percentage) <= deposit
  {
  }

  lemma LossKeepsOrder(row: Row, device: Device, now: int)
    requires InOrder(row) && row.booking.status.Ongoing? && row.booking.suspectedLostAt.Some?
    requires device.originalPrice >= 0.0
    ensures InOrder(AfterLoss(row, device, now))
  {
  }

  /** Every operation on a booking keeps its books in order. */
  lemma PerformKeepsOrder(op: Op, row: Row, device: Device)
    requires InOrder(row) && Perform(op, row, device).Done?
    requires device.originalPrice >= 0.0 && device.pricePerDay >= 0.0
    ensures InOrder(Perform(op, row, device).value)
  {
    match op
    case ConfirmReturn(_, _, _, _, _) => ReturnKeepsOrder(op, row, device);
    case Cancel(_, _, _, _) => CancelKeepsOrder(op, row);
    case ConfirmLost(now) => LossKeepsOrder(row, device, now);
    case _ =>
  }
}

/**
 The shop's database and everything that runs on it at the same time.

 Bookings are created and devices swapped in transactions that lock device rows,
 read, check and write in separate steps; debts are collected in transactions
 that lock the booking row; a handover, a return, an early end and a loss write the
 booking and then its device in one transaction; the overdue check marks its
 candidates one by one. These steps interleave freely. All other operations are
 atomic steps.
 Whoever writes a row that a transaction has locked waits for it: an operation
 takes place only when its rows are free, and a swap waits for its booking, and
 then for the device the booking had when the swap read it, which need not be
 one of the two it locked. A transaction may be rolled back at any time, for
 instance to end a deadlock.
 */
module Shop {
  import opened Bookings
  import opened BusinessDays
  import opened BusinessPolicy
  import opened Outcomes

  datatype Task =
    | Create(user: int, device: int, startTime: int, endTime: int)
    | Swap(row: nat, newDevice: int)

  /**
   How far a transaction has come: acquiring locks; for a swap, having read the
   booking again; having read and checked the device; having found the device
   free; for a swap, holding the row of the booking it writes; closed by commit or
   rollback.
   */
  datatype Phase =
    | Acquiring
    | RowSeen(seen: Booking)
    | DeviceSeen(seen: Booking, device: Device)
    | FoundFree(seen: Booking, device: Device)
    | Writing(seen: Booking, device: Device)
    | Closed

  /** `locks` are the device rows the transaction locks, in this order; `held` is how many it has. */
  datatype Transaction = Transaction(task: Task, locks: seq<int>, held: nat, phase: Phase)

  datatype CollectPhase = Waiting | Holding | Approved | Over

  datatype Collection = Collection(row: nat, amount: real, phase: CollectPhase)

  /** Waiting for the row of its booking; having that row and waiting for the device's; committed or rolled back. */
  datatype OperationPhase = Queued | HasBooking | Ended

  datatype Operation = Operation(row: nat, op: Op, phase: OperationPhase)

  /** One run of the overdue check: its time, the candidates still to do, how many it has marked. */
  datatype FlagRun = FlagRun(now: int, candidates: seq<nat>, flagged: nat)

  datatype Shop = Shop(
    rows: seq<Row>, devices: map<int, Device>,
    transactions: seq<Transaction>, collections: seq<Collection>, runs: seq<FlagRun>,
    operations: seq<Operation>)

  datatype Event =
    | Operate(row: nat, op: Op)
    | BeginCreate(user: int, device: int, startTime: int, endTime: int)
    | BeginSwap(row: nat, newDevice: int, photos: nat)
    | Advance(transaction: nat)
    | Abort(transaction: nat)
    | BeginCollect(row: nat, amount: real)
    | AdvanceCollect(collection: nat)
    | BeginOperation(row: nat, op: Op)
    | AdvanceOperation(operation: nat)
    | AbortOperation(operation: nat)
    | BeginFlagRun(now: int)
    | AdvanceFlagRun(run: nat)
    | EditDevice(device: int, status: DeviceStatus, discontinued: bool)

  // ----------------------------------------------------------------- locking

  predicate HoldsDevice(t: Transaction, device: int) {
    !t.phase.Closed? && device in t.locks[..if t.held <= |t.locks| then t.held else |t.locks|]
  }

  predicate DeviceLocked(s: Shop, device: int) {
    exists t <- s.transactions :: HoldsDevice(t, device)
  }

  predicate HoldsRow(c: Collection, row: nat) {
    c.row == row && (c.phase.Holding? || c.phase.Approved?)
  }

  predicate WritesRow(t: Transaction, row: nat) {
    t.phase.Writing? && t.task.Swap? && t.task.row == row
  }

  predicate Collected(s: Shop, row: nat) {
    exists c <- s.collections :: HoldsRow(c, row)
  }

  predicate Written(s: Shop, row: nat) {
    exists t <- s.transactions :: WritesRow(t, row)
  }

  predicate HasRow(o: Operation, row: nat) {
    o.row == row && o.phase.HasBooking?
  }

  predicate OperatedOn(s: Shop, row: nat) {
    exists o <- s.operations :: HasRow(o, row)
  }

  predicate RowLocked(s: Shop, row: nat) {
    Collected(s, row) || Written(s, row) || OperatedOn(s, row)
  }

  // --------------------------------------------------------------- transactions

  predicate Overlaps(b: Booking, startTime: int, endTime: int) {
    b.startTime < endTime && b.endTime > startTime
  }

  /** Does an active booking of the device, other than row `except`, overlap the interval? */
  predicate Taken(rows: seq<Row>, device: int, startTime: int, endTime: int, except: int) {
    exists i | 0 <= i < |rows| ::
      i != except && Active(rows[i].booking) && rows[i].booking.device == device
      && Overlaps(rows[i].booking, startTime, endTime)
  }

  function Target(task: Task): int {
    if task.Create? then task.device else task.newDevice
  }

  function Own(task: Task): int {
    if task.Create? then -1 else task.row
  }

  predicate Rentable(d: Device) {
    !d.discontinued && !d.status.Broken? && !d.status.Maintenance?
  }

  predicate Replaces(current: Device, candidate: Device) {
    && candidate.category == current.category && candidate.status.Available? && !candidate.discontinued
    && IsEquivalentValue(current.originalPrice, candidate.originalPrice)
  }

  /** The booking a creation is about to insert, as far as its interval goes. */
  function Wanted(task: Task, seen: Booking): (int, int) {
    if task.Create? then (task.startTime, task.endTime) else (seen.startTime, seen.endTime)
  }

  function NextPhase(s: Shop, t: Transaction): Phase {
    match t.phase
    case Acquiring =>
      if t.task.Create? then
        if t.task.device in s.devices && Rentable(s.devices[t.task.device]) then
          var d := s.devices[t.task.device];
          DeviceSeen(NewRow(t.task.user, t.task.device, t.task.startTime, t.task.endTime, d).booking, d)
        else Closed
      else if t.task.row < |s.rows| && s.rows[t.task.row].booking.status.Ongoing? then
        RowSeen(s.rows[t.task.row].booking)
      else Closed
    case RowSeen(seen) =>
      if seen.device in s.devices && Target(t.task) in s.devices
         && Replaces(s.devices[seen.device], s.devices[Target(t.task)])
      then DeviceSeen(seen, s.devices[Target(t.task)])
      else Closed
    case DeviceSeen(seen, device) =>
      var (from, to) := Wanted(t.task, seen);
      if Taken(s.rows, Target(t.task), from, to, Own(t.task)) then Closed else FoundFree(seen, device)
    case FoundFree(seen, device) => if t.task.Create? then Closed else Writing(seen, device)
    case Writing(_, _) => Closed
    case Closed => Closed
  }

  function Insert(s: Shop, t: Transaction): seq<Row>
    requires t.phase.FoundFree? && t.task.Create?
  {
    s.rows + [NewRow(t.task.user, t.task.device, t.task.startTime, t.task.endTime, t.phase.device)]
  }

  function Swapped(row: Row, newDevice: int): Row {
    Row(row.booking.(device := newDevice, openIssue := false), row.history.(swaps := row.history.swaps + 1))
  }

  /** Is the transaction's next step its last one? */
  predicate Commits(t: Transaction) {
    if t.task.Create? then t.phase.FoundFree? else t.phase.Writing?
  }

  /** What the last step of a transaction writes. */
  function Commit(s: Shop, t: Transaction): Shop
    requires Commits(t)
  {
    if t.task.Create? then s.(rows := Insert(s, t))
    else if t.task.row < |s.rows| then
      var current, target := t.phase.seen.device, t.task.newDevice;
      s.(rows := s.rows[t.task.row := Swapped(s.rows[t.task.row], target)],
         devices := if current in s.devices && target in s.devices
                    then s.devices[current := s.devices[current].(status := Maintenance)]
                                  [target := s.devices[target].(status := Rented)]
                    else s.devices)
    else s
  }

  /** A swap about to write the device its booking had, while that is locked by someone else. */
  predicate WaitsForOld(s: Shop, t: Transaction) {
    t.phase.Writing? && !HoldsDevice(t, t.phase.seen.device) && DeviceLocked(s, t.phase.seen.device)
  }

  /** A transaction waits for a locked device row, and a swap to write a locked booking or device. */
  predicate MustWait(s: Shop, t: Transaction) {
    || (t.phase.Acquiring? && t.held < |t.locks| && DeviceLocked(s, t.locks[t.held]))
    || (t.phase.FoundFree? && t.task.Swap? && RowLocked(s, t.task.row))
    || WaitsForOld(s, t)
  }

  function AdvanceTransaction(s: Shop, k: nat): Shop
    requires k < |s.transactions|
  {
    var t := s.transactions[k];
    if t.phase.Closed? || MustWait(s, t) then s
    else if t.phase.Acquiring? && t.held < |t.locks| then
      s.(transactions := s.transactions[k := t.(held := t.held + 1)])
    else
      var next := s.(transactions := s.transactions[k := t.(phase := NextPhase(s, t))]);
      if Commits(t) then Commit(next, t) else next
  }

  // ----------------------------------------------------------------- collecting

  function Pay(row: Row, amount: real): Row {
    Row(row.booking.(paid := row.booking.paid + amount),
        row.history.(debtPayments := row.history.debtPayments + [amount]))
  }

  function AdvanceCollection(s: Shop, k: nat): Shop
    requires k < |s.collections|
  {
    var c := s.collections[k];
    var step := (phase: CollectPhase) => s.(collections := s.collections[k := c.(phase := phase)]);
    match c.phase
    case Waiting => if RowLocked(s, c.row) then s else step(Holding)
    case Holding =>
      if c.row >= |s.rows| then step(Over)
      else
        var outstanding := s.rows[c.row].booking.owed - s.rows[c.row].booking.paid;
        step(if outstanding <= 0.0 || c.amount > outstanding then Over else Approved)
    case Approved =>
      if c.row < |s.rows| then step(Over).(rows := s.rows[c.row := Pay(s.rows[c.row], c.amount)]) else step(Over)
    case Over => s
  }

  // ------------------------------------------------------------------ overdue

  predicate IsOverdue(b: Booking, now: int) {
    b.status.Ongoing? && b.suspectedLostAt.None? && b.endTime < now - LOST_SUSPECT_OVERDUE_DAYS * DAY_MS
  }

  function CandidatesFrom(rows: seq<Row>, from: nat, now: int): seq<nat>
    decreases |rows| - from
  {
    if from >= |rows| then []
    else (if IsOverdue(rows[from].booking, now) then [from] else []) + CandidatesFrom(rows, from + 1, now)
  }

  function Mark(row: Row, now: int): Row {
    row.(booking := row.booking.(suspectedLostAt := Some(now)))
  }

  function AdvanceRun(s: Shop, k: nat): Shop
    requires k < |s.runs|
  {
    var run := s.runs[k];
    if run.candidates == [] then s
    else
      var i := run.candidates[0];
      var rest := run.(candidates := run.candidates[1..]);
      if i < |s.rows| && RowLocked(s, i) then s
      else if i < |s.rows| && s.rows[i].booking.suspectedLostAt.None? then
        s.(rows := s.rows[i := Mark(s.rows[i], run.now)], runs := s.runs[k := rest.(flagged := rest.flagged + 1)])
      else s.(runs := s.runs[k := rest])
  }

  // -------------------------------------------------------------------- events

  /** Operations that write the booking and its device in one transaction. */
  predicate WritesBoth(op: Op) {
    op.Start? || op.ConfirmReturn? || op.EndEarly? || op.ConfirmLost?
  }

  /** These, and a cancellation, which writes one after the other. */
  predicate WritesDevice(op: Op, b: Booking) {
    WritesBoth(op) || (op.Cancel? && b.status.Ongoing?)
  }

  /** What an operation on a booking writes, if it does not refuse. */
  function CarriedOut(s: Shop, i: nat, op: Op): Shop {
    if i >= |s.rows| || s.rows[i].booking.device !in s.devices then s
    else
      var row := s.rows[i];
      var d := row.booking.device;
      match Perform(op, row, s.devices[d])
      case Refused(_) => s
      case Done(after) => s.(rows := s.rows[i := after], devices := s.devices[d := DeviceAfter(op, row, s.devices[d])])
  }

  /** An operation waits while a row it writes is locked; the retry is another event. */
  predicate Blocked(s: Shop, i: nat, op: Op)
    requires i < |s.rows|
  {
    RowLocked(s, i) || (WritesDevice(op, s.rows[i].booking) && DeviceLocked(s, s.rows[i].booking.device))
  }

  /** An operation that nothing comes between. */
  function OperateOn(s: Shop, i: nat, op: Op): Shop {
    if i >= |s.rows| || Blocked(s, i, op) then s else CarriedOut(s, i, op)
  }

  /** An operation that has its booking waits for the device. */
  predicate WaitsForDevice(s: Shop, o: Operation) {
    o.phase.HasBooking? && o.row < |s.rows| && DeviceLocked(s, s.rows[o.row].booking.device)
  }

  /** First the row of the booking, then the one of its device, and the operation is carried out. */
  function AdvanceOperationOn(s: Shop, k: nat): Shop
    requires k < |s.operations|
  {
    var o := s.operations[k];
    var step := (phase: OperationPhase) => s.(operations := s.operations[k := o.(phase := phase)]);
    match o.phase
    case Queued => if RowLocked(s, o.row) then s else step(HasBooking)
    case HasBooking => if WaitsForDevice(s, o) then s else CarriedOut(step(Ended), o.row, o.op)
    case Ended => s
  }

  /** Both device rows, in the order in which they are locked. */
  function LockOrder(a: int, b: int): seq<int> {
    if a <= b then [a, b] else [b, a]
  }

  function Begin(s: Shop, t: Transaction): Shop {
    s.(transactions := s.transactions + [t])
  }

  function Apply(s: Shop, e: Event): Shop {
    match e
    case Operate(i, op) => OperateOn(s, i, op)
    case BeginCreate(user, device, startTime, endTime) =>
      if endTime <= startTime then s
      else Begin(s, Transaction(Create(user, device, startTime, endTime), [device], 0, Acquiring))
    case BeginSwap(i, newDevice, photos) =>
      if i >= |s.rows| || !Resolvable(s.rows[i].booking) || newDevice == s.rows[i].booking.device
         || photos < HANDOVER_MIN_PHOTOS
      then s
      else Begin(s, Transaction(Swap(i, newDevice), LockOrder(s.rows[i].booking.device, newDevice), 0, Acquiring))
    case Advance(k) => if k < |s.transactions| then AdvanceTransaction(s, k) else s
    case Abort(k) =>
      if k < |s.transactions| then s.(transactions := s.transactions[k := s.transactions[k].(phase := Closed)]) else s
    case BeginCollect(i, amount) =>
      if amount < 1000.0 then s else s.(collections := s.collections + [Collection(i, amount, Waiting)])
    case AdvanceCollect(k) => if k < |s.collections| then AdvanceCollection(s, k) else s
    case BeginOperation(i, op) =>
      if i < |s.rows| && WritesBoth(op) then s.(operations := s.operations + [Operation(i, op, Queued)]) else s
    case AdvanceOperation(k) => if k < |s.operations| then AdvanceOperationOn(s, k) else s
    case AbortOperation(k) =>
      if k < |s.operations| then s.(operations := s.operations[k := s.operations[k].(phase := Ended)]) else s
    case BeginFlagRun(now) => s.(runs := s.runs + [FlagRun(now, CandidatesFrom(s.rows, 0, now), 0)])
    case AdvanceFlagRun(k) => if k < |s.runs| then AdvanceRun(s, k) else s
    case EditDevice(d, status, discontinued) =>
      if d in s.devices && !DeviceLocked(s, d) then
        s.(devices := s.devices[d := s.devices[d].(status := status, discontinued := discontinued)])
      else s
  }

  function Run(s: Shop, events: seq<Event>): Shop
    decreases |events|
  {
    if events == [] then s else Run(Apply(s, events[0]), events[1..])
  }

  /** A shop with its devices and no bookings yet; prices are not negative. */
  predicate Opening(s: Shop) {
    && s.rows == [] && s.transactions == [] && s.collections == [] && s.runs == [] && s.operations == []
    && PricesOk(s.devices)
  }

  predicate PricesOk(devices: map<int, Device>) {
    forall d <- devices ::
      devices[d].originalPrice >= 0.0 && devices[d].pricePerDay >= 0.0 && devices[d].pricePerHour >= 0.0
  }
}

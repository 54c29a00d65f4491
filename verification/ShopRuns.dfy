/**
 Concrete runs of the shop, piece by piece: renting out a device, swapping it,
 marking the booking and confirming it lost, each with the state it leads to.
 */
module ShopRuns {
  import opened Bookings
  import opened BusinessDays
  import opened BusinessPolicy
  import opened Outcomes
  import opened Shop
  import opened ShopBooks

  // ------------------------------------------------------------ running a swap

  function WithTransaction(s: Shop, k: nat, t: Transaction): Shop
    requires k < |s.transactions|
  {
    s.(transactions := s.transactions[k := t])
  }

  function Advances(k: nat, n: nat): seq<Event>
    decreases n
  {
    if n == 0 then [] else [Advance(k)] + Advances(k, n - 1)
  }

  lemma RunAdvances(s: Shop, k: nat, n: nat, next: Shop)
    requires n > 0 && Apply(s, Advance(k)) == next
    ensures Run(s, Advances(k, n)) == Run(next, Advances(k, n - 1))
  {
    assert Advances(k, n)[1..] == Advances(k, n - 1);
  }

  lemma {:induction false} RunBoth(s: Shop, a: seq<Event>, b: seq<Event>)
    ensures Run(s, a + b) == Run(Run(s, a), b)
    decreases |a|
  {
    if a == [] {
      assert a + b == b;
    } else {
      assert (a + b)[1..] == a[1..] + b;
      RunBoth(Apply(s, a[0]), a[1..], b);
    }
  }

  /** A swap of row `i` can be carried out: nothing of it is locked, and the target is a fit. */
  predicate Feasible(s: Shop, i: nat, target: int) {
    && i < |s.rows| && s.rows[i].booking.status.Ongoing?
    && s.rows[i].booking.device in s.devices && target in s.devices
    && Replaces(s.devices[s.rows[i].booking.device], s.devices[target])
    && !Taken(s.rows, target, s.rows[i].booking.startTime, s.rows[i].booking.endTime, i)
  }

  predicate Begun(s: Shop, k: nat, i: nat, target: int, first: int, second: int) {
    && k < |s.transactions| && first != second
    && s.transactions[k] == Transaction(Swap(i, target), [first, second], 0, Acquiring)
  }

  function AfterCheck(s: Shop, k: nat, i: nat, target: int): Shop
    requires k < |s.transactions| && Feasible(s, i, target)
  {
    var t := s.transactions[k];
    WithTransaction(s, k, t.(held := 2, phase := FoundFree(s.rows[i].booking, s.devices[target])))
  }

  lemma Overwrite(s: Shop, k: nat, t: Transaction, u: Transaction)
    requires k < |s.transactions|
    ensures WithTransaction(WithTransaction(s, k, t), k, u) == WithTransaction(s, k, u)
  {
    assert s.transactions[k := t][k := u] == s.transactions[k := u];
  }

  lemma AcquiresLock(s: Shop, k: nat)
    requires k < |s.transactions|
    requires s.transactions[k].phase.Acquiring? && s.transactions[k].held < |s.transactions[k].locks|
    requires !DeviceLocked(s, s.transactions[k].locks[s.transactions[k].held])
    ensures var t := s.transactions[k];
      var next := WithTransaction(s, k, t.(held := t.held + 1));
      && Apply(s, Advance(k)) == next
      && forall d :: DeviceLocked(next, d) ==> DeviceLocked(s, d) || d == t.locks[t.held]
  {
    var t := s.transactions[k];
    var u := t.(held := t.held + 1);
    var next := WithTransaction(s, k, u);
    assert t.locks[..t.held + 1] == t.locks[..t.held] + [t.locks[t.held]];
    forall d | DeviceLocked(next, d)
      ensures DeviceLocked(s, d) || d == t.locks[t.held]
    {
      var v :| v in next.transactions && HoldsDevice(v, d);
      if v in s.transactions {
        assert DeviceLocked(s, d);
      } else {
        assert v == u && t in s.transactions;
        assert HoldsDevice(t, d) || d == t.locks[t.held];
      }
    }
  }

  /** A step that neither acquires a device nor commits. */
  lemma ChecksNext(s: Shop, k: nat)
    requires k < |s.transactions| && !s.transactions[k].phase.Closed? && !s.transactions[k].phase.Writing?
    requires s.transactions[k].phase.FoundFree? ==>
      s.transactions[k].task.Swap? && !RowLocked(s, s.transactions[k].task.row)
    requires s.transactions[k].held == |s.transactions[k].locks|
    ensures Apply(s, Advance(k)) == WithTransaction(s, k, s.transactions[k].(phase := NextPhase(s, s.transactions[k])))
  {
    hide NextPhase;
  }

  lemma AcquiresBoth(s: Shop, k: nat, i: nat, target: int, first: int, second: int, n: nat)
    requires Begun(s, k, i, target, first, second) && n >= 2
    requires !DeviceLocked(s, first) && !DeviceLocked(s, second)
    ensures Run(s, Advances(k, n)) == Run(WithTransaction(s, k, s.transactions[k].(held := 2)), Advances(k, n - 2))
  {
    var t := s.transactions[k];
    AcquiresLock(s, k);
    var one := WithTransaction(s, k, t.(held := 1));
    AcquiresLock(one, k);
    Overwrite(s, k, t.(held := 1), t.(held := 2));
    hide Apply, DeviceLocked, WithTransaction;
    RunAdvances(s, k, n, one);
    RunAdvances(one, k, n - 1, WithTransaction(s, k, t.(held := 2)));
  }

  lemma ReadsAll(s: Shop, k: nat, i: nat, target: int, locks: seq<int>, n: nat)
    requires k < |s.transactions| && s.transactions[k] == Transaction(Swap(i, target), locks, |locks|, Acquiring)
    requires Feasible(s, i, target) && n >= 3
    ensures Run(s, Advances(k, n))
         == Run(WithTransaction(s, k, s.transactions[k].(phase := FoundFree(s.rows[i].booking, s.devices[target]))),
                Advances(k, n - 3))
  {
    var t, b, d := s.transactions[k], s.rows[i].booking, s.devices[target];
    var read := t.(phase := RowSeen(b));
    var seen := t.(phase := DeviceSeen(b, d));
    var free := t.(phase := FoundFree(b, d));
    ChecksNext(s, k);
    assert NextPhase(s, t) == RowSeen(b);
    var s1 := WithTransaction(s, k, read);
    ChecksNext(s1, k);
    assert NextPhase(s1, read) == DeviceSeen(b, d);
    Overwrite(s, k, read, seen);
    var s2 := WithTransaction(s, k, seen);
    ChecksNext(s2, k);
    assert NextPhase(s2, seen) == FoundFree(b, d);
    Overwrite(s, k, seen, free);
    hide Apply, NextPhase, WithTransaction;
    RunAdvances(s, k, n, s1);
    RunAdvances(s1, k, n - 1, s2);
    RunAdvances(s2, k, n - 2, WithTransaction(s, k, free));
  }

  /** From its beginning to its check in five steps. */
  lemma SwapChecks(s: Shop, k: nat, i: nat, target: int, first: int, second: int, n: nat)
    requires Begun(s, k, i, target, first, second) && Feasible(s, i, target) && n >= 5
    requires !DeviceLocked(s, first) && !DeviceLocked(s, second)
    ensures Run(s, Advances(k, n)) == Run(AfterCheck(s, k, i, target), Advances(k, n - 5))
  {
    var t := s.transactions[k];
    AcquiresBoth(s, k, i, target, first, second, n);
    var held := t.(held := 2);
    ReadsAll(WithTransaction(s, k, held), k, i, target, [first, second], n - 2);
    Overwrite(s, k, held, held.(phase := FoundFree(s.rows[i].booking, s.devices[target])));
  }

  function AfterSwap(s: Shop, k: nat, i: nat, target: int): Shop
    requires k < |s.transactions| && Feasible(s, i, target)
  {
    var current := s.rows[i].booking.device;
    var t := s.transactions[k];
    WithTransaction(s, k, t.(held := 2, phase := Closed)).(
      rows := s.rows[i := Swapped(s.rows[i], target)],
      devices := s.devices[current := s.devices[current].(status := Maintenance)]
                          [target := s.devices[target].(status := Rented)])
  }

  /** A transaction that does not write a booking leaves booking rows as free as they were. */
  lemma RowsStayFree(s: Shop, next: Shop, k: nat, t: Transaction)
    requires k < |s.transactions| && !t.phase.Writing?
    requires next.transactions == s.transactions[k := t]
    requires next.collections == s.collections && next.operations == s.operations
    ensures forall row: nat :: !RowLocked(s, row) ==> !RowLocked(next, row)
  {
    forall u <- next.transactions, row: nat | WritesRow(u, row)
      ensures u in s.transactions
    {
    }
  }

  /** A swap that has found its target free takes the booking's row. */
  lemma TakesRow(s: Shop, k: nat)
    requires k < |s.transactions| && s.transactions[k].phase.FoundFree? && s.transactions[k].task.Swap?
    requires !RowLocked(s, s.transactions[k].task.row)
    ensures var t := s.transactions[k];
      Apply(s, Advance(k)) == WithTransaction(s, k, t.(phase := Writing(t.phase.seen, t.phase.device)))
  {
  }

  /** A swap of a device that it has locked, or that nobody has, commits. */
  lemma Writes(s: Shop, k: nat, i: nat, target: int)
    requires Feasible(s, i, target) && k < |s.transactions| && s.transactions[k].task == Swap(i, target)
    requires s.transactions[k].held == 2
    requires s.transactions[k].phase == Writing(s.rows[i].booking, s.devices[target])
    requires HoldsDevice(s.transactions[k], s.rows[i].booking.device) || !DeviceLocked(s, s.rows[i].booking.device)
    ensures Apply(s, Advance(k)) == AfterSwap(s, k, i, target)
  {
    hide HoldsDevice, DeviceLocked, RowLocked, Replaces, Taken;
  }

  /** From its beginning to its commit in seven steps. */
  lemma SwapCompletes(s: Shop, k: nat, i: nat, target: int, first: int, second: int)
    requires Begun(s, k, i, target, first, second) && Feasible(s, i, target)
    requires !DeviceLocked(s, first) && !DeviceLocked(s, second) && !RowLocked(s, i)
    requires s.rows[i].booking.device == first || s.rows[i].booking.device == second
    ensures Run(s, Advances(k, 7)) == AfterSwap(s, k, i, target)
  {
    SwapChecks(s, k, i, target, first, second, 7);
    var checked := AfterCheck(s, k, i, target);
    var t := checked.transactions[k];
    RowsStayFree(s, checked, k, t);
    TakesRow(checked, k);
    var u := t.(phase := Writing(t.phase.seen, t.phase.device));
    var writing := WithTransaction(checked, k, u);
    Overwrite(s, k, t, u);
    assert writing == WithTransaction(s, k, u);
    assert HoldsDevice(u, s.rows[i].booking.device);
    Writes(writing, k, i, target);
    Overwrite(s, k, u, u.(phase := Closed));
    hide Apply, AfterCheck, Feasible;
    RunAdvances(checked, k, 2, writing);
    RunAdvances(writing, k, 1, AfterSwap(s, k, i, target));
    assert Advances(k, 0) == [];
  }

  // --------------------------------------------------------------- a quiet shop

  /** No transaction is open, no debt is being collected and no operation under way. */
  predicate Idle(s: Shop) {
    (forall t <- s.transactions :: t.phase.Closed?) && s.collections == [] && s.operations == []
  }

  lemma NothingLocked(s: Shop)
    requires forall t <- s.transactions :: t.phase.Closed? || t.held == 0
    ensures forall d :: !DeviceLocked(s, d)
    ensures s.collections == [] && s.operations == [] && (forall t <- s.transactions :: !t.phase.Writing?) ==>
      forall row: nat :: !RowLocked(s, row)
  {
  }

  /** An operation that succeeds, in a quiet shop. */
  lemma Operates(s: Shop, i: nat, op: Op, after: Row)
    requires Idle(s) && i < |s.rows| && s.rows[i].booking.device in s.devices
    requires Perform(op, s.rows[i], s.devices[s.rows[i].booking.device]) == Done(after)
    ensures var d := s.rows[i].booking.device;
      Apply(s, Operate(i, op))
      == s.(rows := s.rows[i := after], devices := s.devices[d := DeviceAfter(op, s.rows[i], s.devices[d])])
  {
    NothingLocked(s);
    hide Perform, DeviceAfter;
  }

  lemma Chain(s: Shop, e: Event, rest: seq<Event>, next: Shop)
    requires Apply(s, e) == next
    ensures Run(s, [e] + rest) == Run(next, rest)
  {
    assert ([e] + rest)[1..] == rest;
  }

  // ------------------------------------------------------------------- renting

  function CreateEvents(k: nat, user: int, device: int, startTime: int, endTime: int): seq<Event> {
    [BeginCreate(user, device, startTime, endTime)] + Advances(k, 4)
  }

  function Created(s: Shop, user: int, device: int, startTime: int, endTime: int): Shop
    requires device in s.devices
  {
    s.(rows := s.rows + [NewRow(user, device, startTime, endTime, s.devices[device])],
       transactions := s.transactions + [Transaction(Create(user, device, startTime, endTime), [device], 1, Closed)])
  }

  function CreateBegun(s: Shop, user: int, device: int, startTime: int, endTime: int): Shop {
    Begin(s, Transaction(Create(user, device, startTime, endTime), [device], 0, Acquiring))
  }

  /** The transaction of a creation that has found the device free. */
  function CreateFree(s: Shop, user: int, device: int, startTime: int, endTime: int): Transaction
    requires device in s.devices
  {
    Transaction(Create(user, device, startTime, endTime), [device], 1,
                FoundFree(NewRow(user, device, startTime, endTime, s.devices[device]).booking, s.devices[device]))
  }

  lemma CreateChecks(s: Shop, user: int, device: int, startTime: int, endTime: int)
    requires Idle(s) && device in s.devices && Rentable(s.devices[device])
    requires !Taken(s.rows, device, startTime, endTime, -1)
    ensures var k, begun := |s.transactions|, CreateBegun(s, user, device, startTime, endTime);
      Run(begun, Advances(k, 4))
      == Run(WithTransaction(begun, k, CreateFree(s, user, device, startTime, endTime)), Advances(k, 1))
  {
    var k, begun := |s.transactions|, CreateBegun(s, user, device, startTime, endTime);
    NothingLocked(begun);
    AcquiresLock(begun, k);
    var free := CreateFree(s, user, device, startTime, endTime);
    var t := free.(phase := Acquiring);
    var seen := free.(phase := DeviceSeen(free.phase.seen, free.phase.device));
    var s1 := WithTransaction(begun, k, t);
    ChecksNext(s1, k);
    assert NextPhase(s1, t) == seen.phase;
    Overwrite(begun, k, t, seen);
    var s2 := WithTransaction(begun, k, seen);
    ChecksNext(s2, k);
    assert NextPhase(s2, seen) == free.phase;
    Overwrite(begun, k, seen, free);
    hide Apply, WithTransaction, CreateBegun, CreateFree, NextPhase;
    RunAdvances(begun, k, 4, s1);
    RunAdvances(s1, k, 3, s2);
    RunAdvances(s2, k, 2, WithTransaction(begun, k, free));
  }

  lemma CreateCommits(s: Shop, user: int, device: int, startTime: int, endTime: int)
    requires device in s.devices
    ensures var k, begun := |s.transactions|, CreateBegun(s, user, device, startTime, endTime);
      Apply(WithTransaction(begun, k, CreateFree(s, user, device, startTime, endTime)), Advance(k))
      == Created(s, user, device, startTime, endTime)
  {
    var k, begun := |s.transactions|, CreateBegun(s, user, device, startTime, endTime);
    var free := CreateFree(s, user, device, startTime, endTime);
    var after := Apply(WithTransaction(begun, k, free), Advance(k));
    assert after.transactions == begun.transactions[k := free][k := free.(phase := Closed)];
    assert after.transactions == Created(s, user, device, startTime, endTime).transactions;
  }

  lemma Creates(s: Shop, user: int, device: int, startTime: int, endTime: int)
    requires Idle(s) && device in s.devices && Rentable(s.devices[device]) && startTime < endTime
    requires !Taken(s.rows, device, startTime, endTime, -1)
    ensures Run(s, CreateEvents(|s.transactions|, user, device, startTime, endTime))
         == Created(s, user, device, startTime, endTime)
  {
    var k, begun := |s.transactions|, CreateBegun(s, user, device, startTime, endTime);
    var free := WithTransaction(begun, k, CreateFree(s, user, device, startTime, endTime));
    assert Apply(s, BeginCreate(user, device, startTime, endTime)) == begun;
    CreateChecks(s, user, device, startTime, endTime);
    CreateCommits(s, user, device, startTime, endTime);
    assert Advances(k, 0) == [];
    hide Apply, WithTransaction, Created, CreateBegun, CreateFree, Advances;
    Chain(s, BeginCreate(user, device, startTime, endTime), Advances(k, 4), begun);
    RunAdvances(free, k, 1, Created(s, user, device, startTime, endTime));
  }

  /** The deposit is paid, the rental is paid, the contract signed, the handover recorded, the device handed over. */
  function PrepareEvents(i: nat): seq<Event> {
    [Operate(i, PaymentConfirms)] + ([Operate(i, RecordRentalPayment)] + ([Operate(i, SetContractSigned(true))]
    + ([Operate(i, RecordHandover(HANDOVER_MIN_PHOTOS))] + ([Operate(i, Start)] + []))))
  }

  function Prepared(row: Row): Row {
    Row(row.booking.(status := Ongoing, rentalPaid := true, contractSigned := true, handover := true),
        row.history.(depositsTaken := row.history.depositsTaken + [row.booking.deposit]))
  }

  function HandedOver(s: Shop, i: nat): Shop
    requires i < |s.rows| && s.rows[i].booking.device in s.devices
  {
    var d := s.rows[i].booking.device;
    s.(rows := s.rows[i := Prepared(s.rows[i])], devices := s.devices[d := s.devices[d].(status := Rented)])
  }

  lemma OperatesQuietly(s: Shop, i: nat, op: Op, after: Row)
    requires Idle(s) && i < |s.rows| && s.rows[i].booking.device in s.devices
    requires Perform(op, s.rows[i], s.devices[s.rows[i].booking.device]) == Done(after)
    requires !op.Start? && !op.ConfirmReturn? && !op.Cancel? && !op.EndEarly? && !op.ConfirmLost?
    ensures Apply(s, Operate(i, op)) == s.(rows := s.rows[i := after])
  {
    Operates(s, i, op, after);
    var d := s.rows[i].booking.device;
    assert s.devices[d := s.devices[d]] == s.devices;
    hide Perform;
  }

  lemma OperatesOn(s: Shop, i: nat, before: Row, op: Op, after: Row, rest: seq<Event>)
    requires Idle(s) && i < |s.rows| && before.booking.device in s.devices
    requires Perform(op, before, s.devices[before.booking.device]) == Done(after)
    requires !op.Start? && !op.ConfirmReturn? && !op.Cancel? && !op.EndEarly? && !op.ConfirmLost?
    ensures Run(s.(rows := s.rows[i := before]), [Operate(i, op)] + rest) == Run(s.(rows := s.rows[i := after]), rest)
  {
    var t := s.(rows := s.rows[i := before]);
    OperatesQuietly(t, i, op, after);
    assert t.rows[i := after] == s.rows[i := after];
    hide Apply, Perform;
    Chain(t, Operate(i, op), rest, s.(rows := s.rows[i := after]));
  }

  lemma StartsQuietly(s: Shop, i: nat, before: Row)
    requires Idle(s) && i < |s.rows| && before.booking.device in s.devices
    requires Perform(Start, before, s.devices[before.booking.device]).Done?
    ensures var d := before.booking.device;
      Run(s.(rows := s.rows[i := before]), [Operate(i, Start)] + [])
      == s.(rows := s.rows[i := before.(booking := before.booking.(status := Ongoing))],
            devices := s.devices[d := s.devices[d].(status := Rented)])
  {
    var t, after := s.(rows := s.rows[i := before]), before.(booking := before.booking.(status := Ongoing));
    Operates(t, i, Start, after);
    assert t.rows[i := after] == s.rows[i := after];
    var next := Apply(t, Operate(i, Start));
    assert Run(next, []) == next;
    Chain(t, Operate(i, Start), [], next);
  }

  lemma Prepares(s: Shop, i: nat)
    requires Idle(s) && i < |s.rows| && s.rows[i].booking.device in s.devices
    requires var b := s.rows[i].booking; b.status.Pending? && !b.rentalPaid
    ensures Run(s, PrepareEvents(i)) == HandedOver(s, i)
  {
    var row, d := s.rows[i], s.devices[s.rows[i].booking.device];
    var r1 := AfterConfirm(row);
    var r2 := r1.(booking := r1.booking.(rentalPaid := true));
    var r3 := r2.(booking := r2.booking.(contractSigned := true));
    var r4 := r3.(booking := r3.booking.(handover := true));
    assert Perform(PaymentConfirms, row, d) == Done(r1) && Perform(RecordRentalPayment, r1, d) == Done(r2);
    assert Perform(SetContractSigned(true), r2, d) == Done(r3);
    assert Perform(RecordHandover(HANDOVER_MIN_PHOTOS), r3, d) == Done(r4) && Perform(Start, r4, d).Done?;
    assert r4.(booking := r4.booking.(status := Ongoing)) == Prepared(row);
    assert s.rows[i := row] == s.rows && r1.booking.device == r2.booking.device == r3.booking.device == r4.booking.device;
    hide Apply, Run, Perform, AfterConfirm;
    OperatesOn(s, i, row, PaymentConfirms, r1,
               [Operate(i, RecordRentalPayment)] + ([Operate(i, SetContractSigned(true))]
               + ([Operate(i, RecordHandover(HANDOVER_MIN_PHOTOS))] + ([Operate(i, Start)] + []))));
    OperatesOn(s, i, r1, RecordRentalPayment, r2,
               [Operate(i, SetContractSigned(true))]
               + ([Operate(i, RecordHandover(HANDOVER_MIN_PHOTOS))] + ([Operate(i, Start)] + [])));
    OperatesOn(s, i, r2, SetContractSigned(true), r3,
               [Operate(i, RecordHandover(HANDOVER_MIN_PHOTOS))] + ([Operate(i, Start)] + []));
    OperatesOn(s, i, r3, RecordHandover(HANDOVER_MIN_PHOTOS), r4, [Operate(i, Start)] + []);
    StartsQuietly(s, i, r4);
  }

  /** The first booking of a shop, from its creation to the handover. */
  function RentEvents(user: int, device: int, startTime: int, endTime: int): seq<Event> {
    CreateEvents(0, user, device, startTime, endTime) + PrepareEvents(0)
  }

  function RentedRow(s: Shop, user: int, device: int, startTime: int, endTime: int): Row
    requires device in s.devices
  {
    Prepared(NewRow(user, device, startTime, endTime, s.devices[device]))
  }

  lemma Rents(s: Shop, user: int, device: int, startTime: int, endTime: int)
    requires Opening(s) && device in s.devices && Rentable(s.devices[device]) && startTime < endTime
    ensures var t := Run(s, RentEvents(user, device, startTime, endTime));
      && Idle(t) && |t.transactions| == 1 && t.runs == []
      && t.rows == [RentedRow(s, user, device, startTime, endTime)]
      && t.devices == s.devices[device := s.devices[device].(status := Rented)]
  {
    Creates(s, user, device, startTime, endTime);
    var created := Created(s, user, device, startTime, endTime);
    assert created.rows == [NewRow(user, device, startTime, endTime, s.devices[device])];
    assert created.transactions == [Transaction(Create(user, device, startTime, endTime), [device], 1, Closed)];
    RunBoth(s, CreateEvents(0, user, device, startTime, endTime), PrepareEvents(0));
    Prepares(created, 0);
    hide Run;
  }

  // ------------------------------------------------------ reports, marks, losses

  lemma Reports(s: Shop, i: nat)
    requires Idle(s) && i < |s.rows| && s.rows[i].booking.device in s.devices
    requires s.rows[i].booking.status.Ongoing? && !s.rows[i].booking.openIssue
    ensures Apply(s, Operate(i, ReportIssue(true)))
         == s.(rows := s.rows[i := s.rows[i].(booking := s.rows[i].booking.(openIssue := true))])
  {
    OperatesQuietly(s, i, ReportIssue(true), s.rows[i].(booking := s.rows[i].booking.(openIssue := true)));
  }

  function MarkEvents(now: int): seq<Event> {
    [BeginFlagRun(now)] + ([AdvanceFlagRun(0)] + [])
  }

  /** The first overdue check of a shop with one booking. */
  lemma Marks(s: Shop, now: int)
    requires Idle(s) && s.runs == [] && |s.rows| == 1 && IsOverdue(s.rows[0].booking, now)
    ensures Run(s, MarkEvents(now)) == s.(rows := [Mark(s.rows[0], now)], runs := [FlagRun(now, [], 1)])
  {
    assert CandidatesFrom(s.rows, 1, now) == [];
    assert CandidatesFrom(s.rows, 0, now) == [0];
    var begun := s.(runs := [FlagRun(now, [0], 0)]);
    assert Apply(s, BeginFlagRun(now)) == begun;
    NothingLocked(begun);
    var marked := s.(rows := [Mark(s.rows[0], now)], runs := [FlagRun(now, [], 1)]);
    assert begun.rows[0 := Mark(s.rows[0], now)] == marked.rows;
    assert Apply(begun, AdvanceFlagRun(0)) == marked;
    hide Apply;
    Chain(s, BeginFlagRun(now), [AdvanceFlagRun(0)] + [], begun);
    Chain(begun, AdvanceFlagRun(0), [], marked);
  }

  function SwapEvents(k: nat, i: nat, target: int): seq<Event> {
    [Operate(i, ReportIssue(true))] + ([BeginSwap(i, target, HANDOVER_MIN_PHOTOS)] + Advances(k, 7))
  }

  /** The fault is reported, and a swap to `target` begun. */
  function SwapBegun(s: Shop, i: nat, target: int): Shop
    requires i < |s.rows|
  {
    var row := s.rows[i].(booking := s.rows[i].booking.(openIssue := true));
    Begin(s.(rows := s.rows[i := row]),
          Transaction(Swap(i, target), LockOrder(s.rows[i].booking.device, target), 0, Acquiring))
  }

  lemma ReportsAndBegins(s: Shop, i: nat, target: int)
    requires Idle(s) && Feasible(s, i, target) && target != s.rows[i].booking.device && !s.rows[i].booking.openIssue
    ensures var begun, k := SwapBegun(s, i, target), |s.transactions|;
      && Run(s, SwapEvents(k, i, target)) == Run(begun, Advances(k, 7)) && Feasible(begun, i, target)
      && (forall d :: !DeviceLocked(begun, d)) && !RowLocked(begun, i)
  {
    var k, begun := |s.transactions|, SwapBegun(s, i, target);
    var row := s.rows[i].(booking := s.rows[i].booking.(openIssue := true));
    var reported := s.(rows := s.rows[i := row]);
    Reports(s, i);
    assert Apply(reported, BeginSwap(i, target, HANDOVER_MIN_PHOTOS)) == begun;
    NothingLocked(begun);
    ReportKeepsFeasible(s, i, target, row, begun);
    hide Apply, Feasible, SwapBegun, DeviceLocked, RowLocked;
    Chain(s, Operate(i, ReportIssue(true)), [BeginSwap(i, target, HANDOVER_MIN_PHOTOS)] + Advances(k, 7), reported);
    Chain(reported, BeginSwap(i, target, HANDOVER_MIN_PHOTOS), Advances(k, 7), begun);
  }

  /** A reported fault and a complete swap. */
  lemma Swaps(s: Shop, i: nat, target: int)
    requires Idle(s) && Feasible(s, i, target) && target != s.rows[i].booking.device && !s.rows[i].booking.openIssue
    ensures var current := s.rows[i].booking.device;
      var t := Run(s, SwapEvents(|s.transactions|, i, target));
      && Idle(t) && |t.transactions| == |s.transactions| + 1 && t.runs == s.runs
      && t.rows == s.rows[i := Swapped(s.rows[i], target)]
      && t.devices == s.devices[current := s.devices[current].(status := Maintenance)]
                               [target := s.devices[target].(status := Rented)]
  {
    var k, begun, locks := |s.transactions|, SwapBegun(s, i, target), LockOrder(s.rows[i].booking.device, target);
    ReportsAndBegins(s, i, target);
    SwapLeaves(s, i, target);
    assert Begun(begun, k, i, target, locks[0], locks[1]) && begun.rows[i].booking.device in locks;
    hide Run, Feasible, DeviceLocked, RowLocked, SwapBegun, AfterSwap, Begun, Idle, SwapEvents;
    SwapCompletes(begun, k, i, target, locks[0], locks[1]);
  }

  lemma SwapLeaves(s: Shop, i: nat, target: int)
    requires Idle(s) && i < |s.rows| && Feasible(SwapBegun(s, i, target), i, target)
    ensures var current := s.rows[i].booking.device;
      var t := AfterSwap(SwapBegun(s, i, target), |s.transactions|, i, target);
      && Idle(t) && |t.transactions| == |s.transactions| + 1 && t.runs == s.runs && current in s.devices && target in s.devices
      && t.rows == s.rows[i := Swapped(s.rows[i], target)]
      && t.devices == s.devices[current := s.devices[current].(status := Maintenance)]
                               [target := s.devices[target].(status := Rented)]
  {
    var begun := SwapBegun(s, i, target);
    assert begun.rows[i := Swapped(begun.rows[i], target)] == s.rows[i := Swapped(s.rows[i], target)];
    hide Replaces, Taken;
  }

  lemma ReportKeepsFeasible(s: Shop, i: nat, target: int, row: Row, after: Shop)
    requires Feasible(s, i, target) && row == s.rows[i].(booking := s.rows[i].booking.(openIssue := true))
    requires after.rows == s.rows[i := row] && after.devices == s.devices
    ensures Feasible(after, i, target)
  {
    assert forall j | 0 <= j < |s.rows| && j != i :: after.rows[j] == s.rows[j];
  }
}

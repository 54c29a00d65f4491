/**
 Can the transactions block one another for good? A swap locks two device rows in
 ascending order, but one of them is the device its booking had when the fault was
 looked at. If the booking has been moved meanwhile, the swap reads a device that
 it has not locked, and has to wait for it at the end. And an operation that writes
 a booking and its device locks them the other way round. As long as neither comes
 up there is always someone who can go on, and everyone can run to their end.
 `ShopDeadlock` shows what happens otherwise.
 */
module ShopProgress {
  import opened Bookings
  import opened Outcomes
  import opened Shop
  import opened ShopBooks

  predicate Ascending(locks: seq<int>) {
    forall i, j | 0 <= i < j < |locks| :: locks[i] < locks[j]
  }

  predicate LocksOk(t: Transaction) {
    && Ascending(t.locks) && t.held <= |t.locks|
    && (t.phase.Acquiring? || t.phase.Closed? || t.held == |t.locks|)
    && (t.phase.Writing? ==> t.task.Swap?)
  }

  predicate LocksInOrder(s: Shop) {
    forall t <- s.transactions :: LocksOk(t)
  }

  /** Other events do no more to transactions than begin one. */
  lemma OnlyBegins(s: Shop, e: Event)
    requires !(e.Advance? && e.transaction < |s.transactions|) && !(e.Abort? && e.transaction < |s.transactions|)
    ensures forall t <- Apply(s, e).transactions :: t in s.transactions || (t.phase.Acquiring? && LocksOk(t))
    ensures s.transactions <= Apply(s, e).transactions
  {
    hide Perform, DeviceAfter, Blocked, RowLocked, DeviceLocked, CandidatesFrom;
  }

  lemma ApplyKeepsLockOrder(s: Shop, e: Event)
    requires LocksInOrder(s)
    ensures LocksInOrder(Apply(s, e))
  {
    hide Perform, DeviceAfter, Rentable, Replaces, Taken, MustWait, Blocked, RowLocked, DeviceLocked, CandidatesFrom;
    var after := Apply(s, e);
    if e.Advance? && e.transaction < |s.transactions| {
      assert after.transactions == s.transactions[e.transaction := after.transactions[e.transaction]];
      assert LocksOk(s.transactions[e.transaction]) && LocksOk(after.transactions[e.transaction]);
    } else if e.Abort? && e.transaction < |s.transactions| {
      assert LocksOk(s.transactions[e.transaction]);
    } else {
      OnlyBegins(s, e);
      hide Apply;
      assert LocksInOrder(after);
    }
  }

  lemma {:induction false} RunKeepsLockOrder(s: Shop, events: seq<Event>)
    requires LocksInOrder(s)
    ensures LocksInOrder(Run(s, events))
    decreases |events|
  {
    if events != [] {
      ApplyKeepsLockOrder(s, events[0]);
      RunKeepsLockOrder(Apply(s, events[0]), events[1..]);
    }
  }

  // ------------------------------------------------------------- stale reading

  /** The swap has read its booking, and has not ended. */
  predicate HasRead(t: Transaction) {
    t.task.Swap? && !t.phase.Acquiring? && !t.phase.Closed?
  }

  /** Every swap holds the device that it has read its booking to have. */
  predicate ReadsLocked(s: Shop) {
    forall t <- s.transactions | HasRead(t) :: t.phase.seen.device in t.locks
  }

  /** Does a swap with all its locks now read a booking with a device that is not one of them? */
  predicate StaleRead(s: Shop, e: Event) {
    && e.Advance? && e.transaction < |s.transactions|
    && var t := s.transactions[e.transaction];
       && t.task.Swap? && t.phase.Acquiring? && t.held == |t.locks|
       && t.task.row < |s.rows| && s.rows[t.task.row].booking.status.Ongoing?
       && s.rows[t.task.row].booking.device !in t.locks
  }

  /** Only a stale reading makes a swap depend on a device that it does not hold. */
  lemma ReadsLockedExactly(s: Shop, e: Event)
    requires LocksInOrder(s) && ReadsLocked(s)
    ensures ReadsLocked(Apply(s, e)) <==> !StaleRead(s, e)
  {
    hide Perform, DeviceAfter, Rentable, Replaces, Taken, Blocked, RowLocked, DeviceLocked, CandidatesFrom;
    var after := Apply(s, e);
    if e.Advance? && e.transaction < |s.transactions| {
      var k := e.transaction;
      var t := s.transactions[k];
      assert t in s.transactions && after.transactions[k] in after.transactions;
      assert after.transactions == s.transactions[k := after.transactions[k]];
      if StaleRead(s, e) {
        assert after.transactions[k].phase == RowSeen(s.rows[t.task.row].booking);
      }
    } else if e.Abort? && e.transaction < |s.transactions| {
      assert forall t <- after.transactions :: t.phase.Closed? || t in s.transactions;
    } else {
      OnlyBegins(s, e);
      hide Apply;
    }
  }

  // --------------------------------------------------- crossing with operations

  predicate SwapsRow(t: Transaction, row: nat) {
    t.task.Swap? && !t.phase.Closed? && t.task.row == row
  }

  /** No operation has the booking of an open swap. */
  predicate BookingsApart(s: Shop) {
    forall o <- s.operations, t <- s.transactions :: !(HasRow(o, o.row) && SwapsRow(t, o.row))
  }

  /** An operation takes the booking of an open swap, or a swap begins whose booking an operation has. */
  predicate Crosses(s: Shop, e: Event) {
    || (e.AdvanceOperation? && e.operation < |s.operations|
        && var o := s.operations[e.operation];
           o.phase.Queued? && !RowLocked(s, o.row) && exists t <- s.transactions :: SwapsRow(t, o.row))
    || (e.BeginSwap? && Apply(s, e) != s && OperatedOn(s, e.row))
  }

  lemma BookingsApartExactly(s: Shop, e: Event)
    requires BookingsApart(s)
    ensures BookingsApart(Apply(s, e)) <==> !Crosses(s, e)
  {
    match e
    case Advance(k) =>
      if k < |s.transactions| {
        TransactionKeepsApart(s, e, k);
      }
    case Abort(k) =>
      if k < |s.transactions| {
        TransactionKeepsApart(s, e, k);
      }
    case AdvanceOperation(k) =>
      if k < |s.operations| {
        OperationKeepsApart(s, k);
      }
    case AbortOperation(k) =>
      if k < |s.operations| {
        var after := Apply(s, e);
        assert forall o <- after.operations :: o.phase.Ended? || o in s.operations;
      }
    case BeginSwap(i, newDevice, _) => BeginKeepsApart(s, e);
    case BeginCreate(user, device, startTime, endTime) => BeginKeepsApart(s, e);
    case BeginOperation(i, op) =>
      assert forall o <- Apply(s, e).operations :: o.phase.Queued? || o in s.operations;
    case _ =>
      hide CarriedOut, RowLocked, DeviceLocked, CandidatesFrom;
      assert Apply(s, e).operations == s.operations && Apply(s, e).transactions == s.transactions by {
        OthersKeepBoth(s, e);
      }
  }

  lemma OthersKeepBoth(s: Shop, e: Event)
    requires e.Operate? || e.BeginCollect? || e.AdvanceCollect? || e.BeginFlagRun? || e.AdvanceFlagRun? || e.EditDevice?
    ensures Apply(s, e).operations == s.operations && Apply(s, e).transactions == s.transactions
  {
    hide Perform, DeviceAfter, RowLocked, DeviceLocked, CandidatesFrom;
  }

  lemma TransactionKeepsApart(s: Shop, e: Event, k: nat)
    requires BookingsApart(s) && k < |s.transactions| && (e == Advance(k) || e == Abort(k))
    ensures BookingsApart(Apply(s, e))
  {
    hide Rentable, Replaces, Taken, MustWait;
    var t, after := s.transactions[k], Apply(s, e);
    assert after.operations == s.operations && after.transactions == s.transactions[k := after.transactions[k]];
    assert t in s.transactions && forall row: nat :: SwapsRow(after.transactions[k], row) ==> SwapsRow(t, row);
    forall o, u | o in s.operations && u in after.transactions
      ensures !(HasRow(o, o.row) && SwapsRow(u, o.row))
    {
      assert u == after.transactions[k] || u in s.transactions;
      assert !(HasRow(o, o.row) && SwapsRow(t, o.row));
    }
  }

  lemma OperationKeepsApart(s: Shop, k: nat)
    requires BookingsApart(s) && k < |s.operations|
    ensures BookingsApart(Apply(s, AdvanceOperation(k))) <==> !Crosses(s, AdvanceOperation(k))
  {
    var o, after := s.operations[k], Apply(s, AdvanceOperation(k));
    hide Perform, DeviceAfter, RowLocked, WaitsForDevice;
    assert after.transactions == s.transactions && after.operations == s.operations[k := after.operations[k]];
    assert forall p <- after.operations :: p == after.operations[k] || p in s.operations;
    assert after.operations[k] in after.operations && o in s.operations;
    if Crosses(s, AdvanceOperation(k)) {
      var t :| t in s.transactions && SwapsRow(t, o.row);
      assert HasRow(after.operations[k], o.row);
    } else if o.phase.Queued? && after.operations[k].phase.HasBooking? {
      assert !RowLocked(s, o.row);
    }
  }

  lemma BeginKeepsApart(s: Shop, e: Event)
    requires BookingsApart(s) && (e.BeginSwap? || e.BeginCreate?)
    ensures BookingsApart(Apply(s, e)) <==> !Crosses(s, e)
  {
    var after := Apply(s, e);
    if after != s {
      var n := |s.transactions|;
      assert after.operations == s.operations && after.transactions == s.transactions + [after.transactions[n]];
      assert after.transactions[n] in after.transactions;
      assert forall t <- after.transactions :: t == after.transactions[n] || t in s.transactions;
      if Crosses(s, e) {
        var o :| o in s.operations && HasRow(o, e.row);
        assert SwapsRow(after.transactions[n], o.row);
      }
    }
  }

  /** Whatever waits, waits for something that comes later in one common order. */
  predicate Tidy(s: Shop) {
    ReadsLocked(s) && BookingsApart(s)
  }

  predicate NeverOutOfOrder(s: Shop, events: seq<Event>)
    decreases |events|
  {
    events == []
    || (!StaleRead(s, events[0]) && !Crosses(s, events[0]) && NeverOutOfOrder(Apply(s, events[0]), events[1..]))
  }

  /** These two are the only ways out of order. */
  lemma TidyExactly(s: Shop, e: Event)
    requires LocksInOrder(s) && Tidy(s)
    ensures Tidy(Apply(s, e)) <==> !StaleRead(s, e) && !Crosses(s, e)
  {
    hide Apply, StaleRead, Crosses;
    ReadsLockedExactly(s, e);
    BookingsApartExactly(s, e);
  }

  lemma {:induction false} RunStaysTidy(s: Shop, events: seq<Event>)
    requires LocksInOrder(s) && Tidy(s) && NeverOutOfOrder(s, events)
    ensures LocksInOrder(Run(s, events)) && Tidy(Run(s, events))
    decreases |events|
  {
    if events != [] {
      ApplyKeepsLockOrder(s, events[0]);
      TidyExactly(s, events[0]);
      hide Apply, LocksInOrder, Tidy, StaleRead, Crosses;
      RunStaysTidy(Apply(s, events[0]), events[1..]);
    }
  }

  // --------------------------------------------------------- someone can move

  predicate CanAdvance(s: Shop, k: nat) {
    k < |s.transactions| && !s.transactions[k].phase.Closed? && !MustWait(s, s.transactions[k])
  }

  predicate CanCollect(s: Shop, k: nat) {
    && k < |s.collections| && !s.collections[k].phase.Over?
    && (s.collections[k].phase.Waiting? ==> !RowLocked(s, s.collections[k].row))
  }

  predicate CanOperate(s: Shop, k: nat) {
    && k < |s.operations| && !s.operations[k].phase.Ended? && !WaitsForDevice(s, s.operations[k])
    && (s.operations[k].phase.Queued? ==> !RowLocked(s, s.operations[k].row))
  }

  /** A step that takes place, and not out of order. */
  predicate CanMove(s: Shop, e: Event) {
    && !Crosses(s, e)
    && match e
       case Advance(k) => CanAdvance(s, k)
       case AdvanceCollect(k) => CanCollect(s, k)
       case AdvanceOperation(k) => CanOperate(s, k)
       case _ => false
  }

  predicate LocksBelow(s: Shop, bound: int) {
    forall t <- s.transactions :: forall d <- t.locks :: d < bound
  }

  /** Does a checked swap wait for its booking, held by an operation that waits for a device in turn? */
  predicate WaitsForOperation(s: Shop, t: Transaction) {
    && t.phase.FoundFree? && t.task.Swap?
    && exists o <- s.operations :: HasRow(o, t.task.row) && WaitsForDevice(s, o)
  }

  /** No swap waits out of order. */
  predicate NoSwapWaits(s: Shop) {
    forall t <- s.transactions :: !WaitsForOld(s, t) && !WaitsForOperation(s, t)
  }

  lemma TidyHasNoWaits(s: Shop)
    requires LocksInOrder(s) && Tidy(s)
    ensures NoSwapWaits(s)
  {
    forall t <- s.transactions
      ensures !WaitsForOld(s, t) && !WaitsForOperation(s, t)
    {
      assert LocksOk(t);
      if t.phase.Writing? {
        assert HasRead(t) && t.locks[..t.held] == t.locks;
      } else if t.phase.FoundFree? && t.task.Swap? {
        assert SwapsRow(t, t.task.row);
        forall o <- s.operations
          ensures !HasRow(o, t.task.row)
        {
          assert !(HasRow(o, o.row) && SwapsRow(t, o.row));
        }
      }
    }
  }

  /** Whoever has a booking's row can move, unless it is an operation that waits for a device. */
  lemma RowHolderMoves(s: Shop, row: nat) returns (e: Event)
    requires LocksInOrder(s) && NoSwapWaits(s) && RowLocked(s, row)
    requires forall o <- s.operations | HasRow(o, row) :: !WaitsForDevice(s, o)
    ensures CanMove(s, e)
  {
    if Collected(s, row) {
      var c :| c in s.collections && HoldsRow(c, row);
      var k :| 0 <= k < |s.collections| && s.collections[k] == c;
      e := AdvanceCollect(k);
    } else if Written(s, row) {
      var t :| t in s.transactions && WritesRow(t, row);
      var k :| 0 <= k < |s.transactions| && s.transactions[k] == t;
      e := Advance(k);
    } else {
      var o :| o in s.operations && HasRow(o, row);
      var k :| 0 <= k < |s.operations| && s.operations[k] == o;
      e := AdvanceOperation(k);
    }
  }

  /** Whoever a waiting transaction waits for can move, or waits for a greater device. */
  lemma {:induction false} SomeoneMoves(s: Shop, k: nat, bound: int) returns (e: Event)
    requires LocksInOrder(s) && NoSwapWaits(s) && LocksBelow(s, bound)
    requires k < |s.transactions| && !s.transactions[k].phase.Closed?
    ensures CanMove(s, e)
    decreases var t := s.transactions[k]; if t.held < |t.locks| then bound - t.locks[t.held] else 0
  {
    var t := s.transactions[k];
    assert t in s.transactions && LocksOk(t);
    if !MustWait(s, t) {
      e := Advance(k);
    } else if t.phase.FoundFree? {
      e := RowHolderMoves(s, t.task.row);
    } else if t.phase.Acquiring? {
      var d := t.locks[t.held];
      var u :| u in s.transactions && HoldsDevice(u, d);
      var j :| 0 <= j < |s.transactions| && s.transactions[j] == u;
      assert LocksOk(u);
      assert d in u.locks[..u.held] && u.locks[..u.held] <= u.locks;
      if u.held < |u.locks| {
        assert u.locks[u.held] in u.locks && u.locks[u.held] > d;
      } else {
        assert t.locks[t.held] in t.locks;
      }
      e := SomeoneMoves(s, j, bound);
    }
  }

  /** When no transaction is open, no operation waits for a device. */
  lemma SomeoneElseMoves(s: Shop) returns (e: Event)
    requires LocksInOrder(s) && NoSwapWaits(s) && !AllFinished(s)
    requires forall t <- s.transactions :: t.phase.Closed?
    ensures CanMove(s, e)
  {
    assert forall o <- s.operations :: !WaitsForDevice(s, o);
    if c :| c in s.collections && !c.phase.Over? {
      var k :| 0 <= k < |s.collections| && s.collections[k] == c;
      if c.phase.Waiting? && RowLocked(s, c.row) {
        e := RowHolderMoves(s, c.row);
      } else {
        e := AdvanceCollect(k);
      }
    } else {
      var o :| o in s.operations && !o.phase.Ended?;
      var k :| 0 <= k < |s.operations| && s.operations[k] == o;
      if o.phase.Queued? && RowLocked(s, o.row) {
        e := RowHolderMoves(s, o.row);
      } else {
        e := AdvanceOperation(k);
      }
    }
  }

  /** As long as not everybody has finished, somebody can move. */
  lemma NextToMove(s: Shop) returns (e: Event)
    requires LocksInOrder(s) && NoSwapWaits(s) && !AllFinished(s)
    ensures CanMove(s, e)
  {
    if t :| t in s.transactions && !t.phase.Closed? {
      var bound := BoundExists(s);
      var k :| 0 <= k < |s.transactions| && s.transactions[k] == t;
      e := SomeoneMoves(s, k, bound);
    } else {
      e := SomeoneElseMoves(s);
    }
  }

  // ------------------------------------------------------------- all can finish

  function Steps(t: Transaction): nat {
    match t.phase
    case Acquiring => 5 + if t.held <= |t.locks| then |t.locks| - t.held else 0
    case RowSeen(_) => 4
    case DeviceSeen(_, _) => 3
    case FoundFree(_, _) => 2
    case Writing(_, _) => 1
    case Closed => 0
  }

  function CollectSteps(c: Collection): nat {
    match c.phase
    case Waiting => 3
    case Holding => 2
    case Approved => 1
    case Over => 0
  }

  function OperationSteps(o: Operation): nat {
    match o.phase
    case Queued => 2
    case HasBooking => 1
    case Ended => 0
  }

  function SumOf(steps: seq<nat>): nat {
    if steps == [] then 0 else steps[0] + SumOf(steps[1..])
  }

  function TransactionSteps(transactions: seq<Transaction>): seq<nat> {
    seq(|transactions|, i requires 0 <= i < |transactions| => Steps(transactions[i]))
  }

  function CollectionSteps(collections: seq<Collection>): seq<nat> {
    seq(|collections|, i requires 0 <= i < |collections| => CollectSteps(collections[i]))
  }

  function AllOperationSteps(operations: seq<Operation>): seq<nat> {
    seq(|operations|, i requires 0 <= i < |operations| => OperationSteps(operations[i]))
  }

  function StepsLeft(s: Shop): nat {
    SumOf(TransactionSteps(s.transactions)) + SumOf(CollectionSteps(s.collections)) + SumOf(AllOperationSteps(s.operations))
  }

  lemma {:induction false} FewerSteps(steps: seq<nat>, k: nat, n: nat)
    requires k < |steps| && n < steps[k]
    ensures SumOf(steps[k := n]) < SumOf(steps)
  {
    if k > 0 {
      FewerSteps(steps[1..], k - 1, n);
      assert steps[k := n][1..] == steps[1..][k - 1 := n];
    } else {
      assert steps[k := n][1..] == steps[1..];
    }
  }

  lemma FewerTransactionSteps(transactions: seq<Transaction>, k: nat, t: Transaction)
    requires k < |transactions| && Steps(t) < Steps(transactions[k])
    ensures SumOf(TransactionSteps(transactions[k := t])) < SumOf(TransactionSteps(transactions))
  {
    FewerSteps(TransactionSteps(transactions), k, Steps(t));
    assert TransactionSteps(transactions[k := t]) == TransactionSteps(transactions)[k := Steps(t)];
  }

  lemma AdvancingIsProgress(s: Shop, k: nat)
    requires CanAdvance(s, k)
    ensures StepsLeft(Apply(s, Advance(k))) < StepsLeft(s)
  {
    var t := s.transactions[k];
    var after := AdvanceTransaction(s, k).transactions[k];
    assert AdvanceTransaction(s, k).transactions == s.transactions[k := after];
    assert Steps(after) < Steps(t);
    hide AdvanceTransaction, MustWait;
    FewerTransactionSteps(s.transactions, k, after);
    assert AdvanceTransaction(s, k).collections == s.collections && AdvanceTransaction(s, k).operations == s.operations by {
      AdvanceKeepsOthers(s, k);
    }
  }

  lemma AdvanceKeepsOthers(s: Shop, k: nat)
    requires k < |s.transactions|
    ensures AdvanceTransaction(s, k).collections == s.collections && AdvanceTransaction(s, k).operations == s.operations
  {
    hide NextPhase, MustWait;
  }

  lemma CollectingIsProgress(s: Shop, k: nat)
    requires CanCollect(s, k)
    ensures StepsLeft(Apply(s, AdvanceCollect(k))) < StepsLeft(s)
  {
    var after := AdvanceCollection(s, k).collections[k];
    assert AdvanceCollection(s, k).collections == s.collections[k := after];
    FewerSteps(CollectionSteps(s.collections), k, CollectSteps(after));
    assert CollectionSteps(s.collections[k := after]) == CollectionSteps(s.collections)[k := CollectSteps(after)];
  }

  lemma OperatingIsProgress(s: Shop, k: nat)
    requires CanOperate(s, k)
    ensures StepsLeft(Apply(s, AdvanceOperation(k))) < StepsLeft(s)
  {
    var after := Apply(s, AdvanceOperation(k));
    hide Perform, DeviceAfter, RowLocked, WaitsForDevice;
    assert after.operations == s.operations[k := after.operations[k]];
    assert after.collections == s.collections && after.transactions == s.transactions;
    var o := after.operations[k];
    FewerSteps(AllOperationSteps(s.operations), k, OperationSteps(o));
    assert AllOperationSteps(s.operations[k := o]) == AllOperationSteps(s.operations)[k := OperationSteps(o)];
  }

  predicate AllFinished(s: Shop) {
    && (forall t <- s.transactions :: t.phase.Closed?) && (forall c <- s.collections :: c.phase.Over?)
    && (forall o <- s.operations :: o.phase.Ended?)
  }

  lemma BoundExists(s: Shop) returns (bound: int)
    ensures LocksBelow(s, bound)
  {
    bound := BoundOf(s.transactions);
  }

  lemma {:induction false} BoundOf(transactions: seq<Transaction>) returns (bound: int)
    ensures forall t <- transactions :: forall d <- t.locks :: d < bound
  {
    bound := 0;
    if transactions != [] {
      var rest := BoundOf(transactions[1..]);
      var first := BoundOfLocks(transactions[0].locks);
      bound := if rest > first then rest else first;
      assert forall t <- transactions :: t == transactions[0] || t in transactions[1..];
    }
  }

  lemma {:induction false} BoundOfLocks(locks: seq<int>) returns (bound: int)
    ensures forall d <- locks :: d < bound
  {
    bound := 0;
    if locks != [] {
      var rest := BoundOfLocks(locks[1..]);
      bound := if rest > locks[0] then rest else locks[0] + 1;
      assert forall d <- locks :: d == locks[0] || d in locks[1..];
    }
  }

  lemma AbortingIsProgress(s: Shop, k: nat)
    requires k < |s.transactions| && !s.transactions[k].phase.Closed?
    ensures StepsLeft(Apply(s, Abort(k))) < StepsLeft(s)
  {
    FewerTransactionSteps(s.transactions, k, s.transactions[k].(phase := Closed));
  }

  /** Everyone goes on, but a swap that would read a device it has not locked is rolled back. */
  predicate InTurn(s: Shop, e: Event) {
    && !Crosses(s, e)
    && ((e.Advance? && !StaleRead(s, e)) || e.AdvanceCollect? || e.AdvanceOperation?
        || (e.Abort? && StaleRead(s, Advance(e.transaction))))
  }

  predicate Orderly(s: Shop, events: seq<Event>)
    decreases |events|
  {
    events == [] || (InTurn(s, events[0]) && Orderly(Apply(s, events[0]), events[1..]))
  }

  /** The next event of an orderly way on. */
  lemma NextInOrder(s: Shop) returns (e: Event)
    requires LocksInOrder(s) && Tidy(s) && !AllFinished(s)
    ensures InTurn(s, e) && StepsLeft(Apply(s, e)) < StepsLeft(s)
    ensures LocksInOrder(Apply(s, e)) && Tidy(Apply(s, e))
  {
    TidyHasNoWaits(s);
    e := NextToMove(s);
    hide LocksInOrder, Tidy, AllFinished, StepsLeft;
    if e.AdvanceCollect? {
      CollectingIsProgress(s, e.collection);
    } else if e.AdvanceOperation? {
      OperatingIsProgress(s, e.operation);
    } else if StaleRead(s, e) {
      AbortingIsProgress(s, e.transaction);
      e := Abort(e.transaction);
    } else {
      AdvancingIsProgress(s, e.transaction);
    }
    ApplyKeepsLockOrder(s, e);
    TidyExactly(s, e);
  }

  lemma {:induction false} EveryoneCanFinish(s: Shop) returns (events: seq<Event>)
    requires LocksInOrder(s) && Tidy(s)
    ensures AllFinished(Run(s, events)) && Orderly(s, events)
    decreases StepsLeft(s)
  {
    events := [];
    if !AllFinished(s) {
      var e := NextInOrder(s);
      hide Apply, StepsLeft, AllFinished, LocksInOrder, Tidy, InTurn;
      var rest := EveryoneCanFinish(Apply(s, e));
      events := [e] + rest;
      assert events[1..] == rest;
    }
  }

  // ------------------------------------------------------- without rolling back

  /** No booking has two open swaps, and a swap that has yet to read its booking will find a device that it locks. */
  predicate Undisturbed(s: Shop) {
    && (forall k | 0 <= k < |s.transactions| :: UpToDate(s, s.transactions[k]))
    && forall j, k | 0 <= j < k < |s.transactions| :: !SameBooking(s.transactions[j], s.transactions[k])
  }

  predicate UpToDate(s: Shop, t: Transaction) {
    t.task.Swap? && !t.phase.Closed? ==>
      && t.task.row < |s.rows|
      && (t.phase.Acquiring? ==> s.rows[t.task.row].booking.device in t.locks)
  }

  predicate SameBooking(t: Transaction, u: Transaction) {
    && t.task.Swap? && u.task.Swap? && t.task.row == u.task.row && !t.phase.Closed? && !u.phase.Closed?
  }

  lemma AdvanceStaysUndisturbed(s: Shop, k: nat)
    requires Undisturbed(s) && k < |s.transactions|
    ensures Undisturbed(AdvanceTransaction(s, k))
  {
    var after, t := AdvanceTransaction(s, k), s.transactions[k];
    hide Rentable, Replaces, Taken, MustWait;
    assert UpToDate(s, t);
    assert after.transactions == s.transactions[k := after.transactions[k]];
    assert |after.rows| >= |s.rows|;
    forall j | 0 <= j < |s.transactions| && j != k
      ensures UpToDate(after, s.transactions[j])
    {
      assert UpToDate(s, s.transactions[j]);
      assert !SameBooking(s.transactions[if j < k then j else k], s.transactions[if j < k then k else j]);
    }
    assert UpToDate(after, after.transactions[k]);
    forall i, j | 0 <= i < j < |s.transactions|
      ensures !SameBooking(after.transactions[i], after.transactions[j])
    {
      assert !SameBooking(s.transactions[i], s.transactions[j]);
    }
  }

  lemma CollectStaysUndisturbed(s: Shop, k: nat)
    requires Undisturbed(s) && k < |s.collections|
    ensures Undisturbed(AdvanceCollection(s, k))
  {
    var after := AdvanceCollection(s, k);
    forall j | 0 <= j < |s.transactions|
      ensures UpToDate(after, after.transactions[j])
    {
      assert UpToDate(s, s.transactions[j]);
    }
  }

  lemma OperationStaysUndisturbed(s: Shop, k: nat)
    requires Undisturbed(s) && k < |s.operations|
    ensures Undisturbed(AdvanceOperationOn(s, k))
  {
    var o, after := s.operations[k], AdvanceOperationOn(s, k);
    CarriedOutKeepsDevices(s.(operations := s.operations[k := o.(phase := Ended)]), o.row, o.op);
    hide CarriedOut, RowLocked, WaitsForDevice;
    forall j | 0 <= j < |s.transactions|
      ensures UpToDate(after, after.transactions[j])
    {
      assert UpToDate(s, s.transactions[j]);
    }
  }

  lemma CarriedOutKeepsDevices(s: Shop, i: nat, op: Op)
    ensures var after := CarriedOut(s, i, op);
      && after.transactions == s.transactions && |after.rows| == |s.rows|
      && forall j | 0 <= j < |s.rows| :: after.rows[j].booking.device == s.rows[j].booking.device
  {
    hide Perform, DeviceAfter;
    if i < |s.rows| && s.rows[i].booking.device in s.devices {
      var device := s.devices[s.rows[i].booking.device];
      if Perform(op, s.rows[i], device).Done? {
        PerformKeepsPlan(op, s.rows[i], device);
      }
    }
  }

  predicate RollsBack(e: Event) {
    e.Abort? || e.AbortOperation?
  }

  /** Then nobody has to be rolled back. */
  lemma {:induction false} NoneRolledBack(s: Shop, events: seq<Event>)
    requires Undisturbed(s) && Orderly(s, events)
    ensures forall e <- events :: !RollsBack(e)
    decreases |events|
  {
    if events != [] {
      var e := events[0];
      assert !e.Abort? by {
        assert forall t <- s.transactions :: UpToDate(s, t);
      }
      if e.Advance? && e.transaction < |s.transactions| {
        AdvanceStaysUndisturbed(s, e.transaction);
      } else if e.AdvanceCollect? && e.collection < |s.collections| {
        CollectStaysUndisturbed(s, e.collection);
      } else if e.AdvanceOperation? && e.operation < |s.operations| {
        OperationStaysUndisturbed(s, e.operation);
      }
      hide Undisturbed, AdvanceTransaction, AdvanceCollection, AdvanceOperationOn, Crosses;
      NoneRolledBack(Apply(s, e), events[1..]);
      assert forall f <- events :: f == e || f in events[1..];
    }
  }

  // ------------------------------------------------------------------ all runs

  /**
   Every run from the opening in which no swap reads a device it has not locked, and no
   operation takes the booking of an open swap, keeps all waiting in order.
   */
  lemma InOrderRunsStayTidy(s: Shop, before: seq<Event>)
    requires Opening(s) && NeverOutOfOrder(s, before)
    ensures Tidy(Run(s, before)) && NoSwapWaits(Run(s, before))
  {
    RunStaysTidy(s, before);
    hide Run;
    TidyHasNoWaits(Run(s, before));
  }

  /**
   In every state that a run reaches from the opening somebody can go on, unless
   everybody has finished, or some swap waits for the device it leaves or for an
   operation that waits for a device.
   */
  lemma NeverStuckInRuns(s: Shop, before: seq<Event>) returns (e: Event)
    requires Opening(s) && NoSwapWaits(Run(s, before)) && !AllFinished(Run(s, before))
    ensures CanMove(Run(s, before), e)
  {
    RunKeepsLockOrder(s, before);
    hide Run;
    e := NextToMove(Run(s, before));
  }

  /**
   From every such state in which the open swaps hold the devices they have read, and no
   operation has the booking of one, all transactions, collections and operations can go
   on to their end, if a swap about to read a device it has not locked is rolled back
   instead; and without rolling back anything if each open swap is the only one of its
   booking.
   */
  lemma EveryoneCanFinishInRuns(s: Shop, before: seq<Event>) returns (after: seq<Event>)
    requires Opening(s) && Tidy(Run(s, before))
    ensures AllFinished(Run(Run(s, before), after)) && Orderly(Run(s, before), after)
    ensures Undisturbed(Run(s, before)) ==> forall e <- after :: !RollsBack(e)
  {
    RunKeepsLockOrder(s, before);
    hide Run, LocksInOrder, AllFinished;
    after := EveryoneCanFinish(Run(s, before));
    if Undisturbed(Run(s, before)) {
      NoneRolledBack(Run(s, before), after);
    }
  }
}

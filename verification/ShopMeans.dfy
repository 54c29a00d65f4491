/**
 What single calls do in the shop when nothing comes between their steps, said
 without the functions of the steps: a booking is created exactly if its device is
 to be had and free, a debt is paid exactly if that much is outstanding, a swap
 moves the booking, an operation has its effect.
 */
module ShopMeans {
  import opened BookingEffects
  import opened Bookings
  import opened BusinessDays
  import opened BusinessPolicy
  import opened Outcomes
  import opened Shop
  import opened ShopBooks
  import opened ShopCalendar
  import opened ShopRuns

  predicate SomeTime(rows: seq<Row>) {
    forall i | 0 <= i < |rows| :: rows[i].booking.startTime < rows[i].booking.endTime
  }

  lemma {:induction false} ClosedStays(s: Shop, k: nat, n: nat)
    requires k < |s.transactions| && s.transactions[k].phase.Closed?
    ensures Run(s, Advances(k, n)) == s
    decreases n
  {
    if n > 0 {
      assert Apply(s, Advance(k)) == s;
      RunAdvances(s, k, n, s);
      ClosedStays(s, k, n - 1);
    }
  }

  predicate ToBeHad(s: Shop, device: int) {
    && device in s.devices && !s.devices[device].discontinued
    && !s.devices[device].status.Broken? && !s.devices[device].status.Maintenance?
  }

  lemma CreationFails(s: Shop, user: int, device: int, startTime: int, endTime: int)
    requires Idle(s) && startTime < endTime
    requires !ToBeHad(s, device) || Taken(s.rows, device, startTime, endTime, -1)
    ensures Run(s, CreateEvents(|s.transactions|, user, device, startTime, endTime)).rows == s.rows
  {
    var k, begun := |s.transactions|, CreateBegun(s, user, device, startTime, endTime);
    NothingLocked(begun);
    AcquiresLock(begun, k);
    var t := Transaction(Create(user, device, startTime, endTime), [device], 1, Acquiring);
    var acquired := WithTransaction(begun, k, t);
    ChecksNext(acquired, k);
    var read := t.(phase := NextPhase(acquired, t));
    Overwrite(begun, k, t, read);
    var s2 := WithTransaction(begun, k, read);
    if !read.phase.Closed? {
      ChecksNext(s2, k);
      var checked := read.(phase := NextPhase(s2, read));
      assert checked.phase.Closed?;
      Overwrite(begun, k, read, checked);
      ClosedStays(WithTransaction(begun, k, checked), k, 1);
    } else {
      ClosedStays(s2, k, 2);
    }
    assert Apply(s, BeginCreate(user, device, startTime, endTime)) == begun;
    hide Apply, NextPhase, Taken, ToBeHad;
    Chain(s, BeginCreate(user, device, startTime, endTime), Advances(k, 4), begun);
    RunAdvances(begun, k, 4, acquired);
    RunAdvances(acquired, k, 3, s2);
    if !read.phase.Closed? {
      RunAdvances(s2, k, 2, WithTransaction(begun, k, read.(phase := Closed)));
    }
  }

  /** A creation that nothing interrupts: exactly if the device is to be had, and free for the whole interval. */
  lemma CreationDecides(s: Shop, user: int, device: int, startTime: int, endTime: int)
    requires Idle(s) && startTime < endTime && SomeTime(s.rows)
    ensures var after := Run(s, CreateEvents(|s.transactions|, user, device, startTime, endTime));
      if ToBeHad(s, device) && FreeFor(s.rows, device, startTime, endTime, -1) then
        && |after.rows| == |s.rows| + 1 && after.rows == s.rows + [after.rows[|s.rows|]]
        && IsNew(after.rows[|s.rows|], user, device, startTime, endTime, s.devices[device])
      else after.rows == s.rows
  {
    TakenIsNotFree(s.rows, device, startTime, endTime, -1);
    if ToBeHad(s, device) && FreeFor(s.rows, device, startTime, endTime, -1) {
      Creates(s, user, device, startTime, endTime);
      NewRowIsNew(user, device, startTime, endTime, s.devices[device]);
    } else {
      CreationFails(s, user, device, startTime, endTime);
    }
    hide Run, FreeFor, Taken, IsNew;
  }

  /** A fault is reported and the device swapped for an equivalent one that is free. */
  lemma SwapMoves(s: Shop, i: nat, target: int)
    requires Idle(s) && SomeTime(s.rows) && i < |s.rows|
    requires var b := s.rows[i].booking;
      && b.status.Ongoing? && !b.openIssue && b.device in s.devices && target in s.devices && target != b.device
      && Equivalent(s.devices[b.device], s.devices[target]) && FreeFor(s.rows, target, b.startTime, b.endTime, i)
    ensures var previous, after := s.rows[i].booking.device, Run(s, SwapEvents(|s.transactions|, i, target));
      && |after.rows| == |s.rows| && after.rows == s.rows[i := after.rows[i]]
      && MovedTo(s.rows[i], after.rows[i], target)
      && after.devices == s.devices[previous := s.devices[previous].(status := Maintenance)]
                                   [target := s.devices[target].(status := Rented)]
  {
    var b := s.rows[i].booking;
    TakenIsNotFree(s.rows, target, b.startTime, b.endTime, i);
    EquivalentValueBounds(s.devices[b.device].originalPrice, s.devices[target].originalPrice);
    assert Feasible(s, i, target);
    Swaps(s, i, target);
    hide Run, Feasible, Taken, FreeFor;
  }

  function CollectEvents(k: nat, i: nat, amount: real): seq<Event> {
    [BeginCollect(i, amount)] + ([AdvanceCollect(k)] + ([AdvanceCollect(k)] + ([AdvanceCollect(k)] + [])))
  }

  /** A payment that nothing interrupts: exactly if it is at least 1000 and not more than what is outstanding. */
  lemma CollectionPays(s: Shop, i: nat, amount: real)
    requires i < |s.rows| && !RowLocked(s, i)
    ensures var b, after := s.rows[i].booking, Run(s, CollectEvents(|s.collections|, i, amount));
      if 1000.0 <= amount <= b.owed - b.paid then
        && |after.rows| == |s.rows| && after.rows == s.rows[i := after.rows[i]]
        && PaidOff(s.rows[i], after.rows[i], amount)
      else after.rows == s.rows
  {
    var k := |s.collections|;
    var c := Collection(i, amount, Waiting);
    var s0 := Apply(s, BeginCollect(i, amount));
    var s1 := Apply(s0, AdvanceCollect(k));
    var s2 := Apply(s1, AdvanceCollect(k));
    var s3 := Apply(s2, AdvanceCollect(k));
    if amount >= 1000.0 {
      assert s0 == s.(collections := s.collections + [c]);
      assert !RowLocked(s0, i) by {
        assert forall d <- s0.collections :: d == c || d in s.collections;
      }
      assert s1 == s0.(collections := s0.collections[k := c.(phase := Holding)]);
    }
    hide Apply, RowLocked;
    Chain(s, BeginCollect(i, amount), [AdvanceCollect(k)] + ([AdvanceCollect(k)] + ([AdvanceCollect(k)] + [])), s0);
    Chain(s0, AdvanceCollect(k), [AdvanceCollect(k)] + ([AdvanceCollect(k)] + []), s1);
    Chain(s1, AdvanceCollect(k), [AdvanceCollect(k)] + [], s2);
    Chain(s2, AdvanceCollect(k), [], s3);
    assert Run(s3, []) == s3;
    CollectionSteps(s, i, amount);
  }

  lemma CollectionSteps(s: Shop, i: nat, amount: real)
    requires i < |s.rows| && !RowLocked(s, i)
    ensures var k := |s.collections|;
      var s1 := Apply(Apply(s, BeginCollect(i, amount)), AdvanceCollect(k));
      var after := Apply(Apply(s1, AdvanceCollect(k)), AdvanceCollect(k));
      var b := s.rows[i].booking;
      if 1000.0 <= amount <= b.owed - b.paid then
        && |after.rows| == |s.rows| && after.rows == s.rows[i := after.rows[i]]
        && PaidOff(s.rows[i], after.rows[i], amount)
      else after.rows == s.rows
  {
    if amount >= 1000.0 {
      var c, k := Collection(i, amount, Waiting), |s.collections|;
      var s0 := Apply(s, BeginCollect(i, amount));
      assert !RowLocked(s0, i) by {
        assert forall d <- s0.collections :: d == c || d in s.collections;
      }
      var s1 := Apply(s0, AdvanceCollect(k));
      assert s1.collections[k] == c.(phase := Holding) && s1.rows == s.rows;
      hide RowLocked;
    }
  }

  /** An operation that has to wait for nobody has its effect, on its booking and device and nothing else. */
  lemma OperationHasEffect(s: Shop, i: nat, op: Op)
    requires PricesOk(s.devices) && i < |s.rows| && s.rows[i].booking.device in s.devices && !Blocked(s, i, op)
    ensures var d, after := s.rows[i].booking.device, Apply(s, Operate(i, op));
      if Allowed(op, s.rows[i], s.devices[d]) then
        && |after.rows| == |s.rows| && after.rows == s.rows[i := after.rows[i]]
        && after.devices.Keys == s.devices.Keys && (forall e <- s.devices | e != d :: after.devices[e] == s.devices[e])
        && Effect(op, s.rows[i], s.devices[d], after.rows[i], after.devices[d])
      else after == s
  {
    Performs(op, s.rows[i], s.devices[s.rows[i].booking.device]);
    hide Perform, DeviceAfter, Allowed, Effect, Blocked;
  }

  /** The next candidate of a check, if it can be written and has no mark yet, gets the time of the check and is counted. */
  lemma CheckMarks(s: Shop, k: nat)
    requires k < |s.runs| && s.runs[k].candidates != []
    requires var i := s.runs[k].candidates[0]; i < |s.rows| && !RowLocked(s, i)
    ensures var run, after := s.runs[k], Apply(s, AdvanceFlagRun(k));
      var i := run.candidates[0];
      var b := s.rows[i].booking;
      && |after.runs| == |s.runs| && after.runs[k].candidates == run.candidates[1..]
      && after.rows == (if b.suspectedLostAt.Some? then s.rows
                        else s.rows[i := s.rows[i].(booking := b.(suspectedLostAt := Some(run.now)))])
      && after.runs[k].flagged == run.flagged + if b.suspectedLostAt.Some? then 0 else 1
  {
    hide RowLocked;
  }

  /** A check of the shop takes up exactly the bookings more than seven days overdue. */
  lemma CheckTakesOverdue(s: Shop, now: int)
    ensures var run := Apply(s, BeginFlagRun(now)).runs[|s.runs|];
      && run.now == now && run.flagged == 0
      && forall i: nat :: i in run.candidates <==> i < |s.rows| && LongOverdue(s.rows[i].booking, now)
  {
    CandidatesAreOverdue(s.rows, 0, now);
    assert LOST_SUSPECT_OVERDUE_DAYS * DAY_MS == 604_800_000;
  }
}

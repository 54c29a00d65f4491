/**
 Marking overdue bookings (`flagSuspectedLost` in
 backend/src/bookings/booking-loss.service.ts), with any number of runs of the
 check overlapping: a booking is marked once, and the counts the runs report
 add up to the bookings marked.
 */
module ShopFlags {
  import opened Bookings
  import opened BusinessDays
  import opened BusinessPolicy
  import opened Outcomes
  import opened Shop
  import opened ShopBooks

  predicate Marked(row: Row) {
    row.booking.suspectedLostAt.Some?
  }

  function MarkedCount(rows: seq<Row>): nat {
    if rows == [] then 0
    else MarkedCount(rows[..|rows| - 1]) + if Marked(rows[|rows| - 1]) then 1 else 0
  }

  function FlaggedSum(runs: seq<FlagRun>): nat {
    if runs == [] then 0 else FlaggedSum(runs[..|runs| - 1]) + runs[|runs| - 1].flagged
  }

  predicate CountsAgree(s: Shop) {
    FlaggedSum(s.runs) == MarkedCount(s.rows)
  }

  lemma {:induction false} CountAfterChange(rows: seq<Row>, i: nat, row: Row)
    requires i < |rows|
    ensures MarkedCount(rows[i := row]) + (if Marked(rows[i]) then 1 else 0)
         == MarkedCount(rows) + (if Marked(row) then 1 else 0)
  {
    var n := |rows| - 1;
    if i == n {
      assert rows[i := row][..n] == rows[..n];
    } else {
      CountAfterChange(rows[..n], i, row);
      assert rows[i := row][..n] == rows[..n][i := row];
    }
  }

  lemma {:induction false} SumAfterChange(runs: seq<FlagRun>, k: nat, run: FlagRun)
    requires k < |runs|
    ensures FlaggedSum(runs[k := run]) + runs[k].flagged == FlaggedSum(runs) + run.flagged
  {
    var n := |runs| - 1;
    if k == n {
      assert runs[k := run][..n] == runs[..n];
    } else {
      SumAfterChange(runs[..n], k, run);
      assert runs[k := run][..n] == runs[..n][k := run];
    }
  }

  lemma ClosingKeepsMark(row: Row, device: Device, now: int, amount: real)
    ensures AfterReturn(row, device, now, amount).booking.suspectedLostAt == row.booking.suspectedLostAt
    ensures AfterCancel(row, amount, now).booking.suspectedLostAt == row.booking.suspectedLostAt
    ensures AfterEndEarly(row, now).booking.suspectedLostAt == row.booking.suspectedLostAt
    ensures AfterLoss(row, device, now).booking.suspectedLostAt == row.booking.suspectedLostAt
  {
    hide LateFee, WorkdaysLater, DepositSettlement, UnusedRentalRefund, LostDeviceDebt;
  }

  lemma PerformKeepsMark(op: Op, row: Row, device: Device)
    requires Perform(op, row, device).Done?
    ensures Perform(op, row, device).value.booking.suspectedLostAt == row.booking.suspectedLostAt
  {
    match op
    case ConfirmReturn(now, _, _, _, _) =>
      ClosingKeepsMark(row, device, now, if op.condition.Intact? then 0.0 else op.fee);
      hide AfterReturn;
    case Cancel(_, _, _, now) =>
      var hours := (row.booking.startTime - op.now) as real / HOUR_MS as real;
      var percentage := RefundShare(hours, op.storeFault && op.byStaff);
      ClosingKeepsMark(row, device, now, DepositShare(row.booking.deposit, percentage));
      hide AfterCancel, RefundShare, DepositShare;
    case EndEarly(now) => ClosingKeepsMark(row, device, now, 0.0);
    case ConfirmLost(now) => ClosingKeepsMark(row, device, now, 0.0);
    case _ =>
  }

  /** Marks are set but never changed or taken away. */
  predicate MarksStay(rows: seq<Row>, after: seq<Row>) {
    && |rows| <= |after|
    && forall i | 0 <= i < |rows| && Marked(rows[i]) ::
         after[i].booking.suspectedLostAt == rows[i].booking.suspectedLostAt
  }

  lemma CarriedOutKeepsMarks(s: Shop, i: nat, op: Op)
    ensures MarksStay(s.rows, CarriedOut(s, i, op).rows)
    ensures MarkedCount(CarriedOut(s, i, op).rows) == MarkedCount(s.rows)
    ensures CarriedOut(s, i, op).runs == s.runs
  {
    hide Perform, DeviceAfter;
    if i < |s.rows| && s.rows[i].booking.device in s.devices {
      var device := s.devices[s.rows[i].booking.device];
      if Perform(op, s.rows[i], device).Done? {
        PerformKeepsMark(op, s.rows[i], device);
        CountAfterChange(s.rows, i, Perform(op, s.rows[i], device).value);
      }
    }
  }

  lemma AdvanceKeepsMarks(s: Shop, k: nat)
    requires k < |s.transactions|
    ensures MarksStay(s.rows, AdvanceTransaction(s, k).rows)
    ensures MarkedCount(AdvanceTransaction(s, k).rows) == MarkedCount(s.rows)
    ensures AdvanceTransaction(s, k).runs == s.runs
  {
    hide NextPhase, MustWait;
    var t := s.transactions[k];
    if Commits(t) {
      if t.task.Create? {
        assert Insert(s, t)[..|s.rows|] == s.rows;
      } else if t.task.row < |s.rows| {
        CountAfterChange(s.rows, t.task.row, Swapped(s.rows[t.task.row], t.task.newDevice));
      }
    }
  }

  lemma CollectKeepsMarks(s: Shop, k: nat)
    requires k < |s.collections|
    ensures MarksStay(s.rows, AdvanceCollection(s, k).rows)
    ensures MarkedCount(AdvanceCollection(s, k).rows) == MarkedCount(s.rows)
    ensures AdvanceCollection(s, k).runs == s.runs
  {
    var c := s.collections[k];
    if c.phase.Approved? && c.row < |s.rows| {
      CountAfterChange(s.rows, c.row, Pay(s.rows[c.row], c.amount));
    }
  }

  lemma RunCountsMarks(s: Shop, k: nat)
    requires k < |s.runs| && CountsAgree(s)
    ensures MarksStay(s.rows, AdvanceRun(s, k).rows) && CountsAgree(AdvanceRun(s, k))
  {
    hide RowLocked;
    var run := s.runs[k];
    if run.candidates != [] {
      var i := run.candidates[0];
      var rest := run.(candidates := run.candidates[1..]);
      SumAfterChange(s.runs, k, rest);
      SumAfterChange(s.runs, k, rest.(flagged := rest.flagged + 1));
      if i < |s.rows| {
        CountAfterChange(s.rows, i, Mark(s.rows[i], run.now));
      }
    }
  }

  lemma ApplyKeepsMarks(s: Shop, e: Event)
    requires CountsAgree(s)
    ensures CountsAgree(Apply(s, e)) && MarksStay(s.rows, Apply(s, e).rows)
  {
    hide CarriedOut, Blocked, WaitsForDevice, RowLocked, AdvanceTransaction, AdvanceCollection, AdvanceRun, CandidatesFrom;
    match e
    case Operate(i, op) => CarriedOutKeepsMarks(s, i, op);
    case AdvanceOperation(k) =>
      if k < |s.operations| {
        var o := s.operations[k];
        CarriedOutKeepsMarks(s.(operations := s.operations[k := o.(phase := Ended)]), o.row, o.op);
      }
    case Advance(k) => if k < |s.transactions| { AdvanceKeepsMarks(s, k); }
    case AdvanceCollect(k) => if k < |s.collections| { CollectKeepsMarks(s, k); }
    case AdvanceFlagRun(k) => if k < |s.runs| { RunCountsMarks(s, k); }
    case BeginFlagRun(now) =>
      assert (s.runs + [FlagRun(now, CandidatesFrom(s.rows, 0, now), 0)])[..|s.runs|] == s.runs;
    case _ =>
  }

  /**
   Through every interleaving, the numbers the overdue runs have counted add up
   to the bookings that are marked, and a booking that is marked keeps the time
   of its first mark.
   */
  lemma {:induction false} RunMarksOnce(s: Shop, events: seq<Event>)
    requires CountsAgree(s)
    ensures CountsAgree(Run(s, events)) && MarksStay(s.rows, Run(s, events).rows)
    decreases |events|
  {
    if events != [] {
      ApplyKeepsMarks(s, events[0]);
      RunMarksOnce(Apply(s, events[0]), events[1..]);
    }
  }

  /** From the opening: the counts agree, and between any two states of the run marks stay. */
  lemma MarkedOnceFromOpening(s: Shop, before: seq<Event>, after: seq<Event>)
    requires Opening(s)
    ensures CountsAgree(Run(s, before))
    ensures MarksStay(Run(s, before).rows, Run(Run(s, before), after).rows)
  {
    assert CountsAgree(s);
    RunMarksOnce(s, before);
    RunMarksOnce(Run(s, before), after);
  }

  /** A booking confirmed lost was marked more than seven days after it should have been returned. */
  lemma LostWasOverdue(s: Shop, events: seq<Event>, i: nat)
    requires Opening(s) && i < |Run(s, events).rows|
    ensures var b := Run(s, events).rows[i].booking;
      b.status.Lost? ==>
        b.suspectedLostAt.Some? && b.suspectedLostAt.value > b.endTime + 7 * 24 * 60 * 60 * 1000
  {
    OpeningOk(s);
    RunKeepsBooks(s, events);
    assert InOrder(Run(s, events).rows[i]);
  }
}

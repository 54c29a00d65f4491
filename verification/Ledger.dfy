/**
 The money in the bookings: the deposit statistic of the dashboard
 (`getFinancialStats`), what a customer owes (`getOutstandingDebt`, `findMine`)
 and the list of debtors (`findDebtors`). Rows are in the order of creation.
 */
module Ledger {
  import opened Bookings
  import opened BusinessPolicy
  import opened Outcomes
  import opened Shop
  import opened ShopBooks

  function Total(rows: seq<Row>, amount: Row -> real): real {
    if rows == [] then 0.0 else amount(rows[0]) + Total(rows[1..], amount)
  }

  /** Statistics leave out the bookings of the demonstration accounts. */
  function Counted(row: Row, amount: real): real {
    if row.booking.isDemo then 0.0 else amount
  }

  /** A total is the sum: nothing for no rows, the amount of one row, and it adds up. */
  lemma {:induction false} TotalAddsUp(a: seq<Row>, b: seq<Row>, row: Row, amount: Row -> real)
    ensures Total([], amount) == 0.0 && Total([row], amount) == amount(row)
    ensures Total(a + b, amount) == Total(a, amount) + Total(b, amount)
  {
    assert [row][1..] == [];
    if a == [] {
      assert a + b == b;
    } else {
      assert (a + b)[1..] == a[1..] + b;
      TotalAddsUp(a[1..], b, row, amount);
    }
  }

  // ----------------------------------------------------------------- deposits

  function DepositOfActive(row: Row): real {
    Counted(row, if row.booking.status.Confirmed? || row.booking.status.Ongoing? then row.booking.deposit else 0.0)
  }

  function RefundDueOf(row: Row): real {
    Counted(row, if row.booking.refundStatus.RefundDue? then row.booking.refund else 0.0)
  }

  /** The dashboard's figure: deposits of running bookings and refunds not yet paid. */
  function DepositHeld(rows: seq<Row>): real {
    Total(rows, DepositOfActive) + Total(rows, RefundDueOf)
  }

  /** What the shop holds of a booking: the deposit before it is settled, a due refund after it; nothing of a demo. */
  function HeldOf(row: Row): real {
    var b := row.booking;
    if b.isDemo then 0.0
    else if b.status.Confirmed? || b.status.Ongoing? then b.deposit
    else if b.refundStatus.RefundDue? then b.refund
    else 0.0
  }

  lemma {:induction false} HeldIsHeld(rows: seq<Row>)
    requires AllInOrder(rows)
    ensures DepositHeld(rows) == Total(rows, HeldOf)
  {
    if rows != [] {
      assert InOrder(rows[0]);
      HeldIsHeld(rows[1..]);
    }
  }

  function DepositsTakenFor(row: Row): real {
    Counted(row, Sum(row.history.depositsTaken))
  }

  function DepositsReturnedFor(row: Row): real {
    Counted(row, Sum(row.history.depositsReturned))
  }

  /** What the shop kept of the deposit of a booking that has been settled. */
  function DepositKept(row: Row): real {
    Counted(row, if row.booking.refundStatus.NoRefund? then 0.0 else row.booking.deposit - row.booking.refund)
  }

  lemma DepositOfOne(row: Row)
    requires InOrder(row)
    ensures DepositsTakenFor(row)
         == DepositOfActive(row) + RefundDueOf(row) + DepositsReturnedFor(row) + DepositKept(row)
    ensures DepositKept(row) >= 0.0
  {
    var b := row.booking;
    assert Sum([b.deposit]) == Sum([]) + b.deposit && Sum([b.refund]) == Sum([]) + b.refund;
  }

  /**
   Every deposit taken is held, has been returned, or has been kept: the deposits
   of all bookings ever confirmed add up to the dashboard's deposits held, the
   refunds paid and the deposits kept.
   */
  lemma {:induction false} DepositsAreConserved(rows: seq<Row>)
    requires AllInOrder(rows)
    ensures Total(rows, DepositsTakenFor)
         == DepositHeld(rows) + Total(rows, DepositsReturnedFor) + Total(rows, DepositKept)
    ensures Total(rows, DepositKept) >= 0.0
  {
    if rows != [] {
      DepositOfOne(rows[0]);
      DepositsAreConserved(rows[1..]);
    }
  }

  /** The same at the end of every run from the opening on. */
  lemma DepositsAreConservedInRuns(s: Shop, events: seq<Event>)
    requires Opening(s)
    ensures var rows := Run(s, events).rows;
      && Total(rows, DepositsTakenFor)
         == DepositHeld(rows) + Total(rows, DepositsReturnedFor) + Total(rows, DepositKept)
      && forall i | 0 <= i < |rows| ::
           && |rows[i].history.depositsTaken| <= 1 && |rows[i].history.depositsReturned| <= 1
           && forall paid <- rows[i].history.depositsReturned :: 0.0 <= paid <= rows[i].booking.deposit
  {
    OpeningOk(s);
    RunKeepsBooks(s, events);
    var rows := Run(s, events).rows;
    DepositsAreConserved(rows);
    forall i | 0 <= i < |rows|
      ensures |rows[i].history.depositsTaken| <= 1 && |rows[i].history.depositsReturned| <= 1
      ensures forall paid <- rows[i].history.depositsReturned :: 0.0 <= paid <= rows[i].booking.deposit
    {
      assert InOrder(rows[i]);
    }
  }

  // -------------------------------------------------------------------- debts

  datatype DebtLine = DebtLine(row: nat, owed: real, paid: real, outstanding: real, payments: seq<real>)

  function ToLine(rows: seq<Row>, i: nat): DebtLine
    requires i < |rows|
  {
    var b := rows[i].booking;
    DebtLine(i, b.owed, b.paid, Max(b.owed - b.paid, 0.0), rows[i].history.debtPayments)
  }

  /** Whose debts are listed: one customer's, or those that count. */
  datatype Scope = Of(user: int) | OfCounted(user: int)

  predicate InScope(scope: Scope, b: Booking) {
    b.user == scope.user && (scope.OfCounted? ==> !b.isDemo)
  }

  /** The lines with something outstanding among the rows from `from` on, newest first. */
  function Lines(rows: seq<Row>, scope: Scope, from: nat): seq<DebtLine>
    decreases |rows| - from
  {
    if from >= |rows| then []
    else
      var rest := Lines(rows, scope, from + 1);
      if InScope(scope, rows[from].booking) && rows[from].booking.owed > 0.0 && ToLine(rows, from).outstanding > 0.0
      then rest + [ToLine(rows, from)]
      else rest
  }

  function OutstandingOf(lines: seq<DebtLine>): real {
    if lines == [] then 0.0 else OutstandingOf(lines[..|lines| - 1]) + lines[|lines| - 1].outstanding
  }

  /** `findMine`: all lines of a customer, and their total. */
  function FindMineTotal(rows: seq<Row>, user: int): real {
    OutstandingOf(Lines(rows, Of(user), 0))
  }

  function OwedBy(rows: seq<Row>, scope: Scope, from: nat): real
    decreases |rows| - from
  {
    if from >= |rows| then 0.0
    else OwedBy(rows, scope, from + 1)
         + if InScope(scope, rows[from].booking) && rows[from].booking.owed > 0.0 then rows[from].booking.owed else 0.0
  }

  function PaidBy(rows: seq<Row>, scope: Scope, from: nat): real
    decreases |rows| - from
  {
    if from >= |rows| then 0.0
    else PaidBy(rows, scope, from + 1)
         + if InScope(scope, rows[from].booking) && rows[from].booking.owed > 0.0 then rows[from].booking.paid else 0.0
  }

  /** `getOutstandingDebt`: one aggregate over a customer's bookings. */
  function GetOutstandingDebt(rows: seq<Row>, user: int): real {
    Max(OwedBy(rows, Of(user), 0) - PaidBy(rows, Of(user), 0), 0.0)
  }

  lemma LinesAppend(lines: seq<DebtLine>, line: DebtLine)
    ensures OutstandingOf(lines + [line]) == OutstandingOf(lines) + line.outstanding
  {
    assert (lines + [line])[..|lines|] == lines;
  }

  /** A booking of the customer's, not a demonstration where these do not count, of which something is unpaid. */
  predicate Unpaid(scope: Scope, b: Booking) {
    b.user == scope.user && !(scope.OfCounted? && b.isDemo) && b.paid < b.owed
  }

  function UnpaidLine(rows: seq<Row>, i: nat): DebtLine
    requires i < |rows|
  {
    var b := rows[i].booking;
    DebtLine(i, b.owed, b.paid, b.owed - b.paid, rows[i].history.debtPayments)
  }

  predicate AreUnpaid(rows: seq<Row>, lines: seq<DebtLine>, scope: Scope, from: nat) {
    && (forall line <- lines ::
          from <= line.row < |rows| && Unpaid(scope, rows[line.row].booking) && line == UnpaidLine(rows, line.row))
    && (forall i | from <= i < |rows| && Unpaid(scope, rows[i].booking) :: UnpaidLine(rows, i) in lines)
    && forall j, k | 0 <= j < k < |lines| :: lines[j].row > lines[k].row
  }

  function UnpaidOf(scope: Scope): Row -> real {
    (row: Row) => if Unpaid(scope, row.booking) then row.booking.owed - row.booking.paid else 0.0
  }

  /**
   What the customer is shown: one line for each booking of theirs with something
   unpaid, in the order of the rows from the last to the first, and the sum.
   */
  lemma {:induction false} LinesAreUnpaidBookings(rows: seq<Row>, scope: Scope, from: nat)
    requires AllInOrder(rows)
    ensures AreUnpaid(rows, Lines(rows, scope, from), scope, from)
    decreases |rows| - from
  {
    if from < |rows| {
      LinesAreUnpaidBookings(rows, scope, from + 1);
      assert InOrder(rows[from]);
      OneRow(rows, scope, from);
      hide Lines, InOrder, Unpaid;
      OneMoreLine(rows, Lines(rows, scope, from + 1), Lines(rows, scope, from), scope, from);
    }
  }

  lemma OneRow(rows: seq<Row>, scope: Scope, i: nat)
    requires i < |rows| && InOrder(rows[i])
    ensures Lines(rows, scope, i) ==
            Lines(rows, scope, i + 1) + if Unpaid(scope, rows[i].booking) then [UnpaidLine(rows, i)] else []
  {
    PaidIsPositive(rows[i].history.debtPayments);
  }

  lemma OneMoreLine(rows: seq<Row>, before: seq<DebtLine>, after: seq<DebtLine>, scope: Scope, i: nat)
    requires i < |rows| && AreUnpaid(rows, before, scope, i + 1)
    requires after == before + if Unpaid(scope, rows[i].booking) then [UnpaidLine(rows, i)] else []
    ensures AreUnpaid(rows, after, scope, i)
  {
    assert forall line <- before :: line in after;
    assert Unpaid(scope, rows[i].booking) ==> after[|before|] == UnpaidLine(rows, i);
    assert forall line <- after :: line in before || line == UnpaidLine(rows, i);
  }

  lemma {:induction false} PaidIsPositive(payments: seq<real>)
    requires forall p <- payments :: p >= 1000.0
    ensures Sum(payments) >= 0.0
  {
    if payments != [] {
      var rest, last := payments[..|payments| - 1], payments[|payments| - 1];
      assert last in payments && forall p <- rest :: p in payments;
      PaidIsPositive(rest);
    }
  }

  /** And the sum is all that is unpaid on the customer's bookings. */
  lemma {:induction false} DebtIsUnpaid(rows: seq<Row>, scope: Scope, from: nat)
    requires AllInOrder(rows) && from <= |rows|
    ensures OutstandingOf(Lines(rows, scope, from)) == Total(rows[from..], UnpaidOf(scope))
    decreases |rows| - from
  {
    if from < |rows| {
      DebtIsUnpaid(rows, scope, from + 1);
      assert rows[from..][1..] == rows[from + 1..];
      OneRow(rows, scope, from);
      LinesAppend(Lines(rows, scope, from + 1), UnpaidLine(rows, from));
    }
  }

  lemma {:induction false} AggregateIsSumOfLines(rows: seq<Row>, scope: Scope, from: nat)
    requires AllInOrder(rows)
    ensures OutstandingOf(Lines(rows, scope, from)) == OwedBy(rows, scope, from) - PaidBy(rows, scope, from)
    ensures OutstandingOf(Lines(rows, scope, from)) >= 0.0
    decreases |rows| - from
  {
    if from < |rows| {
      AggregateIsSumOfLines(rows, scope, from + 1);
      assert InOrder(rows[from]);
      LinesAppend(Lines(rows, scope, from + 1), ToLine(rows, from));
    }
  }

  /** The sum that blocks a new booking is the total the customer is shown. */
  lemma BlockingDebtIsShownDebt(rows: seq<Row>, user: int)
    requires AllInOrder(rows)
    ensures GetOutstandingDebt(rows, user) == FindMineTotal(rows, user) == Total(rows, UnpaidOf(Of(user)))
  {
    AggregateIsSumOfLines(rows, Of(user), 0);
    DebtIsUnpaid(rows, Of(user), 0);
    assert rows[0..] == rows;
  }

  /** Payments of at least 1000 within the debt: there are at most a thousandth of the debt of them. */
  lemma PaymentsAreFew(row: Row)
    requires InOrder(row)
    ensures |row.history.debtPayments| <= (row.booking.owed / 1000.0).Floor
    ensures Sum(row.history.debtPayments) == row.booking.paid <= row.booking.owed
  {
    var n := |row.history.debtPayments|;
    ManyPaymentsAreMuch(row.history.debtPayments);
    assert n as real <= row.booking.owed / 1000.0;
  }

  lemma {:induction false} ManyPaymentsAreMuch(payments: seq<real>)
    requires forall p <- payments :: p >= 1000.0
    ensures Sum(payments) >= 1000.0 * |payments| as real
  {
    if payments != [] {
      var rest, last := payments[..|payments| - 1], payments[|payments| - 1];
      assert last in payments && forall p <- rest :: p in payments;
      ManyPaymentsAreMuch(rest);
    }
  }

  /** What holds of every booking's debt after any run with any number of concurrent collections. */
  lemma DebtsAreCoveredInRuns(s: Shop, events: seq<Event>, i: nat)
    requires Opening(s) && i < |Run(s, events).rows|
    ensures var row := Run(s, events).rows[i];
      && Sum(row.history.debtPayments) == row.booking.paid <= row.booking.owed
      && |row.history.debtPayments| <= (row.booking.owed / 1000.0).Floor
      && (Active(row.booking) ==> row.booking.owed == 0.0 && row.booking.paid == 0.0)
  {
    OpeningOk(s);
    RunKeepsBooks(s, events);
    var row := Run(s, events).rows[i];
    assert InOrder(row);
    PaymentsAreFew(row);
    assert Sum([]) == 0.0;
  }
}

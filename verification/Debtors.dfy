/**
 The list of debtors (`findDebtors` in backend/src/bookings/debts.service.ts):
 lines grouped by customer in a map, greatest debt first.
 */
module Debtors {
  import opened Bookings
  import opened BusinessPolicy
  import opened Ledger
  import opened Lists
  import opened Outcomes
  import opened ShopBooks

  datatype Debtor = Debtor(user: int, total: real, lines: seq<DebtLine>)

  function TotalDebt(debtors: seq<Debtor>): real {
    if debtors == [] then 0.0 else TotalDebt(debtors[..|debtors| - 1]) + debtors[|debtors| - 1].total
  }

  predicate GreatestFirst(debtors: seq<Debtor>) {
    forall i, j | 0 <= i < j < |debtors| :: debtors[i].total >= debtors[j].total
  }

  predicate OncePerUser(debtors: seq<Debtor>) {
    forall i, j | 0 <= i < j < |debtors| :: debtors[i].user != debtors[j].user
  }

  /** A debtor as the counted bookings from row `from` on show them. */
  function DebtorFrom(rows: seq<Row>, user: int, from: nat): Debtor {
    var lines := Lines(rows, OfCounted(user), from);
    Debtor(user, OutstandingOf(lines), lines)
  }

  predicate HasUser(debtors: seq<Debtor>, user: int) {
    exists k | 0 <= k < |debtors| :: debtors[k].user == user
  }

  predicate Owes(rows: seq<Row>, user: int, from: nat) {
    Lines(rows, OfCounted(user), from) != []
  }

  predicate DebtorsFrom(rows: seq<Row>, debtors: seq<Debtor>, from: nat) {
    forall k | 0 <= k < |debtors| ::
      debtors[k] == DebtorFrom(rows, debtors[k].user, from) && Owes(rows, debtors[k].user, from)
  }

  /** Exactly the customers with something outstanding, each once, with all their lines. */
  ghost predicate AreDebtors(rows: seq<Row>, debtors: seq<Debtor>, from: nat) {
    && OncePerUser(debtors) && DebtorsFrom(rows, debtors, from)
    && forall user :: Owes(rows, user, from) ==> HasUser(debtors, user)
  }

  // --------------------------------------------------------------------- sorting

  /** Greatest debt first. */
  function ByDebt(d: Debtor): real {
    -d.total
  }

  lemma TotalAppend(debtors: seq<Debtor>, d: Debtor)
    ensures TotalDebt(debtors + [d]) == TotalDebt(debtors) + d.total
  {
    assert (debtors + [d])[..|debtors|] == debtors;
  }

  lemma {:induction false} TotalAfterInsert(debtors: seq<Debtor>, d: Debtor)
    ensures TotalDebt(InsertBy(debtors, d, ByDebt)) == TotalDebt(debtors) + d.total
  {
    if debtors == [] || ByDebt(debtors[|debtors| - 1]) <= ByDebt(d) {
      TotalAppend(debtors, d);
    } else {
      var init, last := debtors[..|debtors| - 1], debtors[|debtors| - 1];
      TotalAfterInsert(init, d);
      TotalAppend(InsertBy(init, d, ByDebt), last);
    }
  }

  lemma {:induction false} TotalAfterSort(debtors: seq<Debtor>)
    ensures TotalDebt(SortBy(debtors, ByDebt)) == TotalDebt(debtors)
  {
    if debtors != [] {
      var init, last := debtors[..|debtors| - 1], debtors[|debtors| - 1];
      TotalAfterSort(init);
      TotalAfterInsert(SortBy(init, ByDebt), last);
    }
  }

  lemma OncePerUserInAnyOrder(debtors: seq<Debtor>, sorted: seq<Debtor>)
    requires multiset(debtors) == multiset(sorted) && OncePerUser(debtors)
    ensures OncePerUser(sorted)
  {
    forall i, j | 0 <= i < j < |sorted|
      ensures sorted[i].user != sorted[j].user
    {
      var d, e := sorted[i], sorted[j];
      assert d in multiset(sorted) && e in multiset(sorted);
      if d == e {
        TwiceInSequence(sorted, i, j);
        UserOnceIsOnce(debtors, d);
        assert false;
      } else {
        var k :| 0 <= k < |debtors| && debtors[k] == d;
        var m :| 0 <= m < |debtors| && debtors[m] == e;
        assert k < m || m < k;
      }
    }
  }

  lemma TwiceInSequence(debtors: seq<Debtor>, i: nat, j: nat)
    requires i < j < |debtors| && debtors[i] == debtors[j]
    ensures multiset(debtors)[debtors[i]] >= 2
  {
    var front, back := debtors[..j], debtors[j..];
    assert debtors == front + back;
    assert front[i] in multiset(front) && back[0] in multiset(back);
  }

  lemma {:induction false} UserOnceIsOnce(debtors: seq<Debtor>, d: Debtor)
    requires OncePerUser(debtors)
    ensures multiset(debtors)[d] <= 1
  {
    if debtors != [] {
      var init, last := debtors[..|debtors| - 1], debtors[|debtors| - 1];
      assert debtors == init + [last];
      UserOnceIsOnce(init, d);
      if last == d {
        assert forall e <- init :: e.user != d.user;
        assert d !in init;
      }
    }
  }

  // ------------------------------------------------------------------ grouping

  /** One more row: its line goes to its customer's group, other customers' lines stay. */
  lemma OneMoreRow(rows: seq<Row>, user: int, i: nat)
    requires i < |rows|
    ensures var line := ToLine(rows, i); var b := rows[i].booking;
      DebtorFrom(rows, user, i) ==
      if b.user == user && !b.isDemo && b.owed > 0.0 && line.outstanding > 0.0 then
        Debtor(user, DebtorFrom(rows, user, i + 1).total + line.outstanding, DebtorFrom(rows, user, i + 1).lines + [line])
      else DebtorFrom(rows, user, i + 1)
  {
    LinesAppend(Lines(rows, OfCounted(user), i + 1), ToLine(rows, i));
  }

  /** What is outstanding on the counted bookings from row `from` on. */
  function CountedDebt(rows: seq<Row>, from: nat): real
    decreases |rows| - from
  {
    if from >= |rows| then 0.0
    else
      var b := rows[from].booking;
      CountedDebt(rows, from + 1)
      + if !b.isDemo && b.owed > 0.0 && b.owed - b.paid > 0.0 then b.owed - b.paid else 0.0
  }

  lemma {:induction false} TotalAfterChange(debtors: seq<Debtor>, k: nat, d: Debtor)
    requires k < |debtors|
    ensures TotalDebt(debtors[k := d]) == TotalDebt(debtors) - debtors[k].total + d.total
  {
    var n := |debtors| - 1;
    if k == n {
      assert debtors[k := d][..n] == debtors[..n];
    } else {
      TotalAfterChange(debtors[..n], k, d);
      assert debtors[k := d][..n] == debtors[..n][k := d];
    }
  }

  /** Where the map has the customer's entry; entries are in the order of insertion. */
  function EntryOf(debtors: seq<Debtor>, user: int): (k: nat)
    ensures k <= |debtors| && (k < |debtors| ==> debtors[k].user == user)
    ensures k < |debtors| <==> HasUser(debtors, user)
  {
    FirstWhere(debtors, (d: Debtor) => d.user == user, 0)
  }

  predicate CountsAsDebt(rows: seq<Row>, i: nat)
    requires i < |rows|
  {
    var b := rows[i].booking;
    !b.isDemo && b.owed > 0.0 && ToLine(rows, i).outstanding > 0.0
  }

  lemma SameDebtors(rows: seq<Row>, debtors: seq<Debtor>, i: nat)
    requires i < |rows| && AreDebtors(rows, debtors, i + 1) && !CountsAsDebt(rows, i)
    ensures AreDebtors(rows, debtors, i)
  {
    forall u: int
      ensures DebtorFrom(rows, u, i) == DebtorFrom(rows, u, i + 1) && Owes(rows, u, i) == Owes(rows, u, i + 1)
    {
      OneMoreRow(rows, u, i);
      assert DebtorFrom(rows, u, i).lines == Lines(rows, OfCounted(u), i);
      assert DebtorFrom(rows, u, i + 1).lines == Lines(rows, OfCounted(u), i + 1);
    }
    hide Owes, DebtorFrom;
  }

  lemma OthersStay(rows: seq<Row>, user: int, i: nat)
    requires i < |rows| && CountsAsDebt(rows, i)
    ensures rows[i].booking.user != user ==>
      DebtorFrom(rows, user, i) == DebtorFrom(rows, user, i + 1) && Owes(rows, user, i) == Owes(rows, user, i + 1)
    ensures rows[i].booking.user == user ==> Owes(rows, user, i)
  {
    OneMoreRow(rows, user, i);
    assert DebtorFrom(rows, user, i).lines == Lines(rows, OfCounted(user), i);
    assert DebtorFrom(rows, user, i + 1).lines == Lines(rows, OfCounted(user), i + 1);
  }

  function WithEntry(debtors: seq<Debtor>, d: Debtor): seq<Debtor> {
    var k := EntryOf(debtors, d.user);
    if k < |debtors| then debtors[k := d] else debtors + [d]
  }

  lemma EntryStaysUnique(debtors: seq<Debtor>, d: Debtor)
    requires OncePerUser(debtors)
    ensures OncePerUser(WithEntry(debtors, d))
    ensures forall u :: HasUser(WithEntry(debtors, d), u) <==> HasUser(debtors, u) || u == d.user
  {
    var k, after := EntryOf(debtors, d.user), WithEntry(debtors, d);
    assert after[k] == d;
    forall u | HasUser(debtors, u) || u == d.user
      ensures HasUser(after, u)
    {
      if HasUser(debtors, u) {
        var j :| 0 <= j < |debtors| && debtors[j].user == u;
        assert after[j].user == u;
      }
    }
  }

  lemma OneEntryChanges(rows: seq<Row>, debtors: seq<Debtor>, i: nat)
    requires i < |rows| && AreDebtors(rows, debtors, i + 1) && CountsAsDebt(rows, i)
    ensures AreDebtors(rows, WithEntry(debtors, DebtorFrom(rows, rows[i].booking.user, i)), i)
  {
    var user := rows[i].booking.user;
    var d := DebtorFrom(rows, user, i);
    var after := WithEntry(debtors, d);
    forall u: int
      ensures user != u ==>
        DebtorFrom(rows, u, i) == DebtorFrom(rows, u, i + 1) && Owes(rows, u, i) == Owes(rows, u, i + 1)
    {
      OthersStay(rows, u, i);
    }
    OthersStay(rows, user, i);
    assert d.user == user;
    EntryStaysUnique(debtors, d);
    OtherEntriesStay(debtors, d);
    hide Owes, DebtorFrom, WithEntry, OncePerUser, HasUser;
    assert DebtorsFrom(rows, after, i);
  }

  lemma OtherEntriesStay(debtors: seq<Debtor>, d: Debtor)
    requires OncePerUser(debtors)
    ensures var after := WithEntry(debtors, d);
      forall k | 0 <= k < |after| :: after[k] == d || (k < |debtors| && after[k] == debtors[k] && after[k].user != d.user)
  {
    var k := EntryOf(debtors, d.user);
    assert k == |debtors| ==> !HasUser(debtors, d.user);
  }

  lemma NotYetAnEntry(rows: seq<Row>, debtors: seq<Debtor>, user: int, from: nat)
    requires AreDebtors(rows, debtors, from)
    ensures EntryOf(debtors, user) == |debtors| ==> DebtorFrom(rows, user, from) == Debtor(user, 0.0, [])
    ensures EntryOf(debtors, user) < |debtors| ==>
      debtors[EntryOf(debtors, user)] == DebtorFrom(rows, user, from)
  {
    assert EntryOf(debtors, user) == |debtors| ==> !Owes(rows, user, from);
  }

  /**
   The loop of `findDebtors`. The result lists exactly the customers with
   something outstanding, each once with all their lines and their sum, the
   greatest debt first; the sums add up to all that is outstanding.
   */
  method FindDebtors(rows: seq<Row>) returns (debtors: seq<Debtor>)
    ensures AreDebtors(rows, debtors, 0) && GreatestFirst(debtors)
    ensures TotalDebt(debtors) == CountedDebt(rows, 0)
  {
    var byUser: seq<Debtor>, i := [], |rows|;
    hide EntryOf, AreDebtors, DebtorFrom, ToLine, OutstandingOf, SortBy;
    assert AreDebtors(rows, byUser, i) by {
      NoDebtors(rows);
    }
    while i > 0
      invariant 0 <= i <= |rows|
      invariant AreDebtors(rows, byUser, i)
      invariant TotalDebt(byUser) == CountedDebt(rows, i)
    {
      i := i - 1;
      var b := rows[i].booking;
      var line := ToLine(rows, i);
      LineIsDifference(rows, i);
      if b.isDemo || b.owed <= 0.0 || line.outstanding <= 0.0 {
        SameDebtors(rows, byUser, i);
        continue;
      }
      var k := EntryOf(byUser, b.user);
      NotYetAnEntry(rows, byUser, b.user, i + 1);
      OneMoreRow(rows, b.user, i);
      var entry := if k < |byUser| then byUser[k] else Debtor(b.user, 0.0, []);
      var grown := Debtor(b.user, entry.total + line.outstanding, entry.lines + [line]);
      if k < |byUser| {
        TotalAfterChange(byUser, k, grown);
      } else {
        TotalAppend(byUser, grown);
      }
      OneEntryChanges(rows, byUser, i);
      byUser := if k < |byUser| then byUser[k := grown] else byUser + [grown];
    }
    SortIsOrdered(byUser, ByDebt);
    TotalAfterSort(byUser);
    debtors := SortBy(byUser, ByDebt);
    assert forall k | 0 <= k < |debtors| :: ByDebt(debtors[k]) == -debtors[k].total;
    SortedAreDebtors(rows, byUser, debtors);
  }

  lemma NoDebtors(rows: seq<Row>)
    ensures AreDebtors(rows, [], |rows|)
  {
  }

  lemma LineIsDifference(rows: seq<Row>, i: nat)
    requires i < |rows|
    ensures var b := rows[i].booking; ToLine(rows, i).outstanding == Max(b.owed - b.paid, 0.0)
  {
  }

  lemma SortedAreDebtors(rows: seq<Row>, groups: seq<Debtor>, debtors: seq<Debtor>)
    requires AreDebtors(rows, groups, 0) && multiset(groups) == multiset(debtors)
    ensures AreDebtors(rows, debtors, 0)
  {
    OncePerUserInAnyOrder(groups, debtors);
    hide DebtorFrom, Owes;
    forall k | 0 <= k < |debtors|
      ensures debtors[k] == DebtorFrom(rows, debtors[k].user, 0) && Owes(rows, debtors[k].user, 0)
    {
      assert debtors[k] in multiset(debtors);
      var j :| 0 <= j < |groups| && groups[j] == debtors[k];
    }
    forall user | Owes(rows, user, 0)
      ensures HasUser(debtors, user)
    {
      assert HasUser(groups, user);
      var j :| 0 <= j < |groups| && groups[j].user == user;
      assert groups[j] in multiset(groups) && groups[j] in multiset(debtors);
      var k :| 0 <= k < |debtors| && debtors[k] == groups[j];
    }
  }

  // ----------------------------------------------------------------- dashboard

  function OwedCounted(row: Row): real {
    Counted(row, if row.booking.owed > 0.0 then row.booking.owed else 0.0)
  }

  function PaidCounted(row: Row): real {
    Counted(row, if row.booking.owed > 0.0 then row.booking.paid else 0.0)
  }

  /** The dashboard's figure: one aggregate over all counted bookings. */
  function OutstandingDebt(rows: seq<Row>): real {
    Total(rows, OwedCounted) - Total(rows, PaidCounted)
  }

  lemma {:induction false} CountedDebtIsAggregate(rows: seq<Row>, from: nat)
    requires AllInOrder(rows) && from <= |rows|
    ensures CountedDebt(rows, from) == OutstandingDebt(rows[from..])
    decreases |rows| - from
  {
    if from < |rows| {
      CountedDebtIsAggregate(rows, from + 1);
      assert rows[from..][1..] == rows[from + 1..];
      assert InOrder(rows[from]);
    }
  }

  /** What is unpaid on a booking that is no demonstration. */
  function UnpaidCounted(row: Row): real {
    if row.booking.isDemo then 0.0 else row.booking.owed - row.booking.paid
  }

  lemma {:induction false} DashboardIsUnpaid(rows: seq<Row>)
    requires AllInOrder(rows)
    ensures OutstandingDebt(rows) == Total(rows, UnpaidCounted)
  {
    if rows != [] {
      assert InOrder(rows[0]);
      PaidIsPositive(rows[0].history.debtPayments);
      DashboardIsUnpaid(rows[1..]);
    }
  }

  /** A debtor's lines are the unpaid bookings, and the total is what is unpaid on them. */
  predicate IsDebtor(rows: seq<Row>, d: Debtor) {
    && d.lines != [] && AreUnpaid(rows, d.lines, OfCounted(d.user), 0)
    && d.total == Total(rows, UnpaidOf(OfCounted(d.user)))
  }

  lemma OwingIsUnpaid(rows: seq<Row>, user: int)
    requires AllInOrder(rows)
    ensures Owes(rows, user, 0) ==> IsDebtor(rows, DebtorFrom(rows, user, 0))
    ensures Owes(rows, user, 0) <==> exists i | 0 <= i < |rows| :: Unpaid(OfCounted(user), rows[i].booking)
  {
    LinesAreUnpaidBookings(rows, OfCounted(user), 0);
    DebtIsUnpaid(rows, OfCounted(user), 0);
    assert rows[0..] == rows;
    var lines := Lines(rows, OfCounted(user), 0);
    if lines != [] {
      assert lines[0] in lines && Unpaid(OfCounted(user), rows[lines[0].row].booking);
    }
  }

  /**
   The list next to the dashboard: everyone with an unpaid booking, and nobody
   else, with those bookings and their sum; all sums are the dashboard's debt,
   which is all that is unpaid.
   */
  method DebtorsMatchDashboard(rows: seq<Row>) returns (debtors: seq<Debtor>)
    requires AllInOrder(rows)
    ensures AreDebtors(rows, debtors, 0) && GreatestFirst(debtors)
    ensures forall d <- debtors :: IsDebtor(rows, d)
    ensures forall user :: HasUser(debtors, user)
                           <==> exists i | 0 <= i < |rows| :: Unpaid(OfCounted(user), rows[i].booking)
    ensures TotalDebt(debtors) == OutstandingDebt(rows) == Total(rows, UnpaidCounted)
  {
    debtors := FindDebtors(rows);
    CountedDebtIsAggregate(rows, 0);
    DashboardIsUnpaid(rows);
    assert rows[0..] == rows;
    forall user: int
      ensures Owes(rows, user, 0) ==> IsDebtor(rows, DebtorFrom(rows, user, 0))
      ensures Owes(rows, user, 0) <==> exists i | 0 <= i < |rows| :: Unpaid(OfCounted(user), rows[i].booking)
    {
      OwingIsUnpaid(rows, user);
    }
    hide Owes, IsDebtor, Unpaid, OutstandingDebt, DebtorFrom;
  }
}

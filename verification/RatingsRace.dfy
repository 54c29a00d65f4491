/**
 Review transactions of one device, any number of them at once
 (backend/src/reviews/reviews.service.ts). A transaction changes a review, then
 aggregates what is committed together with its own change, and stores the
 aggregate when it commits; the row it changes is locked meanwhile. What others
 commit between its aggregate and its commit is missing from the stored rating.
 */
module RatingsRace {
  import opened Outcomes
  import opened Ratings

  /** A new review, or a new version of one: edited, hidden, shown, removed or restored. */
  datatype Change = Add(review: Review) | Put(row: nat, review: Review)

  function Do(reviews: seq<Review>, c: Change): seq<Review> {
    match c
    case Add(r) => reviews + [r]
    case Put(i, r) => if i < |reviews| then reviews[i := r] else reviews
  }

  function DoAll(reviews: seq<Review>, changes: seq<Change>): seq<Review> {
    if changes == [] then reviews else Do(DoAll(reviews, changes[..|changes| - 1]), changes[|changes| - 1])
  }

  /** An open transaction: its change, the reviews its aggregate saw, and what was committed since. */
  datatype Transaction = Transaction(change: Change, base: seq<Review>, window: seq<Change>)

  /** `last` is the transaction that committed last. */
  datatype Database = Database(reviews: seq<Review>, rating: Rating, open: seq<Transaction>, last: Option<Transaction>)

  datatype Event = Aggregate(change: Change) | Commit(transaction: nat)

  /** Does an open transaction hold the lock on the row? */
  predicate Locked(db: Database, row: nat) {
    exists t <- db.open :: t.change.Put? && t.change.row == row
  }

  /** A transaction that cannot get its row waits; it then comes as another event. */
  predicate CanAggregate(db: Database, c: Change) {
    c.Put? ==> c.row < |db.reviews| && !Locked(db, c.row)
  }

  function Notice(t: Transaction, c: Change): Transaction {
    t.(window := t.window + [c])
  }

  function Apply(db: Database, e: Event, device: int): Database {
    match e
    case Aggregate(c) =>
      if CanAggregate(db, c) then db.(open := db.open + [Transaction(c, db.reviews, [])]) else db
    case Commit(k) =>
      if k >= |db.open| then db
      else
        var t := db.open[k];
        var others := db.open[..k] + db.open[k + 1..];
        Database(Do(db.reviews, t.change), RatingOf(Do(t.base, t.change), device),
                 seq(|others|, i requires 0 <= i < |others| => Notice(others[i], t.change)), Some(t))
  }

  function Run(db: Database, events: seq<Event>, device: int): Database
    decreases |events|
  {
    if events == [] then db else Run(Apply(db, events[0], device), events[1..], device)
  }

  // ------------------------------------------------------- what a change counts

  function One(b: bool): int {
    if b then 1 else 0
  }

  function Stars(r: Review, device: int): int {
    if Counts(r, device) then r.rating else 0
  }

  /** By how much a change moves the number of visible reviews. */
  function CountDelta(reviews: seq<Review>, c: Change, device: int): int {
    match c
    case Add(r) => One(Counts(r, device))
    case Put(i, r) => if i < |reviews| then One(Counts(r, device)) - One(Counts(reviews[i], device)) else 0
  }

  function SumDelta(reviews: seq<Review>, c: Change, device: int): int {
    match c
    case Add(r) => Stars(r, device)
    case Put(i, r) => if i < |reviews| then Stars(r, device) - Stars(reviews[i], device) else 0
  }

  lemma {:induction false} Replaced(reviews: seq<Review>, i: nat, r: Review, device: int)
    requires i < |reviews|
    ensures CountOf(reviews[i := r], device)
         == CountOf(reviews, device) - One(Counts(reviews[i], device)) + One(Counts(r, device))
    ensures SumOf(reviews[i := r], device) == SumOf(reviews, device) - Stars(reviews[i], device) + Stars(r, device)
  {
    if i == 0 {
      assert reviews[0 := r][1..] == reviews[1..];
    } else {
      assert reviews[i := r][1..] == reviews[1..][i - 1 := r];
      Replaced(reviews[1..], i - 1, r, device);
    }
  }

  lemma DoMoves(reviews: seq<Review>, c: Change, device: int)
    ensures CountOf(Do(reviews, c), device) == CountOf(reviews, device) + CountDelta(reviews, c, device)
    ensures SumOf(Do(reviews, c), device) == SumOf(reviews, device) + SumDelta(reviews, c, device)
  {
    match c
    case Add(r) => Appended(reviews, r, device);
    case Put(i, r) =>
      if i < |reviews| {
        Replaced(reviews, i, r, device);
      }
  }

  /** Changes that leave a row alone. */
  predicate Avoids(changes: seq<Change>, c: Change) {
    c.Put? ==> forall j | 0 <= j < |changes| :: !(changes[j].Put? && changes[j].row == c.row)
  }

  lemma {:induction false} Untouched(reviews: seq<Review>, changes: seq<Change>, i: nat)
    requires i < |reviews| && forall j | 0 <= j < |changes| :: !(changes[j].Put? && changes[j].row == i)
    ensures i < |DoAll(reviews, changes)| && DoAll(reviews, changes)[i] == reviews[i]
  {
    if changes != [] {
      Untouched(reviews, changes[..|changes| - 1], i);
    }
  }

  // ------------------------------------------------------------------ invariant

  /** By how much the visible reviews have moved since the transaction's aggregate. */
  function MissedCount(t: Transaction, device: int): int {
    CountOf(DoAll(t.base, t.window), device) - CountOf(t.base, device)
  }

  function MissedSum(t: Transaction, device: int): int {
    SumOf(DoAll(t.base, t.window), device) - SumOf(t.base, device)
  }

  /** The window leads from what the transaction saw to what is committed now, past the row it holds. */
  predicate OpenOk(db: Database, t: Transaction) {
    && DoAll(t.base, t.window) == db.reviews && Avoids(t.window, t.change)
    && (t.change.Put? ==> t.change.row < |t.base|)
  }

  /** No two open transactions hold one row. */
  predicate SameRow(t: Transaction, u: Transaction) {
    t.change.Put? && u.change.Put? && t.change.row == u.change.row
  }

  predicate RowsHeldOnce(db: Database) {
    forall j, k | 0 <= j < k < |db.open| :: !SameRow(db.open[j], db.open[k])
  }

  /** The stored rating is that of the reviews, but for what the last committer missed. */
  predicate StoredOk(db: Database, device: int) {
    match db.last
    case None => db.rating == RatingOf(db.reviews, device)
    case Some(t) =>
      && db.reviews == Do(DoAll(t.base, t.window), t.change)
      && db.rating == RatingOf(Do(t.base, t.change), device)
      && Avoids(t.window, t.change) && (t.change.Put? ==> t.change.row < |t.base|)
  }

  predicate DatabaseOk(db: Database, device: int) {
    && (forall k | 0 <= k < |db.open| :: OpenOk(db, db.open[k]))
    && RowsHeldOnce(db) && StoredOk(db, device)
  }

  lemma NoticeKeepsOpen(db: Database, t: Transaction, c: Change, after: Database)
    requires OpenOk(db, t) && after.reviews == Do(db.reviews, c)
    requires !(t.change.Put? && c.Put? && c.row == t.change.row)
    ensures OpenOk(after, Notice(t, c))
  {
    assert (t.window + [c])[..|t.window|] == t.window;
  }

  /** The open transactions after a commit, in the numbering before it. */
  lemma OthersAfterCommit(db: Database, k: nat, device: int, i: nat)
    requires k < |db.open| && i < |db.open| - 1
    ensures var j, after := if i < k then i else i + 1, Apply(db, Commit(k), device);
      |after.open| == |db.open| - 1 && after.open[i] == Notice(db.open[j], db.open[k].change)
  {
    hide RatingOf, Do;
  }

  lemma OthersStayOk(db: Database, k: nat, device: int, i: nat)
    requires DatabaseOk(db, device) && k < |db.open| && i < |db.open| - 1
    ensures var after := Apply(db, Commit(k), device);
      |after.open| == |db.open| - 1 && OpenOk(after, after.open[i])
  {
    var t, j := db.open[k], if i < k then i else i + 1;
    OthersAfterCommit(db, k, device, i);
    assert OpenOk(db, db.open[j]);
    assert !SameRow(db.open[if j < k then j else k], db.open[if j < k then k else j]);
    NoticeKeepsOpen(db, db.open[j], t.change, Apply(db, Commit(k), device));
    hide OpenOk, StoredOk, RatingOf;
  }

  lemma CommitKeepsOk(db: Database, k: nat, device: int)
    requires DatabaseOk(db, device) && k < |db.open|
    ensures DatabaseOk(Apply(db, Commit(k), device), device)
  {
    var t := db.open[k];
    var after := Apply(db, Commit(k), device);
    assert OpenOk(db, t);
    assert StoredOk(after, device);
    assert |after.open| == |db.open| - 1;
    hide StoredOk, OpenOk, Apply;
    forall i | 0 <= i < |after.open|
      ensures OpenOk(after, after.open[i])
    {
      OthersStayOk(db, k, device, i);
    }
    forall i, j | 0 <= i < j < |after.open|
      ensures !SameRow(after.open[i], after.open[j])
    {
      OthersAfterCommit(db, k, device, i);
      OthersAfterCommit(db, k, device, j);
      var a, b := if i < k then i else i + 1, if j < k then j else j + 1;
      assert !SameRow(db.open[a], db.open[b]);
    }
  }

  lemma AggregateKeepsOk(db: Database, c: Change, device: int)
    requires DatabaseOk(db, device)
    ensures DatabaseOk(Apply(db, Aggregate(c), device), device)
  {
    if CanAggregate(db, c) {
      var t := Transaction(c, db.reviews, []);
      assert OpenOk(db, t);
      forall j | 0 <= j < |db.open|
        ensures !SameRow(db.open[j], t)
      {
        assert db.open[j] in db.open;
      }
    }
  }

  lemma {:induction false} RunKeepsOk(db: Database, events: seq<Event>, device: int)
    requires DatabaseOk(db, device)
    ensures DatabaseOk(Run(db, events, device), device)
    decreases |events|
  {
    if events != [] {
      match events[0] {
        case Aggregate(c) => AggregateKeepsOk(db, c, device);
        case Commit(k) => if k < |db.open| { CommitKeepsOk(db, k, device); }
      }
      RunKeepsOk(Apply(db, events[0], device), events[1..], device);
    }
  }

  // ------------------------------------------------------------------- theorems

  lemma {:induction false} NoCountNoSum(reviews: seq<Review>, device: int)
    requires CountOf(reviews, device) == 0
    ensures SumOf(reviews, device) == 0
  {
    if reviews != [] {
      NoCountNoSum(reviews[1..], device);
    }
  }

  lemma SameMean(n: real, a: real, b: real)
    requires n > 0.0 && a / n == b / n
    ensures a == b
  {
    assert a == a / n * n && b == b / n * n;
  }

  lemma RatingsDiffer(a: seq<Review>, b: seq<Review>, device: int)
    ensures RatingOf(a, device) == RatingOf(b, device)
       <==> CountOf(a, device) == CountOf(b, device) && SumOf(a, device) == SumOf(b, device)
  {
    var n := CountOf(a, device);
    if RatingOf(a, device) == RatingOf(b, device) {
      if n == 0 {
        NoCountNoSum(a, device);
        NoCountNoSum(b, device);
      } else {
        SameMean(n as real, SumOf(a, device) as real, SumOf(b, device) as real);
      }
    }
  }

  /** The transaction's own change counts the same before and after its window. */
  lemma ChangeCommutes(t: Transaction, device: int)
    requires Avoids(t.window, t.change) && (t.change.Put? ==> t.change.row < |t.base|)
    ensures CountOf(Do(DoAll(t.base, t.window), t.change), device)
         == CountOf(Do(t.base, t.change), device) + MissedCount(t, device)
    ensures SumOf(Do(DoAll(t.base, t.window), t.change), device)
         == SumOf(Do(t.base, t.change), device) + MissedSum(t, device)
  {
    DoMoves(t.base, t.change, device);
    DoMoves(DoAll(t.base, t.window), t.change, device);
    if t.change.Put? {
      Untouched(t.base, t.window, t.change.row);
    }
  }

  /** No transaction is open and the stored rating is right. */
  predicate Initial(db: Database, device: int) {
    db.open == [] && db.last.None? && db.rating == RatingOf(db.reviews, device)
  }

  /**
   After every run of any number of interleaved transactions: the stored count is
   short by exactly what the visible reviews gained between the last committer's
   aggregate and its commit, and the stored rating is right if and only if in that
   window neither their number nor their stars moved.
   */
  lemma StoredRatingExactly(db: Database, events: seq<Event>, device: int)
    requires Initial(db, device) && Run(db, events, device).last.Some?
    ensures var end := Run(db, events, device);
      var t := end.last.value;
      && end.rating.count == CountOf(end.reviews, device) - MissedCount(t, device)
      && (end.rating == RatingOf(end.reviews, device) <==> MissedCount(t, device) == 0 && MissedSum(t, device) == 0)
  {
    RunKeepsOk(db, events, device);
    var end := Run(db, events, device);
    var t := end.last.value;
    hide Run;
    ChangeCommutes(t, device);
    RatingsDiffer(end.reviews, Do(t.base, t.change), device);
  }

  /** A change of reviews that are not visible, before or after. */
  predicate Uncounted(reviews: seq<Review>, c: Change, device: int) {
    !Counts(c.review, device) && (c.Put? && c.row < |reviews| ==> !Counts(reviews[c.row], device))
  }

  predicate WindowUncounted(base: seq<Review>, window: seq<Change>, device: int) {
    forall j | 0 <= j < |window| :: Uncounted(DoAll(base, window[..j]), window[j], device)
  }

  lemma {:induction false} UncountedMovesNothing(base: seq<Review>, window: seq<Change>, device: int)
    requires WindowUncounted(base, window, device)
    ensures CountOf(DoAll(base, window), device) == CountOf(base, device)
    ensures SumOf(DoAll(base, window), device) == SumOf(base, device)
  {
    if window != [] {
      var n := |window| - 1;
      forall j | 0 <= j < n
        ensures Uncounted(DoAll(base, window[..n][..j]), window[..n][j], device)
      {
        assert window[..n][..j] == window[..j];
      }
      UncountedMovesNothing(base, window[..n], device);
      DoMoves(DoAll(base, window[..n]), window[n], device);
      assert Uncounted(DoAll(base, window[..n]), window[n], device);
    }
  }

  /** In particular: right whenever no counted change was committed in that window, as when transactions are serial. */
  lemma RightWithoutCountedChanges(db: Database, events: seq<Event>, device: int)
    requires Initial(db, device)
    requires var last := Run(db, events, device).last;
      last.Some? ==> WindowUncounted(last.value.base, last.value.window, device)
    ensures Run(db, events, device).rating == RatingOf(Run(db, events, device).reviews, device)
  {
    RunKeepsOk(db, events, device);
    var end := Run(db, events, device);
    if end.last.Some? {
      StoredRatingExactly(db, events, device);
      hide Run;
      UncountedMovesNothing(end.last.value.base, end.last.value.window, device);
    }
  }

  function VisibleAdds(window: seq<Change>, device: int): nat {
    if window == [] then 0
    else VisibleAdds(window[..|window| - 1], device) + if Counts(window[|window| - 1].review, device) then 1 else 0
  }

  lemma {:induction false} AddsMoveCount(base: seq<Review>, window: seq<Change>, device: int)
    requires forall j | 0 <= j < |window| :: window[j].Add?
    ensures CountOf(DoAll(base, window), device) == CountOf(base, device) + VisibleAdds(window, device)
  {
    if window != [] {
      var n := |window| - 1;
      AddsMoveCount(base, window[..n], device);
      DoMoves(DoAll(base, window[..n]), window[n], device);
    }
  }

  /** And when only creations were committed in the window, the count is short by the visible ones among them. */
  lemma ShortByVisibleCreations(db: Database, events: seq<Event>, device: int)
    requires Initial(db, device) && Run(db, events, device).last.Some?
    requires forall j | 0 <= j < |Run(db, events, device).last.value.window| ::
      Run(db, events, device).last.value.window[j].Add?
    ensures var end := Run(db, events, device);
      end.rating.count == CountOf(end.reviews, device) - VisibleAdds(end.last.value.window, device)
  {
    StoredRatingExactly(db, events, device);
    var t := Run(db, events, device).last.value;
    hide Run;
    AddsMoveCount(t.base, t.window, device);
  }

  /** Two creations that both aggregate before either commits leave the count one short. */
  lemma InterleavedCreationsLoseCount(db: Database, a: Review, b: Review, device: int)
    requires Initial(db, device) && Counts(a, device) && Counts(b, device)
    ensures var end := Run(db, [Aggregate(Add(a)), Aggregate(Add(b)), Commit(0), Commit(0)], device);
      end.reviews == db.reviews + [a] + [b] && end.rating.count + 1 == CountOf(end.reviews, device)
  {
    var s1 := Apply(db, Aggregate(Add(a)), device);
    var s2 := Apply(s1, Aggregate(Add(b)), device);
    var s3 := Apply(s2, Commit(0), device);
    var s4 := Apply(s3, Commit(0), device);
    var x, y := Transaction(Add(a), db.reviews, []), Transaction(Add(b), db.reviews, []);
    assert s1.open == [x] && s2.open == [x, y];
    assert s3.open == [Notice(y, Add(a))] && s3.reviews == db.reviews + [a];
    assert s4.last == Some(Notice(y, Add(a))) && s4.reviews == db.reviews + [a] + [b];
    var events := [Aggregate(Add(a)), Aggregate(Add(b)), Commit(0), Commit(0)];
    hide Apply;
    assert events[1..] == [Aggregate(Add(b)), Commit(0), Commit(0)] && events[1..][1..] == [Commit(0), Commit(0)];
    assert [Commit(0), Commit(0)][1..] == [Commit(0)] && [Commit(0)][1..] == [];
    assert Run(s2, [Commit(0), Commit(0)], device) == Run(s3, [Commit(0)], device) == Run(s4, [], device) == s4;
    assert Run(s1, events[1..], device) == s4;
    assert Run(db, events, device) == s4;
    hide Run;
    ShortByVisibleCreations(db, events, device);
    assert VisibleAdds([Add(a)], device) == VisibleAdds([], device) + 1;
  }
}

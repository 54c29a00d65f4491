/**
 The limit on edits of a review (`update` in
 backend/src/reviews/reviews.service.ts). An edit is two conditional updates:
 one that counts up if the row was already edited today and has edits left, and,
 if that hit nothing, one that starts a new day. Edits of one review interleave
 between the two. A day is the number of the store's calendar day.
 */
module ReviewQuota {
  import opened Outcomes

  const REVIEW_EDITS_PER_DAY := 5

  datatype Phase = First | Second | Saved | TooMany

  /** One call of `update`, with the day it computed when it began. */
  datatype Edit = Edit(today: int, phase: Phase)

  /** The row's columns, the calls under way, and the days of the edits that succeeded, in order. */
  datatype Review = Review(deleted: bool, editDay: Option<int>, editCount: nat, edits: seq<Edit>, saved: seq<int>)

  datatype Event = Begin(today: int) | Step(edit: nat) | SetDeleted(deleted: bool)

  /** The first conditional update: same day, edits left. */
  predicate CountsUp(r: Review, today: int) {
    !r.deleted && r.editDay == Some(today) && r.editCount < REVIEW_EDITS_PER_DAY
  }

  /** The second conditional update: never edited, or edited on another day. */
  predicate StartsDay(r: Review, today: int) {
    !r.deleted && (r.editDay.None? || r.editDay.value != today)
  }

  function StepEdit(r: Review, k: nat): Review
    requires k < |r.edits|
  {
    var e := r.edits[k];
    match e.phase
    case First =>
      if CountsUp(r, e.today) then
        r.(editCount := r.editCount + 1, edits := r.edits[k := e.(phase := Saved)], saved := r.saved + [e.today])
      else r.(edits := r.edits[k := e.(phase := Second)])
    case Second =>
      if StartsDay(r, e.today) then
        r.(editDay := Some(e.today), editCount := 1,
           edits := r.edits[k := e.(phase := Saved)], saved := r.saved + [e.today])
      else r.(edits := r.edits[k := e.(phase := TooMany)])
    case _ => r
  }

  function Apply(r: Review, e: Event): Review {
    match e
    case Begin(today) => if r.deleted then r else r.(edits := r.edits + [Edit(today, First)])
    case Step(k) => if k < |r.edits| then StepEdit(r, k) else r
    case SetDeleted(deleted) => r.(deleted := deleted)
  }

  function Run(r: Review, events: seq<Event>): Review
    decreases |events|
  {
    if events == [] then r else Run(Apply(r, events[0]), events[1..])
  }

  /** How many edits succeeded on a day. */
  function SavedOn(saved: seq<int>, day: int): nat {
    if saved == [] then 0
    else SavedOn(saved[..|saved| - 1], day) + if saved[|saved| - 1] == day then 1 else 0
  }

  /** The counter is the number of edits saved on the row's day, and no day is over the limit. */
  ghost predicate QuotaOk(r: Review) {
    && (r.editDay.None? ==> r.saved == [] && r.editCount == 0)
    && (r.editDay.Some? ==> r.editCount == SavedOn(r.saved, r.editDay.value))
    && forall day :: SavedOn(r.saved, day) <= REVIEW_EDITS_PER_DAY
  }

  /** In every state of the run. */
  ghost predicate AlwaysQuotaOk(r: Review, events: seq<Event>)
    decreases |events|
  {
    QuotaOk(r) && (events == [] || AlwaysQuotaOk(Apply(r, events[0]), events[1..]))
  }

  /** The second update starts a day on which an edit was saved before, because another day came in between. */
  predicate RestartsDay(r: Review, e: Event) {
    && e.Step? && e.edit < |r.edits| && r.edits[e.edit].phase.Second?
    && StartsDay(r, r.edits[e.edit].today) && r.edits[e.edit].today in r.saved
  }

  predicate NeverRestartsDay(r: Review, events: seq<Event>)
    decreases |events|
  {
    events == [] || (!RestartsDay(r, events[0]) && NeverRestartsDay(Apply(r, events[0]), events[1..]))
  }

  lemma SavedOneMore(saved: seq<int>, today: int, day: int)
    ensures SavedOn(saved + [today], day) == SavedOn(saved, day) + if today == day then 1 else 0
  {
    assert (saved + [today])[..|saved|] == saved;
  }

  lemma {:induction false} SavedIsMultiplicity(saved: seq<int>, day: int)
    ensures SavedOn(saved, day) == multiset(saved)[day]
  {
    if saved != [] {
      SavedIsMultiplicity(saved[..|saved| - 1], day);
      assert saved == saved[..|saved| - 1] + [saved[|saved| - 1]];
    }
  }

  lemma {:induction false} NoneSavedLater(saved: seq<int>, day: int)
    requires forall d <- saved :: d != day
    ensures SavedOn(saved, day) == 0
  {
    if saved != [] {
      var init, last := saved[..|saved| - 1], saved[|saved| - 1];
      assert last in saved && forall d <- init :: d in saved;
      NoneSavedLater(init, day);
    }
  }

  lemma {:induction false} SomeSaved(saved: seq<int>, day: int)
    requires day in saved
    ensures SavedOn(saved, day) > 0
  {
    var init, last := saved[..|saved| - 1], saved[|saved| - 1];
    if last != day {
      assert saved == init + [last];
      SomeSaved(init, day);
    }
  }

  /** Saving an edit of `today`, which was below the limit: the counter decides. */
  lemma SavingKeepsQuota(r: Review, today: int, after: Review)
    requires QuotaOk(r) && SavedOn(r.saved, today) < REVIEW_EDITS_PER_DAY
    requires after.saved == r.saved + [today] && after.editDay == Some(today)
    ensures QuotaOk(after) <==> after.editCount == SavedOn(r.saved, today) + 1
  {
    forall day
      ensures SavedOn(after.saved, day) == SavedOn(r.saved, day) + if today == day then 1 else 0
    {
      SavedOneMore(r.saved, today, day);
    }
    hide SavedOn;
  }

  /** A restart leaves a counter of one where more edits were saved; nothing else breaks the quota. */
  lemma RestartBreaksQuota(r: Review, e: Event)
    requires QuotaOk(r) && RestartsDay(r, e)
    ensures !QuotaOk(Apply(r, e))
  {
    var today := r.edits[e.edit].today;
    SomeSaved(r.saved, today);
    SavedOneMore(r.saved, today, today);
    assert Apply(r, e).editCount == 1 && Apply(r, e).saved == r.saved + [today];
  }

  lemma StepKeepsQuota(r: Review, e: Event)
    requires QuotaOk(r) && !RestartsDay(r, e)
    ensures QuotaOk(Apply(r, e))
  {
    var after := Apply(r, e);
    if after.saved != r.saved {
      var today := r.edits[e.edit].today;
      if r.edits[e.edit].phase.Second? {
        NoneSavedLater(r.saved, today);
      }
      hide SavedOn;
      SavingKeepsQuota(r, today, after);
    } else {
      hide SavedOn;
      assert after.editDay == r.editDay && after.editCount == r.editCount;
    }
  }

  /**
   In every interleaving of edits: in every state no day has seen more than five
   successful edits and the counter is the number of edits saved on the row's day,
   if and only if no second update starts a day that was already edited on.
   */
  lemma {:induction false} QuotaHoldsExactly(r: Review, events: seq<Event>)
    requires QuotaOk(r)
    ensures AlwaysQuotaOk(r, events) <==> NeverRestartsDay(r, events)
    decreases |events|
  {
    if events != [] {
      var e := events[0];
      if RestartsDay(r, e) {
        RestartBreaksQuota(r, e);
      } else {
        StepKeepsQuota(r, e);
        hide QuotaOk, RestartsDay, Apply;
        QuotaHoldsExactly(Apply(r, e), events[1..]);
      }
    }
  }

  /** A review that has not been edited, with no calls under way. */
  const NEW := Review(false, None, 0, [], [])

  // ---------------------------------------------------------- days in order

  /** No call steps with a day that is before the day of the row. */
  predicate InDayOrder(r: Review, e: Event) {
    e.Step? && e.edit < |r.edits| && r.editDay.Some? ==> r.edits[e.edit].today >= r.editDay.value
  }

  predicate RunsInDayOrder(r: Review, events: seq<Event>)
    decreases |events|
  {
    events == [] || (InDayOrder(r, events[0]) && RunsInDayOrder(Apply(r, events[0]), events[1..]))
  }

  /** The row's day is the last one on which an edit was saved. */
  predicate LastDay(r: Review) {
    if r.editDay.None? then r.saved == [] else forall d <- r.saved :: d <= r.editDay.value
  }

  lemma {:induction false} InOrderNeverRestarts(r: Review, events: seq<Event>)
    requires LastDay(r) && RunsInDayOrder(r, events)
    ensures NeverRestartsDay(r, events)
    decreases |events|
  {
    if events != [] {
      InOrderNeverRestarts(Apply(r, events[0]), events[1..]);
    }
  }

  lemma {:induction false} AlwaysEnds(r: Review, events: seq<Event>)
    requires AlwaysQuotaOk(r, events)
    ensures QuotaOk(Run(r, events))
    decreases |events|
  {
    if events != [] {
      AlwaysEnds(Apply(r, events[0]), events[1..]);
    }
  }

  /** In particular the quota holds when days never go back. */
  lemma RunKeepsQuota(events: seq<Event>)
    requires RunsInDayOrder(NEW, events)
    ensures QuotaOk(Run(NEW, events)) && forall day :: multiset(Run(NEW, events).saved)[day] <= 5
  {
    InOrderNeverRestarts(NEW, events);
    QuotaHoldsExactly(NEW, events);
    AlwaysEnds(NEW, events);
    forall day
      ensures SavedOn(Run(NEW, events).saved, day) == multiset(Run(NEW, events).saved)[day]
    {
      SavedIsMultiplicity(Run(NEW, events).saved, day);
    }
  }

  // -------------------------------------------------------- one edit by itself

  /** A call that begins and runs to its end without another one in between. */
  function EditAlone(r: Review, today: int): Review {
    Run(r, [Begin(today), Step(|r.edits|), Step(|r.edits|)])
  }

  lemma RunThree(r: Review, a: Event, b: Event, c: Event)
    ensures Run(r, [a, b, c]) == Apply(Apply(Apply(r, a), b), c)
  {
    var ra := Apply(r, a);
    var rb := Apply(ra, b);
    assert [a, b, c][1..] == [b, c] && [b, c][1..] == [c] && [c][1..] == [];
    assert Run(r, [a, b, c]) == Run(ra, [b, c]) && Run(ra, [b, c]) == Run(rb, [c]);
    assert Run(rb, [c]) == Run(Apply(rb, c), []);
  }

  /**
   After any run in which days never go back, an edit by itself succeeds if and
   only if fewer than five were saved that day and the review is not removed; the
   row then has the day and the number of its edits, and otherwise nothing changes.
   */
  lemma EditSucceedsExactly(events: seq<Event>, today: int)
    requires RunsInDayOrder(NEW, events)
    requires forall day <- Run(NEW, events).saved :: day <= today
    ensures var r := Run(NEW, events); var after := EditAlone(r, today);
      if !r.deleted && multiset(r.saved)[today] < 5 then
        && after.saved == r.saved + [today] && after.editDay == Some(today)
        && after.editCount == multiset(r.saved)[today] + 1
      else
        after.saved == r.saved && after.editDay == r.editDay && after.editCount == r.editCount
  {
    var r := Run(NEW, events);
    RunKeepsQuota(events);
    SavedIsMultiplicity(r.saved, today);
    var i := |r.edits|;
    var begun := Apply(r, Begin(today));
    var once := Apply(begun, Step(i));
    RunThree(r, Begin(today), Step(i), Step(i));
    if r.editDay.Some? && r.editDay.value != today && today in r.saved {
      LastSavedInOrder(NEW, events);
    }
    if today !in r.saved {
      NoneSavedLater(r.saved, today);
    }
  }

  /** While days never go back, the row's day is the last one that was saved, and it was saved. */
  lemma {:induction false} LastSavedInOrder(r: Review, events: seq<Event>)
    requires RunsInDayOrder(r, events) && LastDay(r) && (r.editDay.Some? ==> r.editDay.value in r.saved)
    ensures LastDay(Run(r, events))
    ensures Run(r, events).editDay.Some? ==> Run(r, events).editDay.value in Run(r, events).saved
    decreases |events|
  {
    if events != [] {
      LastSavedInOrder(Apply(r, events[0]), events[1..]);
    }
  }

  // -------------------------------------------------------- when days go back

  /** Calls number `a` on that computed one day and calls number `b` on that computed another, not yet stepped. */
  predicate Waiting(r: Review, a: nat, b: nat, n: nat, today: int, tomorrow: int) {
    && a + n <= b && b + n <= |r.edits|
    && (forall k | a <= k < a + n :: r.edits[k] == Edit(today, First))
    && forall k | b <= k < b + n :: r.edits[k] == Edit(tomorrow, First)
  }

  /** The calls of the two days run in turns, one after the other. */
  function InTurns(a: nat, b: nat, n: nat): seq<Event>
    decreases n
  {
    if n == 0 then [] else [Step(a), Step(a)] + ([Step(b), Step(b)] + InTurns(a + 1, b + 1, n - 1))
  }

  lemma {:induction false} RunTwoParts(r: Review, a: seq<Event>, b: seq<Event>)
    ensures Run(r, a + b) == Run(Run(r, a), b)
    decreases |a|
  {
    if a == [] {
      assert a + b == b;
    } else {
      assert (a + b)[1..] == a[1..] + b;
      RunTwoParts(Apply(r, a[0]), a[1..], b);
    }
  }

  function AfterEdit(r: Review, k: nat, today: int): Review
    requires k < |r.edits|
  {
    r.(editDay := Some(today), editCount := 1, edits := r.edits[k := Edit(today, Saved)], saved := r.saved + [today])
  }

  /** A call that finds another day in the row starts its own day. */
  lemma OneEdit(r: Review, k: nat, today: int)
    requires !r.deleted && (r.editDay.None? || r.editDay.value != today)
    requires k < |r.edits| && r.edits[k] == Edit(today, First)
    ensures Run(r, [Step(k), Step(k)]) == AfterEdit(r, k, today)
  {
    var once := Apply(r, Step(k));
    assert once == r.(edits := r.edits[k := Edit(today, Second)]);
    var twice := Apply(once, Step(k));
    assert r.edits[k := Edit(today, Second)][k := Edit(today, Saved)] == r.edits[k := Edit(today, Saved)];
    assert [Step(k), Step(k)][1..] == [Step(k)] && [Step(k)][1..] == [];
    assert Run(r, [Step(k), Step(k)]) == Run(once, [Step(k)]) == Run(twice, []) == twice;
  }

  /** Calls of two days running in turns each find the other day in the row: all edits of the first day are saved. */
  lemma {:induction false} TurnsAreUnlimited(r: Review, a: nat, b: nat, n: nat, today: int, tomorrow: int)
    requires !r.deleted && (r.editDay.None? || r.editDay.value != today) && today != tomorrow
    requires Waiting(r, a, b, n, today, tomorrow)
    ensures SavedOn(Run(r, InTurns(a, b, n)).saved, today) == SavedOn(r.saved, today) + n
    decreases n
  {
    if n > 0 {
      var two := AfterEdit(AfterEdit(r, a, today), b, tomorrow);
      TwoEdits(r, a, b, n, today, tomorrow);
      SavedOneMore(r.saved, today, today);
      SavedOneMore(r.saved + [today], tomorrow, today);
      hide SavedOn, InTurns, Run;
      TurnsAreUnlimited(two, a + 1, b + 1, n - 1, today, tomorrow);
    }
  }

  lemma TwoEdits(r: Review, a: nat, b: nat, n: nat, today: int, tomorrow: int)
    requires !r.deleted && (r.editDay.None? || r.editDay.value != today) && today != tomorrow
    requires Waiting(r, a, b, n, today, tomorrow) && n > 0
    ensures var two := AfterEdit(AfterEdit(r, a, today), b, tomorrow);
      && Run(r, InTurns(a, b, n)) == Run(two, InTurns(a + 1, b + 1, n - 1))
      && Waiting(two, a + 1, b + 1, n - 1, today, tomorrow)
  {
    var one := AfterEdit(r, a, today);
    var rest := InTurns(a + 1, b + 1, n - 1);
    OneEdit(r, a, today);
    OneEdit(one, b, tomorrow);
    RunTwoParts(r, [Step(a), Step(a)], [Step(b), Step(b)] + rest);
    RunTwoParts(one, [Step(b), Step(b)], rest);
  }

  // ---------------------------------------------------------- from a new review

  function Begins(today: int, n: nat): seq<Event>
    decreases n
  {
    if n == 0 then [] else [Begin(today)] + Begins(today, n - 1)
  }

  function Fresh(today: int, n: nat): seq<Edit> {
    seq(n, _ => Edit(today, First))
  }

  lemma {:induction false} RunBegins(r: Review, today: int, n: nat)
    requires !r.deleted
    ensures Run(r, Begins(today, n)) == r.(edits := r.edits + Fresh(today, n))
    decreases n
  {
    if n == 0 {
      assert r.edits + Fresh(today, 0) == r.edits;
    } else {
      var next := r.(edits := r.edits + [Edit(today, First)]);
      assert Begins(today, n)[1..] == Begins(today, n - 1);
      RunBegins(next, today, n - 1);
      assert r.edits + [Edit(today, First)] + Fresh(today, n - 1) == r.edits + Fresh(today, n);
    }
  }

  /** `n` calls begin before midnight and `n` after it, and then they run in turns. */
  function AcrossMidnight(today: int, n: nat): seq<Event> {
    Begins(today, n) + (Begins(today + 1, n) + InTurns(0, n, n))
  }

  /** Without the order of days there is no limit: a new review is edited `n` times on one day, for every `n`. */
  lemma AlternatingDaysAreUnlimited(today: int, n: nat)
    ensures SavedOn(Run(NEW, AcrossMidnight(today, n)).saved, today) == n
  {
    RunTwoParts(NEW, Begins(today, n), Begins(today + 1, n) + InTurns(0, n, n));
    RunBegins(NEW, today, n);
    var evening := NEW.(edits := Fresh(today, n));
    assert [] + Fresh(today, n) == Fresh(today, n);
    RunTwoParts(evening, Begins(today + 1, n), InTurns(0, n, n));
    RunBegins(evening, today + 1, n);
    var both := NEW.(edits := Fresh(today, n) + Fresh(today + 1, n));
    assert Waiting(both, 0, n, n, today, today + 1);
    hide Run;
    TurnsAreUnlimited(both, 0, n, n, today, today + 1);
  }
}

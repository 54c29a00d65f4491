/**
 The stored rating of a device and the operations on reviews that keep it up to
 date (backend/src/reviews/reviews.service.ts), each transaction running without
 interruption (`RatingsRace` interleaves them); and the rating summary.
 */
module Ratings {
  import opened Lists
  import opened Outcomes
  import ReviewQuota

  datatype Review = Review(
    id: int, user: int, device: int, rating: int, hidden: bool, deleted: bool,
    editDay: Option<int>, editCount: nat)

  /** The columns `avgRating` and `reviewCount` of a device. */
  datatype Rating = Rating(mean: Option<real>, count: nat)

  datatype Refusal = BadRequest | Forbidden | NotFound | Conflict | TooManyRequests

  /** Neither hidden nor deleted, and of this device. */
  predicate Counts(r: Review, device: int) {
    r.device == device && !r.hidden && !r.deleted
  }

  function CountOf(reviews: seq<Review>, device: int): nat {
    if reviews == [] then 0
    else (if Counts(reviews[0], device) then 1 else 0) + CountOf(reviews[1..], device)
  }

  function SumOf(reviews: seq<Review>, device: int): int {
    if reviews == [] then 0
    else (if Counts(reviews[0], device) then reviews[0].rating else 0) + SumOf(reviews[1..], device)
  }

  /** An edit is left on the day. */
  predicate MayEdit(r: Review, today: int) {
    r.editDay == Some(today) ==> r.editCount < ReviewQuota.REVIEW_EDITS_PER_DAY
  }

  function Edited(r: Review, rating: Option<int>, today: int): Review {
    r.(rating := rating.GetOrElse(r.rating), editDay := Some(today),
       editCount := if r.editDay == Some(today) then r.editCount + 1 else 1)
  }

  /** The rating is the one given, if one was; the edit is today's, and one more; all else is as it was. */
  predicate IsEdit(before: Review, after: Review, rating: Option<int>, today: int) {
    && (rating == None ==> after.rating == before.rating) && (rating.Some? ==> after.rating == rating.value)
    && after.editDay == Some(today) && after.editCount <= 5
    && (before.editDay == Some(today) ==> after.editCount == before.editCount + 1)
    && (before.editDay != Some(today) ==> after.editCount == 1)
    && after.id == before.id && after.user == before.user && after.device == before.device
    && after.hidden == before.hidden && after.deleted == before.deleted
  }

  function RatingFrom(count: nat, sum: int): Rating {
    Rating(if count == 0 then None else Some(sum as real / count as real), count)
  }

  /** The rating of a device, computed from its visible reviews. */
  function RatingOf(reviews: seq<Review>, device: int): Rating {
    RatingFrom(CountOf(reviews, device), SumOf(reviews, device))
  }

  /** Reviews of other devices do not matter. */
  lemma {:induction false} OtherDevice(a: seq<Review>, b: seq<Review>, i: nat, device: int)
    requires |a| == |b| && i < |a| && forall j | 0 <= j < |a| && j != i :: a[j] == b[j]
    requires a[i].device != device && b[i].device != device
    ensures RatingOf(a, device) == RatingOf(b, device)
  {
    if i == 0 {
      assert a[1..] == b[1..];
    } else {
      OtherDeviceSums(a, b, i, device);
    }
  }

  lemma {:induction false} OtherDeviceSums(a: seq<Review>, b: seq<Review>, i: nat, device: int)
    requires |a| == |b| && i < |a| && forall j | 0 <= j < |a| && j != i :: a[j] == b[j]
    requires a[i].device != device && b[i].device != device
    ensures CountOf(a, device) == CountOf(b, device) && SumOf(a, device) == SumOf(b, device)
  {
    if i == 0 {
      assert a[1..] == b[1..];
    } else {
      OtherDeviceSums(a[1..], b[1..], i - 1, device);
    }
  }

  lemma {:induction false} Appended(reviews: seq<Review>, r: Review, device: int)
    ensures CountOf(reviews + [r], device) == CountOf(reviews, device) + if Counts(r, device) then 1 else 0
    ensures SumOf(reviews + [r], device) == SumOf(reviews, device) + if Counts(r, device) then r.rating else 0
  {
    if reviews == [] {
      assert (reviews + [r])[1..] == [];
    } else {
      assert (reviews + [r])[1..] == reviews[1..] + [r];
      Appended(reviews[1..], r, device);
    }
  }

  lemma {:induction false} Removed(reviews: seq<Review>, i: nat, device: int)
    requires i < |reviews|
    ensures var rest := reviews[..i] + reviews[i + 1..];
      && CountOf(rest, device) == CountOf(reviews, device) - (if Counts(reviews[i], device) then 1 else 0)
      && SumOf(rest, device) == SumOf(reviews, device) - (if Counts(reviews[i], device) then reviews[i].rating else 0)
  {
    var rest := reviews[..i] + reviews[i + 1..];
    if i == 0 {
      assert rest == reviews[1..];
    } else {
      assert rest[0] == reviews[0] && rest[1..] == reviews[1..][..i - 1] + reviews[1..][i..];
      Removed(reviews[1..], i - 1, device);
    }
  }

  /** Where the reviews of the device stand that are neither hidden nor deleted, and those of them with these stars. */
  ghost function VisibleAt(reviews: seq<Review>, device: int): set<int> {
    set i | 0 <= i < |reviews| && reviews[i].device == device && !reviews[i].hidden && !reviews[i].deleted
  }

  ghost function StarsAt(reviews: seq<Review>, device: int, stars: int): set<int> {
    set i | i in VisibleAt(reviews, device) && reviews[i].rating == stars
  }

  lemma {:induction false} CountIsNumber(reviews: seq<Review>, device: int)
    ensures CountOf(reviews, device) == |VisibleAt(reviews, device)|
  {
    if reviews != [] {
      var n := |reviews| - 1;
      var rest := reviews[..n];
      assert reviews == rest + [reviews[n]];
      CountIsNumber(rest, device);
      Appended(rest, reviews[n], device);
      hide CountOf;
      VisibleGrows(rest, reviews[n], device);
      hide VisibleAt, Counts;
    }
  }

  lemma VisibleGrows(reviews: seq<Review>, r: Review, device: int)
    ensures |VisibleAt(reviews + [r], device)| == |VisibleAt(reviews, device)| + if Counts(r, device) then 1 else 0
  {
    var n := |reviews|;
    assert VisibleAt(reviews + [r], device) == VisibleAt(reviews, device) + if Counts(r, device) then {n} else {};
  }

  // ----------------------------------------------------------------- the store

  predicate SameAuthor(r: Review, q: Review) {
    r.user == q.user && r.device == q.device
  }

  /** One review per customer and device, and every review has its own id. */
  predicate Distinct(reviews: seq<Review>) {
    forall i, j | 0 <= i < j < |reviews| :: !SameAuthor(reviews[i], reviews[j]) && reviews[i].id != reviews[j].id
  }

  /** The stored rating of every device is the one computed from its visible reviews. */
  predicate RatingsOk(reviews: seq<Review>, ratings: map<int, Rating>) {
    && (forall d <- ratings :: ratings[d] == RatingOf(reviews, d))
    && (forall i | 0 <= i < |reviews| :: reviews[i].device in ratings)
    && Distinct(reviews)
  }

  lemma RemovedDistinct(reviews: seq<Review>, k: nat)
    requires k < |reviews| && Distinct(reviews)
    ensures Distinct(reviews[..k] + reviews[k + 1..])
  {
    var rest := reviews[..k] + reviews[k + 1..];
    forall i, j | 0 <= i < j < |rest|
      ensures !SameAuthor(rest[i], rest[j]) && rest[i].id != rest[j].id
    {
      var a, b := if i < k then i else i + 1, if j < k then j else j + 1;
      assert rest[i] == reviews[a] && rest[j] == reviews[b] && a < b;
    }
  }

  function IndexOfId(reviews: seq<Review>, id: int): (i: nat)
    ensures i <= |reviews| && (i < |reviews| ==> reviews[i].id == id)
    ensures forall j | 0 <= j < i :: reviews[j].id != id
  {
    FirstWhere(reviews, (r: Review) => r.id == id, 0)
  }

  /** The index found is that of the only review with the id. */
  lemma OnlyOneWithId(reviews: seq<Review>, id: int, i: nat)
    requires Distinct(reviews) && i == IndexOfId(reviews, id)
    ensures forall r <- reviews :: r.id == id ==> i < |reviews| && r == reviews[i]
    ensures i < |reviews| ==> reviews[i] in reviews
  {
    forall r | r in reviews && r.id == id
      ensures i < |reviews| && r == reviews[i]
    {
      var k :| 0 <= k < |reviews| && reviews[k] == r;
      assert i < |reviews|;
      assert k < i || k == i || i < k;
    }
  }

  function IndexOfPair(reviews: seq<Review>, user: int, device: int): (i: nat)
    ensures i <= |reviews| && (i < |reviews| ==> reviews[i].user == user && reviews[i].device == device)
    ensures forall j | 0 <= j < i :: !(reviews[j].user == user && reviews[j].device == device)
  {
    FirstWhere(reviews, (r: Review) => r.user == user && r.device == device, 0)
  }

  class ReviewStore {
    var reviews: seq<Review>
    var ratings: map<int, Rating>
    var nextId: int

    ghost predicate Valid()
      reads this
    {
      RatingsOk(reviews, ratings) && forall i | 0 <= i < |reviews| :: reviews[i].id < nextId
    }

    constructor (devices: seq<int>)
      ensures Valid() && reviews == [] && forall d :: d in ratings <==> d in devices
    {
      reviews, nextId := [], 0;
      ratings := map d | d in devices :: Rating(None, 0);
    }

    /** The loop-free aggregate of the program, written as the loop the database runs. */
    method RecalculateDeviceRating(device: int)
      requires device in ratings
      modifies this`ratings
      ensures ratings == old(ratings)[device := RatingOf(reviews, device)]
    {
      var count: nat, sum, k := 0, 0, |reviews|;
      assert reviews[k..] == [];
      while k > 0
        invariant 0 <= k <= |reviews| && ratings == old(ratings)
        invariant count == CountOf(reviews[k..], device) && sum == SumOf(reviews[k..], device)
      {
        k := k - 1;
        assert reviews[k..][1..] == reviews[k + 1..];
        if Counts(reviews[k], device) {
          count, sum := count + 1, sum + reviews[k].rating;
        }
      }
      assert reviews[0..] == reviews;
      ratings := ratings[device := Rating(if count == 0 then None else Some(sum as real / count as real), count)];
    }

    /**
     A customer's first review of a device; a review removed by a moderator blocks
     another one. `mayWrite`: a customer who is not on the blacklist.
     */
    method Create(user: int, mayWrite: bool, device: int, rating: int) returns (answer: Outcome<int, Refusal>)
      requires Valid()
      modifies this
      ensures Valid()
      ensures answer.Done? ==>
        reviews == old(reviews) + [Review(answer.value, user, device, rating, false, false, None, 0)]
      ensures answer.Refused? ==> reviews == old(reviews) && ratings == old(ratings)
      ensures answer.Done? <==>
        mayWrite && device in old(ratings) && forall r <- old(reviews) :: !(r.user == user && r.device == device)
    {
      if !mayWrite {
        return Refused(Forbidden);
      }
      if device !in ratings {
        return Refused(NotFound);
      }
      var existing := IndexOfPair(reviews, user, device);
      if existing < |reviews| {
        assert reviews[existing] in reviews;
        return Refused(if reviews[existing].deleted then Forbidden else Conflict);
      }
      var created := Review(nextId, user, device, rating, false, false, None, 0);
      forall d | d in ratings && d != device
        ensures RatingOf(reviews + [created], d) == RatingOf(reviews, d)
      {
        Appended(reviews, created, d);
      }
      reviews, nextId := reviews + [created], nextId + 1;
      hide RatingOf;
      RecalculateDeviceRating(device);
      answer := Done(created.id);
    }

    /** A change of one review, and the new rating of its device. */
    method Save(i: nat, r: Review)
      requires Valid() && i < |reviews|
      requires r.id == reviews[i].id && r.user == reviews[i].user && r.device == reviews[i].device
      modifies this
      ensures Valid() && reviews == old(reviews)[i := r] && nextId == old(nextId)
      ensures forall d <- old(ratings) :: d != r.device ==> d in ratings && ratings[d] == old(ratings)[d]
    {
      forall d | d in ratings && d != r.device
        ensures RatingOf(reviews[i := r], d) == RatingOf(reviews, d)
      {
        OtherDevice(reviews, reviews[i := r], i, d);
      }
      reviews := reviews[i := r];
      hide RatingOf;
      RecalculateDeviceRating(r.device);
    }

    /**
     The author changes the rating, the text or both, at most five times a day:
     the two conditional updates, one after the other.
     */
    method Update(user: int, mayWrite: bool, id: int, rating: Option<int>, comment: bool, today: int)
      returns (answer: Outcome<Review, Refusal>)
      requires Valid()
      modifies this
      ensures Valid()
      ensures answer.Refused? ==> reviews == old(reviews)
      ensures answer.Done? <==>
        && mayWrite && (rating.Some? || comment)
        && exists r <- old(reviews) :: r.id == id && r.user == user && !r.deleted && MayEdit(r, today)
      ensures answer.Done? <==>
        && mayWrite && (rating.Some? || comment)
        && exists r <- old(reviews) :: r.id == id && r.user == user && !r.deleted
                                       && (r.editDay != Some(today) || r.editCount < 5)
      ensures answer.Done? ==> exists i | 0 <= i < |old(reviews)| ::
        && old(reviews)[i].id == id && old(reviews)[i].user == user && !old(reviews)[i].deleted
        && answer.value == Edited(old(reviews)[i], rating, today) && reviews == old(reviews)[i := answer.value]
        && IsEdit(old(reviews)[i], answer.value, rating, today)
    {
      var i := IndexOfId(reviews, id);
      OnlyOneWithId(reviews, id, i);
      if i == |reviews| {
        return Refused(NotFound);
      }
      var r := reviews[i];
      if r.user != user || r.deleted {
        return Refused(Forbidden);
      }
      if !mayWrite {
        return Refused(Forbidden);
      }
      if rating.None? && !comment {
        return Refused(BadRequest);
      }
      var updated := r.(rating := rating.GetOrElse(r.rating));
      if r.editDay == Some(today) && r.editCount < ReviewQuota.REVIEW_EDITS_PER_DAY {
        updated := updated.(editCount := r.editCount + 1);
      } else if r.editDay != Some(today) {
        updated := updated.(editDay := Some(today), editCount := 1);
      } else {
        return Refused(TooManyRequests);
      }
      Save(i, updated);
      answer := Done(updated);
    }

    /** The author removes the review for good and may write another one. */
    method Remove(user: int, id: int) returns (answer: Outcome<Review, Refusal>)
      requires Valid()
      modifies this
      ensures Valid()
      ensures answer.Refused? ==> reviews == old(reviews)
      ensures answer.Done? <==> exists r <- old(reviews) :: r.id == id && r.user == user && !r.deleted
      ensures answer.Done? ==> exists i | 0 <= i < |old(reviews)| ::
        && old(reviews)[i].id == id && old(reviews)[i].user == user && !old(reviews)[i].deleted
        && reviews == old(reviews)[..i] + old(reviews)[i + 1..]
    {
      var i := IndexOfId(reviews, id);
      OnlyOneWithId(reviews, id, i);
      if i == |reviews| {
        return Refused(NotFound);
      }
      var r := reviews[i];
      if r.user != user || r.deleted {
        return Refused(Forbidden);
      }
      forall d | d in ratings && d != r.device
        ensures RatingOf(reviews[..i] + reviews[i + 1..], d) == RatingOf(reviews, d)
      {
        Removed(reviews, i, d);
      }
      RemovedDistinct(reviews, i);
      reviews := reviews[..i] + reviews[i + 1..];
      hide RatingOf, Distinct;
      RecalculateDeviceRating(r.device);
      answer := Done(r);
    }

    method ModeratorDelete(id: int, reasoned: bool) returns (answer: Outcome<Review, Refusal>)
      requires Valid()
      modifies this
      ensures Valid()
      ensures answer.Refused? ==> reviews == old(reviews)
      ensures answer.Done? <==> reasoned && exists r <- old(reviews) :: r.id == id && !r.deleted
      ensures answer.Done? ==> exists i | 0 <= i < |old(reviews)| ::
        && old(reviews)[i].id == id && !old(reviews)[i].deleted
        && reviews == old(reviews)[i := old(reviews)[i].(deleted := true)]
    {
      if !reasoned {
        return Refused(BadRequest);
      }
      var i := IndexOfId(reviews, id);
      OnlyOneWithId(reviews, id, i);
      if i == |reviews| {
        return Refused(NotFound);
      }
      if reviews[i].deleted {
        return Refused(Conflict);
      }
      answer := Done(reviews[i].(deleted := true));
      Save(i, reviews[i].(deleted := true));
    }

    method Restore(id: int) returns (answer: Outcome<Review, Refusal>)
      requires Valid()
      modifies this
      ensures Valid()
      ensures answer.Refused? ==> reviews == old(reviews)
      ensures answer.Done? <==> exists r <- old(reviews) :: r.id == id && r.deleted
      ensures answer.Done? ==> exists i | 0 <= i < |old(reviews)| ::
        && old(reviews)[i].id == id && old(reviews)[i].deleted
        && reviews == old(reviews)[i := old(reviews)[i].(deleted := false)]
    {
      var i := IndexOfId(reviews, id);
      OnlyOneWithId(reviews, id, i);
      if i == |reviews| {
        return Refused(NotFound);
      }
      if !reviews[i].deleted {
        return Refused(BadRequest);
      }
      answer := Done(reviews[i].(deleted := false));
      Save(i, reviews[i].(deleted := false));
    }

    method SetVisibility(id: int, hidden: bool, reasoned: bool) returns (answer: Outcome<Review, Refusal>)
      requires Valid()
      modifies this
      ensures Valid()
      ensures answer.Refused? ==> reviews == old(reviews)
      ensures answer.Done? <==> (hidden ==> reasoned) && exists r <- old(reviews) :: r.id == id && !r.deleted
      ensures answer.Done? ==> exists i | 0 <= i < |old(reviews)| ::
        && old(reviews)[i].id == id && !old(reviews)[i].deleted
        && reviews == old(reviews)[i := old(reviews)[i].(hidden := hidden)]
    {
      if hidden && !reasoned {
        return Refused(BadRequest);
      }
      var i := IndexOfId(reviews, id);
      OnlyOneWithId(reviews, id, i);
      if i == |reviews| {
        return Refused(NotFound);
      }
      if reviews[i].deleted {
        return Refused(BadRequest);
      }
      answer := Done(reviews[i].(hidden := hidden));
      Save(i, reviews[i].(hidden := hidden));
    }
  }

  // ------------------------------------------------------------------- summary

  function CountOfStars(reviews: seq<Review>, device: int, stars: int): nat {
    if reviews == [] then 0
    else (if Counts(reviews[0], device) && reviews[0].rating == stars then 1 else 0)
         + CountOfStars(reviews[1..], device, stars)
  }

  /** Ratings are one to five stars. */
  predicate StarsOk(reviews: seq<Review>) {
    forall i | 0 <= i < |reviews| :: 1 <= reviews[i].rating <= 5
  }

  datatype Group = Group(rating: int, count: nat)

  /** What grouping the visible reviews by rating returns, in any order. */
  ghost predicate IsGrouping(reviews: seq<Review>, device: int, groups: seq<Group>) {
    && (forall k | 0 <= k < |groups| ::
          groups[k].count == CountOfStars(reviews, device, groups[k].rating) && groups[k].count > 0)
    && (forall j, k | 0 <= j < k < |groups| :: groups[j].rating != groups[k].rating)
    && forall stars | CountOfStars(reviews, device, stars) > 0 :: exists k | 0 <= k < |groups| :: groups[k].rating == stars
  }

  /** The count of the group with this rating among the first `n`, if there is one. */
  function GroupCount(groups: seq<Group>, n: nat, stars: int): nat
    requires n <= |groups|
  {
    if n == 0 then 0
    else if groups[n - 1].rating == stars then groups[n - 1].count
    else GroupCount(groups, n - 1, stars)
  }

  lemma {:induction false} GroupCountIs(reviews: seq<Review>, device: int, groups: seq<Group>, n: nat, stars: int)
    requires IsGrouping(reviews, device, groups) && n <= |groups|
    ensures GroupCount(groups, n, stars) ==
            if exists k | 0 <= k < n :: groups[k].rating == stars then CountOfStars(reviews, device, stars) else 0
  {
    if n > 0 {
      GroupCountIs(reviews, device, groups, n - 1, stars);
    }
  }

  lemma {:induction false} StarsAddUp(reviews: seq<Review>, device: int)
    requires StarsOk(reviews)
    ensures CountOf(reviews, device)
         == CountOfStars(reviews, device, 1) + CountOfStars(reviews, device, 2) + CountOfStars(reviews, device, 3)
            + CountOfStars(reviews, device, 4) + CountOfStars(reviews, device, 5)
    ensures SumOf(reviews, device)
         == CountOfStars(reviews, device, 1) + 2 * CountOfStars(reviews, device, 2) + 3 * CountOfStars(reviews, device, 3)
            + 4 * CountOfStars(reviews, device, 4) + 5 * CountOfStars(reviews, device, 5)
  {
    if reviews != [] {
      assert 1 <= reviews[0].rating <= 5;
      StarsAddUp(reviews[1..], device);
    }
  }

  lemma {:induction false} StarsAreNumber(reviews: seq<Review>, device: int, stars: int)
    ensures CountOfStars(reviews, device, stars) == |StarsAt(reviews, device, stars)|
  {
    if reviews != [] {
      var n := |reviews| - 1;
      var rest := reviews[..n];
      assert reviews == rest + [reviews[n]];
      StarsAreNumber(rest, device, stars);
      AppendedStars(rest, reviews[n], device, stars);
      assert StarsAt(reviews, device, stars) == StarsAt(rest, device, stars)
        + if Counts(reviews[n], device) && reviews[n].rating == stars then {n} else {};
    }
  }

  lemma {:induction false} AppendedStars(reviews: seq<Review>, r: Review, device: int, stars: int)
    ensures CountOfStars(reviews + [r], device, stars)
         == CountOfStars(reviews, device, stars) + if Counts(r, device) && r.rating == stars then 1 else 0
  {
    if reviews == [] {
      assert (reviews + [r])[1..] == [];
    } else {
      assert (reviews + [r])[1..] == reviews[1..] + [r];
      AppendedStars(reviews[1..], r, device, stars);
    }
  }

  /**
   What the stored rating is, counted by hand: how many reviews of the device are
   neither hidden nor deleted, and the mean of their stars.
   */
  lemma RatingIsMean(reviews: seq<Review>, device: int)
    requires StarsOk(reviews)
    ensures var count, stars := |VisibleAt(reviews, device)|,
        |StarsAt(reviews, device, 1)| + 2 * |StarsAt(reviews, device, 2)| + 3 * |StarsAt(reviews, device, 3)|
        + 4 * |StarsAt(reviews, device, 4)| + 5 * |StarsAt(reviews, device, 5)|;
      RatingOf(reviews, device) == Rating(if count == 0 then None else Some(stars as real / count as real), count)
  {
    CountIsNumber(reviews, device);
    StarsAddUp(reviews, device);
    forall stars | 1 <= stars <= 5
      ensures CountOfStars(reviews, device, stars) == |StarsAt(reviews, device, stars)|
    {
      StarsAreNumber(reviews, device, stars);
    }
    hide *;
    RatingFromStars(reviews, device, |VisibleAt(reviews, device)|, SumOf(reviews, device));
  }

  datatype Summary = Summary(average: Option<real>, reviewCount: nat, one: nat, two: nat, three: nat, four: nat, five: nat)

  /** Rounded to one decimal, halves up, as `Math.round` does. */
  function RoundTenth(x: real): real {
    (x * 10.0 + 0.5).Floor as real / 10.0
  }

  function Rounded(mean: Option<real>): Option<real> {
    match mean
    case None => None
    case Some(x) => Some(RoundTenth(x))
  }

  /** The loop over the groups; a rating that is not one to five stars is passed over. */
  method GetSummary(groups: seq<Group>, ghost reviews: seq<Review>, ghost device: int) returns (s: Summary)
    requires IsGrouping(reviews, device, groups)
    ensures s.one == CountOfStars(reviews, device, 1) && s.two == CountOfStars(reviews, device, 2)
    ensures s.three == CountOfStars(reviews, device, 3) && s.four == CountOfStars(reviews, device, 4)
    ensures s.five == CountOfStars(reviews, device, 5)
    ensures s.one + s.two + s.three + s.four + s.five == s.reviewCount
    ensures StarsOk(reviews) ==> s.reviewCount == RatingOf(reviews, device).count
    ensures StarsOk(reviews) ==> s.average == Rounded(RatingOf(reviews, device).mean)
  {
    var one, two, three, four, five := 0, 0, 0, 0, 0;
    var total: nat, sum := 0, 0;
    var k := 0;
    while k < |groups|
      invariant 0 <= k <= |groups|
      invariant one == GroupCount(groups, k, 1) && two == GroupCount(groups, k, 2) && three == GroupCount(groups, k, 3)
      invariant four == GroupCount(groups, k, 4) && five == GroupCount(groups, k, 5)
      invariant total == one + two + three + four + five
      invariant sum == one + 2 * two + 3 * three + 4 * four + 5 * five
    {
      var g := groups[k];
      FreshRating(reviews, device, groups, k);
      forall stars
        ensures GroupCount(groups, k + 1, stars) == if g.rating == stars then g.count else GroupCount(groups, k, stars)
      {
        NextGroup(groups, k, stars);
      }
      hide GroupCount, IsGrouping;
      if 1 <= g.rating <= 5 {
        if g.rating == 1 {
          one := g.count;
        } else if g.rating == 2 {
          two := g.count;
        } else if g.rating == 3 {
          three := g.count;
        } else if g.rating == 4 {
          four := g.count;
        } else {
          five := g.count;
        }
        total, sum := total + g.count, sum + g.rating * g.count;
      }
      k := k + 1;
    }
    hide *;
    GroupsAreAll(reviews, device, groups);
    if StarsOk(reviews) {
      RatingFromStars(reviews, device, total, sum);
    }
    RoundedMean(total, sum);
    s := Summary(if total == 0 then None else Some(RoundTenth(sum as real / total as real)),
                 total, one, two, three, four, five);
  }

  lemma GroupsAreAll(reviews: seq<Review>, device: int, groups: seq<Group>)
    requires IsGrouping(reviews, device, groups)
    ensures forall stars :: GroupCount(groups, |groups|, stars) == CountOfStars(reviews, device, stars)
  {
    forall stars
      ensures GroupCount(groups, |groups|, stars) == CountOfStars(reviews, device, stars)
    {
      GroupCountIs(reviews, device, groups, |groups|, stars);
    }
  }

  lemma RatingFromStars(reviews: seq<Review>, device: int, total: nat, sum: int)
    requires StarsOk(reviews)
    requires total == CountOfStars(reviews, device, 1) + CountOfStars(reviews, device, 2) + CountOfStars(reviews, device, 3)
                      + CountOfStars(reviews, device, 4) + CountOfStars(reviews, device, 5)
    requires sum == CountOfStars(reviews, device, 1) + 2 * CountOfStars(reviews, device, 2)
                    + 3 * CountOfStars(reviews, device, 3) + 4 * CountOfStars(reviews, device, 4)
                    + 5 * CountOfStars(reviews, device, 5)
    ensures RatingOf(reviews, device) == Rating(if total == 0 then None else Some(sum as real / total as real), total)
  {
    StarsAddUp(reviews, device);
  }

  lemma RoundedMean(total: nat, sum: int)
    ensures Rounded(if total == 0 then None else Some(sum as real / total as real))
         == if total == 0 then None else Some(RoundTenth(sum as real / total as real))
  {
  }

  lemma NextGroup(groups: seq<Group>, k: nat, stars: int)
    requires k < |groups|
    ensures GroupCount(groups, k + 1, stars)
         == if groups[k].rating == stars then groups[k].count else GroupCount(groups, k, stars)
  {
  }

  lemma FreshRating(reviews: seq<Review>, device: int, groups: seq<Group>, k: nat)
    requires IsGrouping(reviews, device, groups) && k < |groups|
    ensures GroupCount(groups, k, groups[k].rating) == 0
  {
    GroupCountIs(reviews, device, groups, k, groups[k].rating);
  }

  /** The displayed average is the tenth nearest to the mean, the greater one of two, and on the scale of stars. */
  lemma AverageIsClose(reviews: seq<Review>, device: int)
    requires StarsOk(reviews) && CountOf(reviews, device) > 0
    ensures var mean := RatingOf(reviews, device).mean.value;
      && 1.0 <= mean <= 5.0 && 1.0 <= RoundTenth(mean) <= 5.0 && mean - 0.05 < RoundTenth(mean) <= mean + 0.05
      && (RoundTenth(mean) * 10.0).Floor as real == RoundTenth(mean) * 10.0
  {
    StarsAddUp(reviews, device);
    MeanBetween(SumOf(reviews, device) as real, CountOf(reviews, device) as real);
    RoundedIsClose(RatingOf(reviews, device).mean.value);
  }

  lemma MeanBetween(sum: real, n: real)
    requires n > 0.0 && n <= sum <= 5.0 * n
    ensures 1.0 <= sum / n <= 5.0
  {
    var mean := sum / n;
    assert mean * n == sum;
    assert (mean - 1.0) * n >= 0.0 && (5.0 - mean) * n >= 0.0;
    Sign(mean - 1.0, n);
    Sign(5.0 - mean, n);
  }

  lemma Sign(x: real, n: real)
    requires n > 0.0 && x * n >= 0.0
    ensures x >= 0.0
  {
  }

  lemma RoundedIsClose(mean: real)
    requires 1.0 <= mean <= 5.0
    ensures 1.0 <= RoundTenth(mean) <= 5.0 && mean - 0.05 < RoundTenth(mean) <= mean + 0.05
    ensures (RoundTenth(mean) * 10.0).Floor as real == RoundTenth(mean) * 10.0
  {
    var x := mean * 10.0 + 0.5;
    assert x.Floor as real <= x < x.Floor as real + 1.0;
    assert x.Floor >= 10;
  }
}

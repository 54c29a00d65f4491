/**
 The pages of a device's reviews, those of renters first
 (`findRentedFirst` and `paginate` in backend/src/reviews/reviews.service.ts).
 */
module Paging {

  /** `skip` and `take` on a query's result. */
  function Page<T>(rows: seq<T>, skip: nat, take: nat): seq<T> {
    if skip >= |rows| then []
    else if skip + take > |rows| then rows[skip..]
    else rows[skip..skip + take]
  }

  /** Two queries, the second one filling up what the first left of the page. */
  method FindRentedFirst<T>(rented: seq<T>, others: seq<T>, skip: nat, take: nat) returns (rows: seq<T>, total: nat)
    ensures rows == Page(rented + others, skip, take)
    ensures total == |rented| + |others|
    ensures |rows| == if skip >= total then 0 else if total - skip < take then total - skip else take
    ensures forall k | 0 <= k < |rows| ::
      rows[k] == if skip + k < |rented| then rented[skip + k] else others[skip + k - |rented|]
  {
    var first := if skip < |rented| then Page(rented, skip, take) else [];
    var remaining := take - |first|;
    var second := [];
    if remaining > 0 {
      second := Page(others, if skip > |rented| then skip - |rented| else 0, remaining);
    }
    rows, total := first + second, |rented| + |others|;
  }

  function TotalPages(total: nat, limit: nat): nat
    requires limit > 0
  {
    var n := (total + limit - 1) / limit;
    if n < 1 then 1 else n
  }

  /** The first `n` pages, one after the other; page numbers begin at 1. */
  function Pages<T>(rows: seq<T>, limit: nat, n: nat): seq<T> {
    if n == 0 then [] else Pages(rows, limit, n - 1) + Page(rows, (n - 1) * limit, limit)
  }

  lemma {:induction false} PagesArePrefix<T>(rows: seq<T>, limit: nat, n: nat)
    ensures Pages(rows, limit, n) == if n * limit <= |rows| then rows[..n * limit] else rows
  {
    if n > 0 {
      PagesArePrefix(rows, limit, n - 1);
      assert n * limit == (n - 1) * limit + limit;
      Step(rows, (n - 1) * limit, limit);
    }
  }

  lemma Step<T>(rows: seq<T>, skip: nat, limit: nat)
    ensures (if skip <= |rows| then rows[..skip] else rows) + Page(rows, skip, limit)
         == if skip + limit <= |rows| then rows[..skip + limit] else rows
  {
  }

  /** Nothing is lost between pages and nothing is repeated: all pages together are the whole list. */
  lemma AllPagesAreAll<T>(rows: seq<T>, limit: nat)
    requires limit > 0
    ensures Pages(rows, limit, TotalPages(|rows|, limit)) == rows
  {
    var n := TotalPages(|rows|, limit);
    Covers(|rows|, limit);
    PagesArePrefix(rows, limit, n);
  }

  /** There are as few pages as that takes, and one for the empty list: every page but the last is full. */
  lemma PagesAreFewest<T>(rows: seq<T>, limit: nat, page: nat)
    requires limit > 0 && 1 <= page
    ensures var n := TotalPages(|rows|, limit);
      && 1 <= n && (n - 1) * limit <= |rows| <= n * limit && (n > 1 ==> (n - 1) * limit < |rows|)
      && (page < n ==> |Page(rows, (page - 1) * limit, limit)| == limit)
  {
    var n := TotalPages(|rows|, limit);
    Covers(|rows|, limit);
    LastPage(|rows|, limit);
    if page < n {
      NoFewer(page, n - 1, limit);
      hide TotalPages;
      assert (page - 1) * limit + limit == page * limit;
    }
  }

  lemma LastPage(total: nat, limit: nat)
    requires limit > 0
    ensures var n := TotalPages(total, limit);
      1 <= n && (n - 1) * limit <= total && (n > 1 ==> (n - 1) * limit < total)
  {
    var n := (total + limit - 1) / limit;
    assert total + limit - 1 == n * limit + (total + limit - 1) % limit;
    assert (n - 1) * limit == n * limit - limit;
  }

  lemma NoFewer(page: nat, last: nat, limit: nat)
    requires page <= last
    ensures page * limit <= last * limit
  {
  }

  lemma Covers(total: nat, limit: nat)
    requires limit > 0
    ensures TotalPages(total, limit) * limit >= total
  {
    var n := (total + limit - 1) / limit;
    assert total + limit - 1 == n * limit + (total + limit - 1) % limit;
    if n < 1 {
      assert total == 0 || total + limit - 1 < limit;
    }
  }
}

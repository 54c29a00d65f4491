/** Searching a list, and the stable sort of `Array.prototype.sort` with a numeric key. */
module Lists {

  /** The first index from `from` on at which the predicate holds; the length if there is none. */
  function FirstWhere<T>(xs: seq<T>, p: T -> bool, from: nat): (k: nat)
    requires from <= |xs| && forall j | 0 <= j < from :: !p(xs[j])
    ensures k <= |xs| && (k < |xs| ==> p(xs[k]))
    ensures forall j | 0 <= j < k :: !p(xs[j])
    decreases |xs| - from
  {
    if from == |xs| || p(xs[from]) then from else FirstWhere(xs, p, from + 1)
  }

  predicate Ordered<T>(xs: seq<T>, key: T -> real) {
    forall i, j | 0 <= i < j < |xs| :: key(xs[i]) <= key(xs[j])
  }

  /** Behind everything whose key is not greater. */
  function InsertBy<T>(xs: seq<T>, x: T, key: T -> real): seq<T> {
    if xs == [] || key(xs[|xs| - 1]) <= key(x) then xs + [x]
    else InsertBy(xs[..|xs| - 1], x, key) + [xs[|xs| - 1]]
  }

  function SortBy<T>(xs: seq<T>, key: T -> real): seq<T> {
    if xs == [] then [] else InsertBy(SortBy(xs[..|xs| - 1], key), xs[|xs| - 1], key)
  }

  lemma {:induction false} InsertIsPermutation<T>(xs: seq<T>, x: T, key: T -> real)
    ensures multiset(InsertBy(xs, x, key)) == multiset(xs) + multiset{x}
  {
    if xs != [] && key(xs[|xs| - 1]) > key(x) {
      var init, last := xs[..|xs| - 1], xs[|xs| - 1];
      assert xs == init + [last];
      InsertIsPermutation(init, x, key);
    }
  }

  lemma StillBelow<T>(xs: seq<T>, x: T, r: seq<T>, bound: real, key: T -> real)
    requires multiset(r) == multiset(xs) + multiset{x} && key(x) <= bound
    requires forall i | 0 <= i < |xs| :: key(xs[i]) <= bound
    ensures forall i | 0 <= i < |r| :: key(r[i]) <= bound
  {
    forall i | 0 <= i < |r|
      ensures key(r[i]) <= bound
    {
      assert r[i] in multiset(r);
      if r[i] != x {
        assert r[i] in multiset(xs);
      }
    }
  }

  lemma GreatestLast<T>(xs: seq<T>, x: T, key: T -> real)
    requires Ordered(xs, key) && forall i | 0 <= i < |xs| :: key(xs[i]) <= key(x)
    ensures Ordered(xs + [x], key)
  {
  }

  lemma {:induction false} InsertIsOrdered<T>(xs: seq<T>, x: T, key: T -> real)
    requires Ordered(xs, key)
    ensures Ordered(InsertBy(xs, x, key), key)
  {
    if xs != [] && key(xs[|xs| - 1]) > key(x) {
      var init, last := xs[..|xs| - 1], xs[|xs| - 1];
      var r := InsertBy(init, x, key);
      assert InsertBy(xs, x, key) == r + [last];
      InsertIsPermutation(init, x, key);
      InsertIsOrdered(init, x, key);
      hide InsertBy;
      StillBelow(init, x, r, key(last), key);
      GreatestLast(r, last, key);
    } else {
      GreatestLast(xs, x, key);
    }
  }

  lemma {:induction false} SortIsOrdered<T>(xs: seq<T>, key: T -> real)
    ensures Ordered(SortBy(xs, key), key) && multiset(SortBy(xs, key)) == multiset(xs)
  {
    if xs != [] {
      var init, last := xs[..|xs| - 1], xs[|xs| - 1];
      assert xs == init + [last];
      SortIsOrdered(init, key);
      InsertIsOrdered(SortBy(init, key), last, key);
      InsertIsPermutation(SortBy(init, key), last, key);
      hide InsertBy;
    }
  }
}

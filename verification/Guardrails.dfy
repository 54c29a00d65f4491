/**
 The output filter of the assistant (backend/src/ai/guardrails.ts).

 Text is a sequence of UTF-16 code units; a `char` stands for one code unit
 (the code only ever compares units, so it does not matter which char stands
 for a surrogate half).
 */
module Guardrails {
  import opened Outcomes
  import opened Strings

  datatype Reason = ForeignLanguage | InternalLeak

  datatype Cut = Cut(index: nat, reason: Reason)

  const INJECTION_REPLY :=
    "Mình không thể chia sẻ hay thay đổi hướng dẫn nội bộ của trợ lý, nhưng rất sẵn lòng giúp bạn về thiết bị, giá thuê hay chính sách của TechRent nhé!"

  const LEAK_MARKERS: seq<string> := ["tham_khao", "cau_hoi>", "<cau_hoi", "QUY TẮC BẮT BUỘC"]

  /** Kana, Han, Hangul and full-width forms. */
  predicate IsCjk(c: char) {
    || '\U{3040}' <= c <= '\U{30FF}'
    || '\U{3400}' <= c <= '\U{9FFF}'
    || '\U{AC00}' <= c <= '\U{D7AF}'
    || '\U{FF00}' <= c <= '\U{FFEF}'
  }

  function MaxLength(texts: seq<string>): nat {
    if texts == [] then 0
    else var rest := MaxLength(texts[1..]);
         if |texts[0]| > rest then |texts[0]| else rest
  }

  /** How many characters are held back while the answer is still growing. */
  const HOLDBACK: nat := MaxLength(LEAK_MARKERS)

  function FirstCjkFrom(text: string, from: nat): (index: Option<nat>)
    ensures index.Some? ==> from <= index.value < |text| && IsCjk(text[index.value])
    ensures forall i | from <= i < |text| && (index.Some? ==> i < index.value) :: !IsCjk(text[i])
    decreases |text| - from
  {
    if from >= |text| then None
    else if IsCjk(text[from]) then Some(from)
    else FirstCjkFrom(text, from + 1)
  }

  // ------------------------------------------------------------ the verdict

  predicate MarkerAt(text: string, i: nat) {
    exists marker <- LEAK_MARKERS :: OccursAt(text, marker, i)
  }

  predicate UnsafeAt(text: string, i: nat) {
    (i < |text| && IsCjk(text[i])) || MarkerAt(text, i)
  }

  function ReasonAt(text: string, i: nat): Reason {
    if i < |text| && IsCjk(text[i]) then ForeignLanguage else InternalLeak
  }

  /**
   What a verdict means: the first position at which the text is unsafe, with a
   foreign character taking precedence; None if there is no such position.
   */
  ghost predicate IsVerdict(text: string, verdict: Option<Cut>) {
    match verdict
    case None => forall i: nat | i <= |text| :: !UnsafeAt(text, i)
    case Some(cut) =>
      && cut.index <= |text| && UnsafeAt(text, cut.index) && cut.reason == ReasonAt(text, cut.index)
      && forall i: nat | i < cut.index :: !UnsafeAt(text, i)
  }

  lemma VerdictUnique(text: string, a: Option<Cut>, b: Option<Cut>)
    requires IsVerdict(text, a) && IsVerdict(text, b)
    ensures a == b
  {
    if a.Some? && b.Some? {
      assert a.value.index == b.value.index;
    }
  }

  function FirstUnsafeFrom(text: string, from: nat): (verdict: Option<Cut>)
    requires from <= |text| + 1 && forall i: nat | i < from :: !UnsafeAt(text, i)
    ensures IsVerdict(text, verdict)
    decreases |text| + 1 - from
  {
    if from > |text| then None
    else if UnsafeAt(text, from) then Some(Cut(from, ReasonAt(text, from)))
    else FirstUnsafeFrom(text, from + 1)
  }

  function FirstUnsafe(text: string): (verdict: Option<Cut>)
    ensures IsVerdict(text, verdict)
  {
    FirstUnsafeFrom(text, 0)
  }

  /** One search for a foreign character, then one per marker, keeping the smallest index. */
  method FindUnsafeOutput(text: string) returns (best: Option<Cut>)
    ensures best == FirstUnsafe(text)
  {
    best := None;
    var cjk := FirstCjkFrom(text, 0);
    if cjk.Some? {
      best := Some(Cut(cjk.value, ForeignLanguage));
    }
    var m := 0;
    while m < |LEAK_MARKERS|
      invariant 0 <= m <= |LEAK_MARKERS|
      invariant BestSoFar(text, best, m)
    {
      var index := IndexOf(text, LEAK_MARKERS[m]);
      OneMoreMarker(text, best, m, m + 1, index);
      if index.Some? && (best.None? || index.value < best.value.index) {
        best := Some(Cut(index.value, InternalLeak));
      }
      m := m + 1;
    }
    BestIsVerdict(text, best);
    VerdictUnique(text, best, FirstUnsafe(text));
  }

  ghost predicate UnsafeAmong(text: string, i: nat, m: nat)
    requires m <= |LEAK_MARKERS|
  {
    (i < |text| && IsCjk(text[i])) || exists k | 0 <= k < m :: OccursAt(text, LEAK_MARKERS[k], i)
  }

  /** The verdict as far as foreign characters and the first `m` markers go. */
  ghost predicate BestSoFar(text: string, best: Option<Cut>, m: nat)
    requires m <= |LEAK_MARKERS|
  {
    match best
    case None => forall i: nat :: !UnsafeAmong(text, i, m)
    case Some(cut) =>
      && UnsafeAmong(text, cut.index, m)
      && cut.reason == ReasonAt(text, cut.index)
      && forall i: nat | i < cut.index :: !UnsafeAmong(text, i, m)
  }

  lemma OneMoreMarker(text: string, best: Option<Cut>, m: nat, n: nat, index: Option<nat>)
    requires n == m + 1 <= |LEAK_MARKERS| && BestSoFar(text, best, m)
    requires index.Some? ==> OccursAt(text, LEAK_MARKERS[m], index.value)
    requires forall i: nat | index.Some? ==> i < index.value :: !OccursAt(text, LEAK_MARKERS[m], i)
    ensures BestSoFar(text,
                      if index.Some? && (best.None? || index.value < best.value.index)
                      then Some(Cut(index.value, InternalLeak)) else best,
                      n)
  {
    forall i: nat
      ensures UnsafeAmong(text, i, n) == (UnsafeAmong(text, i, m) || OccursAt(text, LEAK_MARKERS[m], i))
    {
      if exists k | 0 <= k < n :: OccursAt(text, LEAK_MARKERS[k], i) {
        var k :| 0 <= k < n && OccursAt(text, LEAK_MARKERS[k], i);
        assert k < m || k == m;
      }
    }
    if index.Some? && (best.None? || index.value < best.value.index) {
      assert UnsafeAmong(text, index.value, n) && !UnsafeAmong(text, index.value, m);
    }
  }

  lemma BestIsVerdict(text: string, best: Option<Cut>)
    requires BestSoFar(text, best, |LEAK_MARKERS|)
    ensures IsVerdict(text, best)
  {
    forall i: nat
      ensures UnsafeAt(text, i) <==> UnsafeAmong(text, i, |LEAK_MARKERS|)
    {
      if MarkerAt(text, i) {
        var marker :| marker in LEAK_MARKERS && OccursAt(text, marker, i);
        var k :| 0 <= k < |LEAK_MARKERS| && LEAK_MARKERS[k] == marker;
      }
    }
  }
}

/** Searching in text, cutting it into pieces, and trimming it. */
module Strings {
  import opened Outcomes

  predicate OccursAt(text: string, pattern: string, i: nat) {
    i + |pattern| <= |text| && text[i..i + |pattern|] == pattern
  }

  /** The first occurrence of `pattern` at `from` or later. */
  function IndexOfFrom(text: string, pattern: string, from: nat): (index: Option<nat>)
    ensures index.Some? ==> from <= index.value && OccursAt(text, pattern, index.value)
    ensures forall i: nat | from <= i && (index.Some? ==> i < index.value) :: !OccursAt(text, pattern, i)
    decreases |text| - from
  {
    if from + |pattern| > |text| then None
    else if OccursAt(text, pattern, from) then Some(from)
    else IndexOfFrom(text, pattern, from + 1)
  }

  function IndexOf(text: string, pattern: string): Option<nat> {
    IndexOfFrom(text, pattern, 0)
  }

  lemma OccursInPrefix(p: string, q: string, pattern: string, i: nat)
    requires i + |pattern| <= |p|
    ensures OccursAt(p + q, pattern, i) == OccursAt(p, pattern, i)
  {
    assert (p + q)[i..i + |pattern|] == p[i..i + |pattern|];
  }

  lemma OccursWithin(text: string, outer: string, i: nat, inner: string, c: nat)
    requires OccursAt(text, outer, i) && i <= c && c + |inner| <= i + |outer|
    ensures OccursAt(text, inner, c) == OccursAt(outer, inner, c - i)
  {
    var from := c - i;
    var left, right := text[i..i + |outer|][from..from + |inner|], text[c..c + |inner|];
    assert |left| == |right|;
    forall k | 0 <= k < |left|
      ensures left[k] == right[k]
    {
      assert left[k] == text[i..i + |outer|][from + k] == text[c + k];
    }
    assert left == right;
  }

  lemma Assoc<T>(a: seq<T>, b: seq<T>, c: seq<T>)
    ensures a + (b + c) == (a + b) + c
  {
  }

  lemma HeadStays(text: string, more: string, n: nat)
    requires n <= |text|
    ensures (text + more)[..n] == text[..n]
  {
  }

  // ------------------------------------------------------------------ pieces

  function Concat(pieces: seq<string>): string {
    if pieces == [] then "" else pieces[0] + Concat(pieces[1..])
  }

  /** The text cut into pieces of the given lengths; the last piece is what remains. */
  function CutBy(text: string, widths: seq<nat>): (pieces: seq<string>)
    ensures Concat(pieces) == text
    decreases |widths|
  {
    if widths == [] then
      assert Concat([text]) == text + "" == text;
      [text]
    else if widths[0] >= |text| then
      assert Concat([text]) == text + "" == text;
      [text]
    else
      var rest := CutBy(text[widths[0]..], widths[1..]);
      assert ([text[..widths[0]]] + rest)[1..] == rest;
      [text[..widths[0]]] + rest
  }

  lemma NextPiece(pieces: seq<string>, k: nat, buffer: string)
    requires k < |pieces|
    ensures buffer + Concat(pieces[k..]) == (buffer + pieces[k]) + Concat(pieces[k + 1..])
  {
    assert pieces[k..][1..] == pieces[k + 1..];
    Assoc(buffer, pieces[k], Concat(pieces[k + 1..]));
  }

  // ---------------------------------------------------------------- segments

  /** The parts of the text that are closed by a separator; what follows the last one is dropped. */
  function Segments(text: string, separator: string): seq<string>
    requires separator != ""
    decreases |text|
  {
    match IndexOf(text, separator)
    case None => []
    case Some(i) => [text[..i]] + Segments(text[i + |separator|..], separator)
  }

  /** Each followed by the separator, one after the other. */
  function Closed(parts: seq<string>, separator: string): string {
    if parts == [] then "" else parts[0] + separator + Closed(parts[1..], separator)
  }

  lemma OccursIsPrefix(text: string, pattern: string, i: nat)
    ensures OccursAt(text, pattern, i) <==> i <= |text| && pattern <= text[i..]
  {
    if i + |pattern| <= |text| {
      assert text[i..i + |pattern|] == text[i..][..|pattern|];
    }
  }

  /** The separator begins nowhere in the text. */
  ghost predicate Lacks(text: string, separator: string) {
    forall i: nat | i <= |text| :: !(separator <= text[i..])
  }

  lemma NotFoundIsLacking(text: string, separator: string, n: nat)
    requires n <= |text| && separator != ""
    requires forall i: nat | i < n :: !OccursAt(text, separator, i)
    ensures Lacks(text[..n], separator)
  {
    var head := text[..n];
    forall i: nat | i <= |head|
      ensures !(separator <= head[i..])
    {
      if separator <= head[i..] {
        assert head[i..] <= text[i..];
        OccursIsPrefix(text, separator, i);
      }
    }
  }

  /** The segments closed again, and what follows, are the text; neither they nor the rest hold a separator. */
  lemma {:induction false} SegmentsAreText(text: string, separator: string) returns (rest: string)
    requires separator != ""
    ensures text == Closed(Segments(text, separator), separator) + rest && Lacks(rest, separator)
    ensures forall part <- Segments(text, separator) :: Lacks(part, separator)
    decreases |text|
  {
    match IndexOf(text, separator)
    case None =>
      rest := text;
      assert text[..|text|] == text;
      NotFoundIsLacking(text, separator, |text|);
      assert "" + rest == rest;
    case Some(i) =>
      var head, more := text[..i], text[i + |separator|..];
      NotFoundIsLacking(text, separator, i);
      rest := SegmentsAreText(more, separator);
      assert text == head + separator + more;
      hide Lacks, OccursAt, IndexOf;
      ClosedCons(head, Segments(more, separator), separator);
      Assoc(head + separator, Closed(Segments(more, separator), separator), rest);
  }

  lemma ClosedCons(part: string, parts: seq<string>, separator: string)
    ensures Closed([part] + parts, separator) == part + separator + Closed(parts, separator)
  {
    assert ([part] + parts)[1..] == parts;
  }

  /** A separator found in a buffer is still the first one when more text arrives. */
  lemma SegmentsGrow(buffer: string, more: string, separator: string, i: nat)
    requires separator != "" && IndexOf(buffer, separator) == Some(i)
    ensures Segments(buffer + more, separator)
         == [buffer[..i]] + Segments(buffer[i + |separator|..] + more, separator)
  {
    OccursInPrefix(buffer, more, separator, i);
    forall j: nat | j < i
      ensures !OccursAt(buffer + more, separator, j)
    {
      OccursInPrefix(buffer, more, separator, j);
    }
    FirstIsUnique(buffer + more, separator, i);
    assert (buffer + more)[..i] == buffer[..i];
    assert (buffer + more)[i + |separator|..] == buffer[i + |separator|..] + more;
  }

  lemma FirstIsUnique(text: string, pattern: string, i: nat)
    requires OccursAt(text, pattern, i) && forall j: nat | j < i :: !OccursAt(text, pattern, j)
    ensures IndexOf(text, pattern) == Some(i)
  {
  }
}

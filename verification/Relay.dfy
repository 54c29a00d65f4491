/**
 The streaming filter between the language model and the client
 (`relay` in backend/src/ai/ai.service.ts).

 The model's answer arrives in chunks cut anywhere. `relay` sends what it has
 except for the last `HOLDBACK` characters, so that a leak marker spread over
 two chunks is still caught before any of it has been sent. The theorem of this
 file is that the client sees exactly what `Batch` shows of the whole answer,
 and `Batch` does not know how the answer was cut.
 */
module Relay {
  import opened Guardrails
  import opened Outcomes
  import opened Strings

  const UNAVAILABLE_MESSAGE :=
    "Trợ lý AI tạm thời không khả dụng, " + "bạn vui lòng liên hệ nhân viên nhé."

  datatype Chunk = Chunk(content: string, done: bool)

  /** How the stream of chunks ends when no chunk says `done`. */
  datatype StreamEnd = Exhausted | Broke | Aborted

  datatype ChatEvent =
    | Token(content: string)
    | Finished(guardrail: Option<Reason>)
    | Failed(message: string)

  function Shown(event: ChatEvent): string {
    if event.Token? then event.content else ""
  }

  /** The answer as the client puts it together from the token events. */
  function Visible(events: seq<ChatEvent>): string {
    if events == [] then "" else Visible(events[..|events| - 1]) + Shown(events[|events| - 1])
  }

  predicate OnlyTokens(events: seq<ChatEvent>) {
    forall e <- events :: e.Token? && e.content != ""
  }

  /** Tokens that add up to the text, none of them empty, and then the closing event. */
  predicate TokensThen(events: seq<ChatEvent>, text: string, closing: seq<ChatEvent>) {
    && |closing| <= |events|
    && var tokens := events[..|events| - |closing|];
       events == tokens + closing && OnlyTokens(tokens) && Visible(tokens) == text
  }

  /** The text the model produced: everything up to and including the first `done` chunk. */
  function ModelText(chunks: seq<Chunk>): string {
    if chunks == [] then ""
    else chunks[0].content + if chunks[0].done then "" else ModelText(chunks[1..])
  }

  predicate Completed(chunks: seq<Chunk>) {
    exists chunk <- chunks :: chunk.done
  }

  // ------------------------------------------------------- the batch filter

  function Heldback(text: string): nat {
    if |text| <= HOLDBACK then 0 else |text| - HOLDBACK
  }

  /** The canned reply in place of leaked instructions, after `sent` characters of answer. */
  function LeakReply(sent: nat): string {
    (if sent > 0 then "\n\n" else "") + INJECTION_REPLY
  }

  function CutShort(text: string, cut: Cut): string
    requires cut.index <= |text|
  {
    text[..cut.index] + if cut.reason == ForeignLanguage then "" else LeakReply(cut.index)
  }

  /** What a client may see of the whole text. */
  function Shows(text: string, completed: bool): string {
    match FirstUnsafe(text)
    case Some(cut) => CutShort(text, cut)
    case None => if completed then text else text[..Heldback(text)]
  }

  function Closing(text: string, completed: bool, end: StreamEnd): seq<ChatEvent> {
    match FirstUnsafe(text)
    case Some(cut) => [Finished(Some(cut.reason))]
    case None =>
      if completed then [Finished(None)]
      else if end.Aborted? then []
      else [Failed(UNAVAILABLE_MESSAGE)]
  }

  // --------------------------------------------- what an answer has to look like

  /** Kana, Han, Hangul and full-width forms, by their code units. */
  predicate Foreign(c: char) {
    || 0x3040 <= c as int <= 0x30FF || 0x3400 <= c as int <= 0x9FFF
    || 0xAC00 <= c as int <= 0xD7AF || 0xFF00 <= c as int <= 0xFFEF
  }

  predicate ForeignAt(text: string, i: nat) {
    i < |text| && Foreign(text[i])
  }

  /** One of the phrases that only the instructions contain begins here. */
  predicate LeakAt(text: string, i: nat) {
    && i <= |text|
    && ("tham_khao" <= text[i..] || "cau_hoi>" <= text[i..] || "<cau_hoi" <= text[i..] || "QUY TẮC BẮT BUỘC" <= text[i..])
  }

  /** Nothing of either kind begins before `n`. */
  ghost predicate ClearUpTo(text: string, n: nat) {
    forall i: nat | i < n :: !ForeignAt(text, i) && !LeakAt(text, i)
  }

  /**
   The promise to the client, about the text the model produced. Up to the first
   foreign character, and no further; or up to the first leak, and then the canned
   reply, on a paragraph of its own if anything came before; or else the whole text,
   or of an unfinished one all but the last sixteen characters.
   */
  ghost predicate Promised(text: string, completed: bool, end: StreamEnd, shown: string, closing: seq<ChatEvent>) {
    && (forall i: nat | ClearUpTo(text, i) && ForeignAt(text, i) ::
          shown == text[..i] && closing == [Finished(Some(ForeignLanguage))])
    && (forall i: nat | ClearUpTo(text, i) && !ForeignAt(text, i) && LeakAt(text, i) ::
          && shown == text[..i] + (if i > 0 then "\n\n" else "") + INJECTION_REPLY
          && closing == [Finished(Some(InternalLeak))])
    && (ClearUpTo(text, |text|) ==>
          if completed then shown == text && closing == [Finished(None)]
          else
            && shown == text[..if |text| > 16 then |text| - 16 else 0]
            && closing == if end.Aborted? then [] else [Failed(UNAVAILABLE_MESSAGE)])
  }

  /** The last event, if it is not a token. */
  function ClosingOf(events: seq<ChatEvent>): seq<ChatEvent> {
    if events != [] && !events[|events| - 1].Token? then events[|events| - 1..] else []
  }

  lemma PlacesAreUnsafe(text: string, i: nat)
    ensures ForeignAt(text, i) <==> i < |text| && IsCjk(text[i])
    ensures LeakAt(text, i) <==> MarkerAt(text, i)
  {
    if i < |text| {
      ForeignIsCjk(text[i]);
    }
    forall marker | marker in LEAK_MARKERS
      ensures OccursAt(text, marker, i) <==> i <= |text| && marker <= text[i..]
    {
      OccursIsPrefix(text, marker, i);
    }
    assert LEAK_MARKERS[0] in LEAK_MARKERS && LEAK_MARKERS[1] in LEAK_MARKERS && LEAK_MARKERS[2] in LEAK_MARKERS
        && LEAK_MARKERS[3] in LEAK_MARKERS;
    hide OccursAt;
  }

  lemma ForeignIsCjk(c: char)
    ensures Foreign(c) <==> IsCjk(c)
  {
  }

  lemma HoldbackIsSixteen()
    ensures HOLDBACK == 16
  {
    assert LEAK_MARKERS[1..] == ["cau_hoi>", "<cau_hoi", "QUY TẮC BẮT BUỘC"];
    assert LEAK_MARKERS[1..][1..] == ["<cau_hoi", "QUY TẮC BẮT BUỘC"];
    assert LEAK_MARKERS[1..][1..][1..] == ["QUY TẮC BẮT BUỘC"];
    assert LEAK_MARKERS[1..][1..][1..][1..] == [];
    assert MaxLength([]) == 0;
    assert |"QUY TẮC BẮT BUỘC"| == 16;
    assert MaxLength(["QUY TẮC BẮT BUỘC"]) == 16;
    assert MaxLength(["<cau_hoi", "QUY TẮC BẮT BUỘC"]) == 16;
    assert MaxLength(["cau_hoi>", "<cau_hoi", "QUY TẮC BẮT BUỘC"]) == 16;
  }

  lemma ClearIsSafe(text: string, n: nat)
    ensures ClearUpTo(text, n) <==> forall i: nat | i < n :: !UnsafeAt(text, i)
  {
    forall i: nat
      ensures UnsafeAt(text, i) <==> ForeignAt(text, i) || LeakAt(text, i)
    {
      PlacesAreUnsafe(text, i);
    }
    hide ForeignAt, LeakAt, UnsafeAt;
  }

  /** A first unsafe place is the verdict. */
  lemma PlaceIsVerdict(text: string, i: nat)
    requires ClearUpTo(text, i) && (ForeignAt(text, i) || LeakAt(text, i))
    ensures i <= |text|
    ensures FirstUnsafe(text) == Some(Cut(i, if ForeignAt(text, i) then ForeignLanguage else InternalLeak))
  {
    ClearIsSafe(text, i);
    PlacesAreUnsafe(text, i);
    assert i <= |text| && UnsafeAt(text, i);
    assert ReasonAt(text, i) == if ForeignAt(text, i) then ForeignLanguage else InternalLeak;
    hide UnsafeAt, LeakAt, ForeignAt, ClearUpTo;
    VerdictUnique(text, FirstUnsafe(text), Some(Cut(i, ReasonAt(text, i))));
  }

  lemma ClearIsNoVerdict(text: string)
    requires ClearUpTo(text, |text|)
    ensures FirstUnsafe(text).None?
  {
    ClearIsSafe(text, |text|);
    NothingAtTheEnd(text);
    PlacesAreUnsafe(text, |text|);
    assert !UnsafeAt(text, |text|);
    hide UnsafeAt, LeakAt, ForeignAt, ClearUpTo;
    assert IsVerdict(text, None);
    VerdictUnique(text, FirstUnsafe(text), None);
  }

  lemma LeakIsCutShort(text: string, i: nat)
    requires i <= |text|
    ensures CutShort(text, Cut(i, InternalLeak)) == text[..i] + (if i > 0 then "\n\n" else "") + INJECTION_REPLY
    ensures CutShort(text, Cut(i, ForeignLanguage)) == text[..i]
  {
    assert text[..i] + "" == text[..i];
    Assoc(text[..i], if i > 0 then "\n\n" else "", INJECTION_REPLY);
  }

  /** The batch filter keeps the promise. */
  lemma ShowsAsPromised(text: string, completed: bool, end: StreamEnd)
    ensures Promised(text, completed, end, Shows(text, completed), Closing(text, completed, end))
  {
    HoldbackIsSixteen();
    hide ForeignAt, LeakAt, ClearUpTo, CutShort, FirstUnsafe;
    forall i: nat | ClearUpTo(text, i) && (ForeignAt(text, i) || LeakAt(text, i))
      ensures FirstUnsafe(text) == Some(Cut(i, if ForeignAt(text, i) then ForeignLanguage else InternalLeak))
      ensures i <= |text|
      ensures CutShort(text, Cut(i, InternalLeak)) == text[..i] + (if i > 0 then "\n\n" else "") + INJECTION_REPLY
      ensures CutShort(text, Cut(i, ForeignLanguage)) == text[..i]
    {
      PlaceIsVerdict(text, i);
      LeakIsCutShort(text, i);
    }
    if ClearUpTo(text, |text|) {
      ClearIsNoVerdict(text);
    }
  }

  lemma NothingAtTheEnd(text: string)
    ensures !ForeignAt(text, |text|) && !LeakAt(text, |text|)
  {
  }

  lemma VisibleOfClosing(tokens: seq<ChatEvent>, closing: seq<ChatEvent>)
    requires |closing| <= 1 && forall e <- closing :: !e.Token?
    requires OnlyTokens(tokens)
    ensures Visible(tokens + closing) == Visible(tokens) && ClosingOf(tokens + closing) == closing
  {
    if closing == [] {
      assert tokens + closing == tokens;
    } else {
      VisibleAppend(tokens, closing[0]);
      assert tokens + closing == tokens + [closing[0]];
      assert Visible(tokens) + "" == Visible(tokens);
    }
  }

  /** Tokens that add up to what the filter shows, and its closing event, are what was promised. */
  lemma TokensKeepPromise(text: string, completed: bool, end: StreamEnd, events: seq<ChatEvent>)
    requires TokensThen(events, Shows(text, completed), Closing(text, completed, end))
    ensures Promised(text, completed, end, Visible(events), ClosingOf(events))
  {
    var closing := Closing(text, completed, end);
    ShowsAsPromised(text, completed, end);
    VisibleOfClosing(events[..|events| - |closing|], closing);
    hide Promised, Shows, Visible, ClosingOf;
  }

  // --------------------------------------------------- facts about the markers

  lemma MaxLengthBounds(texts: seq<string>, text: string)
    requires text in texts
    ensures |text| <= MaxLength(texts)
  {
    if text != texts[0] {
      MaxLengthBounds(texts[1..], text);
    }
  }

  /** No marker lies inside another one, or inside itself, except at its beginning. */
  lemma MarkersDoNotNest(outer: string, inner: string, i: nat)
    requires outer in LEAK_MARKERS && inner in LEAK_MARKERS && i > 0
    ensures !OccursAt(outer, inner, i)
  {
    assert i + |inner| <= |outer| ==> outer[i] != inner[0];
    assert i + |inner| <= |outer| ==> outer[i..i + |inner|][0] == outer[i];
  }

  lemma MarkersHaveNoCjk(marker: string, i: nat)
    requires marker in LEAK_MARKERS && i < |marker|
    ensures !IsCjk(marker[i])
  {
  }

  // ------------------------------------------------------ growing an answer

  lemma UnsafeStays(p: string, q: string, i: nat)
    requires UnsafeAt(p, i)
    ensures i < |p| && UnsafeAt(p + q, i) && ReasonAt(p + q, i) == ReasonAt(p, i)
  {
    if MarkerAt(p, i) {
      var marker :| marker in LEAK_MARKERS && OccursAt(p, marker, i);
      OccursInPrefix(p, q, marker, i);
    }
  }

  /** Text that becomes unsafe at `i` only by growing was held back from `i` on. */
  lemma NewlyUnsafe(p: string, q: string, i: nat) returns (marker: string)
    requires UnsafeAt(p + q, i) && !UnsafeAt(p, i)
    ensures i + HOLDBACK > |p|
    ensures i < |p| ==> marker in LEAK_MARKERS && OccursAt(p + q, marker, i) && i + |marker| > |p|
  {
    if i < |p| {
      assert !IsCjk((p + q)[i]);
      marker :| marker in LEAK_MARKERS && OccursAt(p + q, marker, i);
      MaxLengthBounds(LEAK_MARKERS, marker);
      if i + |marker| <= |p| {
        OccursInPrefix(p, q, marker, i);
        assert false;
      }
    } else {
      marker := "";
      MaxLengthBounds(LEAK_MARKERS, LEAK_MARKERS[0]);
    }
  }

  /** Nothing inside a marker, after its first character, is unsafe by itself. */
  lemma MarkerCoversNothingUnsafe(text: string, marker: string, i: nat, inner: string, c: nat)
    requires marker in LEAK_MARKERS && OccursAt(text, marker, i)
    requires i < c && inner in LEAK_MARKERS && c + |inner| <= i + |marker|
    ensures !OccursAt(text, inner, c)
  {
    MarkersDoNotNest(marker, inner, c - i);
    OccursWithin(text, marker, i, inner, c);
  }

  lemma MarkerCoversNoCjk(text: string, marker: string, i: nat, c: nat)
    requires marker in LEAK_MARKERS && OccursAt(text, marker, i) && i <= c < i + |marker|
    ensures !IsCjk(text[c])
  {
    MarkersHaveNoCjk(marker, c - i);
    assert text[i..i + |marker|][c - i] == text[c];
  }

  /** An unsafe place is not overtaken by an earlier one when the text grows. */
  lemma NoEarlierUnsafe(p: string, q: string, c: nat, i: nat)
    requires UnsafeAt(p, c) && i < c && !UnsafeAt(p, i)
    ensures !UnsafeAt(p + q, i)
  {
    UnsafeStays(p, q, c);
    if UnsafeAt(p + q, i) {
      var marker := NewlyUnsafe(p, q, i);
      hide IsCjk, OccursAt;
      if IsCjk(p[c]) {
        MarkerCoversNoCjk(p + q, marker, i, c);
      } else {
        var inner := MarkerFound(p, q, c);
        MarkerCoversNothingUnsafe(p + q, marker, i, inner, c);
      }
    }
  }

  lemma MarkerFound(p: string, q: string, c: nat) returns (inner: string)
    requires MarkerAt(p, c)
    ensures inner in LEAK_MARKERS && c + |inner| <= |p| && OccursAt(p + q, inner, c)
  {
    inner :| inner in LEAK_MARKERS && OccursAt(p, inner, c);
    OccursInPrefix(p, q, inner, c);
  }

  /** A verdict against a text stands, unchanged, however the text continues. */
  lemma VerdictStands(p: string, q: string)
    requires FirstUnsafe(p).Some?
    ensures FirstUnsafe(p + q) == FirstUnsafe(p)
  {
    var cut := FirstUnsafe(p).value;
    UnsafeStays(p, q, cut.index);
    forall i: nat | i < cut.index
      ensures !UnsafeAt(p + q, i)
    {
      NoEarlierUnsafe(p, q, cut.index, i);
    }
    VerdictUnique(p + q, FirstUnsafe(p + q), FirstUnsafe(p));
  }

  /** What has been sent of a safe text stops before anything that may turn out unsafe later. */
  lemma HoldbackSuffices(p: string, q: string)
    requires FirstUnsafe(p).None? && FirstUnsafe(p + q).Some?
    ensures Heldback(p) <= FirstUnsafe(p + q).value.index
  {
    var c := FirstUnsafe(p + q).value.index;
    if c < |p| {
      var _ := NewlyUnsafe(p, q, c);
    }
  }

  /** What the client has seen is never taken back: it is a prefix of what it sees later. */
  lemma AnswersGrow(p: string, q: string, completed: bool)
    requires FirstUnsafe(p).None?
    ensures Shows(p, false) <= Shows(p + q, completed)
  {
    var now := p[..Heldback(p)];
    assert now <= p <= p + q;
    match FirstUnsafe(p + q)
    case Some(cut) =>
      HoldbackSuffices(p, q);
      assert now <= (p + q)[..cut.index];
    case None =>
      assert now <= (p + q)[..Heldback(p + q)];
  }

  /** The part of the model's text that is shown contains no marker and no foreign character. */
  lemma ShownTextIsSafe(text: string)
    requires FirstUnsafe(text).Some?
    ensures FirstUnsafe(text[..FirstUnsafe(text).value.index]).None?
  {
    var cut := FirstUnsafe(text).value;
    var head := text[..cut.index];
    assert text == head + text[cut.index..];
    if FirstUnsafe(head).Some? {
      UnsafeStays(head, text[cut.index..], FirstUnsafe(head).value.index);
      assert false;
    }
  }

  // ------------------------------------------------------------- the relay

  lemma VisibleAppend(events: seq<ChatEvent>, event: ChatEvent)
    ensures Visible(events + [event]) == Visible(events) + Shown(event)
  {
    assert (events + [event])[..|events|] == events;
  }

  /** Sends what lies between `sent` and `until`, if anything does. */
  method Flush(text: string, sent: nat, until: int, events: seq<ChatEvent>)
    returns (sentNow: nat, eventsNow: seq<ChatEvent>)
    requires sent <= |text| && until <= |text| && OnlyTokens(events) && Visible(events) == text[..sent]
    ensures sentNow == if until <= sent then sent else until
    ensures OnlyTokens(eventsNow) && Visible(eventsNow) == text[..sentNow]
  {
    if until <= sent {
      return sent, events;
    }
    var content := text[sent..until];
    VisibleAppend(events, Token(content));
    assert text[..sent] + content == text[..until];
    sentNow, eventsNow := until, events + [Token(content)];
  }

  /** The last tokens of an answer that turned out unsafe. */
  method CutOff(text: string, sent: nat, cut: Cut, events: seq<ChatEvent>) returns (tokens: seq<ChatEvent>)
    requires sent <= cut.index <= |text| && OnlyTokens(events) && Visible(events) == text[..sent]
    ensures OnlyTokens(tokens) && Visible(tokens) == CutShort(text, cut)
  {
    hide Visible, LeakReply;
    var sentNow: nat;
    sentNow, tokens := Flush(text, sent, cut.index, events);
    if cut.reason == InternalLeak {
      VisibleAppend(tokens, Token(LeakReply(sentNow)));
      LeakReplyIsText(sentNow);
      tokens := tokens + [Token(LeakReply(sentNow))];
    } else {
      assert text[..sentNow] + "" == text[..sentNow];
    }
  }

  /**
   The relay. Whatever the cutting into chunks, the tokens add up to what the
   batch filter shows of the whole text, none of them is empty, and the closing
   event is the batch filter's.
   */
  method Relay(chunks: seq<Chunk>, end: StreamEnd) returns (events: seq<ChatEvent>)
    ensures Promised(ModelText(chunks), Completed(chunks), end, Visible(events), ClosingOf(events))
    ensures TokensThen(events, Shows(ModelText(chunks), Completed(chunks)),
                       Closing(ModelText(chunks), Completed(chunks), end))
  {
    events := [];
    var text, sent, i := "", 0, 0;
    EmptyIsSafe();
    assert chunks[0..] == chunks && Visible(events) == "" && OnlyTokens(events);
    hide *;
    while i < |chunks|
      invariant 0 <= i <= |chunks|
      invariant ModelText(chunks) == text + ModelText(chunks[i..])
      invariant Completed(chunks) == Completed(chunks[i..])
      invariant FirstUnsafe(text).None?
      invariant sent == Heldback(text) <= |text|
      invariant OnlyTokens(events) && Visible(events) == text[..sent]
    {
      var chunk := chunks[i];
      NextChunk(chunks, i, text);
      ghost var more := if chunk.done then "" else ModelText(chunks[i + 1..]);
      HeldbackGrows(text, chunk.content);
      var longer := text + chunk.content;
      var verdict := FindUnsafeOutput(longer);
      if verdict.Some? {
        ShowsUnsafe(longer, more, Completed(chunks), end);
        HoldbackSuffices(text, chunk.content);
        events := CutOff(longer, sent, verdict.value, events);
        AddClosing(events, [Finished(Some(verdict.value.reason))]);
        events := events + [Finished(Some(verdict.value.reason))];
        TokensKeepPromise(ModelText(chunks), Completed(chunks), end, events);
        return;
      }
      ShowsSafe(longer, end);
      sent, events := Flush(longer, sent, if chunk.done then |longer| else |longer| - HOLDBACK, events);
      text := longer;
      if chunk.done {
        assert text[..sent] == text == text + more;
        AddClosing(events, [Finished(None)]);
        events := events + [Finished(None)];
        TokensKeepPromise(ModelText(chunks), Completed(chunks), end, events);
        return;
      }
      i := i + 1;
    }
    NothingLeft(chunks, i, text);
    ShowsSafe(text, end);
    ghost var tokens := events;
    if !end.Aborted? {
      events := events + [Failed(UNAVAILABLE_MESSAGE)];
    }
    AddClosing(tokens, if end.Aborted? then [] else [Failed(UNAVAILABLE_MESSAGE)]);
    assert tokens + [] == tokens;
    TokensKeepPromise(ModelText(chunks), Completed(chunks), end, events);
  }

  lemma AddClosing(tokens: seq<ChatEvent>, closing: seq<ChatEvent>)
    requires OnlyTokens(tokens)
    ensures TokensThen(tokens + closing, Visible(tokens), closing)
  {
    assert (tokens + closing)[..|tokens|] == tokens;
  }

  lemma NothingLeft(chunks: seq<Chunk>, i: nat, text: string)
    requires i == |chunks|
    ensures text + ModelText(chunks[i..]) == text && !Completed(chunks[i..])
  {
    assert chunks[i..] == [];
  }

  lemma HeldbackGrows(text: string, more: string)
    ensures Heldback(text) <= |text| && (text + more)[..Heldback(text)] == text[..Heldback(text)]
    ensures Heldback(text + more)
         == (if |text + more| - HOLDBACK <= Heldback(text) then Heldback(text) else |text + more| - HOLDBACK)
  {
  }

  /** An unsafe beginning decides what is shown and how the answer closes. */
  lemma ShowsUnsafe(p: string, q: string, completed: bool, end: StreamEnd)
    requires FirstUnsafe(p).Some?
    ensures FirstUnsafe(p).value.index <= |p|
    ensures Shows(p + q, completed) == CutShort(p, FirstUnsafe(p).value)
    ensures Closing(p + q, completed, end) == [Finished(Some(FirstUnsafe(p).value.reason))]
  {
    VerdictStands(p, q);
    HeadStays(p, q, FirstUnsafe(p).value.index);
  }

  lemma ShowsSafe(text: string, end: StreamEnd)
    requires FirstUnsafe(text).None?
    ensures Shows(text, true) == text && Closing(text, true, end) == [Finished(None)]
    ensures Heldback(text) <= |text| && Shows(text, false) == text[..Heldback(text)]
    ensures Closing(text, false, end) == if end.Aborted? then [] else [Failed(UNAVAILABLE_MESSAGE)]
  {
  }

  lemma EmptyIsSafe()
    ensures FirstUnsafe("").None?
  {
    if FirstUnsafe("").Some? {
      UnsafeStays("", "", FirstUnsafe("").value.index);
      assert false;
    }
  }

  lemma LeakReplyIsText(sent: nat)
    ensures LeakReply(sent) != ""
  {
    assert |LeakReply(sent)| >= |INJECTION_REPLY| > 0;
  }

  lemma NextChunk(chunks: seq<Chunk>, i: nat, text: string)
    requires i < |chunks| && ModelText(chunks) == text + ModelText(chunks[i..])
    ensures ModelText(chunks)
         == (text + chunks[i].content) + if chunks[i].done then "" else ModelText(chunks[i + 1..])
    ensures Completed(chunks[i..]) == (chunks[i].done || Completed(chunks[i + 1..]))
  {
    hide *;
    assert chunks[i..] == [chunks[i]] + chunks[i + 1..];
    FirstChunk(chunks[i], chunks[i + 1..]);
    Assoc(text, chunks[i].content, if chunks[i].done then "" else ModelText(chunks[i + 1..]));
  }

  lemma FirstChunk(chunk: Chunk, rest: seq<Chunk>)
    ensures ModelText([chunk] + rest) == chunk.content + if chunk.done then "" else ModelText(rest)
    ensures Completed([chunk] + rest) == (chunk.done || Completed(rest))
  {
    var all := [chunk] + rest;
    assert all[1..] == rest;
    assert chunk in all;
    assert forall c :: c in all <==> c == chunk || c in rest;
  }

  /** The answer depends on the model's text alone, not on how it was cut into chunks. */
  lemma CutsDoNotMatter(a: seq<Chunk>, b: seq<Chunk>)
    requires Concatenated(a) == Concatenated(b) && EndsDone(a) && EndsDone(b)
    ensures Shows(ModelText(a), Completed(a)) == Shows(ModelText(b), Completed(b))
  {
    WholeText(a);
    WholeText(b);
  }

  function Concatenated(chunks: seq<Chunk>): string {
    if chunks == [] then "" else chunks[0].content + Concatenated(chunks[1..])
  }

  /** The model's text is that of the chunks up to the first `done` one, or of all of them. */
  lemma {:induction false} TextEndsWithDone(chunks: seq<Chunk>, n: nat)
    requires n <= |chunks| && forall k | 0 <= k < n - 1 :: !chunks[k].done
    requires n < |chunks| ==> n > 0 && chunks[n - 1].done
    ensures ModelText(chunks) == Concatenated(chunks[..n])
    ensures n > 0 ==> (Completed(chunks) <==> chunks[n - 1].done)
  {
    if n == 0 {
      assert chunks == [];
    } else if n == 1 {
      assert chunks[..1] == [chunks[0]] && chunks[..1][1..] == [];
      if !chunks[0].done {
        assert chunks[1..] == [];
      }
    } else {
      assert chunks[..n][1..] == chunks[1..][..n - 1];
      TextEndsWithDone(chunks[1..], n - 1);
      assert Completed(chunks) <==> Completed(chunks[1..]);
    }
  }

  /** The shape of a complete stream: exactly the last chunk is `done`. */
  predicate EndsDone(chunks: seq<Chunk>) {
    chunks != [] && forall k | 0 <= k < |chunks| :: chunks[k].done <==> k == |chunks| - 1
  }

  lemma {:induction false} WholeText(chunks: seq<Chunk>)
    requires EndsDone(chunks)
    ensures ModelText(chunks) == Concatenated(chunks) && Completed(chunks)
  {
    assert chunks[|chunks| - 1].done;
    if |chunks| > 1 {
      assert !chunks[0].done;
      WholeText(chunks[1..]);
    } else {
      assert Concatenated(chunks[1..]) == "";
    }
  }
}

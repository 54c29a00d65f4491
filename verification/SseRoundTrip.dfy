/**
 What the browser reads of the event stream the controller prints.

 JSON text contains no line feed, so the blocks are found where they were
 printed; but it may contain U+2028 and U+2029, at which the browser's patterns
 stop. The stream is read back exactly if no event up to the first error event
 contains one of these two characters.
 */
module SseRoundTrip {
  import opened JsonText
  import opened Outcomes
  import opened Relay
  import opened Sse
  import opened Strings

  /** No line or paragraph separator. */
  predicate Clean(text: string) {
    '\U{2028}' !in text && '\U{2029}' !in text
  }

  predicate CleanEvent(event: ChatEvent) {
    match event
    case Token(content) => Clean(content)
    case Finished(_) => true
    case Failed(message) => Clean(message)
  }

  /** Every event the browser gets to see is clean. */
  predicate CleanUpToError(events: seq<ChatEvent>) {
    events == [] || (CleanEvent(events[0]) && (events[0].Failed? || CleanUpToError(events[1..])))
  }

  function TokensOf(event: ChatEvent): seq<string> {
    if event.Token? && event.content != "" then [event.content] else []
  }

  /** What should be read: the tokens that are not empty, up to the first error. */
  function Expected(events: seq<ChatEvent>): Reading {
    if events == [] then Reading([], Ended)
    else if events[0].Failed? then Reading([], ErrorShown(events[0].message))
    else Then(TokensOf(events[0]), Expected(events[1..]))
  }

  /** What is read: the same, except that an event that is not clean makes parsing throw. */
  function Actual(events: seq<ChatEvent>): Reading {
    if events == [] then Reading([], Ended)
    else if !CleanEvent(events[0]) then Reading([], Crashed)
    else if events[0].Failed? then Reading([], ErrorShown(events[0].message))
    else Then(TokensOf(events[0]), Actual(events[1..]))
  }

  // ------------------------------------------------------------------- lines

  predicate OneLine(text: string) {
    forall c <- text :: !IsTerminator(c)
  }

  /** The text up to its first line or paragraph separator. */
  function CleanHead(text: string): string {
    if text == "" || text[0] == '\U{2028}' || text[0] == '\U{2029}' then ""
    else [text[0]] + CleanHead(text[1..])
  }

  lemma {:induction false} LineAfter(a: string, b: string)
    requires OneLine(a)
    ensures LineOf(a + b) == a + LineOf(b)
  {
    if a == "" {
      assert a + b == b;
    } else {
      assert (a + b)[1..] == a[1..] + b;
      LineAfter(a[1..], b);
    }
  }

  lemma EscapedIsOneLine(c: char)
    ensures OneLine(Escaped(c)) <==> c != '\U{2028}' && c != '\U{2029}'
    ensures c == '\U{2028}' || c == '\U{2029}' ==> Escaped(c) == [c]
    ensures '\n' !in Escaped(c) && Escaped(c) != ""
  {
    if |Escaped(c)| == 6 {
      HexDigitIsNoTerminator(c as int / 16);
      HexDigitIsNoTerminator(c as int % 16);
      assert Escaped(c) == ['\\', 'u', '0', '0', HEX[c as int / 16], HEX[c as int % 16]];
    } else if |Escaped(c)| == 2 {
      assert Escaped(c) == ['\\', Escaped(c)[1]];
    } else {
      assert Escaped(c) == [c] && c in Escaped(c);
    }
  }

  lemma HexDigitIsNoTerminator(n: nat)
    requires n < 16
    ensures !IsTerminator(HEX[n])
  {
  }

  /** Escaped text breaks a line exactly at the separators it contains. */
  lemma {:induction false} LineOfEscape(text: string, tail: string)
    requires tail != "" && OneLine(tail)
    ensures LineOf(Escape(text) + tail) == if Clean(text) then Escape(text) + tail else Escape(CleanHead(text))
  {
    if text == "" {
      assert Escape(text) + tail == tail == tail + "";
      LineAfter(tail, "");
    } else {
      EscapedIsOneLine(text[0]);
      LineOfEscape(text[1..], tail);
      CleanStep(text);
      hide Escaped, Clean;
      var all := Escape(text) + tail;
      Assoc(Escaped(text[0]), Escape(text[1..]), tail);
      if text[0] != '\U{2028}' && text[0] != '\U{2029}' {
        LineAfter(Escaped(text[0]), Escape(text[1..]) + tail);
        assert LineOf(all) == Escaped(text[0]) + LineOf(Escape(text[1..]) + tail);
        EscapeCons(text[0], CleanHead(text[1..]));
        assert Clean(text) ==> LineOf(all) == all;
      } else {
        assert all[0] == text[0] && LineOf(all) == "";
        assert CleanHead(text) == "";
      }
    }
  }

  lemma EscapeCons(c: char, text: string)
    ensures Escape([c] + text) == Escaped(c) + Escape(text)
  {
    assert ([c] + text)[1..] == text;
  }

  lemma CleanStep(text: string)
    requires text != ""
    ensures Clean(text) <==> (text[0] != '\U{2028}' && text[0] != '\U{2029}' && Clean(text[1..]))
  {
    assert text == [text[0]] + text[1..];
  }

  lemma {:induction false} EscapeHasNoLineFeed(text: string)
    ensures '\n' !in Escape(text)
  {
    if text != "" {
      EscapedIsOneLine(text[0]);
      EscapeHasNoLineFeed(text[1..]);
    }
  }

  // ---------------------------------------------------------------- one event

  /** The JSON text is a label and a body; the first line of it is what the browser takes. */
  function FirstOfData(event: ChatEvent): string {
    LineOf(Stringify(SentOf(event)))
  }

  lemma LabelsAreOneLine()
    ensures OneLine(CONTENT_START) && OneLine(MESSAGE_START) && OneLine(STATS_START)
    ensures forall g :: OneLine(GuardrailText(g))
  {
  }

  lemma DataLineOfEvent(event: ChatEvent)
    ensures Parse(FirstOfData(event)) == if CleanEvent(event) then Some(PayloadOf(SentOf(event))) else None
  {
    ParseStringify(SentOf(event));
    LabelsAreOneLine();
    hide Parse, Escape, Clean, GuardrailText;
    match event
    case Token(content) =>
      LineAfter(CONTENT_START, Escape(content) + "\"}");
      LineOfEscape(content, "\"}");
      CutTextDoesNotParse(CleanHead(content));
    case Failed(message) =>
      LineAfter(MESSAGE_START, Escape(message) + "\"}");
      LineOfEscape(message, "\"}");
      CutTextDoesNotParse(CleanHead(message));
    case Finished(guardrail) =>
      LineAfter(STATS_START, GuardrailText(guardrail) + "}}");
      LineAfter(GuardrailText(guardrail), "}}");
      LineAfter("}}", "");
      assert "}}" + "" == "}}";
  }

  lemma StringifyShape(sent: Sent)
    ensures |Stringify(sent)| > 1 && Stringify(sent)[0] == '{'
    ensures Stringify(sent)[|Stringify(sent)| - 1] == '}'
    ensures '\n' !in Stringify(sent)
  {
    match sent
    case Content(text) =>
      EscapeHasNoLineFeed(text);
      JoinedShape(CONTENT_START, Escape(text), "\"}");
    case Message(text) =>
      EscapeHasNoLineFeed(text);
      JoinedShape(MESSAGE_START, Escape(text), "\"}");
    case Stats(guardrail) =>
      JoinedShape(STATS_START, GuardrailText(guardrail), "}}");
  }

  lemma JoinedShape(start: string, body: string, end: string)
    requires '\n' !in start && '\n' !in body && '\n' !in end && start != "" && end != ""
    ensures var text := start + (body + end);
      '\n' !in text && |text| > 1 && text[0] == start[0] && text[|text| - 1] == end[|end| - 1]
  {
  }

  lemma FieldOnFirstLine(first: string, rest: string, prefix: string)
    requires OneLine(first) && prefix < first
    ensures Field(first + ("\n" + rest), prefix) == Some(first[|prefix|..])
  {
    LineAfter(first, "\n" + rest);
    assert first + "" == first;
  }

  lemma FieldAfterFirstLine(first: string, rest: string, prefix: string)
    requires OneLine(first) && !(prefix < first)
    ensures Field(first + ("\n" + rest), prefix) == Field(rest, prefix)
  {
    LineAfter(first, "\n" + rest);
    assert first + "" == first;
    assert (first + ("\n" + rest))[|first| + 1..] == rest;
  }

  lemma FieldOfLine(value: string, prefix: string)
    requires OneLine(prefix) && value != "" && !IsTerminator(value[0])
    ensures Field(prefix + value, prefix) == Some(LineOf(value))
  {
    LineAfter(prefix, value);
    assert LineOf(value)[0] == value[0];
    assert (prefix + LineOf(value))[|prefix|..] == LineOf(value);
  }

  lemma EventLineShape(event: ChatEvent)
    ensures var first := EventLine(event);
      && OneLine(first) && "event: " < first && !("data: " < first) && first[|"event: "|..] == EventName(event)
    ensures OneLine("data: ")
  {
    assert EventLine(event)[0] == 'e';
  }

  lemma FieldsOfBlock(event: ChatEvent)
    ensures Field(Block(event), "event: ") == Some(EventName(event))
    ensures Field(Block(event), "data: ") == Some(FirstOfData(event))
  {
    var first := EventLine(event);
    StringifyShape(SentOf(event));
    EventLineShape(event);
    hide Stringify, Field, EventLine, LineOf, OneLine;
    FieldOnFirstLine(first, DataLine(event), "event: ");
    FieldAfterFirstLine(first, DataLine(event), "data: ");
    FieldOfLine(Stringify(SentOf(event)), "data: ");
  }

  /** The blank line after a block is the first one, and ends it. */
  lemma BlockEnds(event: ChatEvent, more: string)
    ensures IndexOf(Block(event) + "\n\n" + more, "\n\n") == Some(|Block(event)|)
  {
    StringifyShape(SentOf(event));
    assert '\n' !in EventLine(event);
    hide Stringify, EventLine;
    TwoLines(EventLine(event), DataLine(event), more);
  }

  lemma TwoLines(first: string, second: string, more: string)
    requires '\n' !in first && '\n' !in second && second != ""
    ensures IndexOf(first + ("\n" + second) + "\n\n" + more, "\n\n") == Some(|first + ("\n" + second)|)
  {
    var block := first + ("\n" + second);
    var text := block + "\n\n" + more;
    var n := |block|;
    assert text[n..n + 2] == "\n\n";
    forall j: nat | j < n
      ensures !OccursAt(text, "\n\n", j)
    {
      assert text[j] == block[j];
      if j == |first| {
        assert text[j + 1] == second[0];
        assert text[j..j + 2][1] == second[0];
      } else {
        assert text[j..j + 2][0] == block[j] != '\n';
      }
    }
    FirstIsUnique(text, "\n\n", n);
  }

  lemma SegmentsOfPrinted(event: ChatEvent, more: string)
    ensures Segments(Block(event) + "\n\n" + more, "\n\n") == [Block(event)] + Segments(more, "\n\n")
  {
    BlockEnds(event, more);
    hide Block;
    var text := Block(event) + "\n\n" + more;
    assert text[..|Block(event)|] == Block(event);
    assert text[|Block(event)| + 2..] == more;
  }

  // ------------------------------------------------------------ all the events

  lemma ReadOneEvent(event: ChatEvent, blocks: seq<string>)
    ensures ReadBlocks([Block(event)] + blocks, Parse) ==
            if !CleanEvent(event) then Reading([], Crashed)
            else if event.Failed? then Reading([], ErrorShown(event.message))
            else Then(TokensOf(event), ReadBlocks(blocks, Parse))
  {
    FieldsOfBlock(event);
    DataLineOfEvent(event);
    hide Field, Block, Parse, FirstOfData, CleanEvent;
    FirstBlock([], Block(event), blocks, Parse);
    NothingThen(ReadBlocks([Block(event)] + blocks, Parse));
    NothingThen(ReadBlocks(blocks, Parse));
    if event.Token? {
      assert TokensIn("token", PayloadOf(SentOf(event))) == TokensOf(event);
      assert [] + TokensOf(event) == TokensOf(event);
    }
  }

  lemma NothingThen(reading: Reading)
    ensures Then([], reading) == reading
  {
    assert [] + reading.tokens == reading.tokens;
  }

  lemma {:induction false} ReadPrinted(events: seq<ChatEvent>)
    ensures ReadText(Printed(events), Parse) == Actual(events)
  {
    if events != [] {
      SegmentsOfPrinted(events[0], Printed(events[1..]));
      hide Block, Parse, Field, CleanEvent;
      ReadOneEvent(events[0], Segments(Printed(events[1..]), "\n\n"));
      ReadPrinted(events[1..]);
    } else {
      assert IndexOf("", "\n\n").None?;
    }
  }

  lemma {:induction false} ActualIsExpected(events: seq<ChatEvent>)
    ensures Actual(events) == Expected(events) <==> CleanUpToError(events)
    ensures Actual(events).ending.Crashed? <==> !CleanUpToError(events)
    ensures !Expected(events).ending.Crashed?
  {
    if events != [] {
      ActualIsExpected(events[1..]);
    }
  }

  /**
   Printing the events and reading the text back, however the network cuts it,
   gives exactly the tokens and the error that were sent, if and only if no
   event the browser gets to see contains a line or paragraph separator. If
   one does, reading throws.
   */
  lemma RoundTrip(events: seq<ChatEvent>, pieces: seq<string>)
    requires Concat(pieces) == Printed(events)
    ensures ReadText(Concat(pieces), Parse) == Expected(events) <==> CleanUpToError(events)
    ensures ReadText(Concat(pieces), Parse).ending.Crashed? <==> !CleanUpToError(events)
  {
    ReadPrinted(events);
    ActualIsExpected(events);
  }
}

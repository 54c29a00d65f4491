/**
 Sending the chat events as server-sent events (backend/src/ai/ai.controller.ts)
 and reading them in the browser (frontend/src/lib/ai-chat-api.ts).
 */
module Sse {
  import opened JsonText
  import opened Outcomes
  import opened Relay
  import opened Strings

  // ----------------------------------------------------------------- printing

  function EventName(event: ChatEvent): string {
    match event
    case Token(_) => "token"
    case Finished(_) => "done"
    case Failed(_) => "error"
  }

  function SentOf(event: ChatEvent): Sent {
    match event
    case Token(content) => Content(content)
    case Finished(guardrail) => Stats(guardrail)
    case Failed(message) => Message(message)
  }

  function EventLine(event: ChatEvent): string {
    "event: " + EventName(event)
  }

  function DataLine(event: ChatEvent): string {
    "data: " + Stringify(SentOf(event))
  }

  function Block(event: ChatEvent): string {
    EventLine(event) + ("\n" + DataLine(event))
  }

  /** The text of each kind of event on the wire. */
  lemma WireFormat(text: string)
    ensures Block(Token(text)) == "event: token" + ("\n" + ("data: " + ("{\"content\":\"" + (Escape(text) + "\"}"))))
    ensures Block(Failed(text)) == "event: error" + ("\n" + ("data: " + ("{\"message\":\"" + (Escape(text) + "\"}"))))
    ensures Block(Finished(None)) == "event: done" + ("\n" + ("data: " + ("{\"stats\":{\"guardrail\":" + ("null" + "}}"))))
    ensures Escaped('"') == "\\\"" && Escaped('\\') == "\\\\" && Escaped('\n') == "\\n" && Escaped('\r') == "\\r"
    ensures Escaped('\t') == "\\t" && Escaped('\U{0008}') == "\\b" && Escaped('\U{000C}') == "\\f"
    ensures forall c: char | c >= ' ' && c != '"' && c != '\\' :: Escaped(c) == [c]
  {
    assert "event: " + "token" == "event: token" && "event: " + "error" == "event: error";
    assert "event: " + "done" == "event: done";
  }

  function Printed(events: seq<ChatEvent>): string {
    if events == [] then "" else Block(events[0]) + "\n\n" + Printed(events[1..])
  }

  /** The controller's loop: one write per event. */
  method Print(events: seq<ChatEvent>) returns (text: string)
    ensures text == Printed(events)
  {
    text := "";
    var k := 0;
    assert events[0..] == events;
    while k < |events|
      invariant 0 <= k <= |events|
      invariant text + Printed(events[k..]) == Printed(events)
    {
      assert events[k..][1..] == events[k + 1..];
      Assoc(text, Block(events[k]) + "\n\n", Printed(events[k + 1..]));
      text := text + (Block(events[k]) + "\n\n");
      k := k + 1;
    }
  }

  // ------------------------------------------------------------------ reading

  const UNAVAILABLE_STATUS_MESSAGE := UNAVAILABLE_MESSAGE

  /** How reading ends: the stream is over, an error event is shown, or parsing throws. */
  datatype Ending = Ended | ErrorShown(message: string) | Crashed

  datatype Reading = Reading(tokens: seq<string>, ending: Ending)

  /** The characters at which `.` and `$` of a multi-line pattern stop. */
  predicate IsTerminator(c: char) {
    c == '\n' || c == '\r' || c == '\U{2028}' || c == '\U{2029}'
  }

  function LineOf(text: string): (line: string)
    ensures |line| <= |text|
  {
    if text == "" || IsTerminator(text[0]) then "" else [text[0]] + LineOf(text[1..])
  }

  /** The rest of the first line that starts with the prefix and goes on after it. */
  function Field(block: string, prefix: string): Option<string>
    decreases |block|
  {
    var line := LineOf(block);
    if prefix < line then Some(line[|prefix|..])
    else if |line| == |block| then None
    else Field(block[|line| + 1..], prefix)
  }

  function TokensIn(name: string, payload: Payload): seq<string> {
    if name == "token" && payload.content.Some? && payload.content.value != "" then [payload.content.value] else []
  }

  function Then(tokens: seq<string>, reading: Reading): Reading {
    Reading(tokens + reading.tokens, reading.ending)
  }

  function ReadBlocks(blocks: seq<string>, parse: string -> Option<Payload>): Reading {
    if blocks == [] then Reading([], Ended)
    else
      var name, data := Field(blocks[0], "event: "), Field(blocks[0], "data: ");
      if name.None? || data.None? then ReadBlocks(blocks[1..], parse)
      else
        match parse(data.value)
        case None => Reading([], Crashed)
        case Some(payload) =>
          if name.value == "error" then
            Reading([], ErrorShown(payload.message.GetOrElse(UNAVAILABLE_STATUS_MESSAGE)))
          else Then(TokensIn(name.value, payload), ReadBlocks(blocks[1..], parse))
  }

  /** Reading a whole text in one go. */
  function ReadText(text: string, parse: string -> Option<Payload>): Reading {
    ReadBlocks(Segments(text, "\n\n"), parse)
  }

  lemma ThenTwice(a: seq<string>, b: seq<string>, reading: Reading)
    ensures Then(a, Then(b, reading)) == Then(a + b, reading)
  {
    Assoc(a, b, reading.tokens);
  }

  lemma NextBlock(tokens: seq<string>, buffer: string, more: string, i: nat, parse: string -> Option<Payload>)
    requires IndexOf(buffer, "\n\n") == Some(i)
    ensures Then(tokens, ReadText(buffer + more, parse))
         == Then(tokens, ReadBlocks([buffer[..i]] + Segments(buffer[i + 2..] + more, "\n\n"), parse))
  {
    SegmentsGrow(buffer, more, "\n\n", i);
  }

  lemma FirstBlock(tokens: seq<string>, block: string, rest: seq<string>, parse: string -> Option<Payload>)
    ensures
      var name, data := Field(block, "event: "), Field(block, "data: ");
      Then(tokens, ReadBlocks([block] + rest, parse)) ==
      if name.None? || data.None? then Then(tokens, ReadBlocks(rest, parse))
      else if parse(data.value).None? then Reading(tokens, Crashed)
      else if name.value == "error" then
        Reading(tokens, ErrorShown(parse(data.value).value.message.GetOrElse(UNAVAILABLE_STATUS_MESSAGE)))
      else Then(tokens + TokensIn(name.value, parse(data.value).value), ReadBlocks(rest, parse))
  {
    hide Field, TokensIn;
    assert ([block] + rest)[1..] == rest;
    var name, data := Field(block, "event: "), Field(block, "data: ");
    if name.Some? && data.Some? && parse(data.value).Some? {
      ThenTwice(tokens, TokensIn(name.value, parse(data.value).value), ReadBlocks(rest, parse));
    }
  }

  /** The browser's loop. Whatever the pieces, it reads what the whole text says. */
  method ReadStream(pieces: seq<string>, parse: string -> Option<Payload>)
    returns (tokens: seq<string>, ending: Ending)
    ensures Reading(tokens, ending) == ReadText(Concat(pieces), parse)
  {
    tokens := [];
    var buffer, k := "", 0;
    ghost var whole := ReadText(Concat(pieces), parse);
    assert pieces[0..] == pieces && "" + Concat(pieces) == Concat(pieces);
    hide Field, ReadBlocks;
    while k < |pieces|
      invariant 0 <= k <= |pieces|
      invariant Then(tokens, ReadText(buffer + Concat(pieces[k..]), parse)) == whole
      invariant IndexOf(buffer, "\n\n").None?
    {
      NextPiece(pieces, k, buffer);
      buffer := buffer + pieces[k];
      k := k + 1;
      ghost var more := Concat(pieces[k..]);
      var boundary := IndexOf(buffer, "\n\n");
      while boundary.Some?
        invariant boundary == IndexOf(buffer, "\n\n")
        invariant Then(tokens, ReadText(buffer + more, parse)) == whole
        decreases |buffer|
      {
        var block := buffer[..boundary.value];
        NextBlock(tokens, buffer, more, boundary.value, parse);
        buffer := buffer[boundary.value + 2..];
        boundary := IndexOf(buffer, "\n\n");
        FirstBlock(tokens, block, Segments(buffer + more, "\n\n"), parse);
        var name, data := Field(block, "event: "), Field(block, "data: ");
        if name.None? || data.None? {
          continue;
        }
        var payload := parse(data.value);
        if payload.None? {
          return tokens, Crashed;
        }
        tokens := tokens + TokensIn(name.value, payload.value);
        if name.value == "error" {
          assert TokensIn(name.value, payload.value) == [];
          return tokens, ErrorShown(payload.value.message.GetOrElse(UNAVAILABLE_STATUS_MESSAGE));
        }
      }
    }
    assert Concat(pieces[k..]) == "" && buffer + "" == buffer;
    ending := Ended;
    NoBlocks(buffer, tokens, parse);
  }

  lemma NoBlocks(buffer: string, tokens: seq<string>, parse: string -> Option<Payload>)
    requires IndexOf(buffer, "\n\n").None?
    ensures Then(tokens, ReadText(buffer, parse)) == Reading(tokens, Ended)
  {
  }
}

/**
 The whole way of an answer: from the language model's response, cut anywhere,
 through the line reader, the filter and the event stream, cut anywhere again,
 to the text the browser shows.
 */
module ChatPipeline {
  import opened Guardrails
  import opened JsonText
  import opened Ndjson
  import opened Outcomes
  import opened Relay
  import opened Sse
  import opened SseRoundTrip
  import opened Strings

  /** How reading ends in the browser, given the closing event of the answer. */
  function EndingOf(closing: seq<ChatEvent>): Ending {
    if closing != [] && closing[0].Failed? then ErrorShown(closing[0].message) else Ended
  }

  predicate IsClosing(closing: seq<ChatEvent>) {
    |closing| <= 1 && forall e <- closing :: !e.Token? && CleanEvent(e)
  }

  /** Text in which every character comes before the line separator. */
  predicate Plain(text: string) {
    forall c <- text :: c < '\U{2028}'
  }

  lemma PlainJoin(a: string, b: string)
    requires Plain(a) && Plain(b)
    ensures Plain(a + b)
  {
  }

  lemma NoticeBeginsPlain()
    ensures Plain("Trợ lý AI tạm thời không khả dụng, ")
  {
    assert Plain("Trợ lý AI tạm thời ") && Plain("không khả dụng, ");
    hide Plain;
    PlainJoin("Trợ lý AI tạm thời ", "không khả dụng, ");
  }

  lemma NoticeEndsPlain()
    ensures Plain("bạn vui lòng liên hệ nhân viên nhé.")
  {
  }

  lemma NoticeIsClean()
    ensures Clean(UNAVAILABLE_MESSAGE)
  {
    NoticeBeginsPlain();
    NoticeEndsPlain();
    assert Plain(UNAVAILABLE_MESSAGE) by {
      hide Plain;
      PlainJoin("Trợ lý AI tạm thời không khả dụng, ", "bạn vui lòng liên hệ nhân viên nhé.");
    }
  }

  lemma ClosingIsClosing(text: string, completed: bool, end: StreamEnd)
    ensures IsClosing(Closing(text, completed, end))
  {
    NoticeIsClean();
    hide Clean;
  }

  lemma CleanJoin(a: string, b: string)
    ensures Clean(a + b) <==> Clean(a) && Clean(b)
  {
    assert forall c :: c in a + b <==> c in a || c in b;
  }

  lemma {:induction false} VisibleCons(event: ChatEvent, rest: seq<ChatEvent>)
    ensures Visible([event] + rest) == Shown(event) + Visible(rest)
  {
    if rest == [] {
      VisibleAppend([], event);
      assert [event] + rest == [] + [event];
    } else {
      var init, last := rest[..|rest| - 1], rest[|rest| - 1];
      VisibleCons(event, init);
      assert ([event] + rest)[..|rest|] == [event] + init;
      Assoc(Shown(event), Visible(init), Shown(last));
    }
  }

  /** The browser puts the tokens together again, unless one of them is not clean. */
  lemma {:induction false} TokensThenClosing(tokens: seq<ChatEvent>, closing: seq<ChatEvent>)
    requires OnlyTokens(tokens) && IsClosing(closing)
    ensures CleanUpToError(tokens + closing) <==> Clean(Visible(tokens))
    ensures Concat(Expected(tokens + closing).tokens) == Visible(tokens)
    ensures Expected(tokens + closing).ending == EndingOf(closing)
  {
    if tokens == [] {
      assert tokens + closing == closing;
      assert closing == [] || closing[1..] == [];
    } else {
      var all, rest := tokens + closing, tokens[1..];
      assert all[1..] == rest + closing && tokens == [tokens[0]] + rest;
      TokensThenClosing(rest, closing);
      VisibleCons(tokens[0], rest);
      CleanJoin(Shown(tokens[0]), Visible(rest));
      hide Visible, Clean;
      var more := Expected(rest + closing).tokens;
      assert Expected(all).tokens == [tokens[0].content] + more;
      assert ([tokens[0].content] + more)[1..] == more;
    }
  }

  /** What the model's response says: its text, whether it was complete, and how it ended if not. */
  datatype Answer = Answer(text: string, completed: bool, end: StreamEnd) {

    function Shown(): string {
      Shows(text, completed)
    }

    function Ending(): Ending {
      EndingOf(Closing(text, completed, end))
    }
  }

  function AnswerOf(response: string, ending: StreamEnd, parse: string -> Option<Chunk>): Answer {
    var feed := FeedOfText(response, parse);
    Answer(ModelText(feed.chunks), Completed(feed.chunks), if feed.broke then Broke else ending)
  }

  /** What the client was promised is on the screen, and the error if there is one. */
  ghost predicate ShownAsPromised(answer: Answer, shown: string, ending: Ending) {
    exists closing: seq<ChatEvent> ::
      && Promised(answer.text, answer.completed, answer.end, shown, closing)
      && ending == if closing == [Failed(UNAVAILABLE_MESSAGE)] then ErrorShown(UNAVAILABLE_MESSAGE) else Ended
  }

  lemma AnswerIsPromised(answer: Answer)
    ensures ShownAsPromised(answer, answer.Shown(), answer.Ending())
  {
    ShowsAsPromised(answer.text, answer.completed, answer.end);
    hide Promised, Shows;
  }

  /**
   From the model to the screen. The text shown is what the batch filter shows
   of the model's whole text, whatever the `pieces` the response came in and the
   `widths` of the pieces the network delivered, provided that text contains no
   line or paragraph separator; if it does, reading throws.
   */
  method Chat(pieces: seq<string>, ending: StreamEnd, parse: string -> Option<Chunk>, widths: seq<nat>)
    returns (shown: seq<string>, shownEnding: Ending)
    ensures Clean(AnswerOf(Concat(pieces), ending, parse).Shown()) ==>
      && Concat(shown) == AnswerOf(Concat(pieces), ending, parse).Shown()
      && shownEnding == AnswerOf(Concat(pieces), ending, parse).Ending()
    ensures shownEnding.Crashed? <==> !Clean(AnswerOf(Concat(pieces), ending, parse).Shown())
    ensures !shownEnding.Crashed? ==>
      ShownAsPromised(AnswerOf(Concat(pieces), ending, parse), Concat(shown), shownEnding)
    ensures shownEnding.Crashed? ==>
      exists text: string, e: Ending ::
        ShownAsPromised(AnswerOf(Concat(pieces), ending, parse), text, e) && !Clean(text)
  {
    var chunks, end := ReadChunks(pieces, ending, parse);
    ghost var answer := AnswerOf(Concat(pieces), ending, parse);
    assert answer == Answer(ModelText(chunks), Completed(chunks), end);
    var events := Relay.Relay(chunks, end);
    hide *;
    var sent := Print(events);
    var received := CutBy(sent, widths);
    shown, shownEnding := ReadStream(received, Parse);
    BrowserShows(answer, events);
    AnswerIsPromised(answer);
  }

  /** What is read of the events of an answer. */
  lemma BrowserShows(answer: Answer, events: seq<ChatEvent>)
    requires TokensThen(events, answer.Shown(), Closing(answer.text, answer.completed, answer.end))
    ensures var reading := ReadText(Printed(events), Parse);
      && (Clean(answer.Shown()) ==> Concat(reading.tokens) == answer.Shown() && reading.ending == answer.Ending())
      && (reading.ending.Crashed? <==> !Clean(answer.Shown()))
  {
    var closing := Closing(answer.text, answer.completed, answer.end);
    ClosingIsClosing(answer.text, answer.completed, answer.end);
    TokensThenClosing(events[..|events| - |closing|], closing);
    ReadPrinted(events);
    ActualIsExpected(events);
  }
}

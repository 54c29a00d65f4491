/**
 Reading the model's answer: one JSON object per line, arriving in pieces cut
 anywhere (the generator of `openChatStream` in backend/src/ai/ollama.client.ts).
 */
module Ndjson {
  import opened Outcomes
  import opened Relay
  import opened Strings

  /** The characters `String.prototype.trim` removes: white space and line terminators. */
  predicate IsSpace(c: char) {
    || c in "\t\n\U{000B}\U{000C}\r \U{00A0}\U{FEFF}\U{1680}\U{2028}\U{2029}\U{202F}\U{205F}\U{3000}"
    || '\U{2000}' <= c <= '\U{200A}'
  }

  function TrimStart(text: string): string {
    if text != "" && IsSpace(text[0]) then TrimStart(text[1..]) else text
  }

  function TrimEnd(text: string): string {
    if text != "" && IsSpace(text[|text| - 1]) then TrimEnd(text[..|text| - 1]) else text
  }

  function Trim(text: string): string {
    TrimEnd(TrimStart(text))
  }

  predicate AllSpace(text: string) {
    forall c <- text :: IsSpace(c)
  }

  lemma {:induction false} StartIsSpace(text: string) returns (left: string)
    ensures text == left + TrimStart(text) && AllSpace(left)
    ensures TrimStart(text) == "" || !IsSpace(TrimStart(text)[0])
  {
    hide IsSpace;
    left := "";
    if text != "" && IsSpace(text[0]) {
      var rest := StartIsSpace(text[1..]);
      left := [text[0]] + rest;
      assert text == [text[0]] + text[1..];
    }
  }

  lemma {:induction false} EndIsSpace(text: string) returns (right: string)
    ensures text == TrimEnd(text) + right && AllSpace(right)
    ensures TrimEnd(text) == "" || !IsSpace(TrimEnd(text)[|TrimEnd(text)| - 1])
  {
    hide IsSpace;
    right := "";
    if text != "" && IsSpace(text[|text| - 1]) {
      var rest := EndIsSpace(text[..|text| - 1]);
      right := rest + [text[|text| - 1]];
      assert text == text[..|text| - 1] + [text[|text| - 1]];
    }
  }

  /** Trimming takes away white space at both ends and nothing else, and all of it. */
  lemma TrimIsCore(text: string) returns (left: string, right: string)
    ensures text == left + (Trim(text) + right)
    ensures AllSpace(left) && AllSpace(right)
    ensures Trim(text) != "" ==> !IsSpace(Trim(text)[0]) && !IsSpace(Trim(text)[|Trim(text)| - 1])
    ensures Trim(text) == "" <==> AllSpace(text)
  {
    left := StartIsSpace(text);
    right := EndIsSpace(TrimStart(text));
    hide IsSpace;
    if Trim(text) != "" {
      assert Trim(text)[0] == TrimStart(text)[0] && Trim(text)[0] in text;
    }
  }

  /** What the generator hands on: chunks, and whether it then stopped at a bad line. */
  datatype Feed = Feed(chunks: seq<Chunk>, broke: bool)

  /**
   The lines in order: blank ones are skipped, each other one is parsed, and
   the first that is no JSON or reports an error stops the feed.
   */
  function FeedOf(lines: seq<string>, parse: string -> Option<Chunk>): Feed {
    if lines == [] then Feed([], false)
    else if Trim(lines[0]) == "" then FeedOf(lines[1..], parse)
    else
      match parse(Trim(lines[0]))
      case None => Feed([], true)
      case Some(chunk) =>
        var rest := FeedOf(lines[1..], parse);
        Feed([chunk] + rest.chunks, rest.broke)
  }

  /** The feed of a whole text, read in one go: only lines closed by a line feed count. */
  function FeedOfText(text: string, parse: string -> Option<Chunk>): Feed {
    FeedOf(Segments(text, "\n"), parse)
  }

  /** What the lines that are not blank say, if all of them parse. */
  function Parsed(lines: seq<string>, parse: string -> Option<Chunk>): Option<seq<Chunk>> {
    if lines == [] then Some([])
    else
      var n := |lines| - 1;
      match Parsed(lines[..n], parse)
      case None => None
      case Some(chunks) =>
        if AllSpace(lines[n]) then Some(chunks)
        else match parse(Trim(lines[n]))
             case None => None
             case Some(chunk) => Some(chunks + [chunk])
  }

  /** All lines, if all of them parse; otherwise those before the first that does not. */
  lemma {:induction false} FeedIsParsed(lines: seq<string>, parse: string -> Option<Chunk>)
    ensures Parsed(lines, parse).Some? ==> FeedOf(lines, parse) == Feed(Parsed(lines, parse).value, false)
    ensures forall n: nat | n < |lines| && Parsed(lines[..n], parse).Some? && Parsed(lines[..n + 1], parse).None? ::
      FeedOf(lines, parse) == Feed(Parsed(lines[..n], parse).value, true)
  {
    if lines == [] {
    } else {
      var init, last := lines[..|lines| - 1], lines[|lines| - 1];
      assert lines == init + [last];
      FeedIsParsed(init, parse);
      var left, right := TrimIsCore(last);
      hide Trim, AllSpace, IsSpace;
      MoreLines(init, [last], parse);
      FirstLine(last, [], parse);
      assert [last] + [] == [last];
      forall n: nat | n < |lines| && Parsed(lines[..n], parse).Some? && Parsed(lines[..n + 1], parse).None?
        ensures FeedOf(lines, parse) == Feed(Parsed(lines[..n], parse).value, true)
      {
        assert lines[..n + 1][..n] == lines[..n];
        if n < |init| {
          assert lines[..n] == init[..n] && lines[..n + 1] == init[..n + 1];
        } else {
          assert lines[..n] == init && lines[..n + 1] == lines;
        }
      }
    }
  }

  lemma {:induction false} MoreLines(lines: seq<string>, more: seq<string>, parse: string -> Option<Chunk>)
    ensures FeedOf(lines + more, parse)
         == if FeedOf(lines, parse).broke then FeedOf(lines, parse)
            else Before(FeedOf(lines, parse).chunks, FeedOf(more, parse))
  {
    hide Trim;
    if lines == [] {
      assert lines + more == more;
      assert [] + FeedOf(more, parse).chunks == FeedOf(more, parse).chunks;
    } else {
      assert (lines + more)[1..] == lines[1..] + more;
      MoreLines(lines[1..], more, parse);
      if parse(Trim(lines[0])).Some? {
        Assoc([parse(Trim(lines[0])).value], FeedOf(lines[1..], parse).chunks, FeedOf(more, parse).chunks);
      }
    }
  }

  function Before(chunks: seq<Chunk>, feed: Feed): Feed {
    Feed(chunks + feed.chunks, feed.broke)
  }

  lemma FirstLine(line: string, rest: seq<string>, parse: string -> Option<Chunk>)
    ensures FeedOf([line] + rest, parse) ==
            if Trim(line) == "" then FeedOf(rest, parse)
            else if parse(Trim(line)).None? then Feed([], true)
            else Before([parse(Trim(line)).value], FeedOf(rest, parse))
  {
    assert ([line] + rest)[1..] == rest;
  }

  lemma BeforeTwice(a: seq<Chunk>, b: seq<Chunk>, feed: Feed)
    ensures Before(a, Before(b, feed)) == Before(a + b, feed)
  {
    Assoc(a, b, feed.chunks);
  }

  /**
   The generator's loop. Whatever the pieces, it hands on the feed of the whole
   text. `ending` says how reading the response ends: it is used up, or reading
   fails, because the connection breaks or because the client has gone.
   */
  method ReadChunks(pieces: seq<string>, ending: StreamEnd, parse: string -> Option<Chunk>)
    returns (chunks: seq<Chunk>, end: StreamEnd)
    ensures Feed(chunks, FeedOfText(Concat(pieces), parse).broke) == FeedOfText(Concat(pieces), parse)
    ensures end == if FeedOfText(Concat(pieces), parse).broke then Broke else ending
  {
    chunks := [];
    var buffer, k := "", 0;
    ghost var whole := FeedOfText(Concat(pieces), parse);
    assert pieces[0..] == pieces && "" + Concat(pieces) == Concat(pieces);
    while k < |pieces|
      invariant 0 <= k <= |pieces|
      invariant Before(chunks, FeedOfText(buffer + Concat(pieces[k..]), parse)) == whole
      invariant IndexOf(buffer, "\n").None?
    {
      NextPiece(pieces, k, buffer);
      buffer := buffer + pieces[k];
      k := k + 1;
      ghost var more := Concat(pieces[k..]);
      var newline := IndexOf(buffer, "\n");
      while newline.Some?
        invariant newline == IndexOf(buffer, "\n")
        invariant Before(chunks, FeedOfText(buffer + more, parse)) == whole
        decreases |buffer|
      {
        var line := Trim(buffer[..newline.value]);
        NextLine(chunks, buffer, more, newline.value, parse);
        buffer := buffer[newline.value + 1..];
        newline := IndexOf(buffer, "\n");
        if line == "" {
          continue;
        }
        match parse(line)
        case None =>
          return chunks, Broke;
        case Some(chunk) =>
          chunks := chunks + [chunk];
      }
    }
    assert Concat(pieces[k..]) == "" && buffer + "" == buffer;
    assert Segments(buffer, "\n") == [];
    end := ending;
  }

  lemma NextLine(chunks: seq<Chunk>, buffer: string, more: string, i: nat, parse: string -> Option<Chunk>)
    requires IndexOf(buffer, "\n") == Some(i)
    ensures var line, rest := Trim(buffer[..i]), FeedOfText(buffer[i + 1..] + more, parse);
      Before(chunks, FeedOfText(buffer + more, parse)) ==
      if line == "" then Before(chunks, rest)
      else if parse(line).None? then Feed(chunks, true)
      else Before(chunks + [parse(line).value], rest)
  {
    SegmentsGrow(buffer, more, "\n", i);
    FirstLine(buffer[..i], Segments(buffer[i + 1..] + more, "\n"), parse);
    if Trim(buffer[..i]) != "" && parse(Trim(buffer[..i])).Some? {
      BeforeTwice(chunks, [parse(Trim(buffer[..i])).value], FeedOfText(buffer[i + 1..] + more, parse));
    }
  }
}

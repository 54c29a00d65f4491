/**
 The JSON texts the chat controller sends, and reading them back
 (`JSON.stringify` in backend/src/ai/ai.controller.ts, `JSON.parse` in
 frontend/src/lib/ai-chat-api.ts), for the objects that are sent: a token, an
 error and the statistics, of which only the guardrail is modelled.
 */
module JsonText {
  import opened Guardrails
  import opened Outcomes
  import opened Strings

  /** What the browser looks at in a parsed object. */
  datatype Payload = Payload(content: Option<string>, message: Option<string>)

  datatype Sent = Content(text: string) | Message(text: string) | Stats(guardrail: Option<Reason>)

  const HEX := "0123456789abcdef"

  // ----------------------------------------------------------------- printing

  /** A control character is escaped, and so are the quote and the backslash; nothing else is. */
  function Escaped(c: char): string {
    if c == '"' then "\\\""
    else if c == '\\' then "\\\\"
    else if c == '\U{0008}' then "\\b"
    else if c == '\U{000C}' then "\\f"
    else if c == '\n' then "\\n"
    else if c == '\r' then "\\r"
    else if c == '\t' then "\\t"
    else if c < ' ' then "\\u00" + [HEX[c as int / 16], HEX[c as int % 16]]
    else [c]
  }

  function Escape(text: string): string {
    if text == "" then "" else Escaped(text[0]) + Escape(text[1..])
  }

  function GuardrailText(guardrail: Option<Reason>): string {
    match guardrail
    case None => "null"
    case Some(ForeignLanguage) => "\"foreign-language\""
    case Some(InternalLeak) => "\"internal-leak\""
  }

  const CONTENT_START := "{\"content\":\""
  const MESSAGE_START := "{\"message\":\""
  const STATS_START := "{\"stats\":{\"guardrail\":"

  function Stringify(sent: Sent): string {
    match sent
    case Content(text) => CONTENT_START + (Escape(text) + "\"}")
    case Message(text) => MESSAGE_START + (Escape(text) + "\"}")
    case Stats(guardrail) => STATS_START + (GuardrailText(guardrail) + "}}")
  }

  function PayloadOf(sent: Sent): Payload {
    match sent
    case Content(text) => Payload(Some(text), None)
    case Message(text) => Payload(None, Some(text))
    case Stats(_) => Payload(None, None)
  }

  // ------------------------------------------------------------------ reading

  function HexValue(c: char): Option<nat> {
    if '0' <= c <= '9' then Some(c as int - '0' as int)
    else if 'a' <= c <= 'f' then Some(c as int - 'a' as int + 10)
    else if 'A' <= c <= 'F' then Some(c as int - 'A' as int + 10)
    else None
  }

  /** The character written as four hexadecimal digits; surrogate halves are left out. */
  function HexChar(digits: string): Option<char>
    requires |digits| == 4
  {
    var (a, b, c, d) := (HexValue(digits[0]), HexValue(digits[1]), HexValue(digits[2]), HexValue(digits[3]));
    if a.None? || b.None? || c.None? || d.None? then None
    else
      var code := ((a.value * 16 + b.value) * 16 + c.value) * 16 + d.value;
      if code < 0xD800 || 0xE000 <= code < 0x10000 then Some(code as char) else None
  }

  /** The first character of a string's body, and how many characters spell it. */
  function ReadChar(body: string): (r: Option<(char, nat)>)
    requires body != ""
    ensures r.Some? ==> 0 < r.value.1 <= |body|
  {
    if body[0] < ' ' || body[0] == '"' then None
    else if body[0] != '\\' then Some((body[0], 1))
    else if |body| < 2 then None
    else
      match body[1]
      case '"' => Some(('"', 2))
      case '\\' => Some(('\\', 2))
      case '/' => Some(('/', 2))
      case 'b' => Some(('\U{0008}', 2))
      case 'f' => Some(('\U{000C}', 2))
      case 'n' => Some(('\n', 2))
      case 'r' => Some(('\r', 2))
      case 't' => Some(('\t', 2))
      case 'u' =>
        if |body| < 6 || HexChar(body[2..6]).None? then None else Some((HexChar(body[2..6]).value, 6))
      case _ => None
  }

  /** A string's body up to its closing quote, and what follows the quote. */
  function Unescape(body: string): Option<(string, string)>
    decreases |body|
  {
    if body == "" then None
    else if body[0] == '"' then Some(("", body[1..]))
    else
      match ReadChar(body)
      case None => None
      case Some((c, n)) =>
        match Unescape(body[n..])
        case None => None
        case Some((text, rest)) => Some(([c] + text, rest))
  }

  function StringMember(body: string): Option<string> {
    match Unescape(body)
    case None => None
    case Some((text, rest)) => if rest == "}" then Some(text) else None
  }

  predicate IsStats(body: string) {
    body == "null}}" || body == "\"foreign-language\"}}" || body == "\"internal-leak\"}}"
  }

  function Parse(data: string): Option<Payload> {
    if CONTENT_START <= data then
      match StringMember(data[|CONTENT_START|..])
      case None => None
      case Some(text) => Some(Payload(Some(text), None))
    else if MESSAGE_START <= data then
      match StringMember(data[|MESSAGE_START|..])
      case None => None
      case Some(text) => Some(Payload(None, Some(text)))
    else if STATS_START <= data && IsStats(data[|STATS_START|..]) then Some(Payload(None, None))
    else None
  }

  // --------------------------------------------------------------- round trip

  lemma ControlCharacter(c: char)
    requires c < ' '
    ensures HexChar("00" + [HEX[c as int / 16], HEX[c as int % 16]]) == Some(c)
  {
    assert c as int / 16 == 0 || c as int / 16 == 1;
    var low := c as int % 16;
    assert HexValue(HEX[low]) == Some(low) by {
      HexDigit(low);
    }
    HexDigit(c as int / 16);
    assert c as int / 16 * 16 + low == c as int;
  }

  lemma HexDigit(n: nat)
    requires n < 16
    ensures HexValue(HEX[n]) == Some(n)
  {
    if n < 10 {
      assert HEX[n] as int == '0' as int + n;
    } else {
      assert HEX[n] as int == 'a' as int + (n - 10);
    }
  }

  lemma ReadEscaped(c: char, rest: string)
    ensures Escaped(c) != "" && Escaped(c)[0] != '"'
    ensures ReadChar(Escaped(c) + rest) == Some((c, |Escaped(c)|))
  {
    var body := Escaped(c) + rest;
    if |Escaped(c)| == 6 {
      assert body[2..6] == "00" + [HEX[c as int / 16], HEX[c as int % 16]];
      ControlCharacter(c);
    }
  }

  lemma {:induction false} UnescapeEscape(text: string, rest: string)
    ensures Unescape(Escape(text) + ("\"" + rest)) == Some((text, rest))
  {
    var tail := "\"" + rest;
    if text == "" {
      assert Escape(text) + tail == tail;
    } else {
      var more := Escape(text[1..]) + tail;
      Assoc(Escaped(text[0]), Escape(text[1..]), tail);
      ReadEscaped(text[0], more);
      assert (Escaped(text[0]) + more)[|Escaped(text[0])|..] == more;
      UnescapeEscape(text[1..], rest);
      assert [text[0]] + text[1..] == text;
    }
  }

  /** The body of a string without its closing quote is no string. */
  lemma {:induction false} CutBodyIsNoString(text: string)
    ensures Unescape(Escape(text)).None?
  {
    if text != "" {
      var more := Escape(text[1..]);
      ReadEscaped(text[0], more);
      assert (Escaped(text[0]) + more)[|Escaped(text[0])|..] == more;
      CutBodyIsNoString(text[1..]);
    }
  }

  lemma ParseContent(text: string)
    ensures Parse(Stringify(Content(text))) == Some(Payload(Some(text), None))
  {
    UnescapeEscape(text, "}");
    hide Escape, Unescape;
    assert "\"" + "}" == "\"}";
    assert Stringify(Content(text))[|CONTENT_START|..] == Escape(text) + "\"}";
  }

  lemma ParseMessage(text: string)
    ensures Parse(Stringify(Message(text))) == Some(Payload(None, Some(text)))
  {
    UnescapeEscape(text, "}");
    hide Escape, Unescape;
    assert "\"" + "}" == "\"}";
    assert Stringify(Message(text))[|MESSAGE_START|..] == Escape(text) + "\"}";
    assert Stringify(Message(text))[2] == 'm';
  }

  /** Printing an object and parsing it back loses nothing the browser looks at. */
  lemma ParseStringify(sent: Sent)
    ensures Parse(Stringify(sent)) == Some(PayloadOf(sent))
  {
    match sent
    case Content(text) => ParseContent(text);
    case Message(text) => ParseMessage(text);
    case Stats(guardrail) =>
      var body := GuardrailText(guardrail) + "}}";
      assert IsStats(body);
      hide GuardrailText, IsStats;
      assert Stringify(sent)[|STATS_START|..] == body;
      assert Stringify(sent)[2] == 's';
  }

  /** The text of an object cut off inside its string does not parse. */
  lemma CutTextDoesNotParse(text: string)
    ensures Parse(CONTENT_START + Escape(text)).None?
    ensures Parse(MESSAGE_START + Escape(text)).None?
  {
    CutBodyIsNoString(text);
    assert (CONTENT_START + Escape(text))[|CONTENT_START|..] == Escape(text);
    assert (MESSAGE_START + Escape(text))[|MESSAGE_START|..] == Escape(text);
    assert (MESSAGE_START + Escape(text))[2] == 'm';
  }
}

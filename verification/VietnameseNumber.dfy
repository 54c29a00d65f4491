/**
 Amounts in words for the rental contract
 (backend/src/bookings/contract/vietnamese-number.ts).

 The printer reads a number in groups of three digits whose units repeat in the
 cycle nghìn / triệu / tỷ. The partner of the printer is a one-pass reader
 (`Parse`) that knows nothing about groups or cycles; the main theorem is that
 it recovers every natural number from its words, and from their text.
 */
module VietnameseNumber {
  import opened Outcomes
  import Strings

  type DigitValue = d: int | 0 <= d < 10
  type Group = g: int | 0 <= g < 1000

  datatype Word =
    | Digit(value: DigitValue)
    | Hundred      // trăm
    | Zeros        // linh
    | Ten          // mười
    | Tens         // mươi
    | FiveAfterTen // lăm
    | OneAfterTens // mốt
    | Thousand     // nghìn
    | Million      // triệu
    | Billion      // tỷ

  const BILLION := 1_000_000_000

  // ---------------------------------------------------------------- printing

  function HundredsWords(hundreds: DigitValue, full: bool): seq<Word> {
    if hundreds > 0 || full then [Digit(hundreds), Hundred] else []
  }

  function TensWords(hundreds: DigitValue, tens: DigitValue, ones: DigitValue, full: bool): seq<Word> {
    if tens == 0 then if ones > 0 && (hundreds > 0 || full) then [Zeros] else []
    else if tens == 1 then [Ten]
    else [Digit(tens), Tens]
  }

  function OnesWords(tens: DigitValue, ones: DigitValue): seq<Word> {
    if ones == 0 then []
    else if ones == 5 && tens > 0 then [FiveAfterTen]
    else if ones == 1 && tens > 1 then [OneAfterTens]
    else [Digit(ones)]
  }

  function DigitsWords(hundreds: DigitValue, tens: DigitValue, ones: DigitValue, full: bool): seq<Word> {
    HundredsWords(hundreds, full) + TensWords(hundreds, tens, ones, full) + OnesWords(tens, ones)
  }

  /** The words of one three-digit group; `full` says that it is not the leading group. */
  function GroupWords(value: Group, full: bool): seq<Word> {
    DigitsWords(value / 100, value % 100 / 10, value % 10, full)
  }

  method ReadGroup(value: Group, full: bool) returns (words: seq<Word>)
    ensures words == GroupWords(value, full)
    ensures value > 0 ==> GroupValue(words, !full) == Some(value)
  {
    if value > 0 {
      GroupIsAccepted(value, !full);
    }
    var hundreds := value / 100;
    var tens := value % 100 / 10;
    var ones := value % 10;
    words := [];
    if hundreds > 0 || full {
      words := words + [Digit(hundreds), Hundred];
    }
    if tens == 0 {
      if ones > 0 && (hundreds > 0 || full) {
        words := words + [Zeros];
      }
    } else if tens == 1 {
      words := words + [Ten];
    } else {
      words := words + [Digit(tens), Tens];
    }
    if ones > 0 {
      if ones == 5 && tens > 0 {
        words := words + [FiveAfterTen];
      } else if ones == 1 && tens > 1 {
        words := words + [OneAfterTens];
      } else {
        words := words + [Digit(ones)];
      }
    }
  }

  function UnitWords(i: nat): seq<Word> {
    if i == 0 then [] else if (i - 1) % 3 == 0 then [Thousand] else if (i - 1) % 3 == 1 then [Million] else [Billion]
  }

  /** What the printing loop contributes for a group of value `group` at index `i`. */
  function PartWords(group: Group, i: nat, isLeading: bool): seq<Word> {
    if group == 0 then
      if i > 0 && i % 3 == 0 && !isLeading then [Billion] else []
    else
      GroupWords(group, !isLeading) + UnitWords(i)
  }

  /** The words of `groups` (lowest first), printed highest first, when the lowest has index `i`. */
  function WordsOf(groups: seq<Group>, i: nat): seq<Word> {
    if groups == [] then []
    else WordsOf(groups[1..], i + 1) + PartWords(groups[0], i, |groups| == 1)
  }

  /** Base-1000 digits, lowest first, without leading zeros. */
  function Groups(value: nat): seq<Group> {
    if value == 0 then [] else [value % 1000] + Groups(value / 1000)
  }

  function Words(value: nat): seq<Word> {
    if value == 0 then [Digit(0)] else WordsOf(Groups(value), 0)
  }

  /** The value the printer works on: the absolute value of the input, rounded half up. */
  function Rounded(input: real): nat {
    var magnitude := if input < 0.0 then -input else input;
    (magnitude + 0.5).Floor
  }

  method NumberToWords(input: real) returns (words: seq<Word>)
    ensures words == Words(Rounded(input))
    ensures exists value: nat | ParseStrictly(words) == Some(value) ::
      value as real - 0.5 <= (if input < 0.0 then -input else input) < value as real + 0.5
  {
    var value := Rounded(input);
    StrictlyParsed(value);
    if value == 0 {
      return [Digit(0)];
    }
    assert Groups(0) == [] && Words(value) == WordsOf(Groups(value), 0);
    hide Groups, Words, WordsOf, Rounded;
    var groups: seq<Group> := [];
    var rest: nat := value;
    while rest > 0
      invariant groups + Groups(rest) == Groups(value)
      decreases rest
    {
      GroupsUnfold(rest);
      Strings.Assoc(groups, [rest % 1000], Groups(rest / 1000));
      groups, rest := groups + [rest % 1000], rest / 1000;
    }
    assert groups + [] == groups;
    words := PrintGroups(groups);
  }

  /** The printing loop, from the leading group down. */
  method PrintGroups(groups: seq<Group>) returns (words: seq<Word>)
    ensures words == WordsOf(groups, 0)
  {
    words := [];
    var i := |groups|;
    while i > 0
      invariant 0 <= i <= |groups|
      invariant words == WordsOf(groups[i..], i)
    {
      i := i - 1;
      assert groups[i..][1..] == groups[i + 1..];
      var part := ReadPartWords(groups[i], i, i == |groups| - 1);
      words := words + part;
    }
  }

  /** One iteration of the printing loop. */
  method ReadPartWords(group: Group, i: nat, isLeading: bool) returns (part: seq<Word>)
    ensures part == PartWords(group, i, isLeading)
  {
    part := [];
    if group == 0 {
      // An empty "tỷ" group is still read while a higher group remains.
      if i > 0 && i % 3 == 0 && !isLeading {
        part := [Billion];
      }
    } else {
      part := ReadGroup(group, !isLeading);
      part := part + UnitWords(i);
    }
  }

  // ----------------------------------------------------------------- reading

  /** `total` is closed by a unit word already read; `current` is the group being read. */
  datatype Reading = Reading(total: nat, current: nat)

  function Read(r: Reading, w: Word): Reading {
    match w
    case Digit(d) => r.(current := r.current + d)
    case Hundred => r.(current := r.current * 100)
    case Zeros => r
    case Ten => r.(current := r.current + 10)
    case Tens => r.(current := r.current + r.current % 10 * 9)
    case FiveAfterTen => r.(current := r.current + 5)
    case OneAfterTens => r.(current := r.current + 1)
    case Thousand => Reading(r.total + r.current * 1000, 0)
    case Million => Reading(r.total + r.current * 1_000_000, 0)
    case Billion => Reading((r.total + r.current) * BILLION, 0)
  }

  function ReadAll(r: Reading, ws: seq<Word>): Reading
    decreases |ws|
  {
    if ws == [] then r else ReadAll(Read(r, ws[0]), ws[1..])
  }

  /** One left-to-right pass over the words. */
  function Parse(ws: seq<Word>): nat {
    var r := ReadAll(Reading(0, 0), ws);
    r.total + r.current
  }

  // -------------------------------------------------------------- round trip

  lemma {:induction false} ReadAllAppend(r: Reading, a: seq<Word>, b: seq<Word>)
    ensures ReadAll(r, a + b) == ReadAll(ReadAll(r, a), b)
    decreases |a|
  {
    if a == [] {
      assert a + b == b;
    } else {
      assert (a + b)[1..] == a[1..] + b;
      ReadAllAppend(Read(r, a[0]), a[1..], b);
    }
  }

  lemma ReadHundreds(total: nat, h: DigitValue, full: bool)
    ensures ReadAll(Reading(total, 0), HundredsWords(h, full)) == Reading(total, 100 * h)
  {
    ReadTwo(Reading(total, 0), HundredsWords(h, full));
  }

  lemma ReadTens(total: nat, h: DigitValue, t: DigitValue, o: DigitValue, full: bool)
    ensures ReadAll(Reading(total, 100 * h), TensWords(h, t, o, full)) == Reading(total, 100 * h + 10 * t)
  {
    ReadTwo(Reading(total, 100 * h), TensWords(h, t, o, full));
  }

  lemma ReadOnes(total: nat, c: nat, t: DigitValue, o: DigitValue)
    ensures ReadAll(Reading(total, c), OnesWords(t, o)) == Reading(total, c + o)
  {
    ReadTwo(Reading(total, c), OnesWords(t, o));
  }

  lemma ReadDigits(total: nat, h: DigitValue, t: DigitValue, o: DigitValue, full: bool)
    ensures ReadAll(Reading(total, 0), DigitsWords(h, t, o, full)) == Reading(total, 100 * h + 10 * t + o)
  {
    var start := Reading(total, 0);
    ReadAllAppend(start, HundredsWords(h, full), TensWords(h, t, o, full));
    ReadAllAppend(start, HundredsWords(h, full) + TensWords(h, t, o, full), OnesWords(t, o));
    ReadHundreds(total, h, full);
    ReadTens(total, h, t, o, full);
    ReadOnes(total, 100 * h + 10 * t, t, o);
  }

  /** A group reads back as its value, leading or not, whatever was read before it. */
  lemma ReadGroupWords(total: nat, value: Group, full: bool)
    ensures ReadAll(Reading(total, 0), GroupWords(value, full)) == Reading(total, value)
  {
    ReadDigits(total, value / 100, value % 100 / 10, value % 10, full);
  }

  lemma ReadTwo(r: Reading, ws: seq<Word>)
    ensures |ws| == 1 ==> ReadAll(r, ws) == Read(r, ws[0])
    ensures |ws| == 2 ==> ReadAll(r, ws) == Read(Read(r, ws[0]), ws[1])
  {
    if |ws| == 1 {
      assert ReadAll(Read(r, ws[0]), ws[1..]) == Read(r, ws[0]);
    } else if |ws| == 2 {
      assert ReadAll(Read(r, ws[0]), ws[1..]) == ReadAll(Read(Read(r, ws[0]), ws[1]), ws[1..][1..]);
    }
  }

  /** A non-leading group below the first "tỷ": nothing if zero, else read in full with its unit. */
  function FullPart(group: Group, i: nat): seq<Word>
    requires i < 3
  {
    PartWords(group, i, false)
  }

  /** The reading after one group of value `group` at index `i`, all before it being closed. */
  function AfterPart(total: nat, group: Group, i: nat): Reading
    requires i < 3
  {
    if i == 0 then Reading(total, group)
    else if i == 1 then Reading(total + group * 1000, 0)
    else Reading(total + group * 1_000_000, 0)
  }

  lemma ReadPart(total: nat, group: Group, i: nat, isLeading: bool)
    requires i < 3
    ensures ReadAll(Reading(total, 0), PartWords(group, i, isLeading)) == AfterPart(total, group, i)
  {
    hide GroupWords;
    if group > 0 {
      ReadAllAppend(Reading(total, 0), GroupWords(group, !isLeading), UnitWords(i));
      ReadGroupWords(total, group, !isLeading);
      ReadTwo(Reading(total, group), UnitWords(i));
    }
  }

  /** The number that `groups` are the base-1000 digits of. */
  function ValueOf(groups: seq<Group>): nat {
    if groups == [] then 0 else groups[0] + 1000 * ValueOf(groups[1..])
  }

  lemma {:induction false} GroupsValue(value: nat)
    ensures ValueOf(Groups(value)) == value
    ensures value > 0 ==> Groups(value) != [] && Groups(value)[|Groups(value)| - 1] > 0
  {
    if value > 0 { GroupsValue(value / 1000); }
  }

  // The cycle, on groups.

  lemma PartShift(group: Group, i: nat, isLeading: bool)
    requires i > 0
    ensures PartWords(group, 3 + i, isLeading) == PartWords(group, i, isLeading)
  {
    assert (3 + i) % 3 == i % 3;
    assert UnitWords(3 + i) == UnitWords(i);
  }

  predicate Canonical(groups: seq<Group>) {
    groups != [] && groups[|groups| - 1] > 0
  }

  /** Above the lowest group the units repeat every three groups. */
  lemma {:induction false} WordsShift(groups: seq<Group>, i: nat)
    requires i > 0
    ensures WordsOf(groups, 3 + i) == WordsOf(groups, i)
    decreases |groups|
  {
    if groups != [] {
      PartShift(groups[0], i, |groups| == 1);
      WordsShift(groups[1..], i + 1);
    }
  }

  /** The words of a number of billions are its own words followed by "tỷ", also when its lowest group is empty. */
  lemma WordsOfBillions(groups: seq<Group>)
    requires Canonical(groups)
    ensures WordsOf(groups, 3) == WordsOf(groups, 0) + [Billion]
  {
    WordsShift(groups[1..], 1);
    hide GroupWords;
    assert PartWords(groups[0], 3, |groups| == 1) == PartWords(groups[0], 0, |groups| == 1) + [Billion];
    Strings.Assoc(WordsOf(groups[1..], 1), PartWords(groups[0], 0, |groups| == 1), [Billion]);
  }

  lemma WordsOfStep(lowest: Group, higher: seq<Group>, i: nat)
    ensures WordsOf([lowest] + higher, i) == WordsOf(higher, i + 1) + PartWords(lowest, i, higher == [])
  {
    assert ([lowest] + higher)[1..] == higher;
  }

  /**
   The cycle: above the last three groups the words start over, followed by
   "tỷ". The zero-group rule is what makes this hold when the higher part ends
   in an empty group.
   */
  lemma WordsRepeatEveryThreeGroups(a: Group, b: Group, c: Group, higher: seq<Group>)
    requires Canonical(higher)
    ensures WordsOf([c] + ([b] + ([a] + higher)), 0)
            == WordsOf(higher, 0) + [Billion] + FullPart(a, 2) + FullPart(b, 1) + FullPart(c, 0)
  {
    hide WordsOf, PartWords;
    WordsOfBillions(higher);
    WordsOfStep(a, higher, 2);
    WordsOfStep(b, [a] + higher, 1);
    WordsOfStep(c, [b] + ([a] + higher), 0);
  }

  lemma ReadThreeParts(total: nat, a: Group, b: Group, c: Group, isLeading: bool)
    ensures ReadAll(Reading(total, 0), PartWords(a, 2, isLeading) + FullPart(b, 1) + FullPart(c, 0))
            == Reading(total + a * 1_000_000 + b * 1000, c)
  {
    hide PartWords, ReadAll;
    var start := Reading(total, 0);
    var top := PartWords(a, 2, isLeading);
    ReadAllAppend(start, top, FullPart(b, 1));
    ReadAllAppend(start, top + FullPart(b, 1), FullPart(c, 0));
    ReadPart(total, a, 2, isLeading);
    ReadPart(total + a * 1_000_000, b, 1, false);
    ReadPart(total + a * 1_000_000 + b * 1000, c, 0, false);
  }

  lemma ParseOneGroup(c: Group)
    ensures Parse(WordsOf([c], 0)) == c
  {
    assert WordsOf([], 1) == [];
    hide WordsOf, PartWords, ReadAll;
    WordsOfStep(c, [], 0);
    assert [c] + [] == [c];
    assert [] + PartWords(c, 0, true) == PartWords(c, 0, true);
    ReadPart(0, c, 0, true);
  }

  lemma ParseTwoGroups(b: Group, c: Group)
    ensures Parse(WordsOf([c] + [b], 0)) == b * 1000 + c
  {
    assert WordsOf([], 2) == [];
    hide WordsOf, PartWords, ReadAll;
    WordsOfStep(b, [], 1);
    WordsOfStep(c, [b], 0);
    assert [b] + [] == [b];
    var top := PartWords(b, 1, true);
    assert [] + top == top;
    ReadAllAppend(Reading(0, 0), top, FullPart(c, 0));
    ReadPart(0, b, 1, true);
    ReadPart(b * 1000, c, 0, false);
  }

  lemma ParseThreeGroups(a: Group, b: Group, c: Group)
    ensures Parse(WordsOf([c] + ([b] + [a]), 0)) == a * 1_000_000 + b * 1000 + c
  {
    assert WordsOf([], 3) == [];
    hide WordsOf, PartWords, ReadAll;
    WordsOfStep(a, [], 2);
    WordsOfStep(b, [a], 1);
    WordsOfStep(c, [b] + [a], 0);
    assert [a] + [] == [a];
    assert [] + PartWords(a, 2, true) == PartWords(a, 2, true);
    ReadThreeParts(0, a, b, c, true);
  }

  lemma ReadCycle(ws: seq<Word>, a: Group, b: Group, c: Group)
    ensures Parse(ws + [Billion] + FullPart(a, 2) + FullPart(b, 1) + FullPart(c, 0))
            == Parse(ws) * BILLION + a * 1_000_000 + b * 1000 + c
  {
    hide PartWords, ReadAll;
    var r := ReadAll(Reading(0, 0), ws);
    var tail := FullPart(a, 2) + FullPart(b, 1) + FullPart(c, 0);
    assert ws + [Billion] + FullPart(a, 2) + FullPart(b, 1) + FullPart(c, 0) == ws + [Billion] + tail;
    ReadAllAppend(Reading(0, 0), ws, [Billion]);
    ReadTwo(r, [Billion]);
    ReadAllAppend(Reading(0, 0), ws + [Billion], tail);
    ReadThreeParts((r.total + r.current) * BILLION, a, b, c, false);
  }

  lemma {:induction false} ParseGroups(groups: seq<Group>)
    requires Canonical(groups)
    ensures Parse(WordsOf(groups, 0)) == ValueOf(groups)
    decreases |groups|
  {
    hide WordsOf, PartWords;
    if |groups| == 1 {
      assert ValueOf(groups[1..]) == 0;
      ParseOneGroup(groups[0]);
      assert groups == [groups[0]];
    } else if |groups| == 2 {
      ParseTwoGroups(groups[1], groups[0]);
      assert ValueOf(groups[1..][1..]) == 0;
      assert groups == [groups[0]] + [groups[1]];
    } else {
      var a, b, c, higher := groups[2], groups[1], groups[0], groups[3..];
      ValueOfThree(a, b, c, higher);
      if higher == [] {
        ParseThreeGroups(a, b, c);
        assert groups == [c] + ([b] + [a]);
      } else {
        WordsRepeatEveryThreeGroups(a, b, c, higher);
        ReadCycle(WordsOf(higher, 0), a, b, c);
        ParseGroups(higher);
      }
      assert groups == [c] + ([b] + ([a] + higher));
    }
  }

  lemma ValueOfThree(a: Group, b: Group, c: Group, higher: seq<Group>)
    ensures ValueOf([c] + ([b] + ([a] + higher))) == c + 1000 * (b + 1000 * (a + 1000 * ValueOf(higher)))
  {
    hide ValueOf;
    ValueOfStep(a, higher);
    ValueOfStep(b, [a] + higher);
    ValueOfStep(c, [b] + ([a] + higher));
  }

  lemma ValueOfStep(lowest: Group, higher: seq<Group>)
    ensures ValueOf([lowest] + higher) == lowest + 1000 * ValueOf(higher)
  {
    assert ([lowest] + higher)[1..] == higher;
  }

  /** Every natural number is recovered from its words. */
  lemma ParseWords(value: nat)
    ensures Parse(Words(value)) == value
  {
    if value == 0 {
      ReadTwo(Reading(0, 0), Words(0));
    } else {
      GroupsValue(value);
      ParseGroups(Groups(value));
    }
  }

  /** The cycle, on numbers: the words of the billions, "tỷ", and the full reading of the rest. */
  lemma WordsRepeatEveryBillion(value: nat)
    requires value >= BILLION
    ensures Words(value) == Words(value / BILLION) + [Billion] + FullReading(value % BILLION)
  {
    hide WordsOf, PartWords, Groups;
    var rest := value % BILLION;
    DivideTwice(value);
    GroupsUnfold(value);
    GroupsUnfold(value / 1000);
    GroupsUnfold(value / 1_000_000);
    GroupsValue(value / BILLION);
    WordsRepeatEveryThreeGroups(rest / 1_000_000, rest / 1000 % 1000, rest % 1000, Groups(value / BILLION));
  }

  lemma GroupsUnfold(value: nat)
    requires value > 0
    ensures Groups(value) == [value % 1000] + Groups(value / 1000) != []
  {
  }

  lemma DivideTwice(value: nat)
    ensures value / 1000 / 1000 == value / 1_000_000
    ensures value / 1_000_000 / 1000 == value / BILLION
    ensures value % 1000 == value % BILLION % 1000
    ensures value / 1000 % 1000 == value % BILLION / 1000 % 1000
    ensures value / 1_000_000 % 1000 == value % BILLION / 1_000_000
  {
  }

  /** The reading below a higher "tỷ": every non-zero group in full. */
  function FullReading(rest: nat): seq<Word>
    requires rest < BILLION
  {
    FullPart(rest / 1_000_000, 2) + FullPart(rest / 1000 % 1000, 1) + FullPart(rest % 1000, 0)
  }

  // ----------------------------------------------------------- a strict reader

  function Plus(n: nat, m: Option<nat>): Option<nat> {
    match m
    case None => None
    case Some(k) => Some(n + k)
  }

  /** The unit after `tens` tens: five is "lăm", and one is "mốt" unless it follows ten. */
  function UnitValue(w: Word, tens: nat): Option<nat> {
    match w
    case FiveAfterTen => Some(5)
    case OneAfterTens => if tens >= 2 then Some(1) else None
    case Digit(d) => if d == 0 || d == 5 || (d == 1 && tens >= 2) then None else Some(d)
    case _ => None
  }

  /** The words below the hundred; a lone unit after a hundred needs "linh". */
  function TailValue(ws: seq<Word>, afterHundred: bool): Option<nat> {
    if ws == [] then Some(0)
    else if ws[0] == Ten then
      if |ws| == 1 then Some(10) else if |ws| == 2 then Plus(10, UnitValue(ws[1], 1)) else None
    else if ws[0] == Zeros then
      if afterHundred && |ws| == 2 && ws[1].Digit? && ws[1].value > 0 then Some(ws[1].value) else None
    else if !ws[0].Digit? then None
    else if |ws| == 1 then if !afterHundred && ws[0].value > 0 then Some(ws[0].value) else None
    else if ws[1] != Tens || ws[0].value < 2 then None
    else if |ws| == 2 then Some(10 * ws[0].value)
    else if |ws| == 3 then Plus(10 * ws[0].value, UnitValue(ws[2], ws[0].value))
    else None
  }

  /** The words of one group; below the leading group it begins with a digit and "trăm", be it "không trăm". */
  function GroupValue(ws: seq<Word>, leading: bool): Option<nat> {
    var value :=
      if |ws| >= 2 && ws[0].Digit? && ws[1] == Hundred then
        if leading && ws[0].value == 0 then None else Plus(100 * ws[0].value, TailValue(ws[2..], true))
      else if leading then TailValue(ws, false)
      else None;
    if value == Some(0) then None else value
  }

  /** Closed so far: whole cycles of "tỷ", and "triệu" and "nghìn" of this cycle, down to `level`; then words of a group. */
  datatype Hearing = Hearing(total: nat, sub: nat, level: nat, begun: bool, piece: seq<Word>)

  function Close(s: Hearing, unit: nat, level: nat): Option<Hearing> {
    if s.level <= level then None
    else match GroupValue(s.piece, !s.begun)
         case None => None
         case Some(g) => Some(Hearing(s.total, s.sub + g * unit, level, true, []))
  }

  /** What has been said so far, if it is a number by itself. */
  function Heard(s: Hearing): Option<nat> {
    if s.piece == [] then if s.begun then Some(s.total + s.sub) else None
    else Plus(s.total + s.sub, GroupValue(s.piece, !s.begun))
  }

  function Hear(s: Hearing, w: Word): Option<Hearing> {
    match w
    case Thousand => Close(s, 1000, 1)
    case Million => Close(s, 1_000_000, 2)
    case Billion =>
      (match Heard(s)
       case None => None
       case Some(n) => Some(Hearing(n * 1_000_000_000, 0, 3, true, [])))
    case _ => Some(s.(piece := s.piece + [w]))
  }

  function HearAll(s: Option<Hearing>, ws: seq<Word>): Option<Hearing>
    decreases |ws|
  {
    if ws == [] || s.None? then s else HearAll(Hear(s.value, ws[0]), ws[1..])
  }

  const SILENCE := Hearing(0, 0, 3, false, [])

  /** The number a sentence says, if it is said as it should be. */
  function ParseStrictly(ws: seq<Word>): Option<nat> {
    if ws == [Digit(0)] then Some(0)
    else match HearAll(Some(SILENCE), ws)
         case None => None
         case Some(s) => Heard(s)
  }

  lemma TensAndUnits(t: DigitValue, o: DigitValue, full: bool, h: DigitValue)
    ensures TailValue(TensWords(h, t, o, full) + OnesWords(t, o), h > 0 || full) == Some(10 * t + o)
  {
    var ws := TensWords(h, t, o, full) + OnesWords(t, o);
    assert |ws| == |TensWords(h, t, o, full)| + |OnesWords(t, o)|;
  }

  lemma DigitsAreAccepted(h: DigitValue, t: DigitValue, o: DigitValue, leading: bool)
    requires h + t + o > 0
    ensures GroupValue(DigitsWords(h, t, o, !leading), leading) == Some(100 * h + 10 * t + o)
  {
    var tail := TensWords(h, t, o, !leading) + OnesWords(t, o);
    var ws := DigitsWords(h, t, o, !leading);
    TensAndUnits(t, o, !leading, h);
    Strings.Assoc(HundredsWords(h, !leading), TensWords(h, t, o, !leading), OnesWords(t, o));
    if h > 0 || !leading {
      assert ws == [Digit(h), Hundred] + tail && ws[2..] == tail;
      hide TailValue, TensWords, OnesWords, DigitsWords;
    } else {
      assert ws == [] + tail == tail;
      assert |tail| < 2 || tail[1] != Hundred;
      hide TailValue, TensWords, OnesWords, DigitsWords;
    }
  }

  lemma NoUnits(h: DigitValue, t: DigitValue, o: DigitValue, full: bool)
    ensures forall w <- DigitsWords(h, t, o, full) :: !w.Thousand? && !w.Million? && !w.Billion?
  {
    var a, b, c := HundredsWords(h, full), TensWords(h, t, o, full), OnesWords(t, o);
    assert forall w <- a + b + c :: w in a || w in b || w in c;
  }

  /** A group is accepted, as its value ... */
  lemma GroupIsAccepted(v: Group, leading: bool)
    requires v > 0
    ensures GroupValue(GroupWords(v, !leading), leading) == Some(v) && GroupWords(v, !leading) != []
    ensures forall w <- GroupWords(v, !leading) :: !w.Thousand? && !w.Million? && !w.Billion?
  {
    var h, t, o := v / 100, v % 100 / 10, v % 10;
    assert v == 100 * h + 10 * t + o;
    NoUnits(h, t, o, !leading);
    DigitsAreAccepted(h, t, o, leading);
    hide DigitsWords;
  }

  /** ... and no other words are. */
  lemma OnlyGroupsAreAccepted(ws: seq<Word>, leading: bool)
    requires GroupValue(ws, leading).Some?
    ensures var v := GroupValue(ws, leading).value;
      0 < v < 1000 && ws == GroupWords(v, !leading)
  {
    var hundred := |ws| >= 2 && ws[0].Digit? && ws[1] == Hundred;
    var h := if hundred then ws[0].value else 0;
    var tail := if hundred then ws[2..] else ws;
    TailIsPrinted(tail, h, !leading);
    var r := TailValue(tail, h > 0 || !leading).value;
    var v := 100 * h + r;
    assert v / 100 == h && v % 100 / 10 == r / 10 && v % 10 == r % 10;
    assert ws == HundredsWords(h, !leading) + tail;
    Strings.Assoc(HundredsWords(h, !leading), TensWords(h, r / 10, r % 10, !leading), OnesWords(r / 10, r % 10));
  }

  lemma TailIsPrinted(tail: seq<Word>, h: DigitValue, full: bool)
    requires TailValue(tail, h > 0 || full).Some?
    ensures var r := TailValue(tail, h > 0 || full).value;
      r < 100 && tail == TensWords(h, r / 10, r % 10, full) + OnesWords(r / 10, r % 10)
  {
    var r := TailValue(tail, h > 0 || full).value;
    if tail == [] {
    } else if |tail| == 1 {
      assert tail == [tail[0]];
    } else if |tail| == 2 {
      assert tail == [tail[0], tail[1]] == [tail[0]] + [tail[1]];
    } else {
      assert tail == [tail[0], tail[1], tail[2]] == [tail[0], tail[1]] + [tail[2]];
    }
  }

  predicate SaysNumber(s: Option<Hearing>, n: nat) {
    s.Some? && Heard(s.value) == Some(n)
  }

  lemma {:induction false} HearAllAppend(s: Option<Hearing>, a: seq<Word>, b: seq<Word>)
    ensures HearAll(s, a + b) == HearAll(HearAll(s, a), b)
    decreases |a|
  {
    if a == [] || s.None? {
      assert a == [] ==> a + b == b;
    } else {
      assert (a + b)[1..] == a[1..] + b;
      HearAllAppend(Hear(s.value, a[0]), a[1..], b);
    }
  }

  /** Words that are no units are collected. */
  lemma {:induction false} HearCollects(s: Hearing, ws: seq<Word>)
    requires forall w <- ws :: !w.Thousand? && !w.Million? && !w.Billion?
    ensures HearAll(Some(s), ws) == Some(s.(piece := s.piece + ws))
    decreases |ws|
  {
    if ws == [] {
      assert s.piece + ws == s.piece;
    } else {
      assert s.piece + [ws[0]] + ws[1..] == s.piece + ws;
      HearCollects(s.(piece := s.piece + [ws[0]]), ws[1..]);
    }
  }

  lemma HearOne(s: Option<Hearing>, w: Word)
    requires s.Some?
    ensures HearAll(s, [w]) == Hear(s.value, w)
  {
    assert HearAll(Hear(s.value, w), [w][1..]) == Hear(s.value, w);
  }

  /** A group and its unit are closed, the lowest group is kept; an empty group is not heard. */
  function AfterHearing(s: Hearing, group: Group, i: nat): Hearing
    requires i < 3
  {
    if group == 0 then s
    else if i == 0 then s.(piece := GroupWords(group, s.begun))
    else Hearing(s.total, s.sub + group * (if i == 1 then 1000 else 1_000_000), i, true, [])
  }

  lemma HearWords(s: Hearing, words: seq<Word>, group: Group, i: nat)
    requires 0 < i < 3 && s.piece == [] && s.level > i
    requires GroupValue(words, !s.begun) == Some(group)
    requires forall w <- words :: !w.Thousand? && !w.Million? && !w.Billion?
    ensures HearAll(Some(s), words + UnitWords(i))
         == Some(Hearing(s.total, s.sub + group * (if i == 1 then 1000 else 1_000_000), i, true, []))
  {
    HearCollects(s, words);
    assert [] + words == words;
    var collected := Some(s.(piece := words));
    HearOne(collected, if i == 1 then Thousand else Million);
    hide GroupValue, HearAll;
    HearAllAppend(Some(s), words, UnitWords(i));
  }

  lemma HearPart(s: Hearing, group: Group, i: nat)
    requires i < 3 && s.piece == [] && s.level > i
    ensures HearAll(Some(s), PartWords(group, i, !s.begun)) == Some(AfterHearing(s, group, i))
  {
    if group > 0 {
      var words := GroupWords(group, s.begun);
      GroupIsAccepted(group, !s.begun);
      hide GroupWords, GroupValue, HearAll;
      if i > 0 {
        HearWords(s, words, group, i);
      } else {
        HearCollects(s, words);
        assert [] + words == words == words + UnitWords(0);
      }
    }
  }

  /** Three groups, the first of them leading only if nothing was heard before. */
  lemma HearThree(s: Hearing, a: Group, b: Group, c: Group)
    requires s.piece == [] && s.level == 3 && s.sub == 0 && (s.begun || (a > 0 && s.total == 0))
    ensures SaysNumber(HearAll(Some(s), PartWords(a, 2, !s.begun) + FullPart(b, 1) + FullPart(c, 0)),
                       s.total + a * 1_000_000 + b * 1000 + c)
  {
    hide GroupWords, GroupValue, Heard;
    var top := PartWords(a, 2, !s.begun);
    HearAllAppend(Some(s), top, FullPart(b, 1));
    HearAllAppend(Some(s), top + FullPart(b, 1), FullPart(c, 0));
    HearPart(s, a, 2);
    var s2 := AfterHearing(s, a, 2);
    assert s2.begun && s2.piece == [] && s2.level >= 2;
    HearTwo(s2, b, c);
    hide PartWords, HearAll, UnitWords, AfterHearing;
    HearAllAppend(Some(s2), FullPart(b, 1), FullPart(c, 0));
  }

  lemma HearTwo(s: Hearing, b: Group, c: Group)
    requires s.piece == [] && s.level >= 2 && (s.begun || (b > 0 && s.total == 0 && s.sub == 0))
    ensures SaysNumber(HearAll(Some(s), PartWords(b, 1, !s.begun) + FullPart(c, 0)), s.total + s.sub + b * 1000 + c)
  {
    hide GroupWords, GroupValue, Heard, PartWords, HearAll;
    HearAllAppend(Some(s), PartWords(b, 1, !s.begun), FullPart(c, 0));
    HearPart(s, b, 1);
    var s2 := AfterHearing(s, b, 1);
    assert s2.begun && s2.piece == [] && s2.level >= 1;
    HearPart(s2, c, 0);
    HearLast(s2, c);
  }

  lemma HearLast(s: Hearing, c: Group)
    requires s.piece == [] && (s.begun || (c > 0 && s.total == 0 && s.sub == 0))
    ensures Heard(AfterHearing(s, c, 0)) == Some(s.total + s.sub + c)
  {
    if c > 0 {
      GroupIsAccepted(c, !s.begun);
    }
    hide GroupWords, GroupValue;
  }

  lemma HearOneGroup(c: Group)
    requires c > 0
    ensures SaysNumber(HearAll(Some(SILENCE), WordsOf([c] + [], 0)), c)
  {
    OneGroupWords(c);
    HearOnly(SILENCE, c);
  }

  lemma HearOnly(s: Hearing, c: Group)
    requires c > 0 && s.piece == [] && s.level == 3 && !s.begun && s.total == 0 && s.sub == 0
    ensures SaysNumber(HearAll(Some(s), PartWords(c, 0, true)), c)
  {
    hide *;
    HearPart(s, c, 0);
    HearLast(s, c);
    OneSaysNumber(AfterHearing(s, c, 0), c);
  }

  lemma OneGroupWords(c: Group)
    requires c > 0
    ensures WordsOf([c] + [], 0) == PartWords(c, 0, true)
  {
    assert WordsOf([], 1) == [];
    hide PartWords, WordsOf;
    WordsOfStep(c, [], 0);
    assert [] + PartWords(c, 0, true) == PartWords(c, 0, true);
  }

  lemma OneSaysNumber(s: Hearing, n: nat)
    requires Heard(s) == Some(n)
    ensures SaysNumber(Some(s), n)
  {
  }

  lemma HearTwoGroups(b: Group, c: Group)
    requires b > 0
    ensures SaysNumber(HearAll(Some(SILENCE), WordsOf([c] + ([b] + []), 0)), b * 1000 + c)
  {
    assert WordsOf([], 2) == [];
    hide PartWords, WordsOf, HearAll, GroupWords, GroupValue, Heard, SaysNumber;
    WordsOfStep(b, [], 1);
    WordsOfStep(c, [b] + [], 0);
    assert [] + PartWords(b, 1, true) == PartWords(b, 1, true);
    HearTwo(SILENCE, b, c);
  }

  lemma HearThreeGroups(a: Group, b: Group, c: Group)
    requires a > 0
    ensures SaysNumber(HearAll(Some(SILENCE), WordsOf([c] + ([b] + ([a] + [])), 0)), a * 1_000_000 + b * 1000 + c)
  {
    ThreeGroupWords(a, b, c);
    hide PartWords, WordsOf, HearAll, SaysNumber, FullPart;
    HearThree(SILENCE, a, b, c);
  }

  lemma ThreeGroupWords(a: Group, b: Group, c: Group)
    ensures WordsOf([c] + ([b] + ([a] + [])), 0) == PartWords(a, 2, true) + FullPart(b, 1) + FullPart(c, 0)
  {
    assert WordsOf([], 3) == [];
    hide PartWords, WordsOf;
    WordsOfStep(a, [], 2);
    WordsOfStep(b, [a] + [], 1);
    WordsOfStep(c, [b] + ([a] + []), 0);
    assert [] + PartWords(a, 2, true) == PartWords(a, 2, true);
  }

  lemma HearLowGroups(groups: seq<Group>)
    requires Canonical(groups) && |groups| <= 3
    ensures SaysNumber(HearAll(Some(SILENCE), WordsOf(groups, 0)), ValueOf(groups))
  {
    hide WordsOf, HearAll, ValueOf, SaysNumber;
    var none: seq<Group> := [];
    ValueOfNone();
    var c := groups[0];
    if |groups| == 1 {
      assert groups == [c] + none;
      ValueOfStep(c, none);
      HearOneGroup(c);
    } else if |groups| == 2 {
      var b := groups[1];
      assert groups == [c] + ([b] + none);
      ValueOfStep(b, none);
      ValueOfStep(c, [b] + none);
      HearTwoGroups(b, c);
    } else {
      var b, a := groups[1], groups[2];
      assert groups == [c] + ([b] + ([a] + none));
      ValueOfThree(a, b, c, none);
      HearThreeGroups(a, b, c);
    }
  }

  lemma ValueOfNone()
    ensures ValueOf([]) == 0
  {
  }

  lemma {:induction false} HearGroups(groups: seq<Group>)
    requires Canonical(groups)
    ensures SaysNumber(HearAll(Some(SILENCE), WordsOf(groups, 0)), ValueOf(groups))
    decreases |groups|
  {
    if |groups| <= 3 {
      HearLowGroups(groups);
    } else {
      var a, b, c, higher := groups[2], groups[1], groups[0], groups[3..];
      assert groups == [c] + ([b] + ([a] + higher));
      ValueOfThree(a, b, c, higher);
      WordsRepeatEveryThreeGroups(a, b, c, higher);
      HearGroups(higher);
      hide WordsOf, HearAll, ValueOf, SaysNumber, PartWords;
      HearCycle(WordsOf(higher, 0), ValueOf(higher), a, b, c);
    }
  }

  lemma HearCycle(ws: seq<Word>, n: nat, a: Group, b: Group, c: Group)
    requires SaysNumber(HearAll(Some(SILENCE), ws), n)
    ensures SaysNumber(HearAll(Some(SILENCE), ws + [Billion] + FullPart(a, 2) + FullPart(b, 1) + FullPart(c, 0)),
                       n * 1_000_000_000 + a * 1_000_000 + b * 1000 + c)
  {
    var said := HearAll(Some(SILENCE), ws);
    var closed := Hearing(n * 1_000_000_000, 0, 3, true, []);
    HearOne(said, Billion);
    assert Hear(said.value, Billion) == Some(closed);
    hide PartWords, HearAll, GroupValue;
    HearAllAppend(Some(SILENCE), ws, [Billion]);
    var tail := FullPart(a, 2) + FullPart(b, 1) + FullPart(c, 0);
    assert ws + [Billion] + FullPart(a, 2) + FullPart(b, 1) + FullPart(c, 0) == ws + [Billion] + tail;
    HearAllAppend(Some(SILENCE), ws + [Billion], tail);
    HearThree(closed, a, b, c);
  }

  /** Every natural number is said as it should be, and understood. */
  lemma StrictlyParsed(value: nat)
    ensures ParseStrictly(Words(value)) == Some(value)
  {
    if value > 0 {
      GroupsValue(value);
      HearGroups(Groups(value));
      ParseWords(value);
      ReadTwo(Reading(0, 0), [Digit(0)]);
      hide HearAll, WordsOf, Groups, ReadAll;
    }
  }

  // -------------------------------------------------------------------- text

  function Spell(w: Word): (text: string)
    ensures text != "" && ' ' !in text
  {
    match w
    case Digit(d) => ["không", "một", "hai", "ba", "bốn", "năm", "sáu", "bảy", "tám", "chín"][d]
    case Hundred => "trăm"
    case Zeros => "linh"
    case Ten => "mười"
    case Tens => "mươi"
    case FiveAfterTen => "lăm"
    case OneAfterTens => "mốt"
    case Thousand => "nghìn"
    case Million => "triệu"
    case Billion => "tỷ"
  }

  lemma SpellingIs()
    ensures Spell(Digit(0)) == "không" && Spell(Digit(1)) == "một" && Spell(Digit(2)) == "hai" && Spell(Digit(3)) == "ba"
    ensures Spell(Digit(4)) == "bốn" && Spell(Digit(5)) == "năm" && Spell(Digit(6)) == "sáu" && Spell(Digit(7)) == "bảy"
    ensures Spell(Digit(8)) == "tám" && Spell(Digit(9)) == "chín" && Spell(Hundred) == "trăm" && Spell(Zeros) == "linh"
    ensures Spell(Ten) == "mười" && Spell(Tens) == "mươi" && Spell(FiveAfterTen) == "lăm" && Spell(OneAfterTens) == "mốt"
    ensures Spell(Thousand) == "nghìn" && Spell(Million) == "triệu" && Spell(Billion) == "tỷ"
  {
  }

  /** The words separated by single spaces. */
  function Joined(ws: seq<Word>): string {
    if ws == [] then "" else if |ws| == 1 then Spell(ws[0]) else Spell(ws[0]) + " " + Joined(ws[1..])
  }

  /** The printed text of an amount. */
  function Text(value: nat): string {
    Joined(Words(value))
  }

  const ALL_WORDS: seq<Word> :=
    [Digit(0), Digit(1), Digit(2), Digit(3), Digit(4), Digit(5), Digit(6), Digit(7), Digit(8), Digit(9),
     Hundred, Zeros, Ten, Tens, FiveAfterTen, OneAfterTens, Thousand, Million, Billion]

  function Lookup(text: string, candidates: seq<Word>): Option<Word> {
    if candidates == [] then None
    else if Spell(candidates[0]) == text then Some(candidates[0])
    else Lookup(text, candidates[1..])
  }

  /** Splits at spaces and looks every piece up; `piece` is the piece being collected. */
  function Scan(piece: string, text: string): Option<seq<Word>>
    decreases |text|
  {
    if text == "" || text[0] == ' ' then
      match Lookup(piece, ALL_WORDS)
      case None => None
      case Some(w) =>
        if text == "" then Some([w])
        else match Scan("", text[1..])
             case None => None
             case Some(ws) => Some([w] + ws)
    else
      Scan(piece + [text[0]], text[1..])
  }

  function ParseText(text: string): Option<nat> {
    match Scan("", text)
    case None => None
    case Some(ws) => Some(Parse(ws))
  }

  /** No two words are spelled alike. */
  lemma SpellInjective(a: Word, b: Word)
    requires Spell(a) == Spell(b)
    ensures a == b
  {
    var s, t := Spell(a), Spell(b);
    assert |s| == |t| && s[0] == t[0] && s[|s| - 1] == t[|t| - 1];
    assert |s| > 2 ==> s[1] == t[1] && s[2] == t[2];
  }

  lemma {:induction false} LookupFinds(w: Word, candidates: seq<Word>)
    requires w in candidates
    ensures Lookup(Spell(w), candidates) == Some(w)
  {
    if Spell(candidates[0]) == Spell(w) {
      SpellInjective(candidates[0], w);
    } else {
      LookupFinds(w, candidates[1..]);
    }
  }

  lemma EveryWordListed(w: Word)
    ensures w in ALL_WORDS
  {
    match w
    case Digit(d) => assert ALL_WORDS[d] == w;
    case Hundred => assert ALL_WORDS[10] == w;
    case Zeros => assert ALL_WORDS[11] == w;
    case Ten => assert ALL_WORDS[12] == w;
    case Tens => assert ALL_WORDS[13] == w;
    case FiveAfterTen => assert ALL_WORDS[14] == w;
    case OneAfterTens => assert ALL_WORDS[15] == w;
    case Thousand => assert ALL_WORDS[16] == w;
    case Million => assert ALL_WORDS[17] == w;
    case Billion => assert ALL_WORDS[18] == w;
  }

  /** Scanning over space-free characters only collects them. */
  lemma {:induction false} ScanCollects(piece: string, more: string, rest: string)
    requires ' ' !in more
    ensures Scan(piece, more + rest) == Scan(piece + more, rest)
    decreases |more|
  {
    if more == "" {
      assert more + rest == rest && piece + more == piece;
    } else {
      assert (more + rest)[1..] == more[1..] + rest;
      assert piece + [more[0]] + more[1..] == piece + more;
      ScanCollects(piece + [more[0]], more[1..], rest);
    }
  }

  /** A spelled word followed by the end of the text, or by a space. */
  lemma ScanWord(w: Word, rest: string)
    requires rest == "" || rest[0] == ' '
    ensures Scan("", Spell(w) + rest) == Scan(Spell(w), rest)
    ensures Lookup(Spell(w), ALL_WORDS) == Some(w)
  {
    EveryWordListed(w);
    LookupFinds(w, ALL_WORDS);
    ScanCollects("", Spell(w), rest);
    assert "" + Spell(w) == Spell(w);
  }

  lemma {:induction false} ScanJoined(ws: seq<Word>)
    requires ws != []
    ensures Scan("", Joined(ws)) == Some(ws)
  {
    assert ws == [ws[0]] + ws[1..];
    if |ws| == 1 {
      ScanWord(ws[0], "");
      assert Spell(ws[0]) + "" == Spell(ws[0]);
      assert ws == [ws[0]];
    } else {
      var rest := " " + Joined(ws[1..]);
      assert Joined(ws) == Spell(ws[0]) + rest;
      ScanWord(ws[0], rest);
      assert rest[1..] == Joined(ws[1..]);
      ScanJoined(ws[1..]);
    }
  }

  /** A printed amount is never empty, so its text can be read back. */
  lemma WordsNonEmpty(value: nat)
    ensures Words(value) != []
  {
    if Words(value) == [] { ParseWords(value); }
  }

  /** Every natural number is recovered from its printed text. */
  lemma ParseTextRoundTrip(value: nat)
    ensures ParseText(Text(value)) == Some(value)
    ensures Scan("", Text(value)).Some? && ParseStrictly(Scan("", Text(value)).value) == Some(value)
  {
    StrictlyParsed(value);
    WordsNonEmpty(value);
    ScanJoined(Words(value));
    ParseWords(value);
  }

  /** Different amounts never read the same on a contract. */
  lemma TextInjective(a: nat, b: nat)
    requires Text(a) == Text(b)
    ensures a == b
  {
    ParseTextRoundTrip(a);
    ParseTextRoundTrip(b);
  }
}

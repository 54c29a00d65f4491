/**
 Cache keys of the device list (backend/src/devices/devices-cache.service.ts).

 A key is the seven filter fields joined by ":". The free-text search may itself
 contain ":", so it is not obvious that two different filters never share a
 cache entry; it holds because the six other fields cannot contain ":".
 */
module CacheKeys {
  import opened Outcomes

  datatype DeviceStatus = Available | Rented | Maintenance | Broken | Lost

  datatype DeviceSort = Newest | PriceAsc | PriceDesc

  datatype Filter = Filter(
    page: nat,
    limit: nat,
    category: Option<string>,
    status: Option<DeviceStatus>,
    search: Option<string>,
    sort: Option<DeviceSort>,
    includeDiscontinued: bool)
  {
    /**
     What request validation leaves: a category is a UUID, and an empty search
     (which the query ignores) counts as no search.
     */
    predicate Normalised() {
      && (category.Some? ==> category.value != "" && ':' !in category.value)
      && search != Some("")
    }
  }

  const KEY_PREFIX := "devices:list:"
  const INDEX_KEY := "devices:list:keys"

  function DigitChar(d: nat): char
    requires d < 10
  {
    "0123456789"[d]
  }

  function Decimal(n: nat): (text: string)
    ensures text != "" && forall c <- text :: '0' <= c <= '9'
  {
    if n < 10 then [DigitChar(n)] else Decimal(n / 10) + [DigitChar(n % 10)]
  }

  function StatusText(status: DeviceStatus): string {
    match status
    case Available => "available"
    case Rented => "rented"
    case Maintenance => "maintenance"
    case Broken => "broken"
    case Lost => "lost"
  }

  function SortText(sort: DeviceSort): string {
    match sort
    case Newest => "newest"
    case PriceAsc => "price_asc"
    case PriceDesc => "price_desc"
  }

  function StatusField(status: Option<DeviceStatus>): string {
    if status.Some? then StatusText(status.value) else ""
  }

  function SortField(sort: Option<DeviceSort>): string {
    if sort.Some? then SortText(sort.value) else ""
  }

  function TextField(text: Option<string>): string {
    if text.Some? then text.value else ""
  }

  function Parts(filter: Filter): seq<string> {
    [Decimal(filter.page),
     Decimal(filter.limit),
     TextField(filter.category),
     StatusField(filter.status),
     TextField(filter.search),
     SortField(filter.sort),
     if filter.includeDiscontinued then "all" else ""]
  }

  function JoinColon(parts: seq<string>): string {
    if parts == [] then "" else if |parts| == 1 then parts[0] else parts[0] + ":" + JoinColon(parts[1..])
  }

  function BuildKey(filter: Filter): string {
    KEY_PREFIX + JoinColon(Parts(filter))
  }

  // ---------------------------------------------------------------- splitting

  predicate ColonFree(text: string) {
    ':' !in text
  }

  /** A colon-free head is determined by the joined text. */
  lemma HeadDetermined(a: string, x: string, b: string, y: string)
    requires ColonFree(a) && ColonFree(b)
    requires a + ":" + x == b + ":" + y
    ensures a == b && x == y
  {
    var text := a + ":" + x;
    assert text[|a|] == ':' && text[|b|] == ':';
    assert forall i | 0 <= i < |a| :: text[i] == a[i];
    assert forall i | 0 <= i < |b| :: text[i] == b[i];
    assert |a| == |b|;
    assert a == text[..|a|] && b == text[..|b|];
    assert x == text[|a| + 1..] && y == text[|b| + 1..];
  }

  /** A colon-free tail is determined by the joined text. */
  lemma TailDetermined(x: string, a: string, y: string, b: string)
    requires ColonFree(a) && ColonFree(b)
    requires x + ":" + a == y + ":" + b
    ensures a == b && x == y
  {
    var text := x + ":" + a;
    assert text[|x|] == ':' && text[|y|] == ':';
    assert forall i | |x| < i < |text| :: text[i] == a[i - |x| - 1];
    assert forall i | |y| < i < |text| :: text[i] == b[i - |y| - 1];
    assert |x| == |y|;
    assert x == text[..|x|] && y == text[..|y|];
    assert a == text[|x| + 1..] && b == text[|y| + 1..];
  }

  predicate OnlySearchMayHoldColons(parts: seq<string>) {
    && |parts| == 7
    && forall i | 0 <= i < 7 && i != 4 :: ColonFree(parts[i])
  }

  lemma JoinSeven(p: seq<string>)
    requires |p| == 7
    ensures JoinColon(p)
            == p[0] + ":" + (p[1] + ":" + (p[2] + ":" + (p[3] + ":" + ((p[4] + ":" + p[5]) + ":" + p[6]))))
  {
    assert JoinColon([p[6]]) == p[6];
    assert p[6..] == [p[6]];
    hide JoinColon;
    SplitHead(p, 0);
    SplitHead(p, 1);
    SplitHead(p, 2);
    SplitHead(p, 3);
    SplitHead(p, 4);
    SplitHead(p, 5);
    assert p[0..] == p;
    assert p[4] + ":" + (p[5] + ":" + p[6]) == (p[4] + ":" + p[5]) + ":" + p[6];
  }

  lemma SplitHead(p: seq<string>, i: nat)
    requires i + 1 < |p|
    ensures JoinColon(p[i..]) == p[i] + ":" + JoinColon(p[i + 1..])
  {
    JoinStep(p[i], p[i + 1..]);
    assert p[i..] == [p[i]] + p[i + 1..];
  }

  lemma JoinStep(head: string, tail: seq<string>)
    requires tail != []
    ensures JoinColon([head] + tail) == head + ":" + JoinColon(tail)
  {
    assert ([head] + tail)[1..] == tail;
  }

  lemma JoinDetermined(p: seq<string>, q: seq<string>)
    requires OnlySearchMayHoldColons(p) && OnlySearchMayHoldColons(q)
    requires JoinColon(p) == JoinColon(q)
    ensures p == q
  {
    JoinSeven(p);
    JoinSeven(q);
    hide JoinColon;
    var p6, q6 := (p[4] + ":" + p[5]) + ":" + p[6], (q[4] + ":" + q[5]) + ":" + q[6];
    HeadDetermined(p[0], p[1] + ":" + (p[2] + ":" + (p[3] + ":" + p6)),
                   q[0], q[1] + ":" + (q[2] + ":" + (q[3] + ":" + q6)));
    HeadDetermined(p[1], p[2] + ":" + (p[3] + ":" + p6), q[1], q[2] + ":" + (q[3] + ":" + q6));
    HeadDetermined(p[2], p[3] + ":" + p6, q[2], q[3] + ":" + q6);
    HeadDetermined(p[3], p6, q[3], q6);
    TailDetermined(p[4] + ":" + p[5], p[6], q[4] + ":" + q[5], q[6]);
    TailDetermined(p[4], p[5], q[4], q[5]);
  }

  // ------------------------------------------------------------------- fields

  function ValueOf(text: string): nat {
    if text == "" then 0
    else ValueOf(text[..|text| - 1]) * 10 + DigitValue(text[|text| - 1])
  }

  function DigitValue(c: char): nat {
    if '0' <= c <= '9' then c as int - '0' as int else 0
  }

  lemma {:induction false} DecimalValue(n: nat)
    ensures ValueOf(Decimal(n)) == n
  {
    var last := n % 10;
    assert DigitValue(DigitChar(last)) == last;
    if n < 10 {
      assert Decimal(n)[..0] == "";
    } else {
      var front := Decimal(n / 10);
      assert (front + [DigitChar(last)])[..|front|] == front;
      DecimalValue(n / 10);
    }
  }

  lemma DecimalInjective(a: nat, b: nat)
    requires Decimal(a) == Decimal(b)
    ensures a == b
  {
    DecimalValue(a);
    DecimalValue(b);
  }

  lemma StatusFieldInjective(a: Option<DeviceStatus>, b: Option<DeviceStatus>)
    requires StatusField(a) == StatusField(b)
    ensures a == b
  {
    assert StatusField(a) != "" ==> StatusField(a)[0] == StatusField(b)[0];
  }

  lemma SortFieldInjective(a: Option<DeviceSort>, b: Option<DeviceSort>)
    requires SortField(a) == SortField(b)
    ensures a == b
  {
    assert |SortField(a)| == |SortField(b)|;
  }

  lemma PartsAreColonFree(filter: Filter)
    requires filter.Normalised()
    ensures OnlySearchMayHoldColons(Parts(filter))
  {
    var parts := Parts(filter);
    assert ColonFree(parts[0]) && ColonFree(parts[1]) && ColonFree(parts[2]) && ColonFree(parts[3]);
    assert ColonFree(parts[5]) && ColonFree(parts[6]);
  }

  /** Two requests that share a cache entry asked for the same list. */
  lemma KeyDeterminesFilter(a: Filter, b: Filter)
    requires a.Normalised() && b.Normalised()
    requires BuildKey(a) == BuildKey(b)
    ensures a == b
  {
    PartsAreColonFree(a);
    PartsAreColonFree(b);
    assert JoinColon(Parts(a)) == BuildKey(a)[|KEY_PREFIX|..];
    assert JoinColon(Parts(b)) == BuildKey(b)[|KEY_PREFIX|..];
    var p, q := Parts(a), Parts(b);
    JoinDetermined(p, q);
    assert p[0] == q[0] && p[1] == q[1] && p[2] == q[2] && p[3] == q[3] && p[4] == q[4] && p[5] == q[5] && p[6] == q[6];
    DecimalInjective(a.page, b.page);
    DecimalInjective(a.limit, b.limit);
    StatusFieldInjective(a.status, b.status);
    SortFieldInjective(a.sort, b.sort);
    assert a.includeDiscontinued ==> |p[6]| == 3;
  }

  /** No list is ever stored under the key of the index of keys. */
  lemma KeyIsNotIndexKey(filter: Filter)
    ensures BuildKey(filter) != INDEX_KEY
  {
    var parts := Parts(filter);
    JoinStep(parts[0], parts[1..]);
    assert parts == [parts[0]] + parts[1..];
    assert BuildKey(filter)[|KEY_PREFIX|] == Decimal(filter.page)[0];
    assert INDEX_KEY[|KEY_PREFIX|] == 'k';
  }
}

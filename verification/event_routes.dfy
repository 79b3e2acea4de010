/** The event routes of the relational (Prisma) generation: event types in
    description order, and the ordered validation chain of event creation.
    This generation keeps its own integer-keyed tables. */
module EventRoutes {
  import opened Common
  import opened Models

  const StarIdRequired := "Star ID required"
  const EventTypeIdRequired := "Event type ID required"
  const StarNotFound := "Star not found"
  const EventTypeNotFound := "Event type not found"

  /** A request-body field as JSON delivers it: absent (or null), a number,
      or a text. */
  datatype RawId = Missing | Number(n: int) | Text(s: string)

  /** JavaScript truthiness of a field: 0 and the empty text are falsy. */
  predicate Truthy(v: RawId) {
    match v
    case Missing => false
    case Number(n) => n != 0
    case Text(s) => s != ""
  }

  predicate IsDigit(c: char) {
    '0' <= c <= '9'
  }

  /** A digit of base 10, or of base 16 (either letter case) when `hex`. */
  predicate IsDigitIn(c: char, hex: bool) {
    IsDigit(c) || (hex && ('a' <= c <= 'f' || 'A' <= c <= 'F'))
  }

  function Base(hex: bool): nat {
    if hex then 16 else 10
  }

  function DigitValue(c: char, hex: bool): (r: nat)
    requires IsDigitIn(c, hex)
    ensures r < Base(hex)
  {
    if IsDigit(c) then (c as int) - ('0' as int)
    else if 'a' <= c <= 'f' then (c as int) - ('a' as int) + 10
    else (c as int) - ('A' as int) + 10
  }

  function DigitChar(d: nat, hex: bool): (c: char)
    requires d < Base(hex)
    ensures IsDigitIn(c, hex) && DigitValue(c, hex) == d
  {
    "0123456789abcdef"[d]
  }

  /** Length of the longest all-digit prefix. */
  function DigitRun(s: string, hex: bool): (n: nat)
    ensures n <= |s|
    ensures forall i :: 0 <= i < n ==> IsDigitIn(s[i], hex)
    ensures n < |s| ==> !IsDigitIn(s[n], hex)
  {
    if |s| == 0 || !IsDigitIn(s[0], hex) then 0 else 1 + DigitRun(s[1..], hex)
  }

  /** The value of an all-digit text, most significant digit first. */
  function DigitsValue(s: string, hex: bool): nat
    requires forall i :: 0 <= i < |s| ==> IsDigitIn(s[i], hex)
  {
    if |s| == 0 then 0 else DigitsValue(s[..|s| - 1], hex) * Base(hex) + DigitValue(s[|s| - 1], hex)
  }

  /** The white space `parseInt` skips before the number: the WhiteSpace and
      LineTerminator code points of ECMAScript (ECMA-262, sections 12.2 and
      12.3). */
  predicate IsSpace(c: char) {
    || c == '\t' || c == '\U{000B}' || c == '\U{000C}' || c == ' ' || c == '\U{00A0}' || c == '\U{FEFF}'
    || c == '\U{1680}' || '\U{2000}' <= c <= '\U{200A}' || c == '\U{202F}' || c == '\U{205F}' || c == '\U{3000}'
    || c == '\n' || c == '\r' || c == '\U{2028}' || c == '\U{2029}'
  }

  /** The text without its leading white space. */
  function TrimStart(s: string): (r: string)
    ensures |r| <= |s| && r == s[|s| - |r|..]
    ensures forall i :: 0 <= i < |s| - |r| ==> IsSpace(s[i])
    ensures |r| > 0 ==> !IsSpace(r[0])
  {
    if |s| > 0 && IsSpace(s[0]) then TrimStart(s[1..]) else s
  }

  /** `parseInt(s)` without a radix (ECMA-262, section 19.2.5): leading
      white space is skipped, then an optional sign; a `0x` or `0X` prefix
      switches to base 16; the value is that of the longest run of digits
      that follows. None stands for NaN, when that run is empty. */
  function ParseInt(s: string): Option<int> {
    ParseSigned(TrimStart(s))
  }

  /** A text that starts with a decimal digit, other than a `0x` prefix,
      is read as its leading decimal digits; a text without any digit is
      NaN. */
  lemma ParseIntCases(s: string)
    ensures |s| > 0 && IsDigit(s[0]) && !(|s| > 1 && s[0] == '0' && (s[1] == 'x' || s[1] == 'X')) ==>
      ParseInt(s) == Some(DigitsValue(s[..DigitRun(s, false)], false))
    ensures (forall i :: 0 <= i < |s| ==> !IsDigitIn(s[i], true)) ==> ParseInt(s).None?
  {
    if |s| > 0 && IsDigit(s[0]) && !(|s| > 1 && s[0] == '0' && (s[1] == 'x' || s[1] == 'X')) {
      ParseLeadingDigit(s);
    }
    if forall i :: 0 <= i < |s| ==> !IsDigitIn(s[i], true) {
      ParseNoDigit(s);
    }
  }

  lemma ParseLeadingDigit(s: string)
    requires |s| > 0 && IsDigit(s[0]) && !(|s| > 1 && s[0] == '0' && (s[1] == 'x' || s[1] == 'X'))
    ensures ParseInt(s) == Some(DigitsValue(s[..DigitRun(s, false)], false))
  {
    assert !IsSpace(s[0]) && TrimStart(s) == s;
  }

  lemma ParseNoDigit(s: string)
    requires forall i :: 0 <= i < |s| ==> !IsDigitIn(s[i], true)
    ensures ParseInt(s).None?
  {
    var t := TrimStart(s);
    var d := |s| - |t|;
    if |t| > 0 {
      assert t[0] == s[d] && !IsDigitIn(t[0], true);
    }
    if |t| > 1 {
      assert t[1] == s[d + 1] && !IsDigitIn(t[1], true);
    }
    var u := if |t| > 0 && (t[0] == '-' || t[0] == '+') then t[1..] else t;
    assert |u| > 0 ==> !IsDigitIn(u[0], true);
    assert ParseUnsigned(u).None?;
  }

  /** The number after the white space: a `-` negates, a `+` is dropped. */
  function ParseSigned(t: string): (r: Option<int>)
    ensures |t| > 0 && t[0] == '-' ==> r == Negate(ParseUnsigned(t[1..]))
    ensures |t| > 0 && t[0] == '+' ==> r == ParseUnsigned(t[1..])
    ensures (|t| == 0 || (t[0] != '-' && t[0] != '+')) ==> r == ParseUnsigned(t)
  {
    if |t| > 0 && t[0] == '-' then Negate(ParseUnsigned(t[1..]))
    else if |t| > 0 && t[0] == '+' then ParseUnsigned(t[1..])
    else ParseUnsigned(t)
  }

  function Negate(v: Option<int>): Option<int> {
    if v.Some? then Some(-v.value) else None
  }

  /** The number after the sign: base 16 after a `0x` or `0X` prefix, base
      10 otherwise, read from the longest run of digits. */
  function ParseUnsigned(u: string): (r: Option<int>)
    ensures var hex := |u| >= 2 && u[0] == '0' && (u[1] == 'x' || u[1] == 'X');
      var body := if hex then u[2..] else u;
      && (r.None? <==> DigitRun(body, hex) == 0)
      && (r.Some? ==> r.value == DigitsValue(body[..DigitRun(body, hex)], hex))
  {
    var hex := |u| >= 2 && u[0] == '0' && (u[1] == 'x' || u[1] == 'X');
    var body := if hex then u[2..] else u;
    var n := DigitRun(body, hex);
    if n == 0 then None else Some(DigitsValue(body[..n], hex) as int)
  }

  /** A text that does not start with white space is parsed as it stands. */
  lemma ParseNoSpace(s: string)
    requires |s| > 0 && !IsSpace(s[0])
    ensures ParseInt(s) == ParseSigned(s)
  {
    assert TrimStart(s) == s;
  }

  /** White space before the number changes nothing. */
  lemma ParseSkipsSpace(c: char, s: string)
    requires IsSpace(c)
    ensures ParseInt([c] + s) == ParseInt(s)
  {
    assert ([c] + s)[1..] == s;
    assert TrimStart([c] + s) == TrimStart(s);
  }

  /** An upper-case prefix reads base 16: `parseInt("0X1A")` is 26. */
  lemma ParseUpperHex()
    ensures ParseInt("0X1A") == Some(26)
  {
    ParseNoSpace("0X1A");
    assert "0X1A"[2..] == "1A";
    assert DigitRun("1A", true) == 2 && "1A"[..2] == "1A" && "1A"[..1] == "1";
    assert DigitsValue("1", true) == 1 && DigitValue('A', true) == 10;
    assert DigitsValue("1A", true) == 26;
    assert ParseUnsigned("0X1A") == Some(26);
  }

  /** The digits of a natural number in base 10 or 16 (lower-case letters),
      without leading zeros. */
  function Show(n: nat, hex: bool): (s: string)
    ensures |s| > 0
    ensures forall i :: 0 <= i < |s| ==> IsDigitIn(s[i], hex)
    decreases n
  {
    if n < Base(hex) then [DigitChar(n, hex)] else Show(n / Base(hex), hex) + [DigitChar(n % Base(hex), hex)]
  }

  lemma {:induction false} ShowValue(n: nat, hex: bool)
    ensures DigitsValue(Show(n, hex), hex) == n
    decreases n
  {
    var b := Base(hex);
    if n >= b {
      var s := Show(n, hex);
      assert s[..|s| - 1] == Show(n / b, hex);
      assert DigitValue(s[|s| - 1], hex) == n % b;
      ShowValue(n / b, hex);
      assert n == (n / b) * b + n % b;
    }
  }

  /** A run of decimal digits, read without sign or prefix, is its value. */
  lemma UnsignedDigits(s: string)
    requires |s| > 0 && forall i :: 0 <= i < |s| ==> IsDigit(s[i])
    ensures ParseUnsigned(s) == Some(DigitsValue(s, false) as int)
  {
    assert !(|s| >= 2 && s[1] == 'x') && !(|s| >= 2 && s[1] == 'X');
    assert s[..DigitRun(s, false)] == s;
  }

  /** Parsing the decimal text of an id gives the id back. */
  lemma ParseShowNat(n: nat)
    ensures ParseInt(Show(n, false)) == Some(n)
  {
    var s := Show(n, false);
    ParseNoSpace(s);
    UnsignedDigits(s);
    ShowValue(n, false);
  }

  /** A minus sign before decimal digits negates their value. */
  lemma ParseNegativeDigits(t: string)
    requires |t| > 1 && t[0] == '-' && forall i :: 1 <= i < |t| ==> IsDigit(t[i])
    ensures ParseInt(t) == Some(-(DigitsValue(t[1..], false) as int))
  {
    ParseNoSpace(t);
    UnsignedDigits(t[1..]);
  }

  /** A `0x` prefix reads the digits in base 16. */
  lemma ParseShowHex(n: nat)
    ensures ParseInt("0x" + Show(n, true)) == Some(n)
  {
    var s := Show(n, true);
    var u := "0x" + s;
    assert u[0] == '0' && u[1] == 'x' && u[2..] == s;
    ParseNoSpace(u);
    assert s[..DigitRun(s, true)] == s;
    ShowValue(n, true);
  }

  /** `parseInt` of a field: a number is already an integer; absent is NaN. */
  function ParseRaw(v: RawId): (r: Option<int>)
    ensures v.Number? ==> r == Some(v.n)
    ensures v.Missing? ==> r.None?
  {
    match v
    case Missing => None
    case Number(n) => Some(n)
    case Text(s) => ParseInt(s)
  }

  datatype EventType = EventType(id: int, description: string)

  /** A stored event; `episodeId` is nullable. */
  datatype TimedEvent = TimedEvent(id: int, eventTypeId: int, time: string, starId: int, episodeId: Option<int>)

  datatype Tables = Tables(starIds: seq<int>, eventTypes: seq<EventType>, events: seq<TimedEvent>)

  datatype EventOutcome = EventOutcome(tables: Tables, response: Response<TimedEvent>)

  /** A collation: a total, transitive "sorts no later than" order on
      texts. The database's collation decides the order of an `orderBy`. */
  ghost predicate Collation(le: (string, string) -> bool) {
    && (forall a, b :: le(a, b) || le(b, a))
    && (forall a, b, c :: le(a, b) && le(b, c) ==> le(a, c))
  }

  function ByDescription(le: (string, string) -> bool): (EventType, EventType) -> bool {
    (a: EventType, b: EventType) => le(a.description, b.description)
  }

  lemma ByDescriptionTotal(le: (string, string) -> bool)
    requires Collation(le)
    ensures Total(ByDescription(le))
  {
    forall a: EventType, b: EventType ensures ByDescription(le)(a, b) || ByDescription(le)(b, a) {
      assert le(a.description, b.description) || le(b.description, a.description);
    }
  }

  /** GET /event-types: every event type, in ascending description order
      under the database's collation `le`. */
  function ListEventTypes(t: Tables, le: (string, string) -> bool): (r: seq<EventType>)
    requires Collation(le)
    ensures Sorted(r, ByDescription(le))
    ensures multiset(r) == multiset(t.eventTypes)
  {
    ByDescriptionTotal(le);
    Sort(t.eventTypes, ByDescription(le))
  }

  /** Listed event types are pairwise in description order, not just
      neighbours, whatever the collation. */
  lemma ListEventTypesOrdered(t: Tables, le: (string, string) -> bool)
    requires Collation(le)
    ensures var r := ListEventTypes(t, le);
      forall i, j :: 0 <= i < j < |r| ==> le(r[i].description, r[j].description)
  {
    SortedPairwise(ListEventTypes(t, le), le);
  }

  lemma {:induction false} SortedPairwise(s: seq<EventType>, le: (string, string) -> bool)
    requires Collation(le) && Sorted(s, ByDescription(le))
    ensures forall i, j :: 0 <= i < j < |s| ==> le(s[i].description, s[j].description)
    decreases |s|
  {
    if |s| >= 2 {
      SortedPairwise(s[1..], le);
      forall j | 1 < j < |s| ensures le(s[0].description, s[j].description) {
        assert s[1..][0] == s[1] && s[1..][j - 1] == s[j];
      }
    }
  }

  /** Lexicographic order on code points, the collation of a binary
      ("C") database locale. */
  predicate CodePointLe(a: string, b: string) {
    if |a| == 0 then true
    else if |b| == 0 then false
    else if a[0] != b[0] then a[0] < b[0]
    else CodePointLe(a[1..], b[1..])
  }

  lemma {:induction false} CodePointLeTotal(a: string, b: string)
    ensures CodePointLe(a, b) || CodePointLe(b, a)
    decreases |a|
  {
    if |a| > 0 && |b| > 0 && a[0] == b[0] {
      CodePointLeTotal(a[1..], b[1..]);
    }
  }

  lemma {:induction false} CodePointLeTrans(a: string, b: string, c: string)
    requires CodePointLe(a, b) && CodePointLe(b, c)
    ensures CodePointLe(a, c)
    decreases |a|
  {
    if |a| > 0 && |b| > 0 && |c| > 0 && a[0] == b[0] && b[0] == c[0] {
      CodePointLeTrans(a[1..], b[1..], c[1..]);
    }
  }

  /** Code-point order is a collation, so the listing is defined for a
      binary locale. */
  lemma CodePointCollation()
    ensures Collation(CodePointLe)
  {
    forall a, b ensures CodePointLe(a, b) || CodePointLe(b, a) {
      CodePointLeTotal(a, b);
    }
    forall a, b, c | CodePointLe(a, b) && CodePointLe(b, c) ensures CodePointLe(a, c) {
      CodePointLeTrans(a, b, c);
    }
  }

  function Store(t: Tables, event: TimedEvent): EventOutcome {
    EventOutcome(t.(events := t.events + [event]), Ok(201, event))
  }

  /** POST /events: star id present, event-type id present, star exists,
      event type exists, in that order; the first failing check answers and
      nothing is stored. A falsy episode id is stored as null. A field whose
      text does not parse (NaN) is refused by the database layer: a 500. */
  function CreateEvent(t: Tables, eventTypeId: RawId, time: string, starId: RawId, episodeId: RawId,
                       newId: int): (o: EventOutcome)
    ensures o.response.Err? ==> o.tables == t
    ensures !Truthy(starId) <==> o.response == Err(400, StarIdRequired)
    ensures Truthy(starId) && !Truthy(eventTypeId) <==> o.response == Err(400, EventTypeIdRequired)
    ensures o.response == Err(404, StarNotFound) <==>
      Truthy(starId) && Truthy(eventTypeId) && ParseRaw(starId).Some? && ParseRaw(starId).value !in t.starIds
    ensures o.response == Err(404, EventTypeNotFound) <==>
      && Truthy(starId) && Truthy(eventTypeId)
      && ParseRaw(starId).Some? && ParseRaw(starId).value in t.starIds
      && ParseRaw(eventTypeId).Some? && (forall e :: e in t.eventTypes ==> e.id != ParseRaw(eventTypeId).value)
    ensures o.response.Ok? ==>
      && o.response.status == 201
      && o.tables == t.(events := t.events + [o.response.value])
      && ParseRaw(starId) == Some(o.response.value.starId)
      && o.response.value.starId in t.starIds
      && ParseRaw(eventTypeId) == Some(o.response.value.eventTypeId)
      && (exists e :: e in t.eventTypes && e.id == o.response.value.eventTypeId)
      && o.response.value.time == time && o.response.value.id == newId
      && (o.response.value.episodeId.None? <==> !Truthy(episodeId))
      && (o.response.value.episodeId.Some? ==> ParseRaw(episodeId) == o.response.value.episodeId)
    ensures o.response.Err? ==> o.response.status in {400, 404, 500}
    ensures !o.response.Unhandled?
  {
    if !Truthy(starId) then EventOutcome(t, Err(400, StarIdRequired))
    else if !Truthy(eventTypeId) then EventOutcome(t, Err(400, EventTypeIdRequired))
    else
      var episode: Option<Option<int>> := if Truthy(episodeId) then Some(ParseRaw(episodeId)) else None;
      match ParseRaw(starId)
      case None => EventOutcome(t, Err(500, InternalError))
      case Some(sid) =>
        if sid !in t.starIds then EventOutcome(t, Err(404, StarNotFound))
        else
          match ParseRaw(eventTypeId)
          case None => EventOutcome(t, Err(500, InternalError))
          case Some(tid) =>
            if forall e :: e in t.eventTypes ==> e.id != tid then EventOutcome(t, Err(404, EventTypeNotFound))
            else
              match episode
              case Some(None) => EventOutcome(t, Err(500, InternalError))
              case Some(Some(eid)) => Store(t, TimedEvent(newId, tid, time, sid, Some(eid)))
              case None => Store(t, TimedEvent(newId, tid, time, sid, None))
  }

  /** Well-formed ids always get past the validation to the lookups: with a
      known star and event type given as decimal texts, the event is created
      with those ids. */
  lemma CreateEventFromText(t: Tables, typeId: nat, time: string, star: nat, episode: nat, newId: int)
    requires star in t.starIds && exists e :: e in t.eventTypes && e.id == typeId
    ensures var o := CreateEvent(t, Text(Show(typeId, false)), time, Text(Show(star, false)), Text(Show(episode, false)), newId);
      o.response == Ok(201, TimedEvent(newId, typeId, time, star, Some(episode)))
  {
    ParseShowNat(typeId);
    ParseShowNat(star);
    ParseShowNat(episode);
    CreateEventParsed(t, Text(Show(typeId, false)), time, Text(Show(star, false)), Text(Show(episode, false)), newId,
                      typeId, star, episode);
  }

  /** Fields that are truthy and parse to a known star and event type
      create the event with the parsed ids. */
  lemma CreateEventParsed(t: Tables, typeRaw: RawId, time: string, starRaw: RawId, episodeRaw: RawId, newId: int,
                          typeId: int, star: int, episode: int)
    requires Truthy(typeRaw) && Truthy(starRaw) && Truthy(episodeRaw)
    requires ParseRaw(typeRaw) == Some(typeId) && ParseRaw(starRaw) == Some(star) && ParseRaw(episodeRaw) == Some(episode)
    requires star in t.starIds && exists e :: e in t.eventTypes && e.id == typeId
    ensures CreateEvent(t, typeRaw, time, starRaw, episodeRaw, newId).response == Ok(201, TimedEvent(newId, typeId, time, star, Some(episode)))
  {
  }
}

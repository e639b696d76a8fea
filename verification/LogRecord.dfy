/** What an agent makes of a log record: the bounded entry of the parsers (internal/agent/log_collector.go), its
    identity and its place in a request (internal/agent/client.go), and whether a hub takes it. */
module LogRecord {
  import opened Wrappers
  import opened Text
  import opened Tenancy
  import opened Clock
  import opened LogStore
  import Packer

  datatype Record = Record(sourceId: Bytes, occurredAt: Time, collector: Collector, source: Bytes, severity: Severity,
      message: Bytes)

  // ---------------------------------------------------------------- identity

  function CollectorName(c: Collector): Bytes {
    match c
    case Journald => Ascii("journald")
    case File => Ascii("file")
    case WindowsEvent => Ascii("windows_event")
  }

  function SeverityName(s: Severity): Bytes {
    match s
    case Debug => Ascii("debug")
    case Info => Ascii("info")
    case Warn => Ascii("warn")
    case Failure => Ascii("error")
    case Critical => Ascii("critical")
  }

  function Digits(n: nat): (d: Bytes)
    ensures d != [] && forall b | b in d :: '0' as int <= b <= '9' as int
  {
    if n < 10 then ['0' as int + n] else Digits(n / 10) + ['0' as int + n % 10]
  }

  /** In place of `time.RFC3339Nano`: like it, one text without NUL per instant. */
  function Stamp(t: Time): (s: Bytes)
    ensures 0 !in s
  {
    if t < 0 then ['-' as int] + Digits(-t) else Digits(t)
  }

  /** The end of the digested text, where a source that holds NUL is ambiguous. */
  function Tail(r: Record): Bytes { r.source + [0] + (SeverityName(r.severity) + [0] + r.message) }

  /** The text whose SHA-256 prefix `deterministicLogID` takes. */
  function Preimage(agentId: Bytes, r: Record): Bytes {
    agentId + [0] + (r.sourceId + [0] + (Stamp(r.occurredAt) + [0] + (CollectorName(r.collector) + [0] + Tail(r))))
  }

  /** The fields one after the other, with NUL between. */
  function Joined(fields: seq<Bytes>): Bytes {
    if fields == [] then [] else if |fields| == 1 then fields[0] else fields[0] + [0] + Joined(fields[1..])
  }

  lemma JoinedAfter(field: Bytes, rest: seq<Bytes>)
    requires rest != []
    ensures Joined([field] + rest) == field + [0] + Joined(rest)
  {
    assert ([field] + rest)[1..] == rest;
  }

  /** Agent, source ID, time, collector, source, severity and message. */
  lemma PreimageReads(agentId: Bytes, r: Record)
    ensures Preimage(agentId, r) == Joined([agentId, r.sourceId, Stamp(r.occurredAt), CollectorName(r.collector),
      r.source, SeverityName(r.severity), r.message])
  {
    hide Stamp, CollectorName, SeverityName;
    var f6 := [SeverityName(r.severity)] + [r.message];
    var f5 := [r.source] + f6;
    var f4 := [CollectorName(r.collector)] + f5;
    var f3 := [Stamp(r.occurredAt)] + f4;
    JoinedAfter(SeverityName(r.severity), [r.message]);
    JoinedAfter(r.source, f6);
    JoinedAfter(CollectorName(r.collector), f5);
    JoinedAfter(Stamp(r.occurredAt), f4);
    JoinedAfter(r.sourceId, f3);
    JoinedAfter(agentId, [r.sourceId] + f3);
    assert [agentId] + ([r.sourceId] + f3) == [agentId, r.sourceId, Stamp(r.occurredAt), CollectorName(r.collector),
      r.source, SeverityName(r.severity), r.message];
  }

  lemma {:induction false} DigitsAreInjective(m: nat, n: nat)
    requires Digits(m) == Digits(n)
    ensures m == n
  {
    var a, b := Digits(m), Digits(n);
    assert a[|a| - 1] == '0' as int + m % 10 && b[|b| - 1] == '0' as int + n % 10;
    if m >= 10 && n >= 10 {
      assert a[..|a| - 1] == Digits(m / 10) && b[..|b| - 1] == Digits(n / 10);
      DigitsAreInjective(m / 10, n / 10);
    } else {
      assert |Digits(m)| == 1 <==> m < 10;
      assert |Digits(n)| == 1 <==> n < 10;
    }
  }

  lemma StampIsInjective(t: Time, u: Time)
    requires Stamp(t) == Stamp(u)
    ensures t == u
  {
    if t < 0 && u < 0 {
      assert Stamp(t)[1..] == Digits(-t) && Stamp(u)[1..] == Digits(-u);
      DigitsAreInjective(-t, -u);
    } else if t >= 0 && u >= 0 {
      DigitsAreInjective(t, u);
    } else {
      SignsDiffer(if t < 0 then -t else -u, if t < 0 then u else t);
    }
  }

  lemma SignsDiffer(m: nat, n: nat)
    ensures ['-' as int] + Digits(m) != Digits(n)
  {
    assert Digits(n)[0] in Digits(n);
  }

  lemma NamesAreInjective()
    ensures forall c, d | CollectorName(c) == CollectorName(d) :: c == d
    ensures forall s, t | SeverityName(s) == SeverityName(t) :: s == t
    ensures forall c: Collector :: 0 !in CollectorName(c)
    ensures forall s: Severity :: 0 !in SeverityName(s)
  {
    forall s, t | SeverityName(s) == SeverityName(t) ensures s == t {
      assert |SeverityName(s)| == |SeverityName(t)| && SeverityName(s)[0] == SeverityName(t)[0];
    }
  }

  lemma NulDecides(a: Bytes, x: Bytes, b: Bytes, y: Bytes)
    requires |a| < |b| && 0 !in b
    ensures a + [0] + x != b + [0] + y
  {
    assert (a + [0] + x)[|a|] == 0;
    assert (b + [0] + y)[|a|] == b[|a|] && b[|a|] in b;
  }

  /** A field ends at the first NUL. */
  lemma FirstField(a: Bytes, x: Bytes, b: Bytes, y: Bytes)
    requires a + [0] + x == b + [0] + y && 0 !in a && 0 !in b
    ensures a == b && x == y
  {
    if |a| < |b| { NulDecides(a, x, b, y); }
    if |b| < |a| { NulDecides(b, y, a, x); }
    var left, right := a + [0] + x, b + [0] + y;
    assert a == left[..|a|] && b == right[..|a|];
    assert x == left[|a| + 1..] && y == right[|a| + 1..];
  }

  predicate Clean(r: Record) { 0 !in r.sourceId && 0 !in r.source }

  /** The agent is always recognisable in the digested text. */
  lemma PreimageNamesAgent(a: Bytes, r: Record, b: Bytes, q: Record)
    requires Preimage(a, r) == Preimage(b, q) && 0 !in a && 0 !in b
    ensures a == b
  {
    FirstField(a, Preimage(a, r)[|a| + 1..], b, Preimage(b, q)[|b| + 1..]);
  }

  /** At this place the text reads as the end of a source, a severity and the start of a message. */
  predicate SeverityAt(text: Bytes, p: nat, s: Severity) {
    [0] + SeverityName(s) + [0] <= text[if p < |text| then p else |text|..]
  }

  ghost predicate Ambiguous(r: Record) { exists p: nat, s :: p != |r.source| && SeverityAt(Tail(r), p, s) }

  /** The fields before the source can be read off the text. */
  lemma SameTail(agentId: Bytes, r: Record, q: Record)
    requires 0 !in agentId && 0 !in r.sourceId && 0 !in q.sourceId && Preimage(agentId, r) == Preimage(agentId, q)
    ensures r.sourceId == q.sourceId && r.occurredAt == q.occurredAt && r.collector == q.collector && Tail(r) == Tail(q)
  {
    hide Stamp, CollectorName, SeverityName, Tail;
    NamesAreInjective();
    var r4, q4 := CollectorName(r.collector) + [0] + Tail(r), CollectorName(q.collector) + [0] + Tail(q);
    var r3, q3 := Stamp(r.occurredAt) + [0] + r4, Stamp(q.occurredAt) + [0] + q4;
    FirstField(agentId, r.sourceId + [0] + r3, agentId, q.sourceId + [0] + q3);
    FirstField(r.sourceId, r3, q.sourceId, q3);
    FirstField(Stamp(r.occurredAt), r4, Stamp(q.occurredAt), q4);
    FirstField(CollectorName(r.collector), Tail(r), CollectorName(q.collector), Tail(q));
    StampIsInjective(r.occurredAt, q.occurredAt);
  }

  lemma SameSourceSameRecord(r: Record, q: Record)
    requires Tail(r) == Tail(q) && |r.source| == |q.source|
    ensures r.source == q.source && r.severity == q.severity && r.message == q.message
  {
    hide SeverityName;
    NamesAreInjective();
    assert r.source == Tail(r)[..|r.source|] && q.source == Tail(q)[..|r.source|];
    assert Tail(r)[|r.source| + 1..] == SeverityName(r.severity) + [0] + r.message;
    assert Tail(q)[|r.source| + 1..] == SeverityName(q.severity) + [0] + q.message;
    FirstField(SeverityName(r.severity), r.message, SeverityName(q.severity), q.message);
  }

  /** Equal texts mean equal records; only the message may hold NUL. */
  lemma PreimageIsInjective(a: Bytes, r: Record, b: Bytes, q: Record)
    requires Preimage(a, r) == Preimage(b, q) && 0 !in a && 0 !in b && Clean(r) && Clean(q)
    ensures a == b && r == q
  {
    hide Preimage, SeverityName;
    PreimageNamesAgent(a, r, b, q);
    SameTail(a, r, q);
    FirstField(r.source, SeverityName(r.severity) + [0] + r.message, q.source, SeverityName(q.severity) + [0]
      + q.message);
    SameSourceSameRecord(r, q);
  }

  /** Another record with the same text, hence the same ID and time. */
  ghost predicate Shared(agentId: Bytes, r: Record, q: Record) {
    q != r && 0 !in q.sourceId && q.occurredAt == r.occurredAt && Preimage(agentId, q) == Preimage(agentId, r)
  }

  lemma SharedIsAmbiguous(agentId: Bytes, r: Record, q: Record)
    requires 0 !in agentId && 0 !in r.sourceId && Shared(agentId, r, q)
    ensures Ambiguous(r)
  {
    hide Preimage, SeverityName;
    SameTail(agentId, r, q);
    if |q.source| == |r.source| { SameSourceSameRecord(r, q); }
    assert Tail(q)[|q.source|..] == [0] + SeverityName(q.severity) + [0] + q.message;
    assert SeverityAt(Tail(r), |q.source|, q.severity);
  }

  lemma AmbiguousIsShared(agentId: Bytes, r: Record, p: nat, s: Severity) returns (q: Record)
    requires 0 !in agentId && 0 !in r.sourceId && p != |r.source| && SeverityAt(Tail(r), p, s)
    ensures Shared(agentId, r, q)
  {
    hide SeverityName, Stamp, CollectorName;
    var text, mark := Tail(r), [0] + SeverityName(s) + [0];
    q := r.(source := text[..p], severity := s, message := text[p + |mark|..]);
    assert text == text[..p] + text[p..] && text[p..] == mark + text[p + |mark|..];
    assert Tail(q) == text;
  }

  /** Another record shares the text exactly if source, severity and message together read as a severity between NULs
      at a second place. */
  lemma SharedExactlyWhen(agentId: Bytes, r: Record)
    requires 0 !in agentId && 0 !in r.sourceId
    ensures (exists q :: Shared(agentId, r, q)) <==> Ambiguous(r)
  {
    hide Shared, SeverityAt, Tail;
    if q :| Shared(agentId, r, q) { SharedIsAmbiguous(agentId, r, q); }
    if p: nat, s :| p != |r.source| && SeverityAt(Tail(r), p, s) { var q := AmbiguousIsShared(agentId, r, p, s); }
  }

  /** Such a record, with nothing unusual but its message: one that starts with a severity and a NUL. */
  lemma AmbiguousMessage(agentId: Bytes, r: Record, s: Severity, rest: Bytes) returns (q: Record)
    requires 0 !in agentId && Clean(r) && r.message == SeverityName(s) + [0] + rest
    ensures Shared(agentId, r, q)
  {
    hide SeverityName, Shared;
    var p := |r.source| + 1 + |SeverityName(r.severity)|;
    assert Tail(r)[p..] == [0] + SeverityName(s) + [0] + rest;
    q := AmbiguousIsShared(agentId, r, p, s);
  }

  // ---------------------------------------------------------------- what agent and hub make of a record

  /** A record with the ID it is sent under. */
  datatype Item = Item(id: Bytes, record: Record)

  /** All that the protocol needs to know of a record's text: its ID for an agent, whether a hub takes it, the source
      and message the hub keeps, and the length of an item in a request. */
  datatype Format = Format(
    digest: (Bytes, Record) -> Bytes, takes: Record -> bool, line: Record -> (Bytes, Bytes), json: Packer.Encoder<Item>)

  function ItemOf(f: Format, agentId: Bytes, r: Record): Item { Item(f.digest(agentId, r), r) }

  function ItemsOf(f: Format, agentId: Bytes, batch: seq<Record>): (items: seq<Item>)
    ensures |items| == |batch| && forall i | 0 <= i < |batch| :: items[i] == ItemOf(f, agentId, batch[i])
  {
    seq(|batch|, i requires 0 <= i < |batch| => ItemOf(f, agentId, batch[i]))
  }

  /** The entry a hub keeps of an item. */
  function Filed(f: Format, agent: Agent, item: Item): Entry {
    var r := item.record;
    Entry(agent, item.id, r.occurredAt, r.collector, f.line(r).0, r.severity, f.line(r).1)
  }

  function Stored(f: Format, agent: Agent, r: Record): Entry { Filed(f, agent, ItemOf(f, agent.id, r)) }

  /** No two agents share a digest. */
  ghost predicate TellsAgents(f: Format, pairs: set<(Bytes, Record)>) {
    forall p, q | p in pairs && q in pairs && f.digest(p.0, p.1) == f.digest(q.0, q.1) :: p.0 == q.0
  }

  /** No two of these records of one agent share a digest. */
  ghost predicate TellsRecords(f: Format, agentId: Bytes, records: set<Record>) {
    forall r, q | r in records && q in records && f.digest(agentId, r) == f.digest(agentId, q) :: r == q
  }

  // ---------------------------------------------------------------- the format in use

  /** SHA-256, first half, in hexadecimal. */
  type Digest = id: Bytes | HexId(id) witness seq(32, _ => '0' as int)
  type Hash = Bytes -> Digest

  predicate Acceptable(r: Record) {
    r.occurredAt != ZERO && Carried(r.source, SOURCE_LIMIT) && Carried(r.message, TEXT_LIMIT)
  }

  function Actual(hash: Hash): Format {
    Format((agentId: Bytes, r: Record) => hash(Preimage(agentId, r)), (r: Record) => Acceptable(r),
           (r: Record) => (TrimSpace(Wire(r.source)), TrimSpace(Wire(r.message))), JSON)
  }

  lemma NameArrives(name: string)
    requires name != "" && forall i | 0 <= i < |name| :: ' ' < name[i] < 127 as char
    ensures TrimSpace(Wire(Ascii(name))) == Ascii(name) && Reads(Ascii(name), name)
  {
    hide Wire, TrimSpace, Trimmed;
    AsciiIsValid(Ascii(name));
    WireOfValid(Ascii(name));
    AsciiIsTrimmed(Ascii(name));
    TrimmedIsFixed(Ascii(name));
  }

  lemma CollectorArrives(c: Collector)
    ensures NormalCollector(Wire(CollectorName(c))) == Some(c)
  {
    hide Wire, TrimSpace;
    match c
    case Journald => NameArrives("journald");
    case File => NameArrives("file");
    case WindowsEvent => NameArrives("windows_event");
  }

  lemma SeverityArrives(s: Severity)
    ensures NormalSeverity(Wire(SeverityName(s))) == Some(s)
  {
    hide Wire, TrimSpace;
    match s
    case Debug => NameArrives("debug");
    case Info => NameArrives("info");
    case Warn => NameArrives("warn"); assert Ascii("warn")[0] != 'i' as int;
    case Failure => NameArrives("error"); assert Ascii("error")[0] != 'd' as int;
    case Critical => NameArrives("critical");
  }

  /** The hub reads back the collector and severity that the agent has written. */
  lemma NamesArrive(c: Collector, s: Severity)
    ensures NormalCollector(Wire(CollectorName(c))) == Some(c)
    ensures NormalSeverity(Wire(SeverityName(s))) == Some(s)
  {
    hide NormalCollector, NormalSeverity, CollectorName, SeverityName, Wire;
    CollectorArrives(c);
    SeverityArrives(s);
  }

  /** The entry as the hub decodes it from the request. */
  function Decoded(item: Item): (c: Candidate)
    ensures c.collector == Some(item.record.collector) && c.severity == Some(item.record.severity)
  {
    var r := item.record;
    NamesArrive(r.collector, r.severity);
    Candidate(item.id, r.occurredAt, NormalCollector(Wire(CollectorName(r.collector))), Wire(r.source),
              NormalSeverity(Wire(SeverityName(r.severity))), Wire(r.message))
  }

  /** The hub takes and keeps an entry as the format says. */
  lemma HubTakes(hash: Hash, agent: Agent, item: Item, drawn: Result<Bytes>)
    requires HexId(item.id) && TrimSpace(agent.id) == agent.id
    ensures Admissible(Decoded(item)) <==> Actual(hash).takes(item.record)
    ensures RefusalOf(Decoded(item), drawn).None? <==> Actual(hash).takes(item.record)
    ensures EntryOf(agent, Decoded(item), drawn) == Filed(Actual(hash), agent, item)
  {
    hide Wire, TrimSpace, HexId, NormalCollector, NormalSeverity, CollectorName, SeverityName;
    HexIdIsTrimmed(item.id);
  }

  /** No two of these texts share a digest. */
  ghost predicate CollisionFree(hash: Hash, pairs: set<(Bytes, Record)>) {
    forall p, q | p in pairs && q in pairs && hash(Preimage(p.0, p.1)) == hash(Preimage(q.0, q.1)) ::
      Preimage(p.0, p.1) == Preimage(q.0, q.1)
  }

  /** Without collisions a digest tells the agent, and for clean records the record too. */
  lemma DigestsTell(hash: Hash, pairs: set<(Bytes, Record)>, agentId: Bytes, records: set<Record>)
    requires CollisionFree(hash, pairs) && forall p | p in pairs :: 0 !in p.0
    requires forall r | r in records :: (agentId, r) in pairs && Clean(r)
    ensures TellsAgents(Actual(hash), pairs) && TellsRecords(Actual(hash), agentId, records)
  {
    hide Preimage;
    forall p, q | p in pairs && q in pairs && Actual(hash).digest(p.0, p.1) == Actual(hash).digest(q.0, q.1)
      ensures p.0 == q.0
    {
      PreimageNamesAgent(p.0, p.1, q.0, q.1);
    }
    forall r, q | r in records && q in records && Actual(hash).digest(agentId, r) == Actual(hash).digest(agentId, q)
      ensures r == q
    {
      assert (agentId, r) in pairs && (agentId, q) in pairs && 0 !in (agentId, r).0;
      PreimageIsInjective(agentId, r, agentId, q);
    }
  }

  // ---------------------------------------------------------------- the parsers' bounds

  /** `decodeJournalMessage` and `firstNonEmpty` leave trimmed texts that are not empty; the parsers then
      truncate them. */
  function Parsed(sourceId: Bytes, occurredAt: Time, collector: Collector, source: Bytes, severity: Severity,
      message: Bytes): Record
  {
    Record(sourceId, occurredAt, collector, Truncated(source, SOURCE_LIMIT), severity, Truncated(message, TEXT_LIMIT))
  }

  /** Exactly which parsed records the hub takes; all those with a time and well-formed UTF-8 are among them. */
  lemma ParsedIsAcceptable(sourceId: Bytes, occurredAt: Time, collector: Collector, source: Bytes, severity: Severity,
      message: Bytes)
    requires source != [] && Trimmed(source) && message != [] && Trimmed(message)
    ensures Acceptable(Parsed(sourceId, occurredAt, collector, source, severity, message)) <==>
      occurredAt != ZERO && Survives(source, SOURCE_LIMIT) && Survives(message, TEXT_LIMIT)
    ensures occurredAt != ZERO && Valid(source) && Valid(message) ==>
      Acceptable(Parsed(sourceId, occurredAt, collector, source, severity, message))
  {
    hide Carried, Truncated, Survives, Valid;
    TruncatedIsCarried(source, SOURCE_LIMIT);
    TruncatedIsCarried(message, TEXT_LIMIT);
    if Valid(source) && Valid(message) {
      ValidSurvives(source, SOURCE_LIMIT);
      ValidSurvives(message, TEXT_LIMIT);
    }
  }

  // ---------------------------------------------------------------- JSON size

  const HEX := "0123456789abcdef"

  function Chars(b: Bytes): (s: string)
    ensures |s| == |b|
  {
    seq(|b|, i requires 0 <= i < |b| => b[i] as char)
  }

  function UnicodeEscape(code: nat): (s: string)
    ensures |s| == 6
  {
    "\\u" + [HEX[code / 0x1000 % 16], HEX[code / 0x100 % 16], HEX[code / 0x10 % 16], HEX[code % 16]]
  }

  /** Go's `encoding/json` on one rune or one ill-formed byte: HTML characters, control characters and the two
      Unicode line separators are escaped. */
  function EscapeRune(s: Bytes): (r: string)
    requires s != []
    ensures Width(s) > 0 ==> |r| <= 6 * Width(s)
    ensures Width(s) == 0 ==> |r| == 6
  {
    var w := Width(s);
    if w == 0 then UnicodeEscape(0xFFFD)
    else if w == 1 then
      if s[0] == '\"' as int || s[0] == '\\' as int then ['\\', s[0] as char]
      else if s[0] == 8 then "\\b" else if s[0] == 9 then "\\t" else if s[0] == 10 then "\\n"
      else if s[0] == 12 then "\\f" else if s[0] == 13 then "\\r"
      else if s[0] < 32 || s[0] == '<' as int || s[0] == '>' as int || s[0] == '&' as int then UnicodeEscape(s[0])
      else [s[0] as char]
    else if w == 3 && s[0] == 0xE2 && s[1] == 0x80 && (s[2] == 0xA8 || s[2] == 0xA9) then
      UnicodeEscape(if s[2] == 0xA8 then 0x2028 else 0x2029)
    else Chars(s[..w])
  }

  function Escape(s: Bytes): (r: string)
    ensures |r| <= 6 * |s|
  {
    if s == [] then ""
    else if Width(s) > 0 then EscapeRune(s) + Escape(s[Width(s)..])
    else EscapeRune(s) + Escape(s[1..])
  }

  function Field(name: string, value: Bytes): string { "\"" + name + "\":\"" + Escape(value) + "\"" }

  const JSON: Packer.Encoder<Item> := (item: Item) => Some(EntryJson(item.id, item.record))

  /** An entry of a request, with the fields Go writes even when they are empty. */
  function EntryJson(id: Bytes, r: Record): string {
    "{" + Field("organization_id", []) + "," + Field("site_id", []) + "," + Field("id", id) + ","
      + Field("occurred_at", Stamp(r.occurredAt)) + "," + Field("collector", CollectorName(r.collector)) + ","
      + Field("source", r.source) + "," + Field("severity", SeverityName(r.severity)) + ","
        + Field("message", r.message) + "}"
  }

  predicate Int64(t: Time) { -0x8000_0000_0000_0000 <= t < 0x8000_0000_0000_0000 }

  predicate Bounded(r: Record) { Int64(r.occurredAt) && |r.source| <= SOURCE_LIMIT && |r.message| <= TEXT_LIMIT }

  function Pow10(k: nat): nat { if k == 0 then 1 else 10 * Pow10(k - 1) }

  lemma {:induction false} DigitsBound(n: nat, k: nat)
    requires k > 0 && n < Pow10(k)
    ensures |Digits(n)| <= k
  {
    if n >= 10 {
      assert Pow10(1) == 10;
      DigitsBound(n / 10, k - 1);
    }
  }

  lemma StampBound(t: Time)
    requires Int64(t)
    ensures |Stamp(t)| <= 20
  {
    var p5 := Pow10(5);
    assert p5 == 100000;
    var p10, p15 := Pow10(10), Pow10(15);
    assert Pow10(7) == 10000000;
    assert p10 == 10000000000;
    assert Pow10(12) == 1000000000000;
    assert p15 == 1000000000000000;
    assert Pow10(17) == 100000000000000000;
    assert Pow10(19) == 10000000000000000000;
    DigitsBound(if t < 0 then -t else t, 19);
  }

  lemma EntryBound(id: Bytes, r: Record)
    requires |id| == 32 && Bounded(r)
    ensures |EntryJson(id, r)| <= 400_000
  {
    hide Escape, Stamp;
    StampBound(r.occurredAt);
    assert |CollectorName(r.collector)| <= 13 && |SeverityName(r.severity)| <= 8;
  }

  ghost predicate AllBounded(items: seq<Item>) {
    forall i | 0 <= i < |items| :: |items[i].id| == 32 && Bounded(items[i].record)
  }

  /** Truncation makes the packer's assumption true: whatever escaping does, no request made of parsed records
      exceeds the limit. */
  lemma RequestsFit(items: seq<Item>, pieces: seq<seq<Item>>)
    requires AllBounded(items)
    requires Packer.Packed(Packer.BATCH, Packer.MAX_REQUEST_BODY_BYTES, items, pieces, JSON)
    ensures forall k | 0 <= k < |pieces| :: Packer.Fits(Packer.BATCH, Packer.MAX_REQUEST_BODY_BYTES, pieces[k], JSON)
  {
    hide EntryJson, Bounded;
    forall i | 0 <= i < |items| ensures Packer.Fits(Packer.BATCH, Packer.MAX_REQUEST_BODY_BYTES, [items[i]], JSON) {
      EntryBound(items[i].id, items[i].record);
    }
    Packer.AllFitIffItemsFit(Packer.BATCH, Packer.MAX_REQUEST_BODY_BYTES, items, pieces, JSON);
  }

  /** What `encodeLogNotificationBatches` sends of a stored entry. */
  datatype Notice = Notice(scope: Scope, id: Bytes, occurredAt: Time)

  const NOTICE_JSON: Packer.Encoder<Notice> := (n: Notice) => Some(NoticeText(n))

  function NoticeText(n: Notice): string {
    "{" + Field("organization_id", n.scope.organizationId) + "," + Field("site_id", n.scope.siteId) + ","
      + Field("id", n.id) + "," + Field("occurred_at", Stamp(n.occurredAt)) + "}"
  }

  predicate Postable(n: Notice) { n.scope.Valid() && |n.id| == 32 && Int64(n.occurredAt) }

  lemma NoticeBound(n: Notice)
    requires Postable(n)
    ensures |NoticeText(n)| <= 2000
  {
    hide Escape, Stamp, Blank;
    StampBound(n.occurredAt);
  }

  /** Valid tenant names keep every notification below PostgreSQL's limit. */
  lemma NotificationsFit(notices: seq<Notice>, chunks: seq<seq<Notice>>)
    requires forall i | 0 <= i < |notices| :: Postable(notices[i])
    requires Packer.Packed(Packer.ARRAY, Packer.NOTIFY_PAYLOAD_LIMIT - 1, notices, chunks, NOTICE_JSON)
    ensures forall k | 0 <= k < |chunks| :: |Packer.ARRAY.Text(chunks[k], NOTICE_JSON)| < Packer.NOTIFY_PAYLOAD_LIMIT
  {
    hide NoticeText, Postable;
    forall i | 0 <= i < |notices|
      ensures Packer.Fits(Packer.ARRAY, Packer.NOTIFY_PAYLOAD_LIMIT - 1, [notices[i]], NOTICE_JSON)
    {
      NoticeBound(notices[i]);
    }
    Packer.AllFitIffItemsFit(Packer.ARRAY, Packer.NOTIFY_PAYLOAD_LIMIT - 1, notices, chunks, NOTICE_JSON);
    assert forall k | 0 <= k < |chunks| ::
      Packer.Fits(Packer.ARRAY, Packer.NOTIFY_PAYLOAD_LIMIT - 1, chunks[k], NOTICE_JSON);
  }

  predicate Sendable(f: Format, agentId: Bytes, r: Record) {
    Packer.Fits(Packer.BATCH, Packer.MAX_REQUEST_BODY_BYTES, [ItemOf(f, agentId, r)], f.json)
  }

  lemma BoundedIsSendable(hash: Hash, agentId: Bytes, r: Record)
    requires Bounded(r)
    ensures Sendable(Actual(hash), agentId, r)
  {
    hide Bounded, EntryJson;
    EntryBound(hash(Preimage(agentId, r)), r);
  }

  // ---------------------------------------------------------------- a record the hub refuses

  /** A journal message of thirty thousand bytes that are not UTF-8 is one. */
  lemma RefusedRecord(sourceId: Bytes, occurredAt: Time, source: Bytes, severity: Severity) returns (r: Record)
    requires source != [] && Trimmed(source)
    ensures r == Parsed(sourceId, occurredAt, Journald, source, severity, r.message) && Trimmed(r.message)
      && !Acceptable(r)
  {
    hide Carried, Wire, TrimSpace;
    var message: Bytes := seq(30000, _ => 0xFF);
    r := Parsed(sourceId, occurredAt, Journald, source, severity, message);
    AllIllFormed(message);
    TrimmedIsFixed(message);
    ParsedIsAcceptable(sourceId, occurredAt, Journald, source, severity, message);
  }
}

/** Go strings as byte sequences: UTF-8 well-formedness (section 4 of RFC 3629, the table behind Go's
    `utf8.ValidString`), `strings.TrimSpace`, the effect of a JSON round trip on ill-formed bytes,
    and the agent's `truncateUTF8`. */
module Text {
  type byte = x: int | 0 <= x < 256
  type Bytes = seq<byte>

  /** The limit the hub puts on an event message, and the one the agent truncates to. */
  const MESSAGE_LIMIT: nat := 32 * 1024

  /** The text constants of the sources as bytes; they are all ASCII. */
  function Ascii(s: string): (b: Bytes)
    ensures |b| == |s| && forall i | 0 <= i < |b| :: b[i] < 128
  {
    seq(|s|, i requires 0 <= i < |s| => if s[i] < 128 as char then s[i] as int else '?' as int)
  }

  function LowerByte(b: byte): byte { if 'A' as int <= b <= 'Z' as int then b + 32 else b }

  /** The text is this ASCII name, in any case of letters. */
  predicate Reads(text: Bytes, name: string) {
    |text| == |name| && forall i | 0 <= i < |name| ::
      text[i] == name[i] as int || ('a' <= name[i] <= 'z' && text[i] == name[i] as int - 32)
  }

  predicate Cont(b: byte) { 0x80 <= b <= 0xBF }

  /** Length of the well-formed sequence at the front of `s`; 0 when there is none, in which case Go
      decodes one byte as the replacement character. */
  function Width(s: Bytes): (w: nat)
    ensures w <= |s| && w <= 4
    ensures w > 0 ==> !Cont(s[0]) && forall i :: 1 <= i < w ==> Cont(s[i])
  {
    if s == [] then 0
    else if s[0] < 0x80 then 1
    else if 0xC2 <= s[0] <= 0xDF && |s| >= 2 && Cont(s[1]) then 2
    else if |s| >= 3 && Cont(s[2]) && (
              || (s[0] == 0xE0 && 0xA0 <= s[1] <= 0xBF)
              || ((0xE1 <= s[0] <= 0xEC || 0xEE <= s[0] <= 0xEF) && Cont(s[1]))
              || (s[0] == 0xED && 0x80 <= s[1] <= 0x9F)) then 3
    else if |s| >= 4 && Cont(s[2]) && Cont(s[3]) && (
              || (s[0] == 0xF0 && 0x90 <= s[1] <= 0xBF)
              || (0xF1 <= s[0] <= 0xF3 && Cont(s[1]))
              || (s[0] == 0xF4 && 0x80 <= s[1] <= 0x8F)) then 4
    else 0
  }

  predicate Valid(s: Bytes) {
    s == [] || (Width(s) > 0 && Valid(s[Width(s)..]))
  }

  /** Number of bytes that belong to no well-formed sequence. */
  function IllFormed(s: Bytes): nat {
    if s == [] then 0
    else if Width(s) > 0 then IllFormed(s[Width(s)..])
    else 1 + IllFormed(s[1..])
  }

  const REPLACEMENT: Bytes := [0xEF, 0xBF, 0xBD]

  /** What a string becomes when it is written as JSON and read back (RFC 8259, section 7, as Go's
      encoder does it): each ill-formed byte turns into U+FFFD. */
  function Wire(s: Bytes): Bytes {
    if s == [] then []
    else if Width(s) > 0 then s[..Width(s)] + Wire(s[Width(s)..])
    else REPLACEMENT + Wire(s[1..])
  }

  /** Length of the white-space rune at the front of `s` (Unicode White_Space), 0 if none. */
  function SpaceWidth(s: Bytes): (w: nat)
    ensures w <= Width(s) && w <= 3
    ensures w > 0 ==> w == Width(s)
  {
    if |s| >= 1 && (9 <= s[0] <= 13 || s[0] == 32) then 1
    else if |s| >= 2 && s[0] == 0xC2 && (s[1] == 0x85 || s[1] == 0xA0) then 2
    else if |s| >= 3 && (
              || (s[0] == 0xE1 && s[1] == 0x9A && s[2] == 0x80)
              || (s[0] == 0xE2 && s[1] == 0x80
                && (0x80 <= s[2] <= 0x8A || s[2] == 0xA8 || s[2] == 0xA9 || s[2] == 0xAF))
              || (s[0] == 0xE2 && s[1] == 0x81 && s[2] == 0x9F)
              || (s[0] == 0xE3 && s[1] == 0x80 && s[2] == 0x80)) then 3
    else 0
  }

  predicate SpaceAt(s: Bytes, k: nat) { 0 < k <= |s| && SpaceWidth(s[|s| - k..]) == k }

  /** Length of the white-space rune at the end of `s`, 0 if none. */
  function SpaceSuffix(s: Bytes): (k: nat)
    ensures k <= |s|
  {
    if SpaceAt(s, 1) then 1 else if SpaceAt(s, 2) then 2 else if SpaceAt(s, 3) then 3 else 0
  }

  function TrimLeft(s: Bytes): (r: Bytes)
    ensures |r| <= |s| && SpaceWidth(r) == 0
  {
    if SpaceWidth(s) > 0 then TrimLeft(s[SpaceWidth(s)..]) else s
  }

  function TrimRight(s: Bytes): (r: Bytes)
    ensures r <= s && SpaceSuffix(r) == 0
  {
    if SpaceSuffix(s) > 0 then TrimRight(s[..|s| - SpaceSuffix(s)]) else s
  }

  function TrimSpace(s: Bytes): Bytes { TrimRight(TrimLeft(s)) }

  /** `TrimSpace(s) == ""`, by `BlankIsTrimmedAway`. */
  predicate Blank(s: Bytes) {
    s == [] || (SpaceWidth(s) > 0 && Blank(s[SpaceWidth(s)..]))
  }

  predicate Trimmed(s: Bytes) { SpaceWidth(s) == 0 && SpaceSuffix(s) == 0 }

  /** `Width` looks at no byte beyond the sequence it finds. */
  lemma WidthOfPrefix(s: Bytes, n: nat)
    requires Width(s) <= n <= |s|
    ensures Width(s) > 0 ==> Width(s[..n]) == Width(s)
  {}

  lemma SpaceWidthOfPrefix(s: Bytes, n: nat)
    requires n <= |s|
    ensures SpaceWidth(s[..n]) > 0 ==> SpaceWidth(s) > 0
  {}

  lemma SuffixIsProper(s: Bytes)
    requires s != [] && SpaceWidth(s) == 0
    ensures SpaceSuffix(s) < |s|
  {
    assert s[0..] == s;
  }

  /** Trimming the right of a string that starts with no white space leaves something of it. */
  lemma {:induction false} TrimRightKeepsHead(s: Bytes)
    requires s != [] && SpaceWidth(s) == 0
    ensures TrimRight(s) != []
  {
    hide SpaceWidth, SpaceSuffix, Width;
    if SpaceSuffix(s) > 0 {
      var rest := s[..|s| - SpaceSuffix(s)];
      SuffixIsProper(s);
      SpaceWidthOfPrefix(s, |rest|);
      TrimRightKeepsHead(rest);
      assert TrimRight(s) == TrimRight(rest);
    }
  }

  lemma {:induction false} BlankIsTrimmedAway(s: Bytes)
    ensures Blank(s) <==> TrimSpace(s) == []
  {
    if SpaceWidth(s) > 0 {
      BlankIsTrimmedAway(s[SpaceWidth(s)..]);
    } else if s != [] {
      TrimRightKeepsHead(s);
    }
  }

  // ---------------------------------------------------------------- JSON transport

  lemma {:induction false} WireIsValid(s: Bytes)
    ensures Valid(Wire(s))
    ensures |Wire(s)| == |s| + 2 * IllFormed(s)
  {
    if s != [] {
      var w := Width(s);
      var head, rest := if w > 0 then s[..w] else REPLACEMENT, if w > 0 then s[w..] else s[1..];
      WireIsValid(rest);
      assert Wire(s) == head + Wire(rest);
      if w > 0 { WidthOfPrefix(s, w); }
      assert Width(Wire(s)) == |head|;
      assert Wire(s)[|head|..] == Wire(rest);
    }
  }

  lemma {:induction false} WireOfValid(s: Bytes)
    requires Valid(s)
    ensures Wire(s) == s && IllFormed(s) == 0
  {
    if s != [] {
      WireOfValid(s[Width(s)..]);
      assert s == s[..Width(s)] + s[Width(s)..];
    }
  }

  lemma WireIdempotent(s: Bytes)
    ensures Wire(Wire(s)) == Wire(s)
  {
    WireIsValid(s);
    WireOfValid(Wire(s));
  }

  /** A sequence that is part of a longer one ends in white space only if the longer one does. */
  lemma SpaceAtOfTail(s: Bytes, n: nat, k: nat)
    requires n <= |s| && SpaceAt(s[n..], k)
    ensures SpaceAt(s, k)
  {
    var t := s[n..];
    assert t[|t| - k..] == s[|s| - k..];
  }

  lemma SpaceSuffixOfTail(s: Bytes, n: nat)
    requires n <= |s| && SpaceSuffix(s) == 0
    ensures SpaceSuffix(s[n..]) == 0
  {
    hide SpaceWidth;
    var k := SpaceSuffix(s[n..]);
    if k > 0 { SpaceAtOfTail(s, n, k); }
  }

  /** White space at the end of `head + tail` lies in `tail` alone, because a continuation byte never
      starts a well-formed string. */
  lemma SpaceSuffixOfConcat(head: Bytes, tail: Bytes, k: nat)
    requires tail != [] && Width(tail) > 0 && SpaceAt(head + tail, k)
    ensures SpaceAt(tail, k)
  {
    if k <= |tail| {
      assert (head + tail)[|head + tail| - k..] == tail[|tail| - k..];
    }
  }

  /** The front of `s` as JSON transport sees it: a well-formed sequence, or the replacement. */
  function WireHead(s: Bytes): (r: (Bytes, Bytes))
    requires s != []
    ensures Wire(s) == r.0 + Wire(r.1)
    ensures |r.1| < |s| && r.1 == s[|s| - |r.1|..]
    ensures Width(r.0) == |r.0| > 0
    ensures SpaceWidth(s) == 0 ==> SpaceWidth(r.0) == 0
    ensures r.1 == [] && SpaceWidth(r.0) > 0 ==> r.0 == s
  {
    if Width(s) > 0 then WidthOfPrefix(s, Width(s)); (s[..Width(s)], s[Width(s)..]) else (REPLACEMENT, s[1..])
  }

  lemma SpaceSuffixOfRune(r: Bytes)
    requires Width(r) == |r| > 0 && SpaceWidth(r) == 0
    ensures SpaceSuffix(r) == 0
  {
    assert r[0..] == r;
  }

  lemma WireKeepsTrimmedRune(s: Bytes)
    requires s != [] && SpaceSuffix(s) == 0 && WireHead(s).1 == []
    ensures SpaceSuffix(WireHead(s).0) == 0
  {
    assert s[0..] == s;
    assert SpaceWidth(s) > 0 ==> SpaceAt(s, SpaceWidth(s));
    SpaceSuffixOfRune(WireHead(s).0);
  }

  lemma SpaceSuffixOfJoin(head: Bytes, tail: Bytes)
    requires tail != [] && Width(tail) > 0 && SpaceSuffix(tail) == 0
    ensures SpaceSuffix(head + tail) == 0
  {
    hide SpaceWidth, Width;
    var k := SpaceSuffix(head + tail);
    if k > 0 { SpaceSuffixOfConcat(head, tail, k); }
  }

  /** JSON transport neither adds nor uncovers white space at the end. */
  lemma {:induction false} WireKeepsTrimmed(s: Bytes)
    requires SpaceSuffix(s) == 0
    ensures SpaceSuffix(Wire(s)) == 0
  {
    hide Width, SpaceWidth, SpaceSuffix;
    if s != [] {
      var (head, rest) := WireHead(s);
      if rest == [] {
        assert Wire(s) == head;
        WireKeepsTrimmedRune(s);
      } else {
        SpaceSuffixOfTail(s, |s| - |rest|);
        WireKeepsTrimmed(rest);
        WireIsValid(rest);
        SpaceSuffixOfJoin(head, Wire(rest));
      }
    }
  }

  lemma WireKeepsLeading(s: Bytes)
    requires SpaceWidth(s) == 0
    ensures SpaceWidth(Wire(s)) == 0
  {
    if s != [] {
      var (head, rest) := WireHead(s);
      assert Width(Wire(s)) == |head| by { assert Wire(s)[..|head|] == head; }
      SpaceWidthOfPrefix(Wire(s), |head|);
    }
  }

  // ---------------------------------------------------------------- truncation

  /** The longest well-formed prefix of `s` that is no longer than `n`. */
  function ValidPrefix(s: Bytes, n: nat): (r: Bytes)
    requires n <= |s|
    ensures r <= s && |r| <= n && Valid(r)
  {
    if Valid(s[..n]) then s[..n] else assert n > 0 by { assert s[..0] == []; } ValidPrefix(s, n - 1)
  }

  function Truncated(value: Bytes, limit: nat): Bytes {
    if |value| <= limit then value else ValidPrefix(value, limit)
  }

  method TruncateUTF8(input: Bytes, limit: nat) returns (value: Bytes)
    ensures value == Truncated(input, limit)
  {
    value := input;
    if |value| <= limit { return; }
    value := value[..limit];
    while !Valid(value)
      invariant |value| <= limit && value == input[..|value|]
      invariant ValidPrefix(input, |value|) == ValidPrefix(input, limit)
      decreases |value|
    {
      value := value[..|value| - 1];
    }
  }

  lemma {:induction false} ValidPrefixIsLongest(s: Bytes, n: nat, p: Bytes)
    requires n <= |s| && p <= s && |p| <= n && Valid(p)
    ensures |p| <= |ValidPrefix(s, n)|
  {
    if !Valid(s[..n]) {
      assert p == s[..|p|];
      ValidPrefixIsLongest(s, n - 1, p);
    }
  }

  /** Truncating a well-formed string gives up at most three bytes of the room there is. */
  lemma {:induction false} BoundaryNear(s: Bytes, n: nat) returns (k: nat)
    requires n <= |s| && Valid(s)
    ensures n - 3 <= k <= n && Valid(s[..k])
  {
    if n == 0 || Width(s) > n {
      k := 0;
    } else {
      var w := Width(s);
      var j := BoundaryNear(s[w..], n - w);
      k := w + j;
      WidthOfPrefix(s, k);
      assert s[..k][w..] == s[w..][..j];
    }
  }

  /** `truncateUTF8` on a well-formed string: the longest well-formed prefix within the limit, at most
      three bytes short of it, and not empty once the limit holds a whole rune. */
  lemma TruncatedOfValid(value: Bytes, limit: nat)
    requires Valid(value)
    ensures var r := Truncated(value, limit);
      && r <= value && |r| <= limit && Valid(r)
      && (forall p | p <= value && |p| <= limit && Valid(p) :: |p| <= |r|)
      && (r == value || limit - 3 <= |r|)
      && (value != [] && limit >= 4 ==> r != [])
  {
    if |value| > limit {
      var k := BoundaryNear(value, limit);
      ValidPrefixIsLongest(value, limit, value[..k]);
      forall p | p <= value && |p| <= limit && Valid(p) ensures |p| <= |Truncated(value, limit)| {
        ValidPrefixIsLongest(value, limit, p);
      }
    }
  }

  // ---------------------------------------------------------------- what a hub takes

  /** A text as it reaches a hub's check, after JSON transport and trimming: not empty, within the limit. */
  predicate Carried(text: Bytes, limit: nat) { 0 < |TrimSpace(Wire(text))| <= limit }

  lemma {:induction false} AllIllFormed(s: Bytes)
    requires forall i | 0 <= i < |s| :: s[i] == 0xFF
    ensures IllFormed(s) == |s|
  {
    if s != [] { AllIllFormed(s[1..]); }
  }

  lemma TrimmedIsFixed(s: Bytes)
    requires Trimmed(s)
    ensures TrimSpace(s) == s
  {}

  lemma {:induction false} TrimRightKeepsStart(s: Bytes)
    requires SpaceWidth(s) == 0
    ensures SpaceWidth(TrimRight(s)) == 0
  {
    var k := SpaceSuffix(s);
    if k > 0 {
      SpaceWidthOfPrefix(s, |s| - k);
      TrimRightKeepsStart(s[..|s| - k]);
    }
  }

  lemma {:induction false} TrimLeftKeepsEnd(s: Bytes)
    ensures TrimLeft(s) == s[|s| - |TrimLeft(s)|..]
  {
    hide SpaceWidth, Width;
    if SpaceWidth(s) > 0 { TrimLeftKeepsEnd(s[SpaceWidth(s)..]); }
  }

  lemma TrimSpaceIsTrimmed(s: Bytes)
    ensures Trimmed(TrimSpace(s))
  {
    TrimRightKeepsStart(TrimLeft(s));
  }

  /** Cutting at the start of a sequence, or at the end, cuts transport in two, and leaves well-formed parts of
      well-formed text. */
  lemma {:induction false} WireCut(s: Bytes, n: nat)
    requires n <= |s| && (n < |s| ==> !Cont(s[n]))
    ensures Wire(s) == Wire(s[..n]) + Wire(s[n..])
  {
    hide Wire, Width, Cont;
    if n == |s| {
      assert s[..n] == s && s[n..] == [];
      NothingOnWire();
    } else if n == 0 {
      assert s[..0] == [] && s[0..] == s;
      NothingOnWire();
    } else {
      WidthOfCut(s, n);
      var w := if Width(s) > 0 then Width(s) else 1;
      WireStep(s);
      WireStep(s[..n]);
      WireCut(s[w..], n - w);
      assert s[..n][w..] == s[w..][..n - w] && s[n..] == s[w..][n - w..] && s[..n][..w] == s[..w];
    }
  }

  lemma WireStep(s: Bytes)
    requires s != []
    ensures Wire(s) == if Width(s) > 0 then s[..Width(s)] + Wire(s[Width(s)..]) else REPLACEMENT + Wire(s[1..])
  {}

  lemma {:induction false} ValidCut(s: Bytes, n: nat)
    requires Valid(s) && n <= |s| && (n < |s| ==> !Cont(s[n]))
    ensures Valid(s[..n]) && Valid(s[n..])
  {
    if n == |s| {
      assert s[..n] == s && s[n..] == [];
    } else if n > 0 {
      hide Width;
      WidthOfCut(s, n);
      var w := Width(s);
      ValidCut(s[w..], n - w);
      assert s[..n][w..] == s[w..][..n - w] && s[n..] == s[w..][n - w..];
    }
  }

  lemma WidthOfCut(s: Bytes, n: nat)
    requires 0 < n < |s| && !Cont(s[n])
    ensures Width(s[..n]) == Width(s) <= n
  {}

  lemma SpaceWidthOfStart(s: Bytes, t: Bytes)
    requires SpaceWidth(s) > 0
    ensures SpaceWidth(s[..SpaceWidth(s)] + t) == SpaceWidth(s)
  {}

  lemma {:induction false} TrimLeftOfWire(s: Bytes)
    ensures TrimLeft(Wire(s)) == Wire(TrimLeft(s))
  {
    hide Width;
    var w := SpaceWidth(s);
    if w > 0 {
      hide SpaceWidth;
      TrimLeftOfWire(s[w..]);
      SpaceWidthOfStart(s, Wire(s[w..]));
      assert Wire(s)[w..] == Wire(s[w..]);
    } else {
      WireKeepsLeading(s);
    }
  }

  /** The last bytes decide whether a string ends in white space. */
  lemma SpaceSuffixOfEnd(s: Bytes, t: Bytes)
    requires SpaceSuffix(s) > 0
    ensures SpaceSuffix(t + s[|s| - SpaceSuffix(s)..]) == SpaceSuffix(s)
  {
    hide SpaceWidth, Width;
    var k := SpaceSuffix(s);
    var u := t + s[|s| - k..];
    assert u[|u| - 1..] == s[|s| - 1..];
    if k >= 2 { assert u[|u| - 2..] == s[|s| - 2..]; }
    if k >= 3 { assert u[|u| - 3..] == s[|s| - 3..]; }
  }

  lemma {:induction false} TrimRightOfWire(s: Bytes)
    ensures TrimRight(Wire(s)) == Wire(TrimRight(s))
  {
    hide Wire, Width, SpaceSuffix;
    var k := SpaceSuffix(s);
    if k > 0 {
      WireOfEnd(s);
      TrimRightOfWire(s[..|s| - k]);
      assert Wire(s)[..|Wire(s)| - k] == Wire(s[..|s| - k]);
    } else {
      WireKeepsTrimmed(s);
    }
  }

  /** White space at the end passes transport as it is. */
  lemma WireOfEnd(s: Bytes)
    requires SpaceSuffix(s) > 0
    ensures var k := SpaceSuffix(s);
      Wire(s) == Wire(s[..|s| - k]) + s[|s| - k..] && SpaceSuffix(Wire(s)) == k
  {
    hide Wire, Width, SpaceWidth;
    var n := |s| - SpaceSuffix(s);
    SpaceRune(s[n..]);
    WireCut(s, n);
    SpaceSuffixOfEnd(s, Wire(s[..n]));
  }

  /** A white-space rune passes transport unchanged. */
  lemma SpaceRune(s: Bytes)
    requires s != [] && SpaceWidth(s) == |s|
    ensures !Cont(s[0]) && Wire(s) == s
  {
    assert s[|s|..] == [] && s[..|s|] == s;
  }

  /** Trimming and transport commute. */
  lemma TrimOfWire(s: Bytes)
    ensures TrimSpace(Wire(s)) == Wire(TrimSpace(s))
  {
    hide Wire, TrimLeft, TrimRight;
    TrimLeftOfWire(s);
    TrimRightOfWire(TrimLeft(s));
  }

  lemma {:induction false} TrimLeftIsValid(s: Bytes)
    requires Valid(s)
    ensures Valid(TrimLeft(s))
  {
    if SpaceWidth(s) > 0 { TrimLeftIsValid(s[SpaceWidth(s)..]); }
  }

  lemma {:induction false} TrimRightIsValid(s: Bytes)
    requires Valid(s)
    ensures Valid(TrimRight(s))
  {
    hide Valid, Width, SpaceWidth, Wire;
    var k := SpaceSuffix(s);
    if k > 0 {
      SpaceRune(s[|s| - k..]);
      ValidCut(s, |s| - k);
      TrimRightIsValid(s[..|s| - k]);
    }
  }

  lemma TrimSpaceIsValid(s: Bytes)
    requires Valid(s)
    ensures Valid(TrimSpace(s))
  {
    hide Valid, TrimLeft, TrimRight;
    TrimLeftIsValid(s);
    TrimRightIsValid(TrimLeft(s));
  }

  /** Which texts survive truncation and transport: a short one if it is not blank and its ill-formed bytes, which
      triple in transport, still fit; a long one if the first rune that is not white space is well-formed and within
      the limit. */
  predicate Survives(text: Bytes, limit: nat) {
    if |text| <= limit then
      var t := TrimSpace(text);
      t != [] && |t| + 2 * IllFormed(t) <= limit
    else
      var rest := TrimLeft(text);
      Width(rest) > 0 && |text| - |rest| + Width(rest) <= limit
  }

  /** Exactly which texts survive truncation, JSON and a hub's check for the same limit. */
  lemma TruncatedIsCarried(text: Bytes, limit: nat)
    ensures Carried(Truncated(text, limit), limit) <==> Survives(text, limit)
  {
    hide Wire, TrimSpace, ValidPrefix, Width, IllFormed, TrimLeft;
    if |text| <= limit {
      TrimOfWire(text);
      WireIsValid(TrimSpace(text));
      NothingOnWire();
    } else {
      LongIsCarried(text, limit);
    }
  }

  lemma NothingOnWire()
    ensures Wire([]) == [] && IllFormed([]) == 0
  {}

  lemma LongIsCarried(text: Bytes, limit: nat)
    requires limit < |text|
    ensures var rest := TrimLeft(text);
      Carried(ValidPrefix(text, limit), limit) <==> Width(rest) > 0 && |text| - |rest| + Width(rest) <= limit
  {
    hide Width, Valid, Wire, Blank, TrimLeft, TrimRight, ValidPrefix;
    var cut, rest := ValidPrefix(text, limit), TrimLeft(text);
    assert cut == text[..|cut|];
    WireOfValid(cut);
    BlankIsTrimmedAway(cut);
    BlankPrefix(text, |cut|);
    if Width(rest) > 0 && |text| - |rest| + Width(rest) <= limit {
      StartIsValid(text);
      ValidPrefixIsLongest(text, limit, text[..|text| - |rest| + Width(rest)]);
    }
  }

  /** A well-formed prefix is blank exactly if it ends before the first rune that is not white space does. */
  lemma {:induction false} BlankPrefix(s: Bytes, m: nat)
    requires m <= |s| && Valid(s[..m])
    ensures Blank(s[..m]) <==> !(Width(TrimLeft(s)) > 0 && |s| - |TrimLeft(s)| + Width(TrimLeft(s)) <= m)
  {
    hide Width, SpaceWidth;
    if m > 0 {
      SameWidth(s, m);
      var k := SpaceWidth(s);
      if k > 0 {
        assert s[..m][k..] == s[k..][..m - k];
        BlankPrefix(s[k..], m - k);
      }
    }
  }

  /** A prefix that starts with a well-formed sequence starts with that of the string. */
  lemma SameWidth(s: Bytes, m: nat)
    requires m <= |s| && Width(s[..m]) > 0
    ensures Width(s) == Width(s[..m]) && SpaceWidth(s) == SpaceWidth(s[..m])
  {}

  lemma {:induction false} StartIsValid(s: Bytes)
    requires Width(TrimLeft(s)) > 0
    ensures Valid(s[..|s| - |TrimLeft(s)| + Width(TrimLeft(s))])
  {
    hide Width, SpaceWidth;
    var n := |s| - |TrimLeft(s)| + Width(TrimLeft(s));
    var w := Width(s);
    WidthOfPrefix(s, n);
    if SpaceWidth(s) > 0 { StartIsValid(s[w..]); }
    assert s[..n][w..] == s[w..][..n - w];
  }

  /** Well-formed text that starts with no white space always does. */
  lemma ValidSurvives(text: Bytes, limit: nat)
    requires Valid(text) && text != [] && SpaceWidth(text) == 0 && limit >= 4
    ensures Survives(text, limit)
  {
    hide TrimRight, SpaceWidth;
    TrimRightKeepsHead(text);
    TrimSpaceIsValid(text);
    WireOfValid(TrimSpace(text));
  }

  lemma AsciiIsTrimmed(text: Bytes)
    requires text != [] && 32 < text[0] < 128 && 32 < text[|text| - 1] < 128
    ensures Trimmed(text)
  {
    var n := |text|;
    assert !SpaceAt(text, 1) by { assert text[n - 1..][0] == text[n - 1]; }
    assert !SpaceAt(text, 2) by { if n >= 2 { assert text[n - 2..][1] == text[n - 1]; } }
    assert !SpaceAt(text, 3) by { if n >= 3 { assert text[n - 3..][2] == text[n - 1]; } }
  }

  lemma {:induction false} AsciiIsValid(text: Bytes)
    requires forall i | 0 <= i < |text| :: text[i] < 128
    ensures Valid(text)
  {
    if text != [] { AsciiIsValid(text[1..]); }
  }

  // ---------------------------------------------------------------- drawn IDs

  /** 128 random bits in lower-case hexadecimal, as the hub and the agent draw IDs. */
  predicate HexId(id: Bytes) {
    |id| == 32 && forall b | b in id :: '0' as int <= b <= '9' as int || 'a' as int <= b <= 'f' as int
  }

  lemma HexIdIsTrimmed(id: Bytes)
    requires HexId(id)
    ensures TrimSpace(id) == id && id != []
  {
    assert id[0] in id && id[31] in id;
    AsciiIsTrimmed(id);
    TrimmedIsFixed(id);
  }
}

/** What `Text` says of bytes, told by the runes they encode: well-formed strings are the encodings of sequences of
    Unicode scalar values (section 3 of RFC 3629), and trimming drops white-space runes at both ends. */
module Unicode {
  import opened Text

  predicate Scalar(r: int) { 0 <= r <= 0xD7FF || 0xE000 <= r <= 0x10FFFF }

  function Encode(r: int): (s: Bytes)
    requires Scalar(r)
    ensures s != []
  {
    if r < 0x80 then [r]
    else if r < 0x800 then [0xC0 + r / 0x40, 0x80 + r % 0x40]
    else if r < 0x1_0000 then [0xE0 + r / 0x1000, 0x80 + r / 0x40 % 0x40, 0x80 + r % 0x40]
    else [0xF0 + r / 0x4_0000, 0x80 + r / 0x1000 % 0x40, 0x80 + r / 0x40 % 0x40, 0x80 + r % 0x40]
  }

  type Rune = r: int | Scalar(r)

  function Utf8(runes: seq<Rune>): Bytes { if runes == [] then [] else Encode(runes[0]) + Utf8(runes[1..]) }

  // ---------------------------------------------------------------- one rune

  lemma EncodedWidth(r: Rune, t: Bytes)
    ensures Width(Encode(r) + t) == |Encode(r)|
  {
    var s := Encode(r) + t;
    assert s[0] == Encode(r)[0];
    if r >= 0x80 { assert s[1] == Encode(r)[1]; }
    if r >= 0x800 { assert s[2] == Encode(r)[2]; }
    if r >= 0x1_0000 { assert s[3] == Encode(r)[3]; }
  }

  lemma SixBits(q: nat, m: nat)
    requires m < 0x40
    ensures (q * 0x40 + m) / 0x40 == q && (q * 0x40 + m) % 0x40 == m
  {}

  lemma DecodedTwo(s: Bytes) returns (r: Rune)
    requires Width(s) == 2
    ensures s[..2] == Encode(r)
  {
    var a: int, b: int := s[0], s[1];
    SixBits(a - 0xC0, b - 0x80);
    r := (a - 0xC0) * 0x40 + (b - 0x80);
  }

  lemma DecodedThree(s: Bytes) returns (r: Rune)
    requires Width(s) == 3
    ensures s[..3] == Encode(r)
  {
    var a: int, b: int, c: int := s[0], s[1], s[2];
    var q := (a - 0xE0) * 0x40 + (b - 0x80);
    SixBits(a - 0xE0, b - 0x80);
    SixBits(q, c - 0x80);
    r := q * 0x40 + (c - 0x80);
    assert r / 0x1000 == q / 0x40;
  }

  lemma DecodedFour(s: Bytes) returns (r: Rune)
    requires Width(s) == 4
    ensures s[..4] == Encode(r)
  {
    var a: int, b: int, c: int, d: int := s[0], s[1], s[2], s[3];
    var p := (a - 0xF0) * 0x40 + (b - 0x80);
    var q := p * 0x40 + (c - 0x80);
    SixBits(a - 0xF0, b - 0x80);
    SixBits(p, c - 0x80);
    SixBits(q, d - 0x80);
    r := q * 0x40 + (d - 0x80);
    assert r / 0x1000 == q / 0x40 && r / 0x4_0000 == p / 0x40;
  }

  lemma DecodedRune(s: Bytes) returns (r: Rune)
    requires Width(s) > 0
    ensures s[..Width(s)] == Encode(r)
  {
    hide Encode;
    if Width(s) == 1 {
      r := s[0];
      assert Encode(r) == [s[0]] by { OneByte(r); }
    } else if Width(s) == 2 {
      r := DecodedTwo(s);
    } else if Width(s) == 3 {
      r := DecodedThree(s);
    } else {
      r := DecodedFour(s);
    }
  }

  lemma OneByte(r: Rune)
    requires r < 0x80
    ensures Encode(r) == [r]
  {}

  /** The white space of `unicode.IsSpace`. */
  predicate White(r: int) {
    || 9 <= r <= 13 || r == 0x20 || r == 0x85 || r == 0xA0 || r == 0x1680 || 0x2000 <= r <= 0x200A
    || r == 0x2028 || r == 0x2029 || r == 0x202F || r == 0x205F || r == 0x3000
  }

  lemma WhiteExactlyWhen(r: Rune, t: Bytes)
    ensures SpaceWidth(Encode(r) + t) == if White(r) then |Encode(r)| else 0
  {
    var s := Encode(r) + t;
    EncodedWidth(r, t);
    assert s[0] == Encode(r)[0];
    if r >= 0x80 { assert s[1] == Encode(r)[1]; }
    if r >= 0x800 { assert s[2] == Encode(r)[2]; }
  }

  // ---------------------------------------------------------------- texts

  /** A string is well-formed exactly if it is the text of some runes. */
  lemma {:induction false} ValidExactlyWhen(s: Bytes)
    ensures Valid(s) <==> exists runes :: s == Utf8(runes)
  {
    if Valid(s) { var runes := RunesOf(s); }
    if runes :| s == Utf8(runes) { TextIsValid(runes); }
  }

  lemma {:induction false} RunesOf(s: Bytes) returns (runes: seq<Rune>)
    requires Valid(s)
    ensures s == Utf8(runes)
  {
    hide Width, Encode;
    if s == [] {
      runes := [];
    } else {
      var r := DecodedRune(s);
      var rest := RunesOf(s[Width(s)..]);
      runes := [r] + rest;
      assert runes[1..] == rest;
    }
  }

  lemma {:induction false} TextIsValid(runes: seq<Rune>)
    ensures Valid(Utf8(runes))
  {
    hide Width, Encode;
    if runes != [] {
      EncodedWidth(runes[0], Utf8(runes[1..]));
      TextIsValid(runes[1..]);
      assert Utf8(runes)[|Encode(runes[0])|..] == Utf8(runes[1..]);
    }
  }

  lemma {:induction false} TextOfAppend(runes: seq<Rune>, r: Rune)
    ensures Utf8(runes + [r]) == Utf8(runes) + Encode(r)
  {
    hide Encode;
    if runes == [] {
      assert ([] + [r])[1..] == [];
    } else {
      TextOfAppend(runes[1..], r);
      assert (runes + [r])[1..] == runes[1..] + [r];
    }
  }

  // ---------------------------------------------------------------- trimming

  function DropFirst(runes: seq<Rune>): seq<Rune> {
    if runes != [] && White(runes[0]) then DropFirst(runes[1..]) else runes
  }

  function DropLast(runes: seq<Rune>): seq<Rune> {
    if runes != [] && White(runes[|runes| - 1]) then DropLast(runes[..|runes| - 1]) else runes
  }

  lemma {:induction false} TrimLeftOfText(runes: seq<Rune>)
    ensures TrimLeft(Utf8(runes)) == Utf8(DropFirst(runes))
  {
    hide Encode, White, SpaceWidth;
    if runes == [] {
      NoSpace();
    } else {
      WhiteExactlyWhen(runes[0], Utf8(runes[1..]));
      TrimLeftOfText(runes[1..]);
      assert Utf8(runes)[|Encode(runes[0])|..] == Utf8(runes[1..]);
    }
  }

  lemma NoSpace()
    ensures SpaceWidth([]) == 0 && SpaceSuffix([]) == 0
  {}

  /** The last rune decides whether a text ends in white space. */
  lemma SuffixExactlyWhen(s: Bytes, r: Rune)
    ensures SpaceSuffix(s + Encode(r)) == if White(r) then |Encode(r)| else 0
  {
    hide Encode, White, SpaceWidth, Width;
    var e := Encode(r);
    assert e + [] == e && e[0..] == e && s + e == s + e[|e| - |e|..];
    WhiteExactlyWhen(r, []);
    EncodedWidth(r, []);
    if White(r) {
      WholeSuffix(e);
      SpaceSuffixOfEnd(e, s);
    } else {
      SpaceSuffixOfRune(e);
      if SpaceSuffix(s + e) > 0 { SpaceSuffixOfConcat(s, e, SpaceSuffix(s + e)); }
    }
  }

  lemma NoSpaceInside(e: Bytes, k: nat)
    requires 0 < k < |e| && Cont(e[|e| - k])
    ensures !SpaceAt(e, k)
  {
    assert e[|e| - k..][0] == e[|e| - k];
  }

  /** A white-space rune ends in no shorter one. */
  lemma WholeSuffix(e: Bytes)
    requires e != [] && SpaceWidth(e) == |e| == Width(e) <= 3
    ensures SpaceSuffix(e) == |e|
  {
    hide Width, SpaceWidth, Cont;
    assert e[|e| - |e|..] == e;
    if |e| >= 2 { NoSpaceInside(e, 1); }
    if |e| >= 3 { NoSpaceInside(e, 2); }
  }

  lemma {:induction false} TrimRightOfText(runes: seq<Rune>)
    ensures TrimRight(Utf8(runes)) == Utf8(DropLast(runes))
  {
    hide Encode, White, SpaceSuffix;
    if runes == [] {
      NoSpace();
    } else {
      var front, r := runes[..|runes| - 1], runes[|runes| - 1];
      assert runes == front + [r];
      TextOfAppend(front, r);
      SuffixExactlyWhen(Utf8(front), r);
      TrimRightOfText(front);
      assert (Utf8(front) + Encode(r))[..|Utf8(front)|] == Utf8(front);
    }
  }

  /** `strings.TrimSpace` on well-formed text: the white-space runes at both ends are dropped, and no others. */
  lemma TrimmedExactly(runes: seq<Rune>)
    ensures TrimSpace(Utf8(runes)) == Utf8(DropLast(DropFirst(runes)))
  {
    TrimLeftOfText(runes);
    TrimRightOfText(DropFirst(runes));
  }
}

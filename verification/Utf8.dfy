/** UTF-8: which byte sequences are the encoding of a text, and the check of the Rust
    standard library that tells them apart from the rest. */
module Utf8Text {
  import opened LittleEndian

  // ----- the encoding -----

  type Scalar = c: nat | c < 0xD800 || 0xE000 <= c <= 0x10_FFFF

  /** One to four bytes: six bits in each byte but the first. */
  function Encode(c: Scalar): (s: seq<Byte>) {
    if c < 0x80 then [c]
    else if c < 0x800 then [0xC0 + c / 0x40, 0x80 + c % 0x40]
    else if c < 0x1_0000 then [0xE0 + c / 0x1000, 0x80 + c / 0x40 % 0x40, 0x80 + c % 0x40]
    else [0xF0 + c / 0x4_0000, 0x80 + c / 0x1000 % 0x40, 0x80 + c / 0x40 % 0x40, 0x80 + c % 0x40]
  }

  function EncodeAll(cs: seq<Scalar>): seq<Byte> {
    if cs == [] then [] else Encode(cs[0]) + EncodeAll(cs[1..])
  }

  ghost predicate IsText(s: seq<Byte>) {
    exists cs: seq<Scalar> :: EncodeAll(cs) == s
  }

  // ----- the check -----

  predicate Tail(s: seq<Byte>, i: nat, low: nat, high: nat) {
    i < |s| && low <= s[i] <= high
  }

  /** The length of the well-formed sequence that `s` starts with, or 0. */
  function CharLength(s: seq<Byte>): (n: nat)
    requires s != []
    ensures n <= |s|
  {
    var b := s[0];
    if b < 0x80 then 1
    else if 0xC2 <= b <= 0xDF && Tail(s, 1, 0x80, 0xBF) then 2
    else if b == 0xE0 && Tail(s, 1, 0xA0, 0xBF) && Tail(s, 2, 0x80, 0xBF) then 3
    else if b == 0xED && Tail(s, 1, 0x80, 0x9F) && Tail(s, 2, 0x80, 0xBF) then 3
    else if 0xE1 <= b <= 0xEF && b != 0xED && Tail(s, 1, 0x80, 0xBF) && Tail(s, 2, 0x80, 0xBF) then 3
    else if b == 0xF0 && Tail(s, 1, 0x90, 0xBF) && Tail(s, 2, 0x80, 0xBF) && Tail(s, 3, 0x80, 0xBF) then 4
    else if 0xF1 <= b <= 0xF3 && Tail(s, 1, 0x80, 0xBF) && Tail(s, 2, 0x80, 0xBF) && Tail(s, 3, 0x80, 0xBF) then 4
    else if b == 0xF4 && Tail(s, 1, 0x80, 0x8F) && Tail(s, 2, 0x80, 0xBF) && Tail(s, 3, 0x80, 0xBF) then 4
    else 0
  }

  predicate Utf8(s: seq<Byte>) {
    s == [] || (CharLength(s) > 0 && Utf8(s[CharLength(s)..]))
  }

  // ----- they agree -----

  /** Which second bytes can follow the first: no overlong form, no surrogate, nothing too
      large. */
  lemma SecondByte(c: Scalar)
    ensures var w, x := c / 0x1000, c / 0x40 % 0x40;
            0x800 <= c < 0x1_0000 ==> w < 0x10 && (w == 0 ==> x >= 0x20) && (w == 0xD ==> x < 0x20)
    ensures var w, x := c / 0x4_0000, c / 0x1000 % 0x40;
            c >= 0x1_0000 ==> w <= 4 && (w == 0 ==> x >= 0x10) && (w == 4 ==> x < 0x10)
  {
    var q := c / 0x1000;
    assert c / 0x40 / 0x40 == q && q / 0x40 == c / 0x4_0000;
  }

  lemma EncodedLength(c: Scalar, rest: seq<Byte>)
    ensures CharLength(Encode(c) + rest) == |Encode(c)|
  {
    var s, e := Encode(c) + rest, Encode(c);
    assert s[0] == e[0];
    if c >= 0x800 {
      LongLength(c, s);
    } else if c >= 0x80 {
      assert s[1] == e[1];
    }
  }

  lemma LongLength(c: Scalar, s: seq<Byte>)
    requires c >= 0x800 && Encode(c) <= s
    ensures CharLength(s) == |Encode(c)|
  {
    SecondByte(c);
    var e := Encode(c);
    assert s[0] == e[0] && s[1] == e[1] && s[2] == e[2];
    if c >= 0x1_0000 {
      FourBytes(s, c / 0x4_0000, c / 0x1000 % 0x40, c / 0x40 % 0x40, c % 0x40);
    } else {
      ThreeBytes(s, c / 0x1000, c / 0x40 % 0x40, c % 0x40);
    }
  }

  lemma ThreeBytes(s: seq<Byte>, w: nat, x: nat, y: nat)
    requires |s| >= 3 && s[0] == 0xE0 + w && s[1] == 0x80 + x && s[2] == 0x80 + y
    requires w < 0x10 && x < 0x40 && y < 0x40 && (w == 0 ==> x >= 0x20) && (w == 0xD ==> x < 0x20)
    ensures CharLength(s) == 3
  {
  }

  lemma FourBytes(s: seq<Byte>, w: nat, x: nat, y: nat, z: nat)
    requires |s| >= 4 && s[0] == 0xF0 + w && s[1] == 0x80 + x && s[2] == 0x80 + y && s[3] == 0x80 + z
    requires w <= 4 && x < 0x40 && y < 0x40 && z < 0x40 && (w == 0 ==> x >= 0x10) && (w == 4 ==> x < 0x10)
    ensures CharLength(s) == 4
  {
  }

  /** The scalar value that starts `s`. */
  lemma Decoded(s: seq<Byte>) returns (c: Scalar)
    requires s != [] && CharLength(s) > 0
    ensures Encode(c) == s[..CharLength(s)]
  {
    if |s[..CharLength(s)]| == 1 {
      c := s[0];
    } else if |s[..CharLength(s)]| == 2 {
      c := Digits(0, s[0] - 0xC0, s[1] - 0x80);
    } else if |s[..CharLength(s)]| == 3 {
      c := DecodedThree(s);
    } else {
      c := DecodedFour(s);
    }
  }

  lemma DecodedThree(s: seq<Byte>) returns (c: Scalar)
    requires s != [] && CharLength(s) == 3
    ensures Encode(c) == s[..3]
  {
    c := Digits(s[0] - 0xE0, s[1] - 0x80, s[2] - 0x80);
    hide CharLength;
  }

  lemma DecodedFour(s: seq<Byte>) returns (c: Scalar)
    requires s != [] && CharLength(s) == 4
    ensures Encode(c) == s[..4]
  {
    c := Digits4(s[0] - 0xF0, s[1] - 0x80, s[2] - 0x80, s[3] - 0x80);
    hide CharLength;
  }

  lemma Shift(m: nat, z: nat)
    requires z < 0x40
    ensures (m * 0x40 + z) / 0x40 == m && (m * 0x40 + z) % 0x40 == z
  {
  }

  lemma Digits(x: nat, y: nat, z: nat) returns (n: nat)
    requires y < 0x40 && z < 0x40
    ensures n == (x * 0x40 + y) * 0x40 + z
    ensures n / 0x1000 == x && n / 0x40 == x * 0x40 + y && n / 0x40 % 0x40 == y && n % 0x40 == z
  {
    n := (x * 0x40 + y) * 0x40 + z;
    Shift(x * 0x40 + y, z);
    Shift(x, y);
    assert n / 0x1000 == n / 0x40 / 0x40;
  }

  lemma Digits4(w: nat, x: nat, y: nat, z: nat) returns (n: nat)
    requires x < 0x40 && y < 0x40 && z < 0x40
    ensures n == ((w * 0x40 + x) * 0x40 + y) * 0x40 + z
    ensures n / 0x4_0000 == w && n / 0x1000 % 0x40 == x && n / 0x40 % 0x40 == y && n % 0x40 == z
  {
    var m := Digits(w, x, y);
    n := m * 0x40 + z;
    Shift(m, z);
    assert n / 0x1000 == n / 0x40 / 0x40;
    assert n / 0x4_0000 == n / 0x40 / 0x1000;
  }

  lemma {:induction false} TextPasses(cs: seq<Scalar>)
    ensures Utf8(EncodeAll(cs))
  {
    if cs != [] {
      TextPasses(cs[1..]);
      EncodedLength(cs[0], EncodeAll(cs[1..]));
      assert EncodeAll(cs)[|Encode(cs[0])|..] == EncodeAll(cs[1..]);
      hide CharLength, Encode;
    }
  }

  lemma {:induction false} PassesIsText(s: seq<Byte>) returns (cs: seq<Scalar>)
    requires Utf8(s)
    ensures EncodeAll(cs) == s
  {
    if s == [] {
      cs := [];
    } else {
      var c := Decoded(s);
      var rest := PassesIsText(s[CharLength(s)..]);
      cs := [c] + rest;
      hide CharLength, Encode, Utf8;
      assert cs[1..] == rest && s == s[..CharLength(s)] + s[CharLength(s)..];
    }
  }

  /** The check accepts exactly the encodings of texts. */
  lemma Utf8Exactly(s: seq<Byte>)
    ensures Utf8(s) <==> IsText(s)
  {
    if Utf8(s) {
      var cs := PassesIsText(s);
    }
    if cs: seq<Scalar> :| EncodeAll(cs) == s {
      TextPasses(cs);
    }
  }

  /** The number that up to four digits of six bits make. */
  function Value(s: seq<int>): int
    requires 1 <= |s| <= 4
  {
    match |s|
    case 1 => s[0]
    case 2 => (s[0] - 0xC0) * 0x40 + (s[1] - 0x80)
    case 3 => ((s[0] - 0xE0) * 0x40 + (s[1] - 0x80)) * 0x40 + (s[2] - 0x80)
    case _ => (((s[0] - 0xF0) * 0x40 + (s[1] - 0x80)) * 0x40 + (s[2] - 0x80)) * 0x40 + (s[3] - 0x80)
  }

  lemma ValueOf(c: Scalar)
    ensures Value(Encode(c)) == c
  {
    assert c / 0x1000 == c / 0x40 / 0x40 && c / 0x4_0000 == c / 0x1000 / 0x40;
  }

  /** A text can be told from its bytes. */
  lemma {:induction false} TextIsUnique(cs: seq<Scalar>, ds: seq<Scalar>)
    requires EncodeAll(cs) == EncodeAll(ds)
    ensures cs == ds
  {
    if cs == [] || ds == [] {
      NotEmpty(if cs == [] then ds else cs);
    } else {
      var s := EncodeAll(cs);
      EncodedLength(cs[0], EncodeAll(cs[1..]));
      EncodedLength(ds[0], EncodeAll(ds[1..]));
      hide CharLength;
      assert Encode(cs[0]) == s[..|Encode(cs[0])|] == Encode(ds[0]);
      ValueOf(cs[0]);
      ValueOf(ds[0]);
      hide Encode, Value;
      assert EncodeAll(cs[1..]) == s[|Encode(cs[0])|..] == EncodeAll(ds[1..]);
      TextIsUnique(cs[1..], ds[1..]);
      assert cs == [cs[0]] + cs[1..] && ds == [ds[0]] + ds[1..];
    }
  }

  lemma NotEmpty(cs: seq<Scalar>)
    ensures EncodeAll(cs) == [] <==> cs == []
  {
    if cs != [] {
      assert |EncodeAll(cs)| >= |Encode(cs[0])| > 0;
    }
  }

  /** A letter of each length. */
  lemma Samples()
    ensures EncodeAll([0x41, 0xE9, 0x20AC, 0x1F600]) ==
              [0x41] + [0xC3, 0xA9] + [0xE2, 0x82, 0xAC] + [0xF0, 0x9F, 0x98, 0x80]
    ensures IsText([0xC3, 0xA9])
  {
    var cs := [0x41, 0xE9, 0x20AC, 0x1F600];
    assert Encode(0x41) == [0x41] && Encode(0xE9) == [0xC3, 0xA9];
    assert Encode(0x20AC) == [0xE2, 0x82, 0xAC] && Encode(0x1F600) == [0xF0, 0x9F, 0x98, 0x80];
    hide Encode;
    assert cs[1..] == [0xE9, 0x20AC, 0x1F600] && cs[1..][1..] == [0x20AC, 0x1F600];
    assert cs[1..][1..][1..] == [0x1F600] && cs[1..][1..][1..][1..] == [];
    assert EncodeAll([0xE9]) == Encode(0xE9) + EncodeAll([]);
  }

  /** An overlong form, a surrogate, a number that is too large, and a character cut short. */
  lemma NotTexts()
    ensures !IsText([0xC0, 0x80]) && !IsText([0xED, 0xA0, 0x80])
    ensures !IsText([0xF4, 0x90, 0x80, 0x80]) && !IsText([0xC3])
  {
    Utf8Exactly([0xC0, 0x80]);
    Utf8Exactly([0xED, 0xA0, 0x80]);
    Utf8Exactly([0xF4, 0x90, 0x80, 0x80]);
    Utf8Exactly([0xC3]);
    hide IsText;
  }
}

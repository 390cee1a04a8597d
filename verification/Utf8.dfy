/** Well-formed UTF-8 as defined by the ABNF in section 4 of RFC 3629. */
module Utf8 {

  type byte = b: int | 0 <= b < 256

  predicate IsAscii(b: byte) {
    b < 0x80
  }

  predicate IsTail(b: byte) {
    0x80 <= b < 0xC0
  }

  /** The length of the well-formed character `s` starts with, or 0 when there is none. */
  function CharLength(s: seq<byte>): nat {
    if |s| >= 1 && IsAscii(s[0]) then 1
    else if |s| >= 2 && 0xC2 <= s[0] <= 0xDF && IsTail(s[1]) then 2
    else if |s| >= 3 && SecondOfThree(s[0], s[1]) && IsTail(s[2]) then 3
    else if |s| >= 4 && SecondOfFour(s[0], s[1]) && IsTail(s[2]) && IsTail(s[3]) then 4
    else 0
  }

  /** No overlong forms after E0, no surrogates after ED. */
  predicate SecondOfThree(first: byte, second: byte) {
    && 0xE0 <= first <= 0xEF && IsTail(second)
    && (first == 0xE0 ==> second >= 0xA0)
    && (first == 0xED ==> second <= 0x9F)
  }

  /** No overlong forms after F0, nothing above U+10FFFF after F4. */
  predicate SecondOfFour(first: byte, second: byte) {
    && 0xF0 <= first <= 0xF4 && IsTail(second)
    && (first == 0xF0 ==> second >= 0x90)
    && (first == 0xF4 ==> second <= 0x8F)
  }

  predicate Valid(s: seq<byte>) {
    s == [] || (0 < CharLength(s) <= |s| && Valid(s[CharLength(s)..]))
  }

  /** A character does not depend on what follows it, and only its first byte can be ASCII. */
  lemma CharIsLocal(s: seq<byte>, t: seq<byte>)
    ensures CharLength(s) > 0 ==> CharLength(s + t) == CharLength(s)
    ensures CharLength(s) <= |s|
    ensures forall i :: 0 < i < CharLength(s) ==> !IsAscii(s[i])
  {
  }

  lemma {:induction false} ConcatValid(x: seq<byte>, y: seq<byte>)
    requires Valid(x) && Valid(y)
    ensures Valid(x + y)
  {
    hide CharLength;
    if x == [] {
      assert x + y == y;
    } else {
      var n := CharLength(x);
      CharIsLocal(x, y);
      ConcatValid(x[n..], y);
      assert (x + y)[n..] == x[n..] + y;
    }
  }

  lemma CharEndsBeforeAscii(x: seq<byte>, a: byte, y: seq<byte>)
    requires IsAscii(a) && x != []
    ensures CharLength(x + [a] + y) == CharLength(x) <= |x|
  {
    var s := x + [a] + y;
    assert s[|x|] == a;
    assert forall i :: 0 <= i < |x| ==> s[i] == x[i];
  }

  /** An ASCII byte is always a cut point: both sides of it are well-formed on their own. */
  lemma {:induction false} SplitAtAscii(x: seq<byte>, a: byte, y: seq<byte>)
    requires IsAscii(a)
    ensures Valid(x + [a] + y) <==> Valid(x) && Valid(y)
  {
    if x == [] {
      assert ([a] + y)[1..] == y;
      assert x + [a] + y == [a] + y;
    } else {
      hide CharLength;
      var n := CharLength(x);
      CharEndsBeforeAscii(x, a, y);
      if 0 < n {
        SplitAtAscii(x[n..], a, y);
        assert (x + [a] + y)[n..] == x[n..] + [a] + y;
      }
    }
  }

  lemma {:induction false} AsciiIsValid(s: seq<byte>)
    requires forall i :: 0 <= i < |s| ==> IsAscii(s[i])
    ensures Valid(s)
  {
    if s != [] { AsciiIsValid(s[1..]); }
  }

  // ----- Well-formed texts are the encodings -----

  /** The Unicode scalar values. */
  predicate IsScalar(cp: nat) {
    cp < 0xD800 || 0xE000 <= cp <= 0x10FFFF
  }

  /** The UTF-8 form of one scalar value (section 3 of RFC 3629): six bits in each byte but the first. */
  function Encode(cp: nat): (bs: seq<byte>)
    requires IsScalar(cp)
    ensures 1 <= |bs| <= 4
  {
    var second, third := cp / 0x40, cp / 0x40 / 0x40;
    if cp < 0x80 then [cp]
    else if cp < 0x800 then [0xC0 + second, 0x80 + cp % 0x40]
    else if cp < 0x1_0000 then [0xE0 + third, 0x80 + second % 0x40, 0x80 + cp % 0x40]
    else [0xF0 + third / 0x40, 0x80 + third % 0x40, 0x80 + second % 0x40, 0x80 + cp % 0x40]
  }

  predicate AllScalar(cps: seq<nat>) {
    forall i :: 0 <= i < |cps| ==> IsScalar(cps[i])
  }

  function EncodeAll(cps: seq<nat>): seq<byte>
    requires AllScalar(cps)
  {
    if cps == [] then [] else Encode(cps[0]) + EncodeAll(cps[1..])
  }

  lemma EncodedLength(cp: nat, t: seq<byte>)
    requires IsScalar(cp)
    ensures CharLength(Encode(cp) + t) == |Encode(cp)|
  {
    var bs := Encode(cp);
    CharIsLocal(bs, t);
    if cp < 0x80 {
    } else if cp < 0x800 {
      assert IsTail(bs[1]);
    } else if cp < 0x1_0000 {
      assert SecondOfThree(bs[0], bs[1]) && IsTail(bs[2]);
    } else {
      assert SecondOfFour(bs[0], bs[1]) && IsTail(bs[2]) && IsTail(bs[3]);
    }
  }

  lemma SixBits(h: nat, l: nat)
    requires l < 0x40
    ensures (h * 0x40 + l) / 0x40 == h && (h * 0x40 + l) % 0x40 == l
  {
  }

  lemma DecodeTwo(a: int, b: int) returns (cp: nat)
    requires 0xC2 <= a <= 0xDF && 0x80 <= b < 0xC0
    ensures IsScalar(cp) && Encode(cp) == [a, b]
  {
    cp := (a - 0xC0) * 0x40 + (b - 0x80);
    SixBits(a - 0xC0, b - 0x80);
  }

  lemma DecodeThree(a: int, b: int, c: int) returns (cp: nat)
    requires 0 <= a < 256 && 0 <= b < 256 && SecondOfThree(a, b) && 0x80 <= c < 0xC0
    ensures IsScalar(cp) && Encode(cp) == [a, b, c]
  {
    var h := (a - 0xE0) * 0x40 + (b - 0x80);
    cp := h * 0x40 + (c - 0x80);
    SixBits(a - 0xE0, b - 0x80);
    SixBits(h, c - 0x80);
  }

  lemma DecodeFour(a: int, b: int, c: int, d: int) returns (cp: nat)
    requires 0 <= a < 256 && 0 <= b < 256 && SecondOfFour(a, b) && 0x80 <= c < 0xC0 && 0x80 <= d < 0xC0
    ensures IsScalar(cp) && Encode(cp) == [a, b, c, d]
  {
    var h := (a - 0xF0) * 0x40 + (b - 0x80);
    var m := h * 0x40 + (c - 0x80);
    cp := m * 0x40 + (d - 0x80);
    SixBits(a - 0xF0, b - 0x80);
    SixBits(h, c - 0x80);
    SixBits(m, d - 0x80);
  }

  /** The value a well-formed character stands for. */
  lemma DecodeFirst(s: seq<byte>) returns (cp: nat)
    requires CharLength(s) > 0
    ensures CharLength(s) <= |s| && IsScalar(cp) && Encode(cp) == s[..CharLength(s)]
  {
    hide Encode;
    var n := CharLength(s);
    if n == 1 {
      cp := s[0];
      OneByte(s[0]);
      assert s[..1] == [s[0]];
    } else if n == 2 {
      cp := DecodeTwo(s[0], s[1]);
      assert s[..2] == [s[0], s[1]];
    } else if n == 3 {
      cp := DecodeThree(s[0], s[1], s[2]);
      assert s[..3] == [s[0], s[1], s[2]];
    } else {
      cp := DecodeFour(s[0], s[1], s[2], s[3]);
      assert s[..4] == [s[0], s[1], s[2], s[3]];
    }
  }

  lemma OneByte(b: byte)
    requires b < 0x80
    ensures Encode(b) == [b]
  {
  }

  lemma {:induction false} EncodedIsValid(cps: seq<nat>)
    requires AllScalar(cps)
    ensures Valid(EncodeAll(cps))
  {
    if cps != [] {
      hide CharLength, Encode;
      EncodedIsValid(cps[1..]);
      EncodedLength(cps[0], EncodeAll(cps[1..]));
      assert (Encode(cps[0]) + EncodeAll(cps[1..]))[|Encode(cps[0])|..] == EncodeAll(cps[1..]);
    }
  }

  lemma EncodeOneMore(cp: nat, rest: seq<nat>)
    requires IsScalar(cp) && AllScalar(rest)
    ensures AllScalar([cp] + rest) && EncodeAll([cp] + rest) == Encode(cp) + EncodeAll(rest)
  {
    hide Encode, IsScalar;
    assert ([cp] + rest)[1..] == rest;
  }

  lemma {:induction false} ValidIsEncoded(s: seq<byte>) returns (cps: seq<nat>)
    requires Valid(s)
    ensures AllScalar(cps) && EncodeAll(cps) == s
    decreases |s|
  {
    hide CharLength, Encode, EncodeAll, AllScalar, IsScalar;
    if s == [] {
      cps := [];
      NothingEncoded();
    } else {
      var n := CharLength(s);
      var rest := ValidIsEncoded(s[n..]);
      var cp := DecodeFirst(s);
      EncodeOneMore(cp, rest);
      cps := [cp] + rest;
      assert s == s[..n] + s[n..];
    }
  }

  lemma NothingEncoded()
    ensures AllScalar([]) && EncodeAll([]) == []
  {
  }

  /** A text is well-formed if and only if it encodes some scalar values, each in its only form. */
  lemma ValidIffEncoded(s: seq<byte>)
    ensures Valid(s) <==> exists cps :: AllScalar(cps) && EncodeAll(cps) == s
  {
    if Valid(s) {
      var cps := ValidIsEncoded(s);
    }
    forall cps | AllScalar(cps) && EncodeAll(cps) == s ensures Valid(s) {
      EncodedIsValid(cps);
    }
  }
}

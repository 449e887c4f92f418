// Well-formed UTF-8 as in section 4 of RFC 3629, what a Rust String accepts.
module Utf8 {
  import opened Prelude

  predicate Continues(b: seq<Byte>, from: nat, n: nat) {
    && from + n <= |b|
    && forall i :: from <= i < from + n ==> 0x80 <= b[i] <= 0xBF
  }

  // The length of the character at the front, 0 when there is none.
  function CharLength(b: seq<Byte>): (n: nat)
    ensures n <= |b|
  {
    if b == [] then 0
    else if b[0] <= 0x7F then 1
    else if 0xC2 <= b[0] <= 0xDF && Continues(b, 1, 1) then 2
    else if 0xE0 <= b[0] <= 0xEF && Continues(b, 1, 2)
      && (b[0] == 0xE0 ==> b[1] >= 0xA0) && (b[0] == 0xED ==> b[1] <= 0x9F) then 3
    else if 0xF0 <= b[0] <= 0xF4 && Continues(b, 1, 3)
      && (b[0] == 0xF0 ==> b[1] >= 0x90) && (b[0] == 0xF4 ==> b[1] <= 0x8F) then 4
    else 0
  }

  predicate Valid(b: seq<Byte>)
    decreases |b|
  {
    b == [] || (CharLength(b) > 0 && Valid(b[CharLength(b)..]))
  }

  // ---- what it accepts: the encodings of sequences of scalar values ----

  // A code point outside the surrogates.
  type Scalar = c: int | 0 <= c < 0xD800 || 0xE000 <= c < 0x11_0000

  function Low(c: nat): Byte { 0x80 + c % 64 }

  function EncodeScalar(c: Scalar): (b: seq<Byte>)
    ensures b != []
  {
    if c < 0x80 then [c]
    else if c < 0x800 then [0xC0 + c / 64, Low(c)]
    else if c < 0x1_0000 then [0xE0 + c / 64 / 64, Low(c / 64), Low(c)]
    else [0xF0 + c / 64 / 64 / 64, Low(c / 64 / 64), Low(c / 64), Low(c)]
  }

  function EncodeText(cs: seq<Scalar>): seq<Byte> {
    if cs == [] then [] else EncodeScalar(cs[0]) + EncodeText(cs[1..])
  }

  lemma EncodedChar(c: Scalar, rest: seq<Byte>)
    ensures CharLength(EncodeScalar(c) + rest) == |EncodeScalar(c)|
  {
    var b := EncodeScalar(c) + rest;
    if c < 0x80 {
    } else if c < 0x800 {
      assert Continues(b, 1, 1);
    } else if c < 0x1_0000 {
      assert Continues(b, 1, 2);
    } else {
      assert Continues(b, 1, 3);
    }
  }

  lemma CharIsScalar(b: seq<Byte>) returns (c: Scalar)
    requires CharLength(b) > 0
    ensures b[..CharLength(b)] == EncodeScalar(c)
  {
    var n := CharLength(b);
    if n == 1 {
      c := b[0];
    } else if n == 2 {
      c := TwoBytes(b[0], b[1]);
    } else if n == 3 {
      assert Continues(b, 1, 2);
      c := ThreeBytes(b[0], b[1], b[2]);
    } else {
      assert Continues(b, 1, 3);
      c := FourBytes(b[0], b[1], b[2], b[3]);
    }
  }

  lemma TwoBytes(p: Byte, q: Byte) returns (c: Scalar)
    requires 0xC2 <= p <= 0xDF && 0x80 <= q <= 0xBF
    ensures EncodeScalar(c) == [p, q]
  {
    c := (p - 0xC0) * 64 + (q - 0x80);
    SplitLow(p - 0xC0, q);
  }

  lemma ThreeBytes(p: Byte, q: Byte, r: Byte) returns (c: Scalar)
    requires 0xE0 <= p <= 0xEF && 0x80 <= q <= 0xBF && 0x80 <= r <= 0xBF
    requires (p == 0xE0 ==> q >= 0xA0) && (p == 0xED ==> q <= 0x9F)
    ensures EncodeScalar(c) == [p, q, r]
  {
    var high := (p - 0xE0) * 64 + (q - 0x80);
    c := high * 64 + (r - 0x80);
    SplitLow(p - 0xE0, q);
    SplitLow(high, r);
  }

  lemma FourBytes(p: Byte, q: Byte, r: Byte, t: Byte) returns (c: Scalar)
    requires 0xF0 <= p <= 0xF4 && 0x80 <= q <= 0xBF && 0x80 <= r <= 0xBF && 0x80 <= t <= 0xBF
    requires (p == 0xF0 ==> q >= 0x90) && (p == 0xF4 ==> q <= 0x8F)
    ensures EncodeScalar(c) == [p, q, r, t]
  {
    var top := (p - 0xF0) * 64 + (q - 0x80);
    var high := top * 64 + (r - 0x80);
    c := high * 64 + (t - 0x80);
    SplitLow(p - 0xF0, q);
    SplitLow(top, r);
    SplitLow(high, t);
  }

  lemma SplitLow(high: nat, b: Byte)
    requires 0x80 <= b <= 0xBF
    ensures (high * 64 + (b - 0x80)) / 64 == high && Low(high * 64 + (b - 0x80)) == b
  {
  }

  lemma {:induction false} TextIsValid(cs: seq<Scalar>)
    ensures Valid(EncodeText(cs))
  {
    if cs != [] {
      var first, rest := EncodeScalar(cs[0]), EncodeText(cs[1..]);
      TextIsValid(cs[1..]);
      EncodedChar(cs[0], rest);
      assert (first + rest)[|first|..] == rest;
    }
  }

  lemma {:induction false} ValidIsText(b: seq<Byte>) returns (cs: seq<Scalar>)
    requires Valid(b)
    ensures EncodeText(cs) == b
    decreases |b|
  {
    cs := [];
    if b != [] {
      var n := CharLength(b);
      var c := CharIsScalar(b);
      var rest := ValidIsText(b[n..]);
      cs := [c] + rest;
      assert cs[1..] == rest && b == b[..n] + b[n..];
    }
  }

  // Exactly the encodings of sequences of scalar values are valid.
  lemma ValidExactly(b: seq<Byte>)
    ensures Valid(b) <==> exists cs :: EncodeText(cs) == b
  {
    if Valid(b) {
      var cs := ValidIsText(b);
    }
    if cs :| EncodeText(cs) == b {
      TextIsValid(cs);
    }
  }
}

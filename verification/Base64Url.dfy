// base64url without padding, section 5 of RFC 4648, in the strict form of section 3.5:
// a decoder refuses non-zero pad bits.
module Base64Url {
  import opened Prelude
  import BigEndian

  type Sextet = x: int | 0 <= x < 64

  function Digit(n: Sextet): char {
    if n < 26 then 'A' + n as char
    else if n < 52 then 'a' + (n - 26) as char
    else if n < 62 then '0' + (n - 52) as char
    else if n == 62 then '-' else '_'
  }

  function Value(c: char): Option<Sextet> {
    if 'A' <= c <= 'Z' then Some((c - 'A') as int)
    else if 'a' <= c <= 'z' then Some((c - 'a') as int + 26)
    else if '0' <= c <= '9' then Some((c - '0') as int + 52)
    else if c == '-' then Some(62)
    else if c == '_' then Some(63)
    else None
  }

  lemma ValueDigit(c: char)
    ensures Value(c).Some? ==> Digit(Value(c).value) == c
  {
  }

  function Digits(v: seq<Sextet>): (s: string)
    ensures |s| == |v|
  {
    seq(|v|, i requires 0 <= i < |v| => Digit(v[i]))
  }

  // All the digits' values, or nothing when some character is not a digit.
  function Values(s: string): Option<seq<Sextet>> {
    if forall i :: 0 <= i < |s| ==> Value(s[i]).Some?
    then Some(seq(|s|, i requires 0 <= i < |s| && Value(s[i]).Some? => Value(s[i]).value))
    else None
  }

  // Three bytes lie across four digits.
  function High(a: Byte): Sextet { a / 4 }
  function MidHigh(a: Byte, b: Byte): Sextet { a % 4 * 16 + b / 16 }
  function MidLow(b: Byte, c: Byte): Sextet { b % 16 * 4 + c / 64 }
  function Low(c: Byte): Sextet { c % 64 }

  // The last digit of one or two leftover bytes, its low bits zero.
  function PadTwo(a: Byte): Sextet { a % 4 * 16 }
  function PadFour(b: Byte): Sextet { b % 16 * 4 }

  function First(p: Sextet, q: Sextet): Byte { p * 4 + q / 16 }
  function Second(q: Sextet, r: Sextet): Byte { q % 16 * 16 + r / 4 }
  function Third(r: Sextet, s: Sextet): Byte { r % 4 * 64 + s }

  lemma GroupRoundTrip(a: Byte, b: Byte, c: Byte)
    ensures First(High(a), MidHigh(a, b)) == a
    ensures Second(MidHigh(a, b), MidLow(b, c)) == b
    ensures Third(MidLow(b, c), Low(c)) == c
  {
  }

  lemma DigitsRoundTrip(p: Sextet, q: Sextet, r: Sextet, s: Sextet)
    ensures High(First(p, q)) == p
    ensures MidHigh(First(p, q), Second(q, r)) == q
    ensures MidLow(Second(q, r), Third(r, s)) == r
    ensures Low(Third(r, s)) == s
  {
  }

  function Split(b: seq<Byte>): (v: seq<Sextet>) {
    if b == [] then []
    else if |b| == 1 then [High(b[0]), PadTwo(b[0])]
    else if |b| == 2 then [High(b[0]), MidHigh(b[0], b[1]), PadFour(b[1])]
    else [High(b[0]), MidHigh(b[0], b[1]), MidLow(b[1], b[2]), Low(b[2])] + Split(b[3..])
  }

  // One leftover digit makes no byte, and the pad bits of the last digit must be zero.
  function Join(v: seq<Sextet>): Option<seq<Byte>> {
    if v == [] then Some([])
    else if |v| == 1 then None
    else if |v| == 2 then
      if v[1] % 16 == 0 then Some([First(v[0], v[1])]) else None
    else if |v| == 3 then
      if v[2] % 4 == 0 then Some([First(v[0], v[1]), Second(v[1], v[2])]) else None
    else
      match Join(v[4..])
      case None => None
      case Some(rest) => Some([First(v[0], v[1]), Second(v[1], v[2]), Third(v[2], v[3])] + rest)
  }

  function Encode(b: seq<Byte>): string { Digits(Split(b)) }

  function Decode(s: string): Option<seq<Byte>> {
    match Values(s)
    case None => None
    case Some(v) => Join(v)
  }

  lemma PadOne(a: Byte)
    ensures PadTwo(a) % 16 == 0 && First(High(a), PadTwo(a)) == a
  {
  }

  lemma PadPair(a: Byte, b: Byte)
    ensures PadFour(b) % 4 == 0 && First(High(a), MidHigh(a, b)) == a && Second(MidHigh(a, b), PadFour(b)) == b
  {
  }

  lemma UnpadOne(p: Sextet, q: Sextet)
    requires q % 16 == 0
    ensures High(First(p, q)) == p && PadTwo(First(p, q)) == q
  {
  }

  lemma UnpadPair(p: Sextet, q: Sextet, r: Sextet)
    requires r % 4 == 0
    ensures High(First(p, q)) == p && MidHigh(First(p, q), Second(q, r)) == q && PadFour(Second(q, r)) == r
  {
  }

  lemma {:induction false} JoinSplit(b: seq<Byte>)
    ensures Join(Split(b)) == Some(b)
  {
    if |b| == 1 {
      PadOne(b[0]);
      assert b == [b[0]];
    } else if |b| == 2 {
      PadPair(b[0], b[1]);
      assert b == [b[0], b[1]];
    } else if |b| > 2 {
      GroupRoundTrip(b[0], b[1], b[2]);
      JoinSplit(b[3..]);
      assert Split(b)[4..] == Split(b[3..]);
      assert b == [b[0], b[1], b[2]] + b[3..];
    }
  }

  lemma {:induction false} SplitJoin(v: seq<Sextet>)
    ensures Join(v).Some? ==> Split(Join(v).value) == v
  {
    if Join(v).Some? && v != [] {
      if |v| == 2 {
        UnpadOne(v[0], v[1]);
      } else if |v| == 3 {
        UnpadPair(v[0], v[1], v[2]);
      } else {
        DigitsRoundTrip(v[0], v[1], v[2], v[3]);
        SplitJoin(v[4..]);
        assert Join(v).value[3..] == Join(v[4..]).value;
        assert v == [v[0], v[1], v[2], v[3]] + v[4..];
      }
    }
  }

  // The URL-safe alphabet, in order.
  lemma DigitOfAlphabet(n: Sextet)
    ensures n < 26 ==> Digit(n) == "ABCDEFGHIJKLMNOPQRSTUVWXYZ"[n]
    ensures 26 <= n < 52 ==> Digit(n) == "abcdefghijklmnopqrstuvwxyz"[n - 26]
    ensures 52 <= n < 62 ==> Digit(n) == "0123456789"[n - 52]
    ensures n == 62 ==> Digit(n) == '-'
    ensures n == 63 ==> Digit(n) == '_'
  {
  }

  // The number that digits spell, the first the most significant.
  function DigitNumber(v: seq<Sextet>): nat {
    if v == [] then 0 else DigitNumber(v[..|v| - 1]) * 64 + v[|v| - 1]
  }

  // Three bytes and their four digits spell the same number.
  lemma GroupNumber(a: Byte, b: Byte, c: Byte)
    ensures DigitNumber([High(a), MidHigh(a, b), MidLow(b, c), Low(c)]) == BigEndian.Decode([a, b, c])
  {
    BytesNumber(a, b, c);
    FourDigits(High(a), MidHigh(a, b), MidLow(b, c), Low(c));
  }

  lemma BytesNumber(a: Byte, b: Byte, c: Byte)
    ensures BigEndian.Decode([a]) == a && BigEndian.Decode([a, b]) == (a as int) * 256 + b
    ensures BigEndian.Decode([a, b, c]) == ((a as int) * 256 + b) * 256 + c
  {
    assert [a][..0] == [] && [a, b][..1] == [a] && [a, b, c][..2] == [a, b];
  }

  lemma FourDigits(p: Sextet, q: Sextet, r: Sextet, s: Sextet)
    ensures DigitNumber([p, q]) == (p as int) * 64 + q && DigitNumber([p, q, r]) == ((p as int) * 64 + q) * 64 + r
    ensures DigitNumber([p, q, r, s]) == (((p as int) * 64 + q) * 64 + r) * 64 + s
  {
    assert [p][..0] == [] && [p, q][..1] == [p] && [p, q, r][..2] == [p, q] && [p, q, r, s][..3] == [p, q, r];
    assert DigitNumber([p]) == p;
    assert DigitNumber([p, q]) == DigitNumber([p]) * 64 + q;
    assert DigitNumber([p, q, r]) == DigitNumber([p, q]) * 64 + r;
  }

  lemma OneByteNumber(a: Byte)
    ensures DigitNumber([High(a), PadTwo(a)]) == BigEndian.Decode([a]) * 16
  {
    BytesNumber(a, 0, 0);
    FourDigits(High(a), PadTwo(a), 0, 0);
  }

  lemma TwoBytesNumber(a: Byte, b: Byte)
    ensures DigitNumber([High(a), MidHigh(a, b), PadFour(b)]) == BigEndian.Decode([a, b]) * 4
  {
    BytesNumber(a, b, 0);
    FourDigits(High(a), MidHigh(a, b), PadFour(b), 0);
  }

  // Group by group the digits spell the bytes, in order; one or two leftover bytes are
  // followed by four or two zero bits.
  lemma {:induction false} SplitLayout(b: seq<Byte>, i: nat)
    requires 3 * i < |b|
    ensures |Split(b)| == (4 * |b| + 2) / 3
    ensures 3 * i + 3 <= |b| ==> DigitNumber(Split(b)[4 * i..4 * i + 4]) == BigEndian.Decode(b[3 * i..3 * i + 3])
    ensures 3 * i + 1 == |b| ==> DigitNumber(Split(b)[4 * i..]) == BigEndian.Decode(b[3 * i..]) * 16
    ensures 3 * i + 2 == |b| ==> DigitNumber(Split(b)[4 * i..]) == BigEndian.Decode(b[3 * i..]) * 4
  {
    SplitLength(b);
    var v := Split(b);
    if i > 0 {
      var rest := b[3..];
      SplitLayout(rest, i - 1);
      assert v[4..] == Split(rest);
      assert v[4 * i..] == Split(rest)[4 * (i - 1)..] && b[3 * i..] == rest[3 * (i - 1)..];
      if 3 * i + 3 <= |b| {
        assert v[4 * i..4 * i + 4] == Split(rest)[4 * (i - 1)..4 * (i - 1) + 4];
        assert b[3 * i..3 * i + 3] == rest[3 * (i - 1)..3 * (i - 1) + 3];
      }
    } else {
      FirstGroup(b);
    }
  }

  lemma FirstGroup(b: seq<Byte>)
    requires b != []
    ensures |b| >= 3 ==> |Split(b)| >= 4 && DigitNumber(Split(b)[..4]) == BigEndian.Decode(b[..3])
    ensures |b| == 1 ==> DigitNumber(Split(b)) == BigEndian.Decode(b) * 16
    ensures |b| == 2 ==> DigitNumber(Split(b)) == BigEndian.Decode(b) * 4
  {
    if |b| == 1 {
      assert b == [b[0]];
      OneByteNumber(b[0]);
    } else if |b| == 2 {
      assert b == [b[0], b[1]];
      TwoBytesNumber(b[0], b[1]);
    } else {
      assert b[..3] == [b[0], b[1], b[2]];
      GroupNumber(b[0], b[1], b[2]);
    }
  }

  lemma {:induction false} SplitLength(b: seq<Byte>)
    ensures |Split(b)| == (4 * |b| + 2) / 3
  {
    if |b| > 2 {
      SplitLength(b[3..]);
    }
  }

  lemma EncodeThenDecode(b: seq<Byte>)
    ensures Decode(Encode(b)) == Some(b)
  {
    var v := Split(b);
    assert Values(Digits(v)).Some? && Values(Digits(v)).value == v;
    JoinSplit(b);
  }

  // A text has at most one reading and a reading only one text.
  lemma DecodeThenEncode(s: string)
    ensures Decode(s).Some? ==> Encode(Decode(s).value) == s
  {
    if Values(s).Some? {
      var v := Values(s).value;
      SplitJoin(v);
      forall i | 0 <= i < |s| ensures Digits(v)[i] == s[i] {
        ValueDigit(s[i]);
      }
      assert Digits(v) == s;
    }
  }

  lemma EncodedLength(b: seq<Byte>)
    ensures |Encode(b)| == (|b| * 4 + 2) / 3
  {
    SplitLength(b);
  }
}

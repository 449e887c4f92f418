// Fixed-width big-endian integers, the to_be_bytes / from_be_bytes pair.
module BigEndian {
  import opened Prelude

  function Pow256(k: nat): nat { if k == 0 then 1 else 256 * Pow256(k - 1) }

  function Encode(n: nat, k: nat): (b: seq<Byte>)
    ensures |b| == k
  {
    if k == 0 then [] else Encode(n / 256, k - 1) + [n % 256]
  }

  function Decode(b: seq<Byte>): (n: nat)
    ensures n < Pow256(|b|)
  {
    if b == [] then 0 else Decode(b[..|b| - 1]) * 256 + b[|b| - 1]
  }

  lemma {:induction false} DecodeEncode(n: nat, k: nat)
    requires n < Pow256(k)
    ensures Decode(Encode(n, k)) == n
  {
    if k > 0 {
      DecodeEncode(n / 256, k - 1);
      assert (Encode(n / 256, k - 1) + [n % 256])[..k - 1] == Encode(n / 256, k - 1);
    }
  }

  lemma {:induction false} EncodeDecode(b: seq<Byte>)
    ensures Encode(Decode(b), |b|) == b
  {
    if b != [] {
      EncodeDecode(b[..|b| - 1]);
    }
  }

  // The first byte is the most significant.
  lemma {:induction false} DecodeFront(b: seq<Byte>)
    requires b != []
    ensures Decode(b) == b[0] * Pow256(|b| - 1) + Decode(b[1..])
  {
    if |b| == 1 {
      assert b[..0] == [] && b[1..] == [];
    } else {
      var front, last, weight := b[..|b| - 1], b[|b| - 1], Pow256(|b| - 2);
      DecodeFront(front);
      assert front[1..] == b[1..][..|b| - 2] && b[1..][|b| - 2] == last;
      assert front[0] == b[0] && Decode(b) == Decode(front) * 256 + last;
      ScaleUp(b[0], weight, Decode(front[1..]), last);
    }
  }

  lemma ScaleUp(x: nat, weight: nat, rest: nat, last: nat)
    ensures (x * weight + rest) * 256 + last == x * (256 * weight) + (rest * 256 + last)
  {
    assert x * weight * 256 == x * (256 * weight);
  }

  lemma Widths()
    ensures Pow256(2) == 0x1_0000 && Pow256(4) == U32_MAX + 1 && Pow256(8) == U64_MAX + 1
  {
    assert Pow256(2) == 256 * Pow256(1);
    assert Pow256(4) == 256 * 256 * Pow256(2);
    assert Pow256(6) == 256 * 256 * Pow256(4);
    assert Pow256(8) == 256 * 256 * Pow256(6);
  }

  lemma Injective(m: nat, n: nat, k: nat)
    requires m < Pow256(k) && n < Pow256(k) && Encode(m, k) == Encode(n, k)
    ensures m == n
  {
    DecodeEncode(m, k);
    DecodeEncode(n, k);
  }
}

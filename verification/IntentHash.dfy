// The payment-intent binding: a hash over length-prefixed fields, and its wire string.
module IntentSpec {
  import opened Prelude
  import BigEndian
  import Base64Url

  datatype AmountUnit = Base | Display

  // Text fields are UTF-8 bytes.
  datatype IntentInput = IntentInput(chainNamespace: seq<Byte>, chainReference: seq<Byte>, recipientCaip10: seq<Byte>,
                                     amountValue: U64, amountUnit: AmountUnit, paymentId: seq<Byte>, expiryHeight: U64)

  datatype Field = ChainNamespace | ChainReference | RecipientCaip10 | PaymentId

  datatype IntentError = FieldTooLong(field: Field, length: nat) | UnsupportedVersion | PayloadInvalid

  const MAX_FIELD_LEN := 0xFFFF

  // "zentity.payauth.v1"
  const DOMAIN_SEPARATOR: seq<Byte> :=
    [0x7A, 0x65, 0x6E, 0x74, 0x69, 0x74, 0x79, 0x2E, 0x70, 0x61, 0x79, 0x61, 0x75, 0x74, 0x68, 0x2E, 0x76, 0x31]

  const WIRE_PREFIX: string := "v1:sha256:"

  function UnitByte(u: AmountUnit): Byte { if u.Base? then 0 else 1 }

  // The 16-bit length wraps, as the cast does.
  function LengthPrefix(n: nat): seq<Byte> { BigEndian.Encode(n % 0x1_0000, 2) }

  function Prefixed(field: seq<Byte>, tail: seq<Byte>): seq<Byte> { LengthPrefix(|field|) + (field + tail) }

  function Preimage(i: IntentInput): seq<Byte> {
    DOMAIN_SEPARATOR + Prefixed(i.chainNamespace, Prefixed(i.chainReference, Prefixed(i.recipientCaip10,
      BigEndian.Encode(i.amountValue, 8) + ([UnitByte(i.amountUnit)] + Prefixed(i.paymentId,
        BigEndian.Encode(i.expiryHeight, 8))))))
  }

  predicate Fits(i: IntentInput) {
    && |i.chainNamespace| <= MAX_FIELD_LEN && |i.chainReference| <= MAX_FIELD_LEN
    && |i.recipientCaip10| <= MAX_FIELD_LEN && |i.paymentId| <= MAX_FIELD_LEN
  }

  lemma SplitAt(a: seq<Byte>, t: seq<Byte>, b: seq<Byte>, u: seq<Byte>)
    requires |a| == |b| && a + t == b + u
    ensures a == b && t == u
  {
    assert (a + t)[..|a|] == a && (b + u)[..|a|] == b;
    assert (a + t)[|a|..] == t && (b + u)[|a|..] == u;
  }

  lemma PrefixedInjective(a: seq<Byte>, t: seq<Byte>, b: seq<Byte>, u: seq<Byte>)
    requires |a| <= MAX_FIELD_LEN && |b| <= MAX_FIELD_LEN && Prefixed(a, t) == Prefixed(b, u)
    ensures a == b && t == u
  {
    SplitAt(LengthPrefix(|a|), a + t, LengthPrefix(|b|), b + u);
    BigEndian.Widths();
    BigEndian.Injective(|a|, |b|, 2);
    SplitAt(a, t, b, u);
  }

  lemma NumberInjective(m: U64, t: seq<Byte>, n: U64, u: seq<Byte>)
    requires BigEndian.Encode(m, 8) + t == BigEndian.Encode(n, 8) + u
    ensures m == n && t == u
  {
    SplitAt(BigEndian.Encode(m, 8), t, BigEndian.Encode(n, 8), u);
    BigEndian.Widths();
    BigEndian.Injective(m, n, 8);
  }

  // Two inputs whose text fields fit hash the same bytes only when all seven fields agree.
  lemma PreimageInjective(a: IntentInput, b: IntentInput)
    requires Fits(a) && Fits(b) && Preimage(a) == Preimage(b)
    ensures a == b
  {
    var expiryA, expiryB := BigEndian.Encode(a.expiryHeight, 8), BigEndian.Encode(b.expiryHeight, 8);
    var tailA, tailB := Prefixed(a.paymentId, expiryA), Prefixed(b.paymentId, expiryB);
    var unitA, unitB := [UnitByte(a.amountUnit)] + tailA, [UnitByte(b.amountUnit)] + tailB;
    var amountA, amountB := BigEndian.Encode(a.amountValue, 8) + unitA, BigEndian.Encode(b.amountValue, 8) + unitB;
    var recipientA, recipientB := Prefixed(a.recipientCaip10, amountA), Prefixed(b.recipientCaip10, amountB);
    var referenceA, referenceB := Prefixed(a.chainReference, recipientA), Prefixed(b.chainReference, recipientB);
    SplitAt(DOMAIN_SEPARATOR, Prefixed(a.chainNamespace, referenceA),
            DOMAIN_SEPARATOR, Prefixed(b.chainNamespace, referenceB));
    PrefixedInjective(a.chainNamespace, referenceA, b.chainNamespace, referenceB);
    PrefixedInjective(a.chainReference, recipientA, b.chainReference, recipientB);
    PrefixedInjective(a.recipientCaip10, amountA, b.recipientCaip10, amountB);
    NumberInjective(a.amountValue, unitA, b.amountValue, unitB);
    SplitAt([UnitByte(a.amountUnit)], tailA, [UnitByte(b.amountUnit)], tailB);
    PrefixedInjective(a.paymentId, expiryA, b.paymentId, expiryB);
    assert expiryA + [] == expiryB + [];
    NumberInjective(a.expiryHeight, [], b.expiryHeight, []);
  }

  // The bytes that are hashed: the separator's text, then the fields in their order, text
  // behind its length in two big-endian bytes, numbers in eight, the unit in one.
  lemma PreimageLayout(i: IntentInput)
    requires Fits(i)
    ensures Preimage(i)
         == AsciiBytes("zentity.payauth.v1")
            + BigEndian.Encode(|i.chainNamespace|, 2) + i.chainNamespace
            + BigEndian.Encode(|i.chainReference|, 2) + i.chainReference
            + BigEndian.Encode(|i.recipientCaip10|, 2) + i.recipientCaip10
            + BigEndian.Encode(i.amountValue, 8) + [if i.amountUnit == Base then 0 else 1]
            + BigEndian.Encode(|i.paymentId|, 2) + i.paymentId
            + BigEndian.Encode(i.expiryHeight, 8)
  {
    SeparatorText();
    ShortPrefix(i.chainNamespace);
    ShortPrefix(i.chainReference);
    ShortPrefix(i.recipientCaip10);
    ShortPrefix(i.paymentId);
    Flatten(DOMAIN_SEPARATOR, LengthPrefix(|i.chainNamespace|), i.chainNamespace,
            LengthPrefix(|i.chainReference|), i.chainReference,
            LengthPrefix(|i.recipientCaip10|), i.recipientCaip10,
            BigEndian.Encode(i.amountValue, 8), [UnitByte(i.amountUnit)],
            LengthPrefix(|i.paymentId|), i.paymentId, BigEndian.Encode(i.expiryHeight, 8));
  }

  lemma ShortPrefix(field: seq<Byte>)
    requires |field| <= MAX_FIELD_LEN
    ensures LengthPrefix(|field|) == BigEndian.Encode(|field|, 2)
  {
  }

  lemma Flatten(a: seq<Byte>, b: seq<Byte>, c: seq<Byte>, d: seq<Byte>, e: seq<Byte>, f: seq<Byte>,
                g: seq<Byte>, h: seq<Byte>, i: seq<Byte>, j: seq<Byte>, k: seq<Byte>, l: seq<Byte>)
    ensures a + (b + (c + (d + (e + (f + (g + (h + (i + (j + (k + l))))))))))
         == a + b + c + d + e + f + g + h + i + j + k + l
  {
  }

  predicate Ascii(s: string) { forall i :: 0 <= i < |s| ==> s[i] < 128 as char }

  function AsciiBytes(s: string): seq<Byte>
    requires Ascii(s)
  {
    seq(|s|, i requires 0 <= i < |s| => s[i] as int)
  }

  lemma SeparatorText()
    ensures DOMAIN_SEPARATOR == AsciiBytes("zentity.payauth.v1")
  {
    var text := "zentity.payauth.v1";
    assert |text| == 18;
  }

  // The checks in the order the code makes them.
  function FirstTooLong(i: IntentInput): Option<IntentError> {
    if |i.chainNamespace| > MAX_FIELD_LEN then Some(FieldTooLong(ChainNamespace, |i.chainNamespace|))
    else if |i.chainReference| > MAX_FIELD_LEN then Some(FieldTooLong(ChainReference, |i.chainReference|))
    else if |i.recipientCaip10| > MAX_FIELD_LEN then Some(FieldTooLong(RecipientCaip10, |i.recipientCaip10|))
    else if |i.paymentId| > MAX_FIELD_LEN then Some(FieldTooLong(PaymentId, |i.paymentId|))
    else None
  }

  // An input is refused exactly when a text field has more than 65,535 bytes, and the first
  // such field in the order of the checks is named with its length.
  lemma TooLongExactly(i: IntentInput)
    ensures FirstTooLong(i).None? <==>
      && |i.chainNamespace| <= 65535 && |i.chainReference| <= 65535
      && |i.recipientCaip10| <= 65535 && |i.paymentId| <= 65535
    ensures FirstTooLong(i).None? <==> Fits(i)
    ensures |i.chainNamespace| > 65535 ==> FirstTooLong(i) == Some(FieldTooLong(ChainNamespace, |i.chainNamespace|))
    ensures |i.chainNamespace| <= 65535 < |i.chainReference| ==>
      FirstTooLong(i) == Some(FieldTooLong(ChainReference, |i.chainReference|))
    ensures |i.chainNamespace| <= 65535 && |i.chainReference| <= 65535 < |i.recipientCaip10| ==>
      FirstTooLong(i) == Some(FieldTooLong(RecipientCaip10, |i.recipientCaip10|))
    ensures var long := |i.chainNamespace| > 65535 || |i.chainReference| > 65535 || |i.recipientCaip10| > 65535;
      !long && |i.paymentId| > 65535 ==> FirstTooLong(i) == Some(FieldTooLong(PaymentId, |i.paymentId|))
  {
  }

  function ToWireString(digest: Bytes32): string { WIRE_PREFIX + Base64Url.Encode(digest) }

  function FromWireString(s: string): Result<Bytes32, IntentError> {
    if !(WIRE_PREFIX <= s) then Err(UnsupportedVersion)
    else
      match Base64Url.Decode(s[|WIRE_PREFIX|..])
      case None => Err(PayloadInvalid)
      case Some(raw) => if |raw| != 32 then Err(PayloadInvalid) else Ok(raw)
  }

  // Rendering and parsing are inverse: every digest reads back, and the strings that parse
  // are exactly the renderings of digests.
  lemma WireStringBijection(digest: Bytes32, s: string)
    ensures FromWireString(ToWireString(digest)) == Ok(digest)
    ensures FromWireString(s) == Ok(digest) <==> s == ToWireString(digest)
    ensures |ToWireString(digest)| == |WIRE_PREFIX| + 43
  {
    Base64Url.EncodeThenDecode(digest);
    Base64Url.EncodedLength(digest);
    assert ToWireString(digest)[|WIRE_PREFIX|..] == Base64Url.Encode(digest);
    if FromWireString(s) == Ok(digest) {
      Base64Url.DecodeThenEncode(s[|WIRE_PREFIX|..]);
      assert s == WIRE_PREFIX + s[|WIRE_PREFIX|..];
    }
  }

  // A string of another version is refused as such; after the prefix only base64url of
  // thirty-two bytes is taken.
  lemma WireStringErrors(s: string, digest: Bytes32)
    ensures ToWireString(digest) == "v1:sha256:" + Base64Url.Encode(digest)
    ensures FromWireString(s) == Err(UnsupportedVersion) <==> !("v1:sha256:" <= s)
    ensures FromWireString(s).Err? && "v1:sha256:" <= s ==> FromWireString(s) == Err(PayloadInvalid)
  {
    assert |"v1:sha256:"| == 10;
  }

  // Equal wire strings mean equal inputs, up to a collision of the hash.
  lemma WireStringBindsInput(a: IntentInput, b: IntentInput, hash: seq<Byte> -> Bytes32)
    requires Fits(a) && Fits(b) && ToWireString(hash(Preimage(a))) == ToWireString(hash(Preimage(b)))
    ensures a == b || (Preimage(a) != Preimage(b) && hash(Preimage(a)) == hash(Preimage(b)))
  {
    WireStringBijection(hash(Preimage(a)), ToWireString(hash(Preimage(b))));
    WireStringBijection(hash(Preimage(b)), ToWireString(hash(Preimage(b))));
    if Preimage(a) == Preimage(b) {
      PreimageInjective(a, b);
    }
  }
}

module IntentHash {
  import opened Prelude
  import opened IntentSpec
  import BigEndian

  // An incremental hash: what it was fed so far.
  class Hasher {
    var fed: seq<Byte>

    constructor ()
      ensures fed == []
    {
      fed := [];
    }

    method Update(bytes: seq<Byte>)
      modifies this
      ensures fed == old(fed) + bytes
    {
      fed := fed + bytes;
    }
  }

  method CheckLen(field: Field, length: nat) returns (r: Option<IntentError>)
    ensures r == if length > MAX_FIELD_LEN then Some(FieldTooLong(field, length)) else None
  {
    r := if length > MAX_FIELD_LEN then Some(FieldTooLong(field, length)) else None;
  }

  method WriteLenPrefixed(hasher: Hasher, bytes: seq<Byte>)
    modifies hasher
    ensures forall tail :: hasher.fed + tail == old(hasher.fed) + Prefixed(bytes, tail)
  {
    var length := |bytes| % 0x1_0000;
    hasher.Update(BigEndian.Encode(length, 2));
    hasher.Update(bytes);
    forall tail: seq<Byte> ensures hasher.fed + tail == old(hasher.fed) + Prefixed(bytes, tail) {
    }
  }

  method Compute(input: IntentInput, hash: seq<Byte> -> Bytes32) returns (r: Result<Bytes32, IntentError>)
    ensures r.Ok? <==> Fits(input)
    ensures r.Ok? ==> r.value == hash(Preimage(input))
    ensures r.Err? ==> Some(r.error) == FirstTooLong(input)
  {
    var e := CheckLen(ChainNamespace, |input.chainNamespace|);
    if e.Some? { return Err(e.value); }
    e := CheckLen(ChainReference, |input.chainReference|);
    if e.Some? { return Err(e.value); }
    e := CheckLen(RecipientCaip10, |input.recipientCaip10|);
    if e.Some? { return Err(e.value); }
    e := CheckLen(PaymentId, |input.paymentId|);
    if e.Some? { return Err(e.value); }

    ghost var expiry := BigEndian.Encode(input.expiryHeight, 8);
    ghost var payment := Prefixed(input.paymentId, expiry);
    ghost var amount := BigEndian.Encode(input.amountValue, 8) + ([UnitByte(input.amountUnit)] + payment);
    ghost var recipient := Prefixed(input.recipientCaip10, amount);
    ghost var reference := Prefixed(input.chainReference, recipient);

    var hasher := new Hasher();
    hasher.Update(DOMAIN_SEPARATOR);
    assert hasher.fed + Prefixed(input.chainNamespace, reference) == Preimage(input);
    WriteLenPrefixed(hasher, input.chainNamespace);
    assert hasher.fed + reference == Preimage(input);
    WriteLenPrefixed(hasher, input.chainReference);
    assert hasher.fed + recipient == Preimage(input);
    WriteLenPrefixed(hasher, input.recipientCaip10);
    assert hasher.fed + amount == Preimage(input);
    hasher.Update(BigEndian.Encode(input.amountValue, 8));
    hasher.Update([UnitByte(input.amountUnit)]);
    assert hasher.fed + payment == Preimage(input);
    WriteLenPrefixed(hasher, input.paymentId);
    assert hasher.fed + expiry == Preimage(input);
    hasher.Update(BigEndian.Encode(input.expiryHeight, 8));
    return Ok(hash(hasher.fed));
  }
}

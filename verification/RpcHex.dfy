// RPC byte order: 32 bytes reversed and rendered as 64 lowercase hex characters.
module RpcHexSpec {
  import opened Prelude

  type Text = seq<Byte>

  datatype HexError = InvalidLength(expected: nat, actual: nat) | InvalidHex(index: nat, character: Byte)

  const HASH_BYTES: nat := 32
  const HEX_LEN: nat := 64

  type Nibble = x: int | 0 <= x < 16

  // '0'-'9', 'a'-'f', 'A'-'F'
  function Value(c: Byte): Option<Nibble> {
    if 0x30 <= c <= 0x39 then Some(c - 0x30)
    else if 0x61 <= c <= 0x66 then Some(c - 0x61 + 10)
    else if 0x41 <= c <= 0x46 then Some(c - 0x41 + 10)
    else None
  }

  function Digit(n: Nibble): Byte { if n < 10 then 0x30 + n else 0x61 + n - 10 }

  // The digits' characters: '0' to '9', 'a' to 'f'.
  const LOWER_DIGITS: Text :=
    [0x30, 0x31, 0x32, 0x33, 0x34, 0x35, 0x36, 0x37, 0x38, 0x39, 0x61, 0x62, 0x63, 0x64, 0x65, 0x66]

  // '0' to '9', 'A' to 'F'.
  const UPPER_DIGITS: Text :=
    [0x30, 0x31, 0x32, 0x33, 0x34, 0x35, 0x36, 0x37, 0x38, 0x39, 0x41, 0x42, 0x43, 0x44, 0x45, 0x46]

  // A character is a digit of value n exactly when it stands at n in one of the rows.
  lemma DigitTables(c: Byte, n: Nibble)
    ensures Value(c) == Some(n) <==> c == LOWER_DIGITS[n] || c == UPPER_DIGITS[n]
    ensures Digit(n) == LOWER_DIGITS[n]
  {
  }

  predicate IsHex(s: Text) { forall i :: 0 <= i < |s| ==> Value(s[i]).Some? }

  // ASCII lower case.
  function Lower(s: Text): (r: Text) { seq(|s|, i requires 0 <= i < |s| => LowerByte(s[i])) }

  function LowerByte(c: Byte): Byte { if 0x41 <= c <= 0x5A then c + 0x20 else c }

  // Digits 2i and 2i + 1 spell the byte x.
  ghost predicate SpellsAt(s: Text, i: nat, x: Byte) {
    && 2 * i + 1 < |s|
    && Value(s[2 * i]).Some? && Value(s[2 * i + 1]).Some?
    && x == 16 * Value(s[2 * i]).value + Value(s[2 * i + 1]).value
  }

  // The digits spell the bytes from the last to the first.
  ghost predicate Spells(s: Text, b: seq<Byte>) {
    |s| == 2 * |b| && forall i :: 0 <= i < |b| ==> SpellsAt(s, |b| - 1 - i, b[i])
  }

  // Digits 2i and 2i + 1 are the two lower-case digits of x.
  ghost predicate RendersAt(s: Text, i: nat, x: Byte) {
    2 * i + 1 < |s| && s[2 * i] == LOWER_DIGITS[x / 16] && s[2 * i + 1] == LOWER_DIGITS[x % 16]
  }

  // The lower-case digits of the bytes from the last to the first.
  ghost predicate Renders(s: Text, b: seq<Byte>) {
    |s| == 2 * |b| && forall i :: 0 <= i < |b| ==> RendersAt(s, |b| - 1 - i, b[i])
  }

  lemma RendersOneMore(s: Text, x: Byte)
    requires |s| % 2 == 0
    ensures var s' := s + [Digit(x / 16), Digit(x % 16)];
      && RendersAt(s', |s| / 2, x)
      && forall j: nat, y :: RendersAt(s, j, y) ==> RendersAt(s', j, y)
  {
    DigitTables(Digit(x / 16), x / 16);
    DigitTables(Digit(x % 16), x % 16);
  }

  lemma RenderedSpells(s: Text, b: seq<Byte>)
    requires Renders(s, b)
    ensures Spells(s, b) && Lower(s) == s
  {
    forall k | 0 <= k < |b| ensures SpellsAt(s, |b| - 1 - k, b[k]) {
      assert RendersAt(s, |b| - 1 - k, b[k]);
      DigitTables(s[2 * (|b| - 1 - k)], b[k] / 16);
      DigitTables(s[2 * (|b| - 1 - k) + 1], b[k] % 16);
    }
    forall j | 0 <= j < |s| ensures LowerByte(s[j]) == s[j] {
      var k := |b| - 1 - j / 2;
      assert RendersAt(s, |b| - 1 - k, b[k]);
      LowerDigit(if j % 2 == 0 then b[k] / 16 else b[k] % 16);
    }
  }

  lemma LowerDigit(n: Nibble)
    ensures LowerByte(LOWER_DIGITS[n]) == LOWER_DIGITS[n]
  {
  }

  lemma SpelledDigit(s: Text, b: seq<Byte>, i: nat)
    requires Spells(s, b) && i < |s|
    ensures Value(s[i]).Some?
    ensures Value(s[i]).value == if i % 2 == 0 then b[|b| - 1 - i / 2] / 16 else b[|b| - 1 - i / 2] % 16
  {
    var k := |b| - 1 - i / 2;
    assert SpellsAt(s, |b| - 1 - k, b[k]);
  }

  lemma SpelledIsHex(s: Text, b: seq<Byte>)
    requires Spells(s, b)
    ensures IsHex(s)
  {
    forall i | 0 <= i < |s| ensures Value(s[i]).Some? {
      SpelledDigit(s, b, i);
    }
  }

  // One text spells at most one byte string.
  lemma SpellsOnce(s: Text, a: seq<Byte>, b: seq<Byte>)
    requires Spells(s, a) && Spells(s, b)
    ensures a == b
  {
    forall k | 0 <= k < |a| ensures a[k] == b[k] {
      assert SpellsAt(s, |a| - 1 - k, a[k]) && SpellsAt(s, |b| - 1 - k, b[k]);
    }
  }

  lemma SameValue(c: Byte, d: Byte)
    requires Value(c).Some? && Value(d).Some?
    ensures Value(c) == Value(d) <==> LowerByte(c) == LowerByte(d)
  {
  }

  // Texts of one byte string differ in letter case only.
  lemma SpellingsDifferInCase(s: Text, t: Text, b: seq<Byte>)
    requires Spells(s, b) && Spells(t, b)
    ensures Lower(s) == Lower(t)
  {
    forall i | 0 <= i < |s| ensures LowerByte(s[i]) == LowerByte(t[i]) {
      SpelledDigit(s, b, i);
      SpelledDigit(t, b, i);
      SameValue(s[i], t[i]);
    }
  }
}

module RpcHex {
  import opened Prelude
  import opened RpcHexSpec

  method ReverseInPlace(a: array<Byte>)
    modifies a
    ensures forall k :: 0 <= k < a.Length ==> a[k] == old(a[a.Length - 1 - k])
  {
    var n, i := a.Length, 0;
    while i < n / 2
      invariant 0 <= i <= n / 2
      invariant forall k :: 0 <= k < i ==> a[k] == old(a[n - 1 - k]) && a[n - 1 - k] == old(a[k])
      invariant forall k :: i <= k < n - i ==> a[k] == old(a[k])
    {
      a[i], a[n - 1 - i] := a[n - 1 - i], a[i];
      i := i + 1;
    }
  }

  // Fills the buffer front to back; stops at the first character that is not a digit.
  method DecodeToSlice(input: Text, buffer: array<Byte>) returns (r: Option<HexError>)
    requires |input| == 2 * buffer.Length
    modifies buffer
    ensures r.None? <==> IsHex(input)
    ensures r.Some? ==>
      && r.value.InvalidHex? && r.value.index < |input| && r.value.character == input[r.value.index]
      && Value(r.value.character).None? && IsHex(input[..r.value.index])
    ensures r.None? ==> forall i :: 0 <= i < buffer.Length ==> SpellsAt(input, i, buffer[i])
  {
    var i := 0;
    while i < buffer.Length
      invariant i <= buffer.Length && IsHex(input[..2 * i])
      invariant forall j :: 0 <= j < 2 * i ==> Value(input[j]).Some?
      invariant forall j :: 0 <= j < i ==> SpellsAt(input, j, buffer[j])
    {
      var high, low := input[2 * i], input[2 * i + 1];
      if Value(high).None? {
        return Some(InvalidHex(2 * i, high));
      }
      if Value(low).None? {
        return Some(InvalidHex(2 * i + 1, low));
      }
      buffer[i] := 16 * Value(high).value + Value(low).value;
      i := i + 1;
    }
    r := None;
  }

  method DecodeRpcHex(input: Text) returns (r: Result<Bytes32, HexError>)
    ensures r.Ok? <==> |input| == HEX_LEN && IsHex(input)
    ensures r.Ok? ==> Spells(input, r.value)
    ensures |input| != 64 ==> r == Err(InvalidLength(64, |input|))
    ensures |input| == HEX_LEN && r.Err? ==>
      && r.error.InvalidHex? && r.error.index < |input| && r.error.character == input[r.error.index]
      && Value(r.error.character).None? && IsHex(input[..r.error.index])
  {
    if |input| != HEX_LEN {
      return Err(InvalidLength(HEX_LEN, |input|));
    }
    var buffer := new Byte[HASH_BYTES](_ => 0);
    var failed := DecodeToSlice(input, buffer);
    if failed.Some? {
      return Err(failed.value);
    }
    ReverseInPlace(buffer);
    assert Spells(input, buffer[..]);
    return Ok(buffer[..]);
  }

  method EncodeRpcHex(bytes: Bytes32) returns (s: Text)
    ensures Renders(s, bytes)
    ensures Spells(s, bytes) && Lower(s) == s
  {
    var reversed := new Byte[HASH_BYTES](i requires 0 <= i < |bytes| => bytes[i]);
    ReverseInPlace(reversed);
    s := [];
    var i := 0;
    while i < HASH_BYTES
      invariant 0 <= i <= HASH_BYTES && |s| == 2 * i
      invariant forall k :: 0 <= k < HASH_BYTES ==> reversed[k] == bytes[HASH_BYTES - 1 - k]
      invariant forall j :: 0 <= j < i ==> RendersAt(s, j, reversed[j])
    {
      RendersOneMore(s, reversed[i]);
      s := s + [Digit(reversed[i] / 16), Digit(reversed[i] % 16)];
      i := i + 1;
    }
    forall k | 0 <= k < HASH_BYTES ensures RendersAt(s, HASH_BYTES - 1 - k, bytes[k]) {
      assert reversed[HASH_BYTES - 1 - k] == bytes[k];
    }
    RenderedSpells(s, bytes);
  }

  // Rendering 32 bytes and reading the text gives them back.
  method RenderThenRead(bytes: Bytes32) returns (r: Result<Bytes32, HexError>)
    ensures r == Ok(bytes)
  {
    var s := EncodeRpcHex(bytes);
    SpelledIsHex(s, bytes);
    r := DecodeRpcHex(s);
    SpellsOnce(s, bytes, r.value);
  }

  // Reading a text and rendering the bytes gives its lower-case form.
  method ReadThenRender(input: Text) returns (s: Option<Text>)
    ensures s.Some? <==> |input| == HEX_LEN && IsHex(input)
    ensures s.Some? ==> s.value == Lower(input)
  {
    var r := DecodeRpcHex(input);
    if r.Err? {
      return None;
    }
    var rendered := EncodeRpcHex(r.value);
    SpellingsDifferInCase(input, rendered, r.value);
    return Some(rendered);
  }
}

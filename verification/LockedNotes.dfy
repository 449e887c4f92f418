// The locked_notes blob of a hold row: a u32 count, then one 45-byte record a note.
module LockedNotes {
  import opened Prelude
  import BigEndian

  datatype ShieldedPool = Sapling | Orchard | Ironwood

  datatype HeldNote = HeldNote(protocol: ShieldedPool, valueZat: Zatoshis, txId: TxId, outputIndex: U32)

  datatype DecodeError =
    | BelowHeader(length: nat)
    | CountMismatch(length: nat, count: U32)
    | UnknownTag(tag: Byte)
    | ValueOutOfRange(raw: U64)

  // tag + value + tx id + output index
  const RECORD_BYTES: nat := 1 + 8 + 32 + 4

  function Tag(pool: ShieldedPool): Byte {
    match pool
    case Sapling => 0
    case Orchard => 1
    case Ironwood => 2
  }

  function EncodeRecord(n: HeldNote): (r: seq<Byte>)
    ensures |r| == RECORD_BYTES
  {
    [Tag(n.protocol)] + BigEndian.Encode(n.valueZat, 8) + n.txId + BigEndian.Encode(n.outputIndex, 4)
  }

  function EncodeRecords(notes: seq<HeldNote>): (r: seq<Byte>)
    ensures |r| == 45 * |notes|
  {
    if notes == [] then [] else EncodeRecord(notes[0]) + EncodeRecords(notes[1..])
  }

  // The count is clamped to u32::MAX.
  function Blob(notes: seq<HeldNote>): seq<Byte> {
    BigEndian.Encode(Min(|notes|, U32_MAX), 4) + EncodeRecords(notes)
  }

  function DecodeRecord(r: seq<Byte>): Result<HeldNote, DecodeError>
    requires |r| == RECORD_BYTES
  {
    var value := BigEndian.Decode(r[1..9]);
    var outputIndex := BigEndian.Decode(r[41..45]);
    BigEndian.Widths();
    if r[0] > 2 then Err(UnknownTag(r[0]))
    else if value > MAX_MONEY then Err(ValueOutOfRange(value))
    else
      var pool := if r[0] == 0 then Sapling else if r[0] == 1 then Orchard else Ironwood;
      Ok(HeldNote(pool, value, r[9..41], outputIndex))
  }

  function Prepend(front: seq<HeldNote>, r: Result<seq<HeldNote>, DecodeError>): Result<seq<HeldNote>, DecodeError> {
    if r.Ok? then Ok(front + r.value) else r
  }

  // n records, read front to back; the first bad one decides the error.
  function DecodeRecords(b: seq<Byte>, n: nat): Result<seq<HeldNote>, DecodeError>
    requires |b| == 45 * n
  {
    if n == 0 then Ok([])
    else
      match DecodeRecord(b[..RECORD_BYTES])
      case Err(e) => Err(e)
      case Ok(note) => Prepend([note], DecodeRecords(b[RECORD_BYTES..], n - 1))
  }

  function Decoded(blob: seq<Byte>): Result<seq<HeldNote>, DecodeError> {
    if |blob| < 4 then Err(BelowHeader(|blob|))
    else
      var count := BigEndian.Decode(blob[..4]);
      BigEndian.Widths();
      if |blob| != 4 + 45 * count then Err(CountMismatch(|blob|, count))
      else DecodeRecords(blob[4..], count)
  }

  method EncodeLockedNotes(notes: seq<HeldNote>) returns (blob: seq<Byte>)
    ensures blob == Blob(notes)
  {
    blob := BigEndian.Encode(Min(|notes|, U32_MAX), 4);
    var i := 0;
    while i < |notes|
      invariant i <= |notes|
      invariant blob + EncodeRecords(notes[i..]) == Blob(notes)
    {
      var note := notes[i];
      assert notes[i..][1..] == notes[i + 1..];
      ghost var rest := EncodeRecords(notes[i + 1..]);
      ghost var before := blob;
      blob := blob + [Tag(note.protocol)];
      blob := blob + BigEndian.Encode(note.valueZat, 8);
      blob := blob + note.txId;
      blob := blob + BigEndian.Encode(note.outputIndex, 4);
      assert blob + rest == before + (EncodeRecord(note) + rest);
      i := i + 1;
    }
    assert blob + [] == blob;
  }

  method DecodeLockedNotes(blob: seq<Byte>) returns (r: Result<seq<HeldNote>, DecodeError>)
    ensures r == Decoded(blob)
  {
    if |blob| < 4 {
      return Err(BelowHeader(|blob|));
    }
    BigEndian.Widths();
    var count: U32 := BigEndian.Decode(blob[..4]);
    if |blob| != 4 + 45 * count {
      return Err(CountMismatch(|blob|, count));
    }
    var notes: seq<HeldNote> := [];
    var cursor: nat, left: nat := 4, count;
    PrependNothing(Decoded(blob));
    while left > 0
      invariant 0 <= left && cursor <= |blob| && |blob| - cursor == 45 * left
      invariant Decoded(blob) == Prepend(notes, DecodeRecords(blob[cursor..], left))
    {
      var record := blob[cursor..cursor + RECORD_BYTES];
      assert blob[cursor..][..RECORD_BYTES] == record;
      assert blob[cursor..][RECORD_BYTES..] == blob[cursor + RECORD_BYTES..];
      var note := DecodeRecord(record);
      if note.Err? {
        return Err(note.error);
      }
      PrependTwice(notes, [note.value], DecodeRecords(blob[cursor + RECORD_BYTES..], left - 1));
      notes := notes + [note.value];
      cursor := cursor + RECORD_BYTES;
      left := left - 1;
    }
    assert notes + [] == notes;
    return Ok(notes);
  }

  lemma PrependNothing(r: Result<seq<HeldNote>, DecodeError>)
    ensures Prepend([], r) == r
  {
    if r.Ok? {
      assert [] + r.value == r.value;
    }
  }

  lemma PrependTwice(a: seq<HeldNote>, b: seq<HeldNote>, r: Result<seq<HeldNote>, DecodeError>)
    ensures Prepend(a, Prepend(b, r)) == Prepend(a + b, r)
  {
    if r.Ok? {
      assert a + (b + r.value) == (a + b) + r.value;
    }
  }

  lemma RecordRoundTrip(n: HeldNote)
    ensures DecodeRecord(EncodeRecord(n)) == Ok(n)
  {
    BigEndian.Widths();
    BigEndian.DecodeEncode(n.valueZat, 8);
    BigEndian.DecodeEncode(n.outputIndex, 4);
    var r := EncodeRecord(n);
    assert r[1..9] == BigEndian.Encode(n.valueZat, 8);
    assert r[9..41] == n.txId;
    assert r[41..45] == BigEndian.Encode(n.outputIndex, 4);
  }

  lemma RecordCanonical(r: seq<Byte>)
    requires |r| == RECORD_BYTES && DecodeRecord(r).Ok?
    ensures EncodeRecord(DecodeRecord(r).value) == r
  {
    BigEndian.EncodeDecode(r[1..9]);
    BigEndian.EncodeDecode(r[41..45]);
    assert r == [r[0]] + r[1..9] + r[9..41] + r[41..45];
  }

  lemma {:induction false} RecordsRoundTrip(notes: seq<HeldNote>)
    ensures DecodeRecords(EncodeRecords(notes), |notes|) == Ok(notes)
  {
    if notes != [] {
      RecordRoundTrip(notes[0]);
      RecordsRoundTrip(notes[1..]);
      var b := EncodeRecords(notes);
      assert b[..RECORD_BYTES] == EncodeRecord(notes[0]);
      assert b[RECORD_BYTES..] == EncodeRecords(notes[1..]);
      assert [notes[0]] + notes[1..] == notes;
    }
  }

  lemma {:induction false} RecordsCanonical(b: seq<Byte>, n: nat)
    requires |b| == 45 * n && DecodeRecords(b, n).Ok?
    ensures |DecodeRecords(b, n).value| == n && EncodeRecords(DecodeRecords(b, n).value) == b
  {
    if n > 0 {
      var first, rest := b[..RECORD_BYTES], b[RECORD_BYTES..];
      RecordCanonical(first);
      RecordsCanonical(rest, n - 1);
      var notes := DecodeRecords(b, n).value;
      assert notes[1..] == DecodeRecords(rest, n - 1).value;
      assert b == first + rest;
    }
  }

  // One note's 45 bytes: a tag, the value big-endian, the transaction id, the output index
  // big-endian.
  ghost predicate IsRecord(r: seq<Byte>, n: HeldNote) {
    && |r| == 45
    && r[0] == (match n.protocol case Sapling => 0 case Orchard => 1 case Ironwood => 2)
    && r[1..9] == BigEndian.Encode(n.valueZat, 8)
    && r[9..41] == n.txId
    && r[41..45] == BigEndian.Encode(n.outputIndex, 4)
  }

  lemma RecordLayout(n: HeldNote)
    ensures IsRecord(EncodeRecord(n), n)
  {
    var r := EncodeRecord(n);
    assert r[1..9] == BigEndian.Encode(n.valueZat, 8);
    assert r[9..41] == n.txId;
    assert r[41..45] == BigEndian.Encode(n.outputIndex, 4);
  }

  lemma {:induction false} RecordsSliced(notes: seq<HeldNote>, i: nat)
    requires i < |notes|
    ensures EncodeRecords(notes)[45 * i..45 * i + 45] == EncodeRecord(notes[i])
  {
    var rest := EncodeRecords(notes[1..]);
    if i > 0 {
      RecordsSliced(notes[1..], i - 1);
      assert EncodeRecords(notes)[45 * i..45 * i + 45] == rest[45 * (i - 1)..45 * (i - 1) + 45];
    }
  }

  // The blob is the count, big-endian in four bytes, and the notes' records in order.
  lemma BlobLayout(notes: seq<HeldNote>, i: nat)
    requires i < |notes| <= U32_MAX
    ensures |Blob(notes)| == 4 + 45 * |notes| && Blob(notes)[..4] == BigEndian.Encode(|notes|, 4)
    ensures IsRecord(Blob(notes)[4 + 45 * i..49 + 45 * i], notes[i])
  {
    BlobSliced(notes, i);
    RecordLayout(notes[i]);
  }

  lemma BlobSliced(notes: seq<HeldNote>, i: nat)
    requires i < |notes| <= U32_MAX
    ensures |Blob(notes)| == 4 + 45 * |notes| && Blob(notes)[..4] == BigEndian.Encode(|notes|, 4)
    ensures Blob(notes)[4 + 45 * i..49 + 45 * i] == EncodeRecord(notes[i])
  {
    var header, records := BigEndian.Encode(|notes|, 4), EncodeRecords(notes);
    RecordsSliced(notes, i);
    BehindHeader(header, records, 45 * i, 45 * i + 45);
  }

  lemma BehindHeader(header: seq<Byte>, rest: seq<Byte>, from: nat, to: nat)
    requires from <= to <= |rest|
    ensures (header + rest)[..|header|] == header
    ensures (header + rest)[|header| + from..|header| + to] == rest[from..to]
  {
  }

  // A blob decodes if and only if it has the length its header tells and every record a
  // known tag and an amount of money.
  lemma DecodesExactly(blob: seq<Byte>)
    ensures Decoded(blob).Ok? <==>
      && |blob| >= 4 && |blob| == 4 + 45 * BigEndian.Decode(blob[..4])
      && forall i :: 0 <= i < BigEndian.Decode(blob[..4]) ==> RecordReads(blob[4..], i)
    ensures |blob| < 4 ==> Decoded(blob) == Err(BelowHeader(|blob|))
    ensures |blob| >= 4 && |blob| != 4 + 45 * BigEndian.Decode(blob[..4]) ==>
      Decoded(blob).Err? && Decoded(blob).error.CountMismatch? && Decoded(blob).error.length == |blob|
      && Decoded(blob).error.count == BigEndian.Decode(blob[..4])
  {
    if |blob| >= 4 && |blob| == 4 + 45 * BigEndian.Decode(blob[..4]) {
      RecordsDecode(blob[4..], BigEndian.Decode(blob[..4]));
    }
  }

  ghost predicate RecordReads(b: seq<Byte>, i: int) {
    && 0 <= i && 45 * i + 45 <= |b|
    && b[45 * i] <= 2 && BigEndian.Decode(b[45 * i + 1..45 * i + 9]) <= MAX_MONEY
  }

  // What is wrong with record i, the tag before the value.
  ghost predicate RecordFault(b: seq<Byte>, i: int, e: DecodeError) {
    && 0 <= i && 45 * i + 45 <= |b|
    && if b[45 * i] > 2 then e == UnknownTag(b[45 * i])
       else e.ValueOutOfRange? && e.raw == BigEndian.Decode(b[45 * i + 1..45 * i + 9]) > MAX_MONEY
  }

  // Records decode if and only if each reads; otherwise the first that does not decides.
  lemma {:induction false} RecordsDecode(b: seq<Byte>, n: nat)
    requires |b| == 45 * n
    ensures DecodeRecords(b, n).Ok? <==> forall i :: 0 <= i < n ==> RecordReads(b, i)
    ensures DecodeRecords(b, n).Err? ==>
      exists i :: RecordFault(b, i, DecodeRecords(b, n).error) && forall j :: 0 <= j < i ==> RecordReads(b, j)
  {
    if n > 0 {
      var rest := b[45..];
      FirstRecord(b);
      if RecordReads(b, 0) {
        RecordsDecode(rest, n - 1);
        AllRecordsShift(b, n);
        if DecodeRecords(rest, n - 1).Err? {
          var e := DecodeRecords(rest, n - 1).error;
          var i :| RecordFault(rest, i, e) && forall j :: 0 <= j < i ==> RecordReads(rest, j);
          RecordShifts(b, i);
          assert RecordFault(b, i + 1, e);
          forall j | 0 <= j < i + 1 ensures RecordReads(b, j) {
            if j > 0 {
              assert RecordReads(rest, j - 1);
              RecordShifts(b, j - 1);
            }
          }
        }
      } else {
        assert RecordFault(b, 0, DecodeRecords(b, n).error);
      }
    }
  }

  lemma AllRecordsShift(b: seq<Byte>, n: nat)
    requires n > 0 && |b| == 45 * n && RecordReads(b, 0)
    ensures (forall i :: 0 <= i < n ==> RecordReads(b, i)) <==> (forall i :: 0 <= i < n - 1 ==> RecordReads(b[45..], i))
  {
    forall i | 0 < i < n ensures RecordReads(b, i) == RecordReads(b[45..], i - 1) {
      RecordShifts(b, i - 1);
    }
    if forall i :: 0 <= i < n ==> RecordReads(b, i) {
      forall i | 0 <= i < n - 1 ensures RecordReads(b[45..], i) {
        assert RecordReads(b, i + 1);
      }
    }
  }

  lemma FirstRecord(b: seq<Byte>)
    requires |b| >= 45
    ensures DecodeRecord(b[..RECORD_BYTES]).Ok? <==> RecordReads(b, 0)
    ensures DecodeRecord(b[..RECORD_BYTES]).Err? ==> RecordFault(b, 0, DecodeRecord(b[..RECORD_BYTES]).error)
  {
    assert b[..RECORD_BYTES][1..9] == b[1..9];
  }

  lemma RecordShifts(b: seq<Byte>, i: nat)
    requires |b| >= 45 * i + 90
    ensures RecordReads(b, i + 1) == RecordReads(b[45..], i)
    ensures forall e :: RecordFault(b, i + 1, e) == RecordFault(b[45..], i, e)
  {
    assert b[45..][45 * i] == b[45 * i + 45];
    assert b[45..][45 * i + 1..45 * i + 9] == b[45 * i + 46..45 * i + 54];
  }

  // A note list reads back exactly when its length fits the count header.
  lemma NotesRoundTrip(notes: seq<HeldNote>)
    ensures Decoded(Blob(notes)) == Ok(notes) <==> |notes| <= U32_MAX
    ensures |notes| > U32_MAX ==> Decoded(Blob(notes)).Err?
  {
    BigEndian.Widths();
    var count := Min(|notes|, U32_MAX);
    BigEndian.DecodeEncode(count, 4);
    RecordsRoundTrip(notes);
    var blob := Blob(notes);
    assert blob[..4] == BigEndian.Encode(count, 4);
    assert blob[4..] == EncodeRecords(notes);
  }

  // Every blob that decodes is the encoding of what it decodes to.
  lemma BlobCanonical(blob: seq<Byte>)
    requires Decoded(blob).Ok?
    ensures Blob(Decoded(blob).value) == blob
  {
    BigEndian.Widths();
    BigEndian.EncodeDecode(blob[..4]);
    var count := BigEndian.Decode(blob[..4]);
    RecordsCanonical(blob[4..], count);
    assert blob == blob[..4] + blob[4..];
  }
}

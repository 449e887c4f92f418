// The postcard wire format for the types the PCZT global section holds. `Put` writes a
// value in front of a tail; `Take` reads one and returns the tail.
module Postcard {
  import opened Prelude
  import Utf8

  type Bytes = seq<Byte>

  // --- Varints: seven bits a byte, least significant first ---

  function PutVarint(n: nat, tail: Bytes): Bytes {
    if n < 128 then [n] + tail else [128 + n % 128] + PutVarint(n / 128, tail)
  }

  // At most `width` bytes, the last of them at most `lastMax`. Padding with zero groups is
  // accepted.
  function TakeVarint(b: Bytes, width: nat, lastMax: nat): Option<(nat, Bytes)> {
    if width == 0 || b == [] then None
    else if b[0] < 128 then
      if width == 1 && b[0] > lastMax then None else Some((b[0], b[1..]))
    else
      match TakeVarint(b[1..], width - 1, lastMax)
      case None => None
      case Some((high, rest)) => Some((b[0] - 128 + 128 * high, rest))
  }

  // One more than the largest value of that shape.
  function VarintBound(width: nat, lastMax: nat): (n: nat)
    ensures width > 0 ==> n > 0
  {
    if width == 0 then 0 else if width == 1 then lastMax + 1 else 128 * VarintBound(width - 1, lastMax)
  }

  lemma VarintWidths()
    ensures VarintBound(5, 15) == U32_MAX + 1 && VarintBound(10, 1) == U64_MAX + 1
  {
    assert VarintBound(3, 15) == 0x4_0000;
    assert VarintBound(5, 15) == 128 * 128 * VarintBound(3, 15);
    assert VarintBound(3, 1) == 0x8000;
    assert VarintBound(5, 1) == 128 * 128 * VarintBound(3, 1);
    assert VarintBound(7, 1) == 128 * 128 * VarintBound(5, 1);
    assert VarintBound(9, 1) == 128 * 128 * VarintBound(7, 1);
    assert VarintBound(10, 1) == 128 * VarintBound(9, 1);
  }

  lemma {:induction false} VarintRoundTrip(n: nat, width: nat, lastMax: nat, tail: Bytes)
    requires n < VarintBound(width, lastMax) && lastMax < 128
    ensures TakeVarint(PutVarint(n, tail), width, lastMax) == Some((n, tail))
  {
    if n >= 128 {
      VarintRoundTrip(n / 128, width - 1, lastMax, tail);
      assert PutVarint(n, tail)[1..] == PutVarint(n / 128, tail);
    }
  }

  lemma {:induction false} VarintTail(n: nat, a: Bytes, b: Bytes)
    ensures PutVarint(n, a + b) == PutVarint(n, a) + b
  {
    if n >= 128 {
      VarintTail(n / 128, a, b);
    }
  }

  // What is read is in range, leaves a suffix, and was written in no fewer bytes than
  // the writer would use.
  lemma {:induction false} VarintTaken(b: Bytes, width: nat, lastMax: nat)
    requires lastMax < 128
    ensures TakeVarint(b, width, lastMax).Some? ==>
      var (n, rest) := TakeVarint(b, width, lastMax).value;
      n < VarintBound(width, lastMax) && Suffix(rest, b) && |PutVarint(n, rest)| <= |b|
  {
    if width != 0 && b != [] && b[0] >= 128 {
      VarintTaken(b[1..], width - 1, lastMax);
      match TakeVarint(b[1..], width - 1, lastMax) {
        case None =>
        case Some((high, rest)) =>
          var n := b[0] - 128 + 128 * high;
          assert n / 128 == high;
          VarintTail(high, [], rest);
          VarintTail(n, [], rest);
      }
    }
  }

  predicate Suffix(t: Bytes, b: Bytes) { |t| <= |b| && t == b[|b| - |t|..] }

  // --- Field types ---

  function PutU32(n: U32, tail: Bytes): Bytes { PutVarint(n, tail) }

  function TakeU32(b: Bytes): Option<(U32, Bytes)> {
    VarintTaken(b, 5, 15);
    VarintWidths();
    TakeVarint(b, 5, 15)
  }

  function PutLength(n: U64, tail: Bytes): Bytes { PutVarint(n, tail) }

  function TakeLength(b: Bytes): Option<(U64, Bytes)> {
    VarintTaken(b, 10, 1);
    VarintWidths();
    TakeVarint(b, 10, 1)
  }

  function PutOptionU32(o: Option<U32>, tail: Bytes): Bytes {
    match o
    case None => [0] + tail
    case Some(n) => [1] + PutU32(n, tail)
  }

  function TakeOptionU32(b: Bytes): Option<(Option<U32>, Bytes)> {
    if b == [] || b[0] > 1 then None
    else if b[0] == 0 then Some((None, b[1..]))
    else
      match TakeU32(b[1..])
      case None => None
      case Some((n, rest)) => Some((Some(n), rest))
  }

  function TakeByte(b: Bytes): Option<(Byte, Bytes)> { if b == [] then None else Some((b[0], b[1..])) }

  // A byte sequence that fits a 64-bit length.
  type ByteString = s: Bytes | |s| <= U64_MAX

  function PutBytes(s: ByteString, tail: Bytes): Bytes { PutLength(|s|, s + tail) }

  function TakeBytes(b: Bytes): Option<(ByteString, Bytes)> {
    match TakeLength(b)
    case None => None
    case Some((n, rest)) => if n > |rest| then None else Some((rest[..n], rest[n..]))
  }

  function TakeText(b: Bytes): Option<(ByteString, Bytes)> {
    match TakeBytes(b)
    case None => None
    case Some((s, rest)) => if Utf8.Valid(s) then Some((s, rest)) else None
  }

  lemma U32RoundTrip(n: U32, tail: Bytes)
    ensures TakeU32(PutU32(n, tail)) == Some((n, tail))
  {
    VarintWidths();
    VarintRoundTrip(n, 5, 15, tail);
  }

  lemma U32Taken(b: Bytes)
    ensures TakeU32(b).Some? ==>
      Suffix(TakeU32(b).value.1, b) && |PutU32(TakeU32(b).value.0, TakeU32(b).value.1)| <= |b|
  {
    VarintTaken(b, 5, 15);
  }

  lemma OptionRoundTrip(o: Option<U32>, tail: Bytes)
    ensures TakeOptionU32(PutOptionU32(o, tail)) == Some((o, tail))
  {
    if o.Some? {
      U32RoundTrip(o.value, tail);
    }
  }

  lemma OptionTail(o: Option<U32>, a: Bytes, b: Bytes)
    ensures PutOptionU32(o, a + b) == PutOptionU32(o, a) + b
  {
    if o.Some? {
      VarintTail(o.value, a, b);
    }
  }

  lemma OptionTaken(b: Bytes)
    ensures TakeOptionU32(b).Some? ==>
      Suffix(TakeOptionU32(b).value.1, b) && |PutOptionU32(TakeOptionU32(b).value.0, TakeOptionU32(b).value.1)| <= |b|
  {
    if b != [] && b[0] == 1 {
      U32Taken(b[1..]);
    }
  }

  lemma BytesRoundTrip(s: ByteString, tail: Bytes)
    ensures TakeBytes(PutBytes(s, tail)) == Some((s, tail))
  {
    VarintWidths();
    VarintRoundTrip(|s|, 10, 1, s + tail);
  }

  lemma BytesTail(s: ByteString, a: Bytes, b: Bytes)
    ensures PutBytes(s, a + b) == PutBytes(s, a) + b
  {
    assert s + (a + b) == (s + a) + b;
    VarintTail(|s|, s + a, b);
  }

  lemma BytesTaken(b: Bytes)
    ensures TakeBytes(b).Some? ==>
      Suffix(TakeBytes(b).value.1, b) && |PutBytes(TakeBytes(b).value.0, TakeBytes(b).value.1)| <= |b|
  {
    VarintTaken(b, 10, 1);
    if TakeBytes(b).Some? {
      var (n, rest) := TakeLength(b).value;
      assert rest[..n] + rest[n..] == rest;
    }
  }

  // --- Sorted maps from text to bytes ---

  datatype Entry = Entry(key: ByteString, value: ByteString)

  // String order: bytewise lexicographic.
  predicate Less(a: Bytes, b: Bytes) {
    b != [] && (a == [] || a[0] < b[0] || (a[0] == b[0] && Less(a[1..], b[1..])))
  }

  lemma {:induction false} LessTrichotomy(a: Bytes, b: Bytes)
    ensures a == b || Less(a, b) || Less(b, a)
    ensures !(Less(a, b) && Less(b, a)) && (a == b ==> !Less(a, b))
  {
    if a != [] && b != [] {
      LessTrichotomy(a[1..], b[1..]);
      assert a == [a[0]] + a[1..] && b == [b[0]] + b[1..];
    }
  }

  lemma {:induction false} LessTransitive(a: Bytes, b: Bytes, c: Bytes)
    requires Less(a, b) && Less(b, c)
    ensures Less(a, c)
  {
    if a != [] && a[0] == b[0] == c[0] {
      LessTransitive(a[1..], b[1..], c[1..]);
    }
  }

  predicate Sorted(m: seq<Entry>) { forall i, j :: 0 <= i < j < |m| ==> Less(m[i].key, m[j].key) }

  // BTreeMap insertion: a repeated key keeps its place and takes the new value.
  function Insert(m: seq<Entry>, e: Entry): seq<Entry> {
    if m == [] || Less(e.key, m[0].key) then [e] + m
    else if m[0].key == e.key then [e] + m[1..]
    else [m[0]] + Insert(m[1..], e)
  }

  lemma {:induction false} InsertSorted(m: seq<Entry>, e: Entry)
    requires Sorted(m)
    ensures Sorted(Insert(m, e))
    ensures forall x :: x in Insert(m, e) ==> x == e || x in m
  {
    if m == [] {
    } else if Less(e.key, m[0].key) {
      forall j | 0 < j < |m| ensures Less(e.key, m[j].key) {
        LessTransitive(e.key, m[0].key, m[j].key);
      }
    } else if m[0].key != e.key {
      LessTrichotomy(e.key, m[0].key);
      var rest := m[1..];
      InsertSorted(rest, e);
      forall x | x in Insert(rest, e) ensures Less(m[0].key, x.key) {
        if x != e {
          var i :| 0 <= i < |rest| && rest[i] == x;
          assert m[i + 1] == x;
        }
      }
    }
  }

  lemma {:induction false} InsertLast(m: seq<Entry>, e: Entry)
    requires Sorted(m + [e])
    ensures Insert(m, e) == m + [e]
  {
    if m != [] {
      assert (m + [e])[0] == m[0] && (m + [e])[|m|] == e;
      LessTrichotomy(m[0].key, e.key);
      assert m[1..] + [e] == (m + [e])[1..];
      InsertLast(m[1..], e);
      assert m == [m[0]] + m[1..];
    }
  }

  function PutEntries(m: seq<Entry>, tail: Bytes): Bytes {
    if m == [] then tail else PutBytes(m[0].key, PutBytes(m[0].value, PutEntries(m[1..], tail)))
  }

  function TakeEntries(b: Bytes, n: nat, acc: seq<Entry>): Option<(seq<Entry>, Bytes)>
    decreases n
  {
    if n == 0 then Some((acc, b))
    else
      match TakeText(b)
      case None => None
      case Some((key, afterKey)) =>
        match TakeBytes(afterKey)
        case None => None
        case Some((value, rest)) => TakeEntries(rest, n - 1, Insert(acc, Entry(key, value)))
  }

  // The shape of a BTreeMap<String, _>.
  ghost predicate TextKeys(m: seq<Entry>) { Sorted(m) && forall x :: x in m ==> Utf8.Valid(x.key) }

  // A map whose length fits 64 bits.
  type Entries = m: seq<Entry> | |m| <= U64_MAX

  function PutMap(m: Entries, tail: Bytes): Bytes { PutLength(|m|, PutEntries(m, tail)) }

  function TakeMap(b: Bytes): Option<(Entries, Bytes)> {
    match TakeLength(b)
    case None => None
    case Some((n, rest)) =>
      EntriesTaken(rest, n, []);
      match TakeEntries(rest, n, [])
      case None => None
      case Some((m, after)) => Some((m, after))
  }

  lemma {:induction false} EntriesRoundTrip(m: seq<Entry>, tail: Bytes, acc: seq<Entry>)
    requires Sorted(acc + m) && forall i :: 0 <= i < |m| ==> Utf8.Valid(m[i].key)
    ensures TakeEntries(PutEntries(m, tail), |m|, acc) == Some((acc + m, tail))
    decreases |m|
  {
    if m == [] {
      assert acc + m == acc;
    } else {
      var rest := PutEntries(m[1..], tail);
      BytesRoundTrip(m[0].key, PutBytes(m[0].value, rest));
      BytesRoundTrip(m[0].value, rest);
      NextEntryLast(acc, m);
      EntriesRoundTrip(m[1..], tail, acc + [m[0]]);
    }
  }

  lemma NextEntryLast(acc: seq<Entry>, m: seq<Entry>)
    requires Sorted(acc + m) && m != []
    ensures Insert(acc, Entry(m[0].key, m[0].value)) == acc + [m[0]]
    ensures acc + [m[0]] + m[1..] == acc + m
  {
    assert acc + [m[0]] == (acc + m)[..|acc| + 1];
    InsertLast(acc, m[0]);
    assert acc + [m[0]] + m[1..] == acc + m;
  }

  lemma MapRoundTrip(m: Entries, tail: Bytes)
    requires TextKeys(m)
    ensures TakeMap(PutMap(m, tail)) == Some((m, tail))
  {
    VarintWidths();
    VarintRoundTrip(|m|, 10, 1, PutEntries(m, tail));
    assert [] + m == m;
    EntriesRoundTrip(m, tail, []);
  }

  lemma {:induction false} EntriesTail(m: seq<Entry>, a: Bytes, b: Bytes)
    ensures PutEntries(m, a + b) == PutEntries(m, a) + b
  {
    if m != [] {
      var rest := PutEntries(m[1..], a);
      EntriesTail(m[1..], a, b);
      BytesTail(m[0].value, rest, b);
      BytesTail(m[0].key, PutBytes(m[0].value, rest), b);
    }
  }

  lemma MapTail(m: Entries, a: Bytes, b: Bytes)
    ensures PutMap(m, a + b) == PutMap(m, a) + b
  {
    EntriesTail(m, a, b);
    VarintTail(|m|, PutEntries(m, a), b);
  }

  lemma {:induction false} InsertSize(m: seq<Entry>, e: Entry)
    ensures |Insert(m, e)| <= |m| + 1
    ensures |PutEntries(Insert(m, e), [])| <= |PutEntries([e] + m, [])|
  {
    var r := Insert(m, e);
    EntrySize(e, m);
    if m == [] || Less(e.key, m[0].key) {
    } else {
      EntrySize(m[0], m[1..]);
      assert m == [m[0]] + m[1..];
      if m[0].key == e.key {
        EntrySize(e, m[1..]);
      } else {
        InsertSize(m[1..], e);
        EntrySize(e, m[1..]);
        EntrySize(m[0], Insert(m[1..], e));
      }
    }
  }

  lemma EntrySize(e: Entry, m: seq<Entry>)
    ensures |PutEntries([e] + m, [])| == |PutBytes(e.key, [])| + |PutBytes(e.value, [])| + |PutEntries(m, [])|
  {
    var rest := PutEntries(m, []);
    assert ([e] + m)[1..] == m && [] + rest == rest;
    BytesTail(e.value, [], rest);
    assert [] + PutBytes(e.value, rest) == PutBytes(e.value, rest);
    BytesTail(e.key, [], PutBytes(e.value, rest));
  }

  lemma {:induction false} VarintLength(m: nat, n: nat)
    requires m <= n
    ensures |PutVarint(m, [])| <= |PutVarint(n, [])|
  {
    if m >= 128 {
      VarintLength(m / 128, n / 128);
    }
  }

  lemma BytesTakenSize(b: Bytes)
    ensures TakeBytes(b).Some? ==> |PutBytes(TakeBytes(b).value.0, [])| + |TakeBytes(b).value.1| <= |b|
  {
    BytesTaken(b);
    if TakeBytes(b).Some? {
      var (s, rest) := TakeBytes(b).value;
      assert [] + rest == rest;
      BytesTail(s, [], rest);
    }
  }

  lemma InsertKeepsKeys(m: seq<Entry>, e: Entry)
    requires TextKeys(m) && Utf8.Valid(e.key)
    ensures TextKeys(Insert(m, e))
  {
    InsertSorted(m, e);
  }

  lemma EntryTaken(b: Bytes, acc: seq<Entry>)
    requires TakeText(b).Some? && TakeBytes(TakeText(b).value.1).Some?
    ensures
      var (key, afterKey) := TakeText(b).value;
      var (value, rest) := TakeBytes(afterKey).value;
      var acc' := Insert(acc, Entry(key, value));
      && Suffix(rest, b) && |acc'| <= |acc| + 1
      && |PutEntries(acc', [])| + |rest| <= |PutEntries(acc, [])| + |b|
  {
    var (key, afterKey) := TakeText(b).value;
    var (value, rest) := TakeBytes(afterKey).value;
    BytesTaken(b);
    BytesTaken(afterKey);
    BytesTakenSize(b);
    BytesTakenSize(afterKey);
    InsertSize(acc, Entry(key, value));
    EntrySize(Entry(key, value), acc);
  }

  lemma SuffixOfSuffix(a: Bytes, b: Bytes, c: Bytes)
    requires Suffix(a, b) && Suffix(b, c)
    ensures Suffix(a, c)
  {
  }

  // Whatever order and repetition the entries came in, what is read is a sorted map that
  // would be written in no more bytes.
  lemma {:induction false} EntriesTaken(b: Bytes, n: nat, acc: seq<Entry>)
    requires TextKeys(acc)
    ensures TakeEntries(b, n, acc).Some? ==>
      var (m, rest) := TakeEntries(b, n, acc).value;
      && Suffix(rest, b) && TextKeys(m) && |m| <= |acc| + n
      && |PutEntries(m, [])| + |rest| <= |PutEntries(acc, [])| + |b|
    decreases n
  {
    if n > 0 && TakeText(b).Some? {
      var (key, afterKey) := TakeText(b).value;
      if TakeBytes(afterKey).Some? {
        var (value, rest) := TakeBytes(afterKey).value;
        EntryTaken(b, acc);
        InsertKeepsKeys(acc, Entry(key, value));
        EntriesTaken(rest, n - 1, Insert(acc, Entry(key, value)));
        if TakeEntries(rest, n - 1, Insert(acc, Entry(key, value))).Some? {
          SuffixOfSuffix(TakeEntries(b, n, acc).value.1, rest, b);
        }
      }
    }
  }

  lemma LengthTaken(b: Bytes)
    ensures TakeLength(b).Some? ==>
      Suffix(TakeLength(b).value.1, b) && |PutLength(TakeLength(b).value.0, [])| + |TakeLength(b).value.1| <= |b|
  {
    VarintTaken(b, 10, 1);
    if TakeLength(b).Some? {
      var (n, rest) := TakeLength(b).value;
      assert [] + rest == rest;
      VarintTail(n, [], rest);
    }
  }

  lemma MapSize(m: Entries, tail: Bytes)
    ensures |PutMap(m, tail)| == |PutLength(|m|, [])| + |PutEntries(m, [])| + |tail|
  {
    assert [] + tail == tail && [] + PutEntries(m, tail) == PutEntries(m, tail);
    VarintTail(|m|, [], PutEntries(m, tail));
    EntriesTail(m, [], tail);
  }

  lemma MapTaken(b: Bytes)
    ensures TakeMap(b).Some? ==>
      var (m, rest) := TakeMap(b).value;
      TextKeys(m) && Suffix(rest, b) && |PutMap(m, rest)| <= |b|
  {
    if TakeMap(b).Some? {
      var (n, afterLength) := TakeLength(b).value;
      LengthTaken(b);
      EntriesTaken(afterLength, n, []);
      var (m, rest) := TakeMap(b).value;
      VarintLength(|m|, n);
      MapSize(m, rest);
    }
  }

  // ---- the format itself ----

  // Seven bits a byte, the first the least significant.
  function GroupValue(b: Bytes): nat {
    if b == [] then 0 else b[0] % 128 + 128 * GroupValue(b[1..])
  }

  // Byte k is the first without the continuation bit.
  ghost predicate EndsAt(b: Bytes, k: nat) {
    k < |b| && b[k] < 128 && forall i :: 0 <= i < k ==> b[i] >= 128
  }

  // A varint reads if and only if it ends within its width, and there in a byte of at most
  // lastMax; it then has the value of its groups. Padding with zero groups is allowed.
  lemma {:induction false} VarintReads(b: Bytes, width: nat, lastMax: nat, k: nat)
    requires EndsAt(b, k)
    ensures TakeVarint(b, width, lastMax)
         == if k < width && (k == width - 1 ==> b[k] <= lastMax) then Some((GroupValue(b[..k + 1]), b[k + 1..]))
            else None
  {
    if k > 0 && width > 0 {
      assert b[1..][k - 1] == b[k];
      VarintReads(b[1..], width - 1, lastMax, k - 1);
      assert b[..k + 1][1..] == b[1..][..k] && b[1..][k..] == b[k + 1..];
    } else if k == 0 {
      assert b[..1][1..] == [];
    }
  }

  lemma {:induction false} UnendedVarint(b: Bytes, width: nat, lastMax: nat)
    requires forall i :: 0 <= i < |b| ==> b[i] >= 128
    ensures TakeVarint(b, width, lastMax).None?
  {
    if width > 0 && b != [] {
      UnendedVarint(b[1..], width - 1, lastMax);
    }
  }

  // The written form ends in its last byte, has the value of its groups, and no needless
  // zero group at the end.
  lemma {:induction false} VarintWritten(n: nat)
    ensures var b := PutVarint(n, []);
      && b != [] && EndsAt(b, |b| - 1) && GroupValue(b) == n
      && (|b| > 1 ==> b[|b| - 1] != 0)
  {
    if n >= 128 {
      VarintWritten(n / 128);
      var b := PutVarint(n, []);
      assert b[1..] == PutVarint(n / 128, []);
    } else {
      assert PutVarint(n, [])[1..] == [];
    }
  }

  // An option is a tag and, after tag one, the number; no other tag reads.
  lemma OptionLayout(n: U32, b: Bytes)
    ensures PutOptionU32(None, []) == [0] && PutOptionU32(Some(n), []) == [1] + PutVarint(n, [])
    ensures b != [] && b[0] > 1 ==> TakeOptionU32(b).None?
  {
  }

  // A byte string is its length and its bytes; text reads only as UTF-8.
  lemma BytesLayout(s: ByteString, b: Bytes)
    ensures PutBytes(s, []) == PutVarint(|s|, []) + s
    ensures TakeText(b) == if TakeBytes(b).Some? && Utf8.Valid(TakeBytes(b).value.0) then TakeBytes(b) else None
  {
    assert s + [] == s && [] + s == s;
    VarintTail(|s|, [], s);
  }

  // An entry is its key and its value, each behind its length.
  lemma EntryLayout(e: Entry, m: seq<Entry>)
    ensures PutEntries([e] + m, [])
         == PutVarint(|e.key|, []) + e.key + PutVarint(|e.value|, []) + e.value + PutEntries(m, [])
  {
    var rest := PutEntries(m, []);
    var afterKey := PutBytes(e.value, rest);
    assert ([e] + m)[1..] == m && [] + rest == rest && [] + afterKey == afterKey;
    BytesTail(e.value, [], rest);
    BytesTail(e.key, [], afterKey);
    BytesLayout(e.value, []);
    BytesLayout(e.key, []);
    Flatten(PutVarint(|e.key|, []), e.key, PutVarint(|e.value|, []), e.value, rest);
  }

  lemma Flatten(a: Bytes, b: Bytes, c: Bytes, d: Bytes, e: Bytes)
    ensures (a + b) + ((c + d) + e) == a + b + c + d + e
  {
  }

  // The order of keys: a proper prefix comes first, otherwise the first differing byte
  // decides.
  lemma {:induction false} LessExactly(a: Bytes, b: Bytes)
    ensures Less(a, b) <==> a < b || exists i :: Differs(a, b, i)
  {
    if a != [] && b != [] {
      assert a == [a[0]] + a[1..] && b == [b[0]] + b[1..];
      LessExactly(a[1..], b[1..]);
      if a[0] < b[0] {
        assert Differs(a, b, 0);
      } else if a[0] == b[0] {
        SameHead(a, b);
      } else {
        forall i ensures !Differs(a, b, i) {
        }
      }
    }
  }

  // The two agree before byte i, and there a is the smaller.
  ghost predicate Differs(a: Bytes, b: Bytes, i: int) {
    0 <= i < |a| && i < |b| && a[i] < b[i] && forall j :: 0 <= j < i ==> a[j] == b[j]
  }

  lemma SameHead(a: Bytes, b: Bytes)
    requires a != [] && b != [] && a[0] == b[0]
    ensures (a < b <==> a[1..] < b[1..])
    ensures (exists i :: Differs(a, b, i)) <==> exists i :: Differs(a[1..], b[1..], i)
  {
    assert a == [a[0]] + a[1..] && b == [b[0]] + b[1..];
    if i :| Differs(a, b, i) {
      assert Differs(a[1..], b[1..], i - 1);
    }
    if i :| Differs(a[1..], b[1..], i) {
      forall j | 0 <= j < i + 1 ensures a[j] == b[j] {
        if j > 0 {
          assert a[1..][j - 1] == b[1..][j - 1];
        }
      }
      assert Differs(a, b, i + 1);
    }
  }

  function Find(m: seq<Entry>, key: ByteString): Option<ByteString> {
    if m == [] then None else if m[0].key == key then Some(m[0].value) else Find(m[1..], key)
  }

  // An insertion binds its key to its value and no other key otherwise.
  lemma {:induction false} InsertFinds(m: seq<Entry>, e: Entry, key: ByteString)
    ensures Sorted(m) ==> Find(Insert(m, e), key) == if key == e.key then Some(e.value) else Find(m, key)
  {
    if m != [] && Sorted(m) {
      assert Sorted(m[1..]);
      InsertFinds(m[1..], e, key);
    }
  }

  // The entries as they stand in the bytes.
  function ReadEntries(b: Bytes, n: nat): Option<(seq<Entry>, Bytes)>
    decreases n
  {
    if n == 0 then Some(([], b))
    else
      match TakeText(b)
      case None => None
      case Some((key, afterKey)) =>
        match TakeBytes(afterKey)
        case None => None
        case Some((value, rest)) =>
          match ReadEntries(rest, n - 1)
          case None => None
          case Some((es, after)) => Some(([Entry(key, value)] + es, after))
  }

  // The value of a key's last entry, or what was there before.
  function LastValue(es: seq<Entry>, key: ByteString, before: Option<ByteString>): Option<ByteString> {
    if es == [] then before
    else LastValue(es[1..], key, if es[0].key == key then Some(es[0].value) else before)
  }

  // A map reads whenever its entries do, and a key's last entry gives its value.
  lemma {:induction false} LastEntryWins(b: Bytes, n: nat, acc: seq<Entry>, key: ByteString)
    requires TextKeys(acc)
    ensures TakeEntries(b, n, acc).Some? <==> ReadEntries(b, n).Some?
    ensures ReadEntries(b, n).Some? ==>
      && TakeEntries(b, n, acc).value.1 == ReadEntries(b, n).value.1
      && Find(TakeEntries(b, n, acc).value.0, key) == LastValue(ReadEntries(b, n).value.0, key, Find(acc, key))
    decreases n
  {
    if n > 0 && TakeText(b).Some? {
      var (k, afterKey) := TakeText(b).value;
      if TakeBytes(afterKey).Some? {
        var (value, rest) := TakeBytes(afterKey).value;
        var e := Entry(k, value);
        InsertKeepsKeys(acc, e);
        InsertFinds(acc, e, key);
        LastEntryWins(rest, n - 1, Insert(acc, e), key);
      }
    }
  }
}

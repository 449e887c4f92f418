// The Updater role: rewrites global.expiry_height inside the postcard prefix of a PCZT.
module UpdaterSpec {
  import opened Prelude
  import opened Postcard

  datatype Global = Global(txVersion: U32, versionGroupId: U32, consensusBranchId: U32,
                           fallbackLockTime: Option<U32>, expiryHeight: U32, coinType: U32,
                           txModifiable: Byte, proprietary: Entries)

  datatype PcztError = HeaderTruncated | GlobalUnreadable

  // 4-byte magic and 4-byte version.
  const HEADER_LEN := 8

  // A global section a process can hold.
  ghost predicate WellFormed(g: Global) { TextKeys(g.proprietary) }

  function PutGlobal(g: Global, tail: Bytes): Bytes {
    PutU32(g.txVersion, PutU32(g.versionGroupId, PutU32(g.consensusBranchId,
      PutOptionU32(g.fallbackLockTime, PutU32(g.expiryHeight, PutU32(g.coinType,
        [g.txModifiable] + PutMap(g.proprietary, tail)))))))
  }

  // tx_version, version_group_id and consensus_branch_id.
  function TakeVersions(b: Bytes): Option<(U32, U32, U32, Bytes)> {
    match TakeU32(b) case None => None case Some((txVersion, b1)) =>
    match TakeU32(b1) case None => None case Some((versionGroupId, b2)) =>
    match TakeU32(b2) case None => None case Some((consensusBranchId, rest)) =>
      Some((txVersion, versionGroupId, consensusBranchId, rest))
  }

  // fallback_lock_time, expiry_height and coin_type.
  function TakeHeights(b: Bytes): Option<(Option<U32>, U32, U32, Bytes)> {
    match TakeOptionU32(b) case None => None case Some((fallbackLockTime, b1)) =>
    match TakeU32(b1) case None => None case Some((expiryHeight, b2)) =>
    match TakeU32(b2) case None => None case Some((coinType, rest)) =>
      Some((fallbackLockTime, expiryHeight, coinType, rest))
  }

  function TakeGlobal(b: Bytes): Option<(Global, Bytes)> {
    match TakeVersions(b) case None => None case Some((txVersion, versionGroupId, consensusBranchId, b1)) =>
    match TakeHeights(b1) case None => None case Some((fallbackLockTime, expiryHeight, coinType, b2)) =>
    match TakeByte(b2) case None => None case Some((txModifiable, b3)) =>
    match TakeMap(b3) case None => None case Some((proprietary, rest)) =>
      Some((Global(txVersion, versionGroupId, consensusBranchId, fallbackLockTime,
                   expiryHeight, coinType, txModifiable, proprietary), rest))
  }

  function Ser(g: Global): Bytes { PutGlobal(g, []) }

  // What finishing returns: the bytes themselves when nothing is pending.
  function Finished(bytes: Bytes, pending: Option<U32>): Result<Bytes, PcztError> {
    if pending.None? then Ok(bytes)
    else if |bytes| < HEADER_LEN then Err(HeaderTruncated)
    else
      match TakeGlobal(bytes[HEADER_LEN..])
      case None => Err(GlobalUnreadable)
      case Some((global, tail)) =>
        Ok(bytes[..HEADER_LEN] + Ser(global.(expiryHeight := pending.value)) + tail)
  }

  lemma GlobalRoundTrip(g: Global, tail: Bytes)
    requires WellFormed(g)
    ensures TakeGlobal(PutGlobal(g, tail)) == Some((g, tail))
  {
    var b7 := PutMap(g.proprietary, tail);
    MapRoundTrip(g.proprietary, tail);
    var b6 := [g.txModifiable] + b7;
    assert b6[1..] == b7;
    U32RoundTrip(g.coinType, b6);
    var b5 := PutU32(g.coinType, b6);
    U32RoundTrip(g.expiryHeight, b5);
    var b4 := PutU32(g.expiryHeight, b5);
    OptionRoundTrip(g.fallbackLockTime, b4);
    var b3 := PutOptionU32(g.fallbackLockTime, b4);
    U32RoundTrip(g.consensusBranchId, b3);
    var b2 := PutU32(g.consensusBranchId, b3);
    U32RoundTrip(g.versionGroupId, b2);
    U32RoundTrip(g.txVersion, PutU32(g.versionGroupId, b2));
  }

  lemma GlobalTail(g: Global, tail: Bytes)
    ensures PutGlobal(g, tail) == Ser(g) + tail
  {
    MapTail(g.proprietary, [], tail);
    assert [] + tail == tail;
    var m := PutMap(g.proprietary, []);
    var b6 := [g.txModifiable] + m;
    assert [g.txModifiable] + (m + tail) == b6 + tail;
    VarintTail(g.coinType, b6, tail);
    var b5 := PutU32(g.coinType, b6);
    VarintTail(g.expiryHeight, b5, tail);
    var b4 := PutU32(g.expiryHeight, b5);
    OptionTail(g.fallbackLockTime, b4, tail);
    var b3 := PutOptionU32(g.fallbackLockTime, b4);
    VarintTail(g.consensusBranchId, b3, tail);
    var b2 := PutU32(g.consensusBranchId, b3);
    VarintTail(g.versionGroupId, b2, tail);
    VarintTail(g.txVersion, PutU32(g.versionGroupId, b2), tail);
  }

  // The fields in their order, each in its own format.
  lemma GlobalLayout(g: Global)
    ensures Ser(g)
         == PutVarint(g.txVersion, []) + PutVarint(g.versionGroupId, []) + PutVarint(g.consensusBranchId, [])
            + PutOptionU32(g.fallbackLockTime, []) + PutVarint(g.expiryHeight, []) + PutVarint(g.coinType, [])
            + [g.txModifiable] + PutVarint(|g.proprietary|, []) + PutEntries(g.proprietary, [])
  {
    var entries := PutEntries(g.proprietary, []);
    var length, coin := PutVarint(|g.proprietary|, []), PutVarint(g.coinType, []);
    var expiry, lock := PutVarint(g.expiryHeight, []), PutOptionU32(g.fallbackLockTime, []);
    var branch, group := PutVarint(g.consensusBranchId, []), PutVarint(g.versionGroupId, []);
    var b7 := length + entries;
    Put(|g.proprietary|, entries);
    var b6 := [g.txModifiable] + b7;
    Put(g.coinType, b6);
    var b5 := coin + b6;
    Put(g.expiryHeight, b5);
    var b4 := expiry + b5;
    PutOption(g.fallbackLockTime, b4);
    var b3 := lock + b4;
    Put(g.consensusBranchId, b3);
    Put(g.versionGroupId, branch + b3);
    Put(g.txVersion, group + (branch + b3));
    Flatten(PutVarint(g.txVersion, []), group, branch, lock, expiry, coin, [g.txModifiable], length, entries);
  }

  lemma Put(n: nat, tail: Bytes)
    ensures PutVarint(n, tail) == PutVarint(n, []) + tail
  {
    assert [] + tail == tail;
    VarintTail(n, [], tail);
  }

  lemma PutOption(o: Option<U32>, tail: Bytes)
    ensures PutOptionU32(o, tail) == PutOptionU32(o, []) + tail
  {
    assert [] + tail == tail;
    OptionTail(o, [], tail);
  }

  lemma Flatten(a: Bytes, b: Bytes, c: Bytes, d: Bytes, e: Bytes, f: Bytes, g: Bytes, h: Bytes, i: Bytes)
    ensures a + (b + (c + (d + (e + (f + (g + (h + i))))))) == a + b + c + d + e + f + g + h + i
  {
  }

  // Finishing without a pending height is free; with one, fewer than eight bytes or a body
  // that does not read is an error.
  lemma FinishDecides(bytes: Bytes, height: U32)
    ensures Finished(bytes, None) == Ok(bytes)
    ensures |bytes| < 8 ==> Finished(bytes, Some(height)) == Err(HeaderTruncated)
    ensures |bytes| >= 8 ==> (Finished(bytes, Some(height)) == Err(GlobalUnreadable) <==> TakeGlobal(bytes[8..]).None?)
    ensures |bytes| >= 8 && TakeGlobal(bytes[8..]).Some? ==> Finished(bytes, Some(height)).Ok?
  {
  }

  // On a serialised PCZT, finishing replaces the expiry height and nothing else.
  lemma FinishRewritesExpiry(header: Bytes, g: Global, tail: Bytes, height: U32)
    requires |header| == 8 && WellFormed(g)
    ensures Finished(header + Ser(g) + tail, Some(height))
         == Ok(header + Ser(g.(expiryHeight := height)) + tail)
  {
    var bytes := header + Ser(g) + tail;
    BehindHeader(header, Ser(g), tail);
    ReadsBack(bytes[HEADER_LEN..], g, tail);
  }

  // The prefix is self-delimiting: no other global section and tail make the same bytes.
  lemma GlobalUnambiguous(g: Global, tail: Bytes, g': Global, tail': Bytes)
    requires WellFormed(g) && WellFormed(g') && Ser(g) + tail == Ser(g') + tail'
    ensures g == g' && tail == tail'
  {
    ReadsBack(Ser(g) + tail, g, tail);
    ReadsBack(Ser(g') + tail', g', tail');
  }

  lemma VersionsTaken(b: Bytes)
    ensures TakeVersions(b).Some? ==>
      var (v, i, c, rest) := TakeVersions(b).value;
      Suffix(rest, b) && |PutU32(v, [])| + |PutU32(i, [])| + |PutU32(c, [])| + |rest| <= |b|
  {
    if TakeVersions(b).Some? {
      var b1 := TakeU32(b).value.1;
      FieldTaken(b);
      FieldTaken(b1);
      FieldTaken(TakeU32(b1).value.1);
    }
  }

  lemma HeightsTaken(b: Bytes)
    ensures TakeHeights(b).Some? ==>
      var (f, e, c, rest) := TakeHeights(b).value;
      Suffix(rest, b) && |PutOptionU32(f, [])| + |PutU32(e, [])| + |PutU32(c, [])| + |rest| <= |b|
  {
    if TakeHeights(b).Some? {
      var b1 := TakeOptionU32(b).value.1;
      OptionFieldTaken(b);
      FieldTaken(b1);
      FieldTaken(TakeU32(b1).value.1);
    }
  }

  // Any bytes that read, canonical or not: the section read is well formed, what is left
  // is a suffix, and the section takes no more bytes when it is written again.
  lemma GlobalTaken(b: Bytes, g: Global, tail: Bytes)
    requires TakeGlobal(b) == Some((g, tail))
    ensures WellFormed(g) && Suffix(tail, b) && |Ser(g)| + |tail| <= |b|
  {
    var b1 := TakeVersions(b).value.3;
    var b2 := TakeHeights(b1).value.3;
    VersionsTaken(b);
    HeightsTaken(b1);
    MapTaken(b2[1..]);
    MapSize(g.proprietary, tail);
    MapSize(g.proprietary, []);
    GlobalSize(g);
  }

  lemma FieldTaken(b: Bytes)
    ensures TakeU32(b).Some? ==>
      Suffix(TakeU32(b).value.1, b) && |PutU32(TakeU32(b).value.0, [])| + |TakeU32(b).value.1| <= |b|
  {
    U32Taken(b);
    if TakeU32(b).Some? {
      var (n, rest) := TakeU32(b).value;
      assert [] + rest == rest;
      VarintTail(n, [], rest);
    }
  }

  lemma OptionFieldTaken(b: Bytes)
    ensures TakeOptionU32(b).Some? ==>
      && Suffix(TakeOptionU32(b).value.1, b)
      && |PutOptionU32(TakeOptionU32(b).value.0, [])| + |TakeOptionU32(b).value.1| <= |b|
  {
    OptionTaken(b);
    if TakeOptionU32(b).Some? {
      var (o, rest) := TakeOptionU32(b).value;
      assert [] + rest == rest;
      OptionTail(o, [], rest);
    }
  }

  lemma VarintSize(n: nat, tail: Bytes)
    ensures |PutVarint(n, tail)| == |PutVarint(n, [])| + |tail|
  {
    assert [] + tail == tail;
    VarintTail(n, [], tail);
  }

  lemma GlobalSize(g: Global)
    ensures |Ser(g)| == |PutU32(g.txVersion, [])| + |PutU32(g.versionGroupId, [])| + |PutU32(g.consensusBranchId, [])|
      + |PutOptionU32(g.fallbackLockTime, [])| + |PutU32(g.expiryHeight, [])| + |PutU32(g.coinType, [])|
      + 1 + |PutMap(g.proprietary, [])|
  {
    var b6 := [g.txModifiable] + PutMap(g.proprietary, []);
    VarintSize(g.coinType, b6);
    var b5 := PutU32(g.coinType, b6);
    VarintSize(g.expiryHeight, b5);
    var b4 := PutU32(g.expiryHeight, b5);
    assert [] + b4 == b4;
    OptionTail(g.fallbackLockTime, [], b4);
    var b3 := PutOptionU32(g.fallbackLockTime, b4);
    VarintSize(g.consensusBranchId, b3);
    var b2 := PutU32(g.consensusBranchId, b3);
    VarintSize(g.versionGroupId, b2);
    VarintSize(g.txVersion, PutU32(g.versionGroupId, b2));
  }

  // Every accepted input, canonical or not, ends as a serialised PCZT whose global section
  // reads back with the same other fields and the new height, in front of the same tail.
  lemma FieldsSurvive(bytes: Bytes, height: U32, g: Global, tail: Bytes)
    requires |bytes| >= HEADER_LEN && TakeGlobal(bytes[HEADER_LEN..]) == Some((g, tail))
    ensures Finished(bytes, Some(height)).Ok?
    ensures
      var out := Finished(bytes, Some(height)).value;
      && |out| >= HEADER_LEN && out[..HEADER_LEN] == bytes[..HEADER_LEN]
      && TakeGlobal(out[HEADER_LEN..]) == Some((g.(expiryHeight := height), tail))
      && Suffix(tail, bytes)
  {
    var header := bytes[..HEADER_LEN];
    GlobalTaken(bytes[HEADER_LEN..], g, tail);
    RewrittenReadsBack(header, g.(expiryHeight := height), tail);
    assert Finished(bytes, Some(height)) == Ok(header + Ser(g.(expiryHeight := height)) + tail);
  }

  lemma RewrittenReadsBack(header: Bytes, g: Global, tail: Bytes)
    requires |header| == HEADER_LEN && WellFormed(g)
    ensures var out := header + Ser(g) + tail;
      out[..HEADER_LEN] == header && TakeGlobal(out[HEADER_LEN..]) == Some((g, tail))
  {
    ReadsBack(Ser(g) + tail, g, tail);
    BehindHeader(header, Ser(g), tail);
  }

  lemma BehindHeader(header: Bytes, section: Bytes, tail: Bytes)
    ensures var out := header + section + tail;
      out == header + (section + tail) && out[..|header|] == header && out[|header|..] == section + tail
  {
  }

  lemma ReadsBack(b: Bytes, g: Global, tail: Bytes)
    requires WellFormed(g) && b == Ser(g) + tail
    ensures TakeGlobal(b) == Some((g, tail))
  {
    GlobalTail(g, tail);
    GlobalRoundTrip(g, tail);
  }

  // Updating twice is updating once with the last height, and the height never decides
  // whether the update succeeds.
  lemma LastHeightWins(bytes: Bytes, first: U32, last: U32)
    ensures Finished(bytes, Some(first)).Ok? <==> Finished(bytes, Some(last)).Ok?
    ensures Finished(bytes, Some(first)).Ok? ==>
      Finished(Finished(bytes, Some(first)).value, Some(last)) == Finished(bytes, Some(last))
  {
    if Finished(bytes, Some(first)).Ok? {
      var (g, tail) := TakeGlobal(bytes[HEADER_LEN..]).value;
      FieldsSurvive(bytes, first, g, tail);
    }
  }

  // Committing the height a PCZT already has changes nothing exactly when its global
  // section is in the form the writer uses; it never makes the bytes longer.
  lemma SameHeightIdentity(bytes: Bytes, g: Global, tail: Bytes)
    requires |bytes| >= HEADER_LEN && TakeGlobal(bytes[HEADER_LEN..]) == Some((g, tail))
    ensures
      var out := Finished(bytes, Some(g.expiryHeight));
      && out.Ok? && |out.value| <= |bytes|
      && (out.value == bytes <==> Ser(g) <= bytes[HEADER_LEN..])
  {
    var header, body := bytes[..HEADER_LEN], bytes[HEADER_LEN..];
    GlobalTaken(body, g, tail);
    assert g.(expiryHeight := g.expiryHeight) == g;
    WriterForm(body, g, tail);
    BehindHeader(header, Ser(g), tail);
    SameBehindHeader(header, body, Ser(g) + tail);
    assert bytes == header + body;
  }

  lemma SameBehindHeader(header: Bytes, a: Bytes, b: Bytes)
    ensures header + a == header + b <==> a == b
  {
    assert (header + a)[|header|..] == a && (header + b)[|header|..] == b;
  }

  // A body is the written section and the tail exactly when it starts with that section.
  lemma WriterForm(body: Bytes, g: Global, tail: Bytes)
    requires TakeGlobal(body) == Some((g, tail)) && WellFormed(g)
    ensures Ser(g) <= body <==> body == Ser(g) + tail
  {
    if Ser(g) <= body {
      var rest := body[|Ser(g)|..];
      assert body == Ser(g) + rest;
      ReadsBack(body, g, rest);
    }
  }
}

module PcztUpdater {
  import opened Prelude
  import opened Postcard
  import opened UpdaterSpec

  class Updater<Network> {
    var bytes: Bytes
    const network: Network
    var pendingExpiryHeight: Option<U32>

    constructor (pczt: Bytes, network: Network)
      ensures bytes == pczt && this.network == network && pendingExpiryHeight == None
    {
      bytes, this.network, pendingExpiryHeight := pczt, network, None;
    }

    method WithGlobalExpiryHeight(height: U32)
      modifies this`pendingExpiryHeight
      ensures pendingExpiryHeight == Some(height)
    {
      pendingExpiryHeight := Some(height);
    }

    method Finish() returns (r: Result<(Bytes, Network), PcztError>)
      ensures match Finished(bytes, pendingExpiryHeight)
        case Err(e) => r == Err(e)
        case Ok(out) => r == Ok((out, network))
    {
      if pendingExpiryHeight.None? {
        return Ok((bytes, network));
      }
      if |bytes| < HEADER_LEN {
        return Err(HeaderTruncated);
      }
      var header, body := bytes[..HEADER_LEN], bytes[HEADER_LEN..];
      var taken := TakeGlobal(body);
      if taken.None? {
        return Err(GlobalUnreadable);
      }
      var (global, tail) := taken.value;
      global := global.(expiryHeight := pendingExpiryHeight.value);
      var rebuilt := header;
      rebuilt := rebuilt + Ser(global);
      rebuilt := rebuilt + tail;
      return Ok((rebuilt, network));
    }
  }

  // A caller that commits any number of heights before it finishes: the last one counts,
  // and with none the bytes come back as they were.
  method CommitHeights<Network>(pczt: Bytes, network: Network, heights: seq<U32>)
    returns (r: Result<(Bytes, Network), PcztError>)
    ensures match Finished(pczt, if heights == [] then None else Some(heights[|heights| - 1]))
      case Err(e) => r == Err(e)
      case Ok(out) => r == Ok((out, network))
  {
    var updater := new Updater(pczt, network);
    for i := 0 to |heights|
      invariant updater.bytes == pczt
      invariant updater.pendingExpiryHeight == if i == 0 then None else Some(heights[i - 1])
    {
      updater.WithGlobalExpiryHeight(heights[i]);
    }
    r := updater.Finish();
  }
}

// Greedy selection of the notes a reservation records, and the amounts derived from note
// lists. A candidate is the part of an unspent-note row that selection reads.
module NoteSelection {
  import opened Prelude
  import opened LockedNotes

  function Sum(notes: seq<HeldNote>): nat {
    if notes == [] then 0 else Sum(notes[..|notes| - 1]) + notes[|notes| - 1].valueZat
  }

  // The wallet's folds saturate at u64::MAX.
  function SaturatingSum(notes: seq<HeldNote>): U64 {
    if notes == [] then 0 else SaturatingAdd(SaturatingSum(notes[..|notes| - 1]), notes[|notes| - 1].valueZat)
  }

  predicate Descending(s: seq<HeldNote>) {
    forall i, j :: 0 <= i < j < |s| ==> s[i].valueZat >= s[j].valueZat
  }

  // Stable: behind every note of at least its value.
  function InsertDescending(s: seq<HeldNote>, x: HeldNote): seq<HeldNote> {
    if s == [] || s[|s| - 1].valueZat >= x.valueZat then s + [x]
    else InsertDescending(s[..|s| - 1], x) + [s[|s| - 1]]
  }

  // sort_by_key(|n| Reverse(n.value_zat))
  function SortDescending(s: seq<HeldNote>): seq<HeldNote> {
    if s == [] then [] else InsertDescending(SortDescending(s[..|s| - 1]), s[|s| - 1])
  }

  // How many notes of s the greedy loop takes, from the first `taken` on.
  function TakeCount(s: seq<HeldNote>, amount: Zatoshis, taken: nat): nat
    requires taken <= |s|
    decreases |s| - taken
  {
    if taken == |s| || Sum(s[..taken]) >= amount then taken else TakeCount(s, amount, taken + 1)
  }

  function Selection(candidates: seq<HeldNote>, amount: Zatoshis): seq<HeldNote> {
    var sorted := SortDescending(candidates);
    TakeCountBounds(sorted, amount, 0);
    sorted[..TakeCount(sorted, amount, 0)]
  }

  method SelectLockedNotes(candidates: seq<HeldNote>, amount: Zatoshis) returns (taken: seq<HeldNote>)
    ensures taken == Selection(candidates, amount)
  {
    var sorted := SortDescending(candidates);
    taken := [];
    var running: U64 := 0;
    var i := 0;
    TakeCountBounds(sorted, amount, 0);
    while i < |sorted|
      invariant i <= |sorted| && taken == sorted[..i]
      invariant running == SaturatingSum(sorted[..i])
      invariant TakeCount(sorted, amount, 0) == TakeCount(sorted, amount, i)
    {
      SaturatingSumIs(sorted[..i]);
      if running >= amount {
        return;
      }
      assert sorted[..i + 1][..i] == sorted[..i];
      running := SaturatingAdd(running, sorted[i].valueZat);
      taken := taken + [sorted[i]];
      i := i + 1;
    }
  }

  lemma {:induction false} SaturatingSumIs(notes: seq<HeldNote>)
    ensures SaturatingSum(notes) == Min(Sum(notes), U64_MAX)
  {
    if notes != [] {
      SaturatingSumIs(notes[..|notes| - 1]);
    }
  }

  lemma {:induction false} TakeCountBounds(s: seq<HeldNote>, amount: Zatoshis, taken: nat)
    requires taken <= |s|
    ensures var k := TakeCount(s, amount, taken);
      taken <= k <= |s| && (k < |s| ==> Sum(s[..k]) >= amount) && (k > taken ==> Sum(s[..k - 1]) < amount)
    decreases |s| - taken
  {
    if taken < |s| && Sum(s[..taken]) < amount {
      TakeCountBounds(s, amount, taken + 1);
    }
  }

  lemma {:induction false} InsertElements(s: seq<HeldNote>, x: HeldNote)
    ensures multiset(InsertDescending(s, x)) == multiset(s) + multiset{x}
    ensures forall n :: n in InsertDescending(s, x) ==> n == x || n in s
  {
    if s != [] && s[|s| - 1].valueZat < x.valueZat {
      InsertElements(s[..|s| - 1], x);
      assert s == s[..|s| - 1] + [s[|s| - 1]];
    }
  }

  lemma {:induction false} InsertKeepsDescending(s: seq<HeldNote>, x: HeldNote)
    requires Descending(s)
    ensures Descending(InsertDescending(s, x))
  {
    if s != [] && s[|s| - 1].valueZat < x.valueZat {
      var front, last := InsertDescending(s[..|s| - 1], x), s[|s| - 1];
      InsertKeepsDescending(s[..|s| - 1], x);
      InsertElements(s[..|s| - 1], x);
      forall i | 0 <= i < |front| ensures front[i].valueZat >= last.valueZat {
        assert front[i] in front;
      }
    }
  }

  lemma {:induction false} SortEffect(s: seq<HeldNote>)
    ensures Descending(SortDescending(s)) && multiset(SortDescending(s)) == multiset(s)
  {
    if s != [] {
      SortEffect(s[..|s| - 1]);
      InsertElements(SortDescending(s[..|s| - 1]), s[|s| - 1]);
      InsertKeepsDescending(SortDescending(s[..|s| - 1]), s[|s| - 1]);
      assert s == s[..|s| - 1] + [s[|s| - 1]];
    }
  }

  lemma {:induction false} SumSplit(a: seq<HeldNote>, b: seq<HeldNote>)
    ensures Sum(a + b) == Sum(a) + Sum(b)
  {
    if b == [] {
      assert a + b == a;
    } else {
      SumSplit(a, b[..|b| - 1]);
      assert (a + b)[..|a + b| - 1] == a + b[..|b| - 1];
    }
  }

  lemma SumSnoc(s: seq<HeldNote>, x: HeldNote)
    ensures Sum(s + [x]) == Sum(s) + x.valueZat
  {
    assert (s + [x])[..|s|] == s;
  }

  // Taking one occurrence of x out of s.
  lemma Without(s: seq<HeldNote>, x: HeldNote) returns (rest: seq<HeldNote>)
    requires x in s
    ensures multiset(rest) == multiset(s) - multiset{x} && |rest| == |s| - 1 && Sum(rest) == Sum(s) - x.valueZat
  {
    var i :| 0 <= i < |s| && s[i] == x;
    rest := s[..i] + s[i + 1..];
    assert s == s[..i] + [x] + s[i + 1..];
    SumSplit(s[..i], s[i + 1..]);
    SumSplit(s[..i] + [x], s[i + 1..]);
    SumSnoc(s[..i], x);
  }

  lemma {:induction false} EqualMultisetsEqualSums(a: seq<HeldNote>, b: seq<HeldNote>)
    requires multiset(a) == multiset(b)
    ensures Sum(a) == Sum(b) && |a| == |b|
  {
    if a == [] {
      assert |multiset(b)| == 0;
    } else {
      var x := a[|a| - 1];
      assert a == a[..|a| - 1] + [x];
      assert x in multiset(b);
      var rest := Without(b, x);
      EqualMultisetsEqualSums(a[..|a| - 1], rest);
    }
  }

  // No sub-multiset outweighs the leading notes of a descending list, note for note.
  lemma {:induction false} PrefixIsHeaviest(s: seq<HeldNote>, pick: seq<HeldNote>)
    requires Descending(s) && multiset(pick) <= multiset(s)
    ensures |pick| <= |s| && Sum(pick) <= Sum(s[..|pick|])
    decreases |s|
  {
    if pick != [] {
      assert pick[0] in multiset(pick);
      if s[|s| - 1] in pick {
        HeaviestWithLast(s, pick);
      } else {
        HeaviestWithoutLast(s, pick);
      }
    }
  }

  lemma {:induction false} HeaviestWithLast(s: seq<HeldNote>, pick: seq<HeldNote>)
    requires Descending(s) && multiset(pick) <= multiset(s) && s != [] && s[|s| - 1] in pick
    ensures |pick| <= |s| && Sum(pick) <= Sum(s[..|pick|])
    decreases |s|, 0
  {
    var last, front := s[|s| - 1], s[..|s| - 1];
    var rest := Without(pick, last);
    assert multiset(rest) <= multiset(front) by { assert s == front + [last]; }
    PrefixIsHeaviest(front, rest);
    PrefixGrows(s, |rest|);
    PrefixOfFront(s, |rest|);
  }

  lemma {:induction false} HeaviestWithoutLast(s: seq<HeldNote>, pick: seq<HeldNote>)
    requires Descending(s) && multiset(pick) <= multiset(s) && s != [] && s[|s| - 1] !in pick
    ensures |pick| <= |s| && Sum(pick) <= Sum(s[..|pick|])
    decreases |s|, 0
  {
    SubMultisetOfFront(s, pick);
    PrefixIsHeaviest(s[..|s| - 1], pick);
    PrefixOfFront(s, |pick|);
  }

  lemma PrefixOfFront(s: seq<HeldNote>, k: nat)
    requires k < |s|
    ensures s[..|s| - 1][..k] == s[..k]
  {
  }

  lemma PrefixGrows(s: seq<HeldNote>, k: nat)
    requires Descending(s) && k < |s|
    ensures Sum(s[..k + 1]) == Sum(s[..k]) + s[k].valueZat >= Sum(s[..k]) + s[|s| - 1].valueZat
  {
    assert s[..k + 1] == s[..k] + [s[k]];
    SumSnoc(s[..k], s[k]);
  }

  lemma SubMultisetOfFront(s: seq<HeldNote>, pick: seq<HeldNote>)
    requires s != [] && multiset(pick) <= multiset(s) && s[|s| - 1] !in pick
    ensures multiset(pick) <= multiset(s[..|s| - 1])
  {
    var last, front := s[|s| - 1], s[..|s| - 1];
    assert s == front + [last];
    assert multiset(s) == multiset(front) + multiset{last};
    assert last !in multiset(pick);
  }

  lemma {:induction false} PrefixSumMonotone(s: seq<HeldNote>, i: nat, j: nat)
    requires i <= j <= |s|
    ensures Sum(s[..i]) <= Sum(s[..j])
  {
    assert s[..j] == s[..i] + s[i..j];
    SumSplit(s[..i], s[i..j]);
  }

  // k is a count the greedy loop may stop at.
  ghost predicate StopsAt(s: seq<HeldNote>, amount: Zatoshis, k: nat) {
    && k <= |s|
    && (k < |s| ==> Sum(s[..k]) >= amount)
    && (k > 0 ==> Sum(s[..k - 1]) < amount)
  }

  lemma StopCovers(s: seq<HeldNote>, amount: Zatoshis, k: nat)
    requires StopsAt(s, amount, k)
    ensures Sum(s[..k]) >= amount <==> Sum(s) >= amount
    ensures Sum(s) < amount ==> k == |s|
  {
    PrefixSumMonotone(s, k, |s|);
    assert s[..|s|] == s;
  }

  lemma LightPrefixIsShort(s: seq<HeldNote>, amount: Zatoshis, k: nat, n: nat)
    requires StopsAt(s, amount, k) && n <= |s| && Sum(s[..n]) >= amount
    ensures k <= n
  {
    if n < k {
      PrefixSumMonotone(s, n, k - 1);
    }
  }

  lemma StopMinimal(s: seq<HeldNote>, amount: Zatoshis, k: nat, pick: seq<HeldNote>)
    requires StopsAt(s, amount, k) && Descending(s)
    requires multiset(pick) <= multiset(s) && Sum(pick) >= amount
    ensures k <= |pick|
  {
    PrefixIsHeaviest(s, pick);
    LightPrefixIsShort(s, amount, k, |pick|);
  }

  // The selection, seen as a stop of the greedy loop on the sorted candidates.
  lemma SelectionStops(candidates: seq<HeldNote>, amount: Zatoshis) returns (sorted: seq<HeldNote>, k: nat)
    ensures Descending(sorted) && multiset(sorted) == multiset(candidates) && Sum(sorted) == Sum(candidates)
    ensures |sorted| == |candidates|
    ensures StopsAt(sorted, amount, k) && Selection(candidates, amount) == sorted[..k]
  {
    sorted := SortDescending(candidates);
    SortEffect(candidates);
    EqualMultisetsEqualSums(sorted, candidates);
    TakeCountBounds(sorted, amount, 0);
    k := TakeCount(sorted, amount, 0);
  }

  lemma PrefixWithoutLast(s: seq<HeldNote>, k: nat)
    requires 0 < k <= |s|
    ensures |s[..k]| == k && s[..k][..k - 1] == s[..k - 1]
  {
  }

  lemma PrefixDrawn(s: seq<HeldNote>, k: nat)
    requires k <= |s|
    ensures multiset(s[..k]) <= multiset(s)
  {
    assert s == s[..k] + s[k..];
  }

  // The selection is drawn from the candidates. When they cover the amount it covers it
  // too, and falls short without its last note; otherwise it is all of them.
  lemma SelectionCovers(candidates: seq<HeldNote>, amount: Zatoshis)
    ensures var taken := Selection(candidates, amount);
      && multiset(taken) <= multiset(candidates)
      && (Sum(candidates) >= amount ==> Sum(taken) >= amount && (taken != [] ==> Sum(taken[..|taken| - 1]) < amount))
      && (Sum(candidates) < amount ==> multiset(taken) == multiset(candidates))
  {
    var sorted, k := SelectionStops(candidates, amount);
    PrefixDrawn(sorted, k);
    StopCovers(sorted, amount, k);
    if k > 0 {
      PrefixWithoutLast(sorted, k);
    }
    if Sum(candidates) < amount {
      assert sorted[..|sorted|] == sorted;
    }
  }

  // No choice of fewer candidates covers the amount.
  lemma SelectionMinimal(candidates: seq<HeldNote>, amount: Zatoshis, pick: seq<HeldNote>)
    requires multiset(pick) <= multiset(candidates) && Sum(pick) >= amount
    ensures |Selection(candidates, amount)| <= |pick|
  {
    var sorted, k := SelectionStops(candidates, amount);
    StopMinimal(sorted, amount, k, pick);
  }

  lemma SelectionIsShort(candidates: seq<HeldNote>, amount: Zatoshis)
    ensures |Selection(candidates, amount)| <= |candidates|
  {
    var _, _ := SelectionStops(candidates, amount);
  }
}

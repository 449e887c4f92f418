// The transparent UTXO refresh walk: one batch a receiver, committed under the scan
// frontier pinned at the start, while the block-scan loop may move that frontier between
// any two storage steps.
module UtxoRefresh {
  import opened Prelude

  type Script = seq<Byte>

  datatype OutPoint = OutPoint(txId: TxId, outputIndex: U32)

  datatype Utxo = Utxo(outpoint: OutPoint, valueZat: Zatoshis, confirmedAtHeight: U32, script: Script)

  datatype Receiver = Receiver(accountId: nat, script: Script)

  type SourceFailure = nat

  datatype RefreshError =
    | ChainSource(failure: SourceFailure)
    | AboveVisibleTip(utxo: Utxo)
    | OutpointRepeated(utxo: Utxo)
    | ScriptMismatch(utxo: Utxo)
    | ScanFrontierReceded(minScannedHeight: U32, observed: Option<U32>)
    | OutputNotRecognized(outpoint: OutPoint)
    | StorageFailed

  type UtxoTable = map<OutPoint, Utxo>

  // put_received_transparent_utxo, row by row.
  function PutAll(table: UtxoTable, rows: seq<Utxo>): UtxoTable {
    if rows == [] then table
    else PutAll(table, rows[..|rows| - 1])[rows[|rows| - 1].outpoint := rows[|rows| - 1]]
  }

  // One commit of the walk: its receiver, its rows, and the frontier it was made under.
  datatype Commit = Commit(receiver: Receiver, rows: seq<Utxo>, frontier: Option<U32>)

  function PutCommits(table: UtxoTable, commits: seq<Commit>): UtxoTable {
    if commits == [] then table
    else PutAll(PutCommits(table, commits[..|commits| - 1]), commits[|commits| - 1].rows)
  }

  predicate AtOrAbove(frontier: Option<U32>, floor: Option<U32>) {
    floor.Some? ==> frontier.Some? && floor.value <= frontier.value
  }

  // Two tables agree outside a set of outpoints.
  ghost predicate SameOutside(t: UtxoTable, t': UtxoTable, xs: set<OutPoint>) {
    forall x :: x !in xs ==> (x in t <==> x in t') && (x in t ==> t[x] == t'[x])
  }

  ghost predicate Holds(t: UtxoTable, rows: seq<Utxo>) {
    forall i :: 0 <= i < |rows| ==> rows[i].outpoint in t && t[rows[i].outpoint] == rows[i]
  }

  ghost predicate Distinct(rows: seq<Utxo>) {
    forall i, j :: 0 <= i < j < |rows| ==> rows[i].outpoint != rows[j].outpoint
  }

  // Putting rows of distinct outpoints leaves each of them as it is, and no other entry
  // changes.
  lemma {:induction false} PutAllHolds(table: UtxoTable, rows: seq<Utxo>)
    ensures Distinct(rows) ==> Holds(PutAll(table, rows), rows)
    ensures SameOutside(table, PutAll(table, rows), Outpoints(rows))
  {
    if rows != [] {
      PutAllHolds(table, rows[..|rows| - 1]);
    }
  }

  // Where the storage fails during one commit, if anywhere: reading the frontier, opening
  // the transaction, putting a row, or committing.
  datatype StorageFault = NoFault | SummaryFails | BeginFails | RowFails(at: nat) | CommitFails

  // The first row that cannot be put.
  function RowsFault(rows: seq<Utxo>, recognized: Utxo -> bool, fault: StorageFault): Option<RefreshError> {
    if rows == [] then None
    else
      var k := |rows| - 1;
      match RowsFault(rows[..k], recognized, fault)
      case Some(e) => Some(e)
      case None =>
        if !recognized(rows[k]) then Some(OutputNotRecognized(rows[k].outpoint))
        else if fault == RowFails(k) then Some(StorageFailed)
        else None
  }

  // How one commit ends. The frontier is read only when a floor was pinned.
  function CommitAnswer(floor: Option<U32>, frontier: Option<U32>, rows: seq<Utxo>,
                        recognized: Utxo -> bool, fault: StorageFault): Result<nat, RefreshError>
  {
    if floor.Some? && fault.SummaryFails? then Err(StorageFailed)
    else if !AtOrAbove(frontier, floor) then Err(ScanFrontierReceded(floor.value, frontier))
    else if fault.BeginFails? then Err(StorageFailed)
    else
      match RowsFault(rows, recognized, fault)
      case Some(e) => Err(e)
      case None => if fault.CommitFails? then Err(StorageFailed) else Ok(|rows|)
  }

  lemma {:induction false} FirstRowFault(rows: seq<Utxo>, n: nat, recognized: Utxo -> bool, fault: StorageFault)
    requires n <= |rows| && RowsFault(rows[..n], recognized, fault).Some?
    ensures RowsFault(rows, recognized, fault) == RowsFault(rows[..n], recognized, fault)
    decreases |rows|
  {
    if n == |rows| {
      assert rows[..n] == rows;
    } else {
      assert rows[..|rows| - 1][..n] == rows[..n];
      FirstRowFault(rows[..|rows| - 1], n, recognized, fault);
    }
  }

  class UtxoStore {
    var frontier: Option<U32>
    var utxos: UtxoTable
    ghost var commits: seq<Commit>

    constructor ()
      ensures frontier == None && utxos == map[] && commits == []
    {
      frontier, utxos, commits := None, map[], [];
    }

    // A scan or a rewind by the other loop.
    method MoveFrontier(to: Option<U32>)
      modifies this`frontier
      ensures frontier == to
    {
      frontier := to;
    }

    // Guard and insert are one work item; a failure anywhere rolls the batch back.
    method RecordTransparentUtxos(floor: Option<U32>, rows: seq<Utxo>, recognized: Utxo -> bool,
                                  fault: StorageFault, ghost receiver: Receiver)
      returns (r: Result<nat, RefreshError>)
      modifies this`utxos, this`commits
      ensures r == CommitAnswer(floor, frontier, rows, recognized, fault)
      ensures r.Ok? ==> utxos == PutAll(old(utxos), rows)
      ensures r.Ok? && Distinct(rows) ==> Holds(utxos, rows)
      ensures r.Ok? ==> SameOutside(old(utxos), utxos, Outpoints(rows))
      ensures r.Ok? ==> commits == old(commits) + [Commit(receiver, rows, frontier)]
      ensures r.Err? ==> utxos == old(utxos) && commits == old(commits)
    {
      if floor.Some? {
        if fault.SummaryFails? {
          return Err(StorageFailed);
        }
        if frontier.None? || frontier.value < floor.value {
          return Err(ScanFrontierReceded(floor.value, frontier));
        }
      }
      if fault.BeginFails? {
        return Err(StorageFailed);
      }
      var transaction, i := utxos, 0;
      while i < |rows|
        invariant i <= |rows| && utxos == old(utxos) && commits == old(commits)
        invariant transaction == PutAll(utxos, rows[..i])
        invariant RowsFault(rows[..i], recognized, fault) == None
      {
        assert rows[..i + 1][..i] == rows[..i];
        if !recognized(rows[i]) {
          FirstRowFault(rows, i + 1, recognized, fault);
          return Err(OutputNotRecognized(rows[i].outpoint));
        }
        if fault == RowFails(i) {
          FirstRowFault(rows, i + 1, recognized, fault);
          return Err(StorageFailed);
        }
        transaction := transaction[rows[i].outpoint := rows[i]];
        i := i + 1;
      }
      assert rows[..i] == rows;
      if fault.CommitFails? {
        return Err(StorageFailed);
      }
      PutAllHolds(utxos, rows);
      utxos := transaction;
      commits := commits + [Commit(receiver, rows, frontier)];
      return Ok(|rows|);
    }
  }

  function Outpoints(utxos: seq<Utxo>): set<OutPoint> { set i | 0 <= i < |utxos| :: utxos[i].outpoint }

  // The batch may be committed for this script under this tip, after `seen`.
  ghost predicate BatchValid(tip: U32, script: Script, utxos: seq<Utxo>, seen: set<OutPoint>) {
    && (forall i :: 0 <= i < |utxos| ==>
          utxos[i].confirmedAtHeight <= tip && utxos[i].script == script && utxos[i].outpoint !in seen)
    && (forall i, j :: 0 <= i < j < |utxos| ==> utxos[i].outpoint != utxos[j].outpoint)
  }

  // What is wrong with a UTXO, in the order the walk looks.
  function Fault(tip: U32, script: Script, u: Utxo, seen: set<OutPoint>): Option<RefreshError> {
    if u.confirmedAtHeight > tip then Some(AboveVisibleTip(u))
    else if u.outpoint in seen then Some(OutpointRepeated(u))
    else if u.script != script then Some(ScriptMismatch(u))
    else None
  }

  // The fault of the first UTXO that has one.
  function BatchFault(tip: U32, script: Script, utxos: seq<Utxo>, seen: set<OutPoint>): Option<RefreshError> {
    if utxos == [] then None
    else
      var front, last := utxos[..|utxos| - 1], utxos[|utxos| - 1];
      match BatchFault(tip, script, front, seen)
      case Some(e) => Some(e)
      case None => Fault(tip, script, last, seen + Outpoints(front))
  }

  lemma {:induction false} FirstBatchFault(tip: U32, script: Script, utxos: seq<Utxo>, seen: set<OutPoint>, n: nat)
    requires n <= |utxos| && BatchFault(tip, script, utxos[..n], seen).Some?
    ensures BatchFault(tip, script, utxos, seen) == BatchFault(tip, script, utxos[..n], seen)
    decreases |utxos|
  {
    if n == |utxos| {
      assert utxos[..n] == utxos;
    } else {
      assert utxos[..|utxos| - 1][..n] == utxos[..n];
      FirstBatchFault(tip, script, utxos[..|utxos| - 1], seen, n);
    }
  }

  // A batch has no fault exactly when it may be committed.
  lemma {:induction false} FaultlessIsValid(tip: U32, script: Script, utxos: seq<Utxo>, seen: set<OutPoint>)
    ensures BatchFault(tip, script, utxos, seen).None? <==> BatchValid(tip, script, utxos, seen)
  {
    if utxos != [] {
      FaultlessIsValid(tip, script, utxos[..|utxos| - 1], seen);
      ValidSnoc(tip, script, utxos[..|utxos| - 1], utxos[|utxos| - 1], seen);
      assert utxos == utxos[..|utxos| - 1] + [utxos[|utxos| - 1]];
    }
  }

  lemma ValidSnoc(tip: U32, script: Script, front: seq<Utxo>, u: Utxo, seen: set<OutPoint>)
    ensures BatchValid(tip, script, front + [u], seen)
      <==> BatchValid(tip, script, front, seen) && Fault(tip, script, u, seen + Outpoints(front)).None?
  {
    var all := front + [u];
    if BatchValid(tip, script, all, seen) {
      assert all[|front|] == u;
      assert forall i :: 0 <= i < |front| ==> all[i] == front[i];
    }
  }

  method ValidateTransparentUtxoBatch(tip: U32, receiver: Receiver, utxos: seq<Utxo>, seen: set<OutPoint>)
    returns (r: Result<seq<Utxo>, RefreshError>, seen': set<OutPoint>)
    ensures r == match BatchFault(tip, receiver.script, utxos, seen)
      case None => Ok(utxos)
      case Some(e) => Err(e)
    ensures r.Ok? ==> seen' == seen + Outpoints(utxos)
  {
    seen' := seen;
    var rows, i := [], 0;
    while i < |utxos|
      invariant i <= |utxos| && rows == utxos[..i]
      invariant seen' == seen + Outpoints(utxos[..i])
      invariant BatchFault(tip, receiver.script, utxos[..i], seen) == None
    {
      var utxo := utxos[i];
      ghost var fault := Fault(tip, receiver.script, utxo, seen');
      assert utxos[..i + 1][..i] == utxos[..i];
      assert BatchFault(tip, receiver.script, utxos[..i + 1], seen) == fault;
      if fault.Some? {
        FirstBatchFault(tip, receiver.script, utxos, seen, i + 1);
      }
      if utxo.confirmedAtHeight > tip {
        return Err(AboveVisibleTip(utxo)), seen';
      }
      if utxo.outpoint in seen' {
        return Err(OutpointRepeated(utxo)), seen';
      }
      seen' := seen' + {utxo.outpoint};
      if utxo.script != receiver.script {
        return Err(ScriptMismatch(utxo)), seen';
      }
      rows := rows + [utxo];
      OutpointsSnoc(utxos[..i], utxo);
      assert utxos[..i + 1] == utxos[..i] + [utxo];
      i := i + 1;
    }
    assert utxos[..i] == utxos;
    r := Ok(rows);
  }

  lemma OutpointsSnoc(utxos: seq<Utxo>, u: Utxo)
    ensures Outpoints(utxos + [u]) == Outpoints(utxos) + {u.outpoint}
  {
    var all := utxos + [u];
    assert all[|utxos|] == u && forall i :: 0 <= i < |utxos| ==> all[i] == utxos[i];
  }

  // Every outpoint of the commits.
  ghost function CommittedOutpoints(commits: seq<Commit>): set<OutPoint> {
    if commits == [] then {}
    else CommittedOutpoints(commits[..|commits| - 1]) + Outpoints(commits[|commits| - 1].rows)
  }

  // Commit i is valid for its receiver after those before it and was made with the
  // frontier at or above the floor.
  ghost predicate CommitValid(tip: U32, floor: Option<U32>, commits: seq<Commit>, i: int) {
    && 0 <= i < |commits|
    && AtOrAbove(commits[i].frontier, floor)
    && BatchValid(tip, commits[i].receiver.script, commits[i].rows, CommittedOutpoints(commits[..i]))
  }

  ghost predicate CommitsValid(tip: U32, floor: Option<U32>, commits: seq<Commit>) {
    forall i :: 0 <= i < |commits| ==> CommitValid(tip, floor, commits, i)
  }

  function RowCount(commits: seq<Commit>): nat {
    if commits == [] then 0 else RowCount(commits[..|commits| - 1]) + |commits[|commits| - 1].rows|
  }

  // What a walk meets at one receiver: the chain source's answer, the frontier its commit
  // finds, and a storage failure during the commit, if any.
  datatype Visit = Visit(receiver: Receiver, fetched: Result<seq<Utxo>, SourceFailure>,
                         frontier: Option<U32>, fault: StorageFault)

  // How the visit ends, after the outpoints seen before it.
  function VisitAnswer(tip: U32, floor: Option<U32>, v: Visit, recognized: Utxo -> bool, seen: set<OutPoint>)
    : Result<nat, RefreshError>
  {
    match v.fetched
    case Err(e) => Err(ChainSource(e))
    case Ok(utxos) =>
      match BatchFault(tip, v.receiver.script, utxos, seen)
      case Some(e) => Err(e)
      case None => CommitAnswer(floor, v.frontier, utxos, recognized, v.fault)
  }

  // A visit ends with the source's failure, the batch's fault, or as its commit does.
  lemma VisitDecides(tip: U32, floor: Option<U32>, v: Visit, recognized: Utxo -> bool, seen: set<OutPoint>)
    ensures v.fetched.Err? ==> VisitAnswer(tip, floor, v, recognized, seen) == Err(ChainSource(v.fetched.error))
    ensures v.fetched.Ok? ==>
      var fault := BatchFault(tip, v.receiver.script, v.fetched.value, seen);
      && (fault.Some? ==> VisitAnswer(tip, floor, v, recognized, seen) == Err(fault.value))
      && (fault.None? ==> VisitAnswer(tip, floor, v, recognized, seen)
                            == CommitAnswer(floor, v.frontier, v.fetched.value, recognized, v.fault))
  {
  }

  // A commit that the storage breaks, at whatever stage it reaches, ends in a storage
  // failure; one that meets a bad row ends with that row's error.
  lemma CommitErrors(floor: Option<U32>, frontier: Option<U32>, rows: seq<Utxo>, recognized: Utxo -> bool,
                     fault: StorageFault)
    ensures var answer := CommitAnswer(floor, frontier, rows, recognized, fault);
      var ready := floor == None || (frontier.Some? && floor.value <= frontier.value && fault != SummaryFails);
      && (floor.Some? && fault == SummaryFails ==> answer == Err(StorageFailed))
      && (ready && fault == BeginFails ==> answer == Err(StorageFailed))
      && (ready && fault == CommitFails && (forall i :: 0 <= i < |rows| ==> recognized(rows[i])) ==>
            answer == Err(StorageFailed))
      && (ready && fault != BeginFails && RowsFault(rows, recognized, fault).Some? ==>
            answer == Err(RowsFault(rows, recognized, fault).value))
  {
    RowsFaultExactly(rows, recognized, fault);
  }

  // A visit ends with a receded frontier exactly when the source answered, the batch was
  // in order, the storage could read the frontier, and the frontier lay below the floor.
  lemma RecededExactly(tip: U32, floor: Option<U32>, v: Visit, recognized: Utxo -> bool, seen: set<OutPoint>)
    ensures var answer := VisitAnswer(tip, floor, v, recognized, seen);
      (answer.Err? && answer.error.ScanFrontierReceded?)
      <==>
      && v.fetched.Ok? && BatchValid(tip, v.receiver.script, v.fetched.value, seen)
      && floor.Some? && (v.frontier == None || v.frontier.value < floor.value) && !v.fault.SummaryFails?
    ensures var answer := VisitAnswer(tip, floor, v, recognized, seen);
      answer.Err? && answer.error.ScanFrontierReceded? ==>
        floor.Some? && answer.error == ScanFrontierReceded(floor.value, v.frontier)
  {
    if v.fetched.Ok? {
      FaultlessIsValid(tip, v.receiver.script, v.fetched.value, seen);
      BatchFaultKind(tip, v.receiver.script, v.fetched.value, seen);
      RowsFaultKind(v.fetched.value, recognized, v.fault);
    }
  }

  lemma {:induction false} BatchFaultKind(tip: U32, script: Script, utxos: seq<Utxo>, seen: set<OutPoint>)
    ensures var e := BatchFault(tip, script, utxos, seen);
      e.Some? ==> e.value.AboveVisibleTip? || e.value.OutpointRepeated? || e.value.ScriptMismatch?
  {
    if utxos != [] {
      BatchFaultKind(tip, script, utxos[..|utxos| - 1], seen);
    }
  }

  lemma {:induction false} RowsFaultKind(rows: seq<Utxo>, recognized: Utxo -> bool, fault: StorageFault)
    ensures var e := RowsFault(rows, recognized, fault);
      e.Some? ==> e.value.OutputNotRecognized? || e.value.StorageFailed?
  {
    if rows != [] {
      RowsFaultKind(rows[..|rows| - 1], recognized, fault);
    }
  }

  // A commit succeeds, with the number of its rows, exactly when the frontier is at or above
  // a pinned floor, every output is recognised, and the storage fails at no stage reached.
  lemma CommitSucceedsExactly(floor: Option<U32>, frontier: Option<U32>, rows: seq<Utxo>,
                              recognized: Utxo -> bool, fault: StorageFault)
    ensures var r := CommitAnswer(floor, frontier, rows, recognized, fault);
      && (r.Ok? <==>
            && (floor == None || (frontier.Some? && floor.value <= frontier.value))
            && (forall i :: 0 <= i < |rows| ==> recognized(rows[i]))
            && !(fault == SummaryFails && floor.Some?) && fault != BeginFails && fault != CommitFails
            && !(fault.RowFails? && fault.at < |rows|))
      && (r.Ok? ==> r.value == |rows|)
  {
    RowsFaultExactly(rows, recognized, fault);
  }

  // The first row that is not recognised, or whose put fails, decides.
  lemma {:induction false} RowsFaultExactly(rows: seq<Utxo>, recognized: Utxo -> bool, fault: StorageFault)
    ensures RowsFault(rows, recognized, fault).None? <==>
      (forall i :: 0 <= i < |rows| ==> recognized(rows[i])) && !(fault.RowFails? && fault.at < |rows|)
    ensures RowsFault(rows, recognized, fault).Some? ==>
      exists i :: RowDecides(rows, recognized, fault, RowsFault(rows, recognized, fault).value, i)
  {
    if rows != [] {
      var k := |rows| - 1;
      RowsFaultExactly(rows[..k], recognized, fault);
      if RowsFault(rows[..k], recognized, fault).Some? {
        var e := RowsFault(rows, recognized, fault).value;
        var i :| RowDecides(rows[..k], recognized, fault, e, i);
        assert RowDecides(rows, recognized, fault, e, i);
      } else if RowsFault(rows, recognized, fault).Some? {
        assert RowDecides(rows, recognized, fault, RowsFault(rows, recognized, fault).value, k);
      }
    }
  }

  // Row i is the first that cannot be put, and e says why.
  ghost predicate RowDecides(rows: seq<Utxo>, recognized: Utxo -> bool, fault: StorageFault, e: RefreshError, i: int) {
    && 0 <= i < |rows|
    && (forall j :: 0 <= j < i ==> recognized(rows[j]) && fault != RowFails(j))
    && if recognized(rows[i]) then fault == RowFails(i) && e == StorageFailed
       else e == OutputNotRecognized(rows[i].outpoint)
  }

  // UTXO i is the first at fault: above the tip, else seen before or earlier in the batch,
  // else of another script; e says which.
  ghost predicate FaultIs(tip: U32, script: Script, utxos: seq<Utxo>, seen: set<OutPoint>, e: RefreshError, i: int) {
    && 0 <= i < |utxos|
    && BatchValid(tip, script, utxos[..i], seen)
    && var u := utxos[i];
       var repeated := u.outpoint in seen || exists j :: 0 <= j < i && utxos[j].outpoint == u.outpoint;
       if u.confirmedAtHeight > tip then e == AboveVisibleTip(u)
       else if repeated then e == OutpointRepeated(u)
       else u.script != script && e == ScriptMismatch(u)
  }

  lemma {:induction false} FaultNamesFirst(tip: U32, script: Script, utxos: seq<Utxo>, seen: set<OutPoint>)
    ensures BatchFault(tip, script, utxos, seen).Some? ==>
      exists i :: FaultIs(tip, script, utxos, seen, BatchFault(tip, script, utxos, seen).value, i)
  {
    if BatchFault(tip, script, utxos, seen).Some? {
      var e, n := BatchFault(tip, script, utxos, seen).value, |utxos| - 1;
      var front := utxos[..n];
      FaultNamesFirst(tip, script, front, seen);
      if BatchFault(tip, script, front, seen).Some? {
        var i :| FaultIs(tip, script, front, seen, e, i);
        assert front[..i] == utxos[..i];
        assert FaultIs(tip, script, utxos, seen, e, i);
      } else {
        FaultlessIsValid(tip, script, front, seen);
        FaultAtLast(tip, script, front, utxos[n], seen, e);
        assert utxos == front + [utxos[n]];
      }
    }
  }

  lemma FaultAtLast(tip: U32, script: Script, front: seq<Utxo>, u: Utxo, seen: set<OutPoint>, e: RefreshError)
    requires BatchValid(tip, script, front, seen)
    requires Fault(tip, script, u, seen + Outpoints(front)) == Some(e)
    ensures FaultIs(tip, script, front + [u], seen, e, |front|)
  {
    var all := front + [u];
    assert all[..|front|] == front && all[|front|] == u;
    assert forall j :: 0 <= j < |front| ==> all[j] == front[j];
  }

  // Commit i is what visit i fetched and found, and that visit ended well.
  ghost predicate CommitFollows(tip: U32, floor: Option<U32>, visits: seq<Visit>, recognized: Utxo -> bool,
                                commits: seq<Commit>, i: int)
  {
    && 0 <= i < |commits| && i < |visits|
    && visits[i].fetched.Ok?
    && commits[i] == Commit(visits[i].receiver, visits[i].fetched.value, visits[i].frontier)
    && VisitAnswer(tip, floor, visits[i], recognized, CommittedOutpoints(commits[..i])).Ok?
  }

  ghost predicate CommitsFollow(tip: U32, floor: Option<U32>, visits: seq<Visit>, recognized: Utxo -> bool,
                                commits: seq<Commit>)
  {
    forall i :: 0 <= i < |commits| ==> CommitFollows(tip, floor, visits, recognized, commits, i)
  }

  // One walk. `floor` is what the reads before the first visit give: the frontier at that
  // moment, or a failure. `mine` are the commits of this walk.
  method RefreshTransparentUtxos(store: UtxoStore, tip: U32, floor: Result<Option<U32>, RefreshError>,
                                 visits: seq<Visit>, recognized: Utxo -> bool)
    returns (r: Result<(nat, nat), RefreshError>, ghost mine: seq<Commit>)
    modifies store
    ensures store.commits == old(store.commits) + mine && store.utxos == PutCommits(old(store.utxos), mine)
    // every committed row is in the table as the source reported it, and nothing else changed
    ensures forall i :: 0 <= i < |mine| ==> Holds(store.utxos, mine[i].rows)
    ensures SameOutside(old(store.utxos), store.utxos, CommittedOutpoints(mine))
    ensures floor.Err? ==> r == Err(floor.error) && mine == []
    ensures floor.Ok? ==>
      && CommitsFollow(tip, floor.value, visits, recognized, mine)
      && CommitsValid(tip, floor.value, mine)
      && (r.Ok? ==> |mine| == |visits| && r.value == (|visits|, RowCount(mine)))
      && (r.Err? ==>
            && |mine| < |visits|
            && VisitAnswer(tip, floor.value, visits[|mine|], recognized, CommittedOutpoints(mine)) == Err(r.error))
  {
    mine := [];
    if floor.Err? {
      return Err(floor.error), mine;
    }
    store.MoveFrontier(floor.value);
    var pinned := store.frontier;
    var seen, utxoCount, index := {}, 0, 0;
    var stopped: Option<RefreshError> := None;
    while index < |visits|
      invariant index == |mine| <= |visits| && stopped.None?
      invariant CommitsFollow(tip, pinned, visits, recognized, mine) && CommitsValid(tip, pinned, mine)
      invariant store.commits == old(store.commits) + mine && store.utxos == PutCommits(old(store.utxos), mine)
      invariant seen == CommittedOutpoints(mine) && utxoCount == RowCount(mine)
    {
      var visit := visits[index];
      if visit.fetched.Err? {
        stopped := Some(ChainSource(visit.fetched.error));
        break;
      }
      var batch, seen' := ValidateTransparentUtxoBatch(tip, visit.receiver, visit.fetched.value, seen);
      if batch.Err? {
        stopped := Some(batch.error);
        break;
      }
      store.MoveFrontier(visit.frontier);
      var recorded := store.RecordTransparentUtxos(pinned, batch.value, recognized, visit.fault, visit.receiver);
      if recorded.Err? {
        stopped := Some(recorded.error);
        break;
      }
      ghost var commit := Commit(visit.receiver, batch.value, visit.frontier);
      ExtendWalk(tip, pinned, visits, recognized, mine, commit);
      ExtendOutcome(old(store.utxos), mine, commit);
      mine := mine + [commit];
      seen := seen';
      utxoCount := utxoCount + recorded.value;
      index := index + 1;
    }
    CommittedHold(old(store.utxos), tip, pinned, mine);
    r := if stopped.Some? then Err(stopped.value) else Ok((|visits|, utxoCount));
  }

  ghost predicate AllHold(t: UtxoTable, commits: seq<Commit>) {
    forall i :: 0 <= i < |commits| ==> Holds(t, commits[i].rows)
  }

  // Valid commits spend no outpoint twice, so a later one leaves the rows of those before
  // it alone.
  lemma {:induction false} CommittedHold(table: UtxoTable, tip: U32, floor: Option<U32>, commits: seq<Commit>)
    requires CommitsValid(tip, floor, commits)
    ensures AllHold(PutCommits(table, commits), commits)
    ensures SameOutside(table, PutCommits(table, commits), CommittedOutpoints(commits))
  {
    if commits != [] {
      var n := |commits| - 1;
      var front, last := commits[..n], commits[n];
      FrontValid(tip, floor, commits);
      CommittedHold(table, tip, floor, front);
      assert CommitValid(tip, floor, commits, n);
      PutAllHolds(PutCommits(table, front), last.rows);
      forall i | 0 <= i < n ensures Holds(PutCommits(table, commits), commits[i].rows) {
        assert front[i] == commits[i] && front[..n] == front;
        EarlierOutpointsCommitted(front, i, n);
        HoldsOutside(PutCommits(table, front), PutCommits(table, commits), last.rows, commits[i].rows,
                     CommittedOutpoints(front));
      }
    }
  }

  lemma HoldsOutside(t: UtxoTable, t': UtxoTable, last: seq<Utxo>, rows: seq<Utxo>, seen: set<OutPoint>)
    requires Holds(t, rows) && SameOutside(t, t', Outpoints(last)) && Outpoints(rows) <= seen
    requires forall i :: 0 <= i < |last| ==> last[i].outpoint !in seen
    ensures Holds(t', rows)
  {
    forall i | 0 <= i < |rows| ensures rows[i].outpoint !in Outpoints(last) {
      assert rows[i].outpoint in Outpoints(rows);
    }
  }

  lemma FrontValid(tip: U32, floor: Option<U32>, commits: seq<Commit>)
    requires CommitsValid(tip, floor, commits) && commits != []
    ensures CommitsValid(tip, floor, commits[..|commits| - 1])
  {
    var front := commits[..|commits| - 1];
    forall i | 0 <= i < |front| ensures CommitValid(tip, floor, front, i) {
      assert CommitValid(tip, floor, commits, i) && front[..i] == commits[..i];
    }
  }

  // A visit that ends well adds its commit.
  lemma ExtendWalk(tip: U32, floor: Option<U32>, visits: seq<Visit>, recognized: Utxo -> bool,
                   commits: seq<Commit>, c: Commit)
    requires |commits| < |visits| && CommitsFollow(tip, floor, visits, recognized, commits)
    requires CommitsValid(tip, floor, commits)
    requires var v := visits[|commits|];
      && VisitAnswer(tip, floor, v, recognized, CommittedOutpoints(commits)).Ok?
      && v.fetched.Ok? && c == Commit(v.receiver, v.fetched.value, v.frontier)
    ensures CommitsFollow(tip, floor, visits, recognized, commits + [c])
    ensures CommitsValid(tip, floor, commits + [c])
  {
    FaultlessIsValid(tip, c.receiver.script, c.rows, CommittedOutpoints(commits));
    ExtendCommits(tip, floor, commits, c);
    var all := commits + [c];
    forall i | 0 <= i < |all| ensures CommitFollows(tip, floor, visits, recognized, all, i) {
      if i < |commits| {
        assert CommitFollows(tip, floor, visits, recognized, commits, i);
        assert all[i] == commits[i] && all[..i] == commits[..i];
      } else {
        assert all[..i] == commits;
      }
    }
  }

  lemma ExtendCommits(tip: U32, floor: Option<U32>, commits: seq<Commit>, c: Commit)
    requires CommitsValid(tip, floor, commits) && AtOrAbove(c.frontier, floor)
    requires BatchValid(tip, c.receiver.script, c.rows, CommittedOutpoints(commits))
    ensures CommitsValid(tip, floor, commits + [c])
  {
    var all := commits + [c];
    forall i | 0 <= i < |all| ensures CommitValid(tip, floor, all, i) {
      if i < |commits| {
        assert CommitValid(tip, floor, commits, i);
        assert all[i] == commits[i] && all[..i] == commits[..i];
      } else {
        assert all[..i] == commits;
      }
    }
  }

  lemma ExtendOutcome(table: UtxoTable, commits: seq<Commit>, c: Commit)
    ensures PutCommits(table, commits + [c]) == PutAll(PutCommits(table, commits), c.rows)
    ensures CommittedOutpoints(commits + [c]) == CommittedOutpoints(commits) + Outpoints(c.rows)
    ensures RowCount(commits + [c]) == RowCount(commits) + |c.rows|
  {
    assert (commits + [c])[..|commits|] == commits;
  }

  lemma {:induction false} EarlierOutpointsCommitted(commits: seq<Commit>, i: nat, n: nat)
    requires i < n <= |commits|
    ensures Outpoints(commits[i].rows) <= CommittedOutpoints(commits[..n])
  {
    assert commits[..n][..n - 1] == commits[..n - 1];
    if i < n - 1 {
      EarlierOutpointsCommitted(commits, i, n - 1);
    }
  }

  // No outpoint is committed twice in one walk, within a batch or across receivers.
  lemma NoOutpointTwice(tip: U32, floor: Option<U32>, commits: seq<Commit>, i: nat, a: nat, j: nat, b: nat)
    requires CommitsValid(tip, floor, commits)
    requires i < |commits| && a < |commits[i].rows| && j < |commits| && b < |commits[j].rows| && (i, a) != (j, b)
    ensures commits[i].rows[a].outpoint != commits[j].rows[b].outpoint
  {
    assert CommitValid(tip, floor, commits, i) && CommitValid(tip, floor, commits, j);
    if i < j {
      EarlierOutpointsCommitted(commits, i, j);
      assert commits[i].rows[a].outpoint in Outpoints(commits[i].rows);
    } else if j < i {
      EarlierOutpointsCommitted(commits, j, i);
      assert commits[j].rows[b].outpoint in Outpoints(commits[j].rows);
    }
  }

  lemma {:induction false} PutAllIsMerge(table: UtxoTable, rows: seq<Utxo>)
    ensures PutAll(table, rows) == table + PutAll(map[], rows)
  {
    if rows != [] {
      PutAllIsMerge(table, rows[..|rows| - 1]);
    }
  }

  lemma {:induction false} PutCommitsIsMerge(table: UtxoTable, commits: seq<Commit>)
    ensures PutCommits(table, commits) == table + PutCommits(map[], commits)
  {
    if commits != [] {
      var front, rows := commits[..|commits| - 1], commits[|commits| - 1].rows;
      PutCommitsIsMerge(table, front);
      PutAllIsMerge(PutCommits(table, front), rows);
      PutAllIsMerge(PutCommits(map[], front), rows);
    }
  }

  lemma {:induction false} PutAllKeys(table: UtxoTable, rows: seq<Utxo>)
    ensures PutAll(table, rows).Keys == table.Keys + Outpoints(rows)
  {
    if rows != [] {
      PutAllKeys(table, rows[..|rows| - 1]);
      OutpointsSnoc(rows[..|rows| - 1], rows[|rows| - 1]);
      assert rows == rows[..|rows| - 1] + [rows[|rows| - 1]];
    }
  }

  lemma {:induction false} PutCommitsKeys(commits: seq<Commit>)
    ensures PutCommits(map[], commits).Keys == CommittedOutpoints(commits)
  {
    if commits != [] {
      PutCommitsKeys(commits[..|commits| - 1]);
      PutAllKeys(PutCommits(map[], commits[..|commits| - 1]), commits[|commits| - 1].rows);
    }
  }

  // Two walks, whatever each commits: the second ends where it would have ended alone if
  // and only if what the first wrote and the second did not was in the table already.
  lemma SecondWalkDecides(table: UtxoTable, first: seq<Commit>, second: seq<Commit>)
    ensures PutCommits(PutCommits(table, first), second) == PutCommits(table, second)
      <==> forall x :: x in CommittedOutpoints(first) && x !in CommittedOutpoints(second) ==>
             x in PutCommits(table, first) && x in table && table[x] == PutCommits(table, first)[x]
  {
    PutCommitsIsMerge(table, first);
    PutCommitsIsMerge(PutCommits(table, first), second);
    PutCommitsIsMerge(table, second);
    PutCommitsKeys(first);
    PutCommitsKeys(second);
    MergedTwice(table, PutCommits(map[], first), PutCommits(map[], second));
  }

  lemma MergedTwice(table: UtxoTable, a: UtxoTable, b: UtxoTable)
    ensures table + a + b == table + b
      <==> forall x :: x in a && x !in b ==> x in table && table[x] == (table + a)[x]
  {
    var both, alone := table + a + b, table + b;
    if both == alone {
      forall x | x in a && x !in b ensures x in table && table[x] == (table + a)[x] {
        assert x in both && both[x] == (table + a)[x];
        assert x in alone;
      }
    }
    if forall x :: x in a && x !in b ==> x in table && table[x] == (table + a)[x] {
      assert both.Keys == alone.Keys;
      assert forall x :: x in both ==> both[x] == alone[x];
    }
  }

  // In particular, committing a prefix and then the whole of one commit list ends where
  // committing the whole ends.
  lemma RepeatedWalkIsIdempotent(table: UtxoTable, commits: seq<Commit>, n: nat)
    requires n <= |commits|
    ensures PutCommits(PutCommits(table, commits[..n]), commits) == PutCommits(table, commits)
  {
    PrefixKeys(commits, n);
    PutCommitsKeys(commits);
    PutCommitsKeys(commits[..n]);
    SecondWalkDecides(table, commits[..n], commits);
  }

  lemma {:induction false} PrefixKeys(commits: seq<Commit>, n: nat)
    requires n <= |commits|
    ensures PutCommits(map[], commits[..n]).Keys <= PutCommits(map[], commits).Keys
    decreases |commits|
  {
    if n < |commits| {
      var front, rows := commits[..|commits| - 1], commits[|commits| - 1].rows;
      assert front[..n] == commits[..n];
      PrefixKeys(front, n);
      PutAllIsMerge(PutCommits(map[], front), rows);
    } else {
      assert commits[..n] == commits;
    }
  }
}

/** Moving events to another region: batch by batch, each row gets the next sequence at the target's
    end (geo.go:480-558). */
module RegionMove {
  import opened EventStore

  type Filter = Id -> bool

  const MOVE_BATCH := 500

  /** A row still to be moved. */
  predicate Due(t: Table, f: Filter, to: Geo, k: Key) {
    k in t && f(k.agg) && t[k].geo != to
  }

  function DueKeys(t: Table, f: Filter, to: Geo): set<Key> {
    set k <- t.Keys | f(k.agg) && t[k].geo != to
  }

  /** Sequence order is version order, also for an aggregate whose first part has moved already: what is in
      the target precedes what is not, and the rest is in one region. */
  ghost predicate PartlyMoved(t: Table, to: Geo) {
    && (forall j, k | j in t && k in t && j.agg == k.agg && j.aseq < k.aseq && t[j].geo == t[k].geo ::
          t[j].gseq < t[k].gseq)
    && (forall j, k | j in t && k in t && j.agg == k.agg && j.aseq < k.aseq && t[j].geo != t[k].geo :: t[j].geo == to)
  }

  /** A log of pinned aggregates is one where nothing has moved yet. */
  lemma PinnedIsPartlyMoved(t: Table, to: Geo)
    requires Pinned(t) && Ordered(t)
    ensures PartlyMoved(t, to)
  {
  }

  /** What any number of batches have done: rows keep key, time and payload; a row either is as it was, or was due and
      now lies in the target above everything that was there. */
  ghost predicate MovedSome(b: Table, t: Table, f: Filter, to: Geo) {
    && t.Keys == b.Keys
    && forall k <- b ::
         || t[k] == b[k]
         || (Due(b, f, to, k) && t[k].geo == to && t[k].gseq > MaxSeq(b, to)
             && t[k].time == b[k].time && t[k].body == b[k].body)
  }

  /** The result of ORDER BY geo, seq LIMIT n over the due rows, whatever order the regions come in. */
  ghost predicate IsBatch(t: Table, f: Filter, to: Geo, n: nat, batch: seq<Key>) {
    && |batch| <= n
    && (forall i | 0 <= i < |batch| :: Due(t, f, to, batch[i]))
    && (forall i, j | 0 <= i < j < |batch| :: batch[i] != batch[j])
    && (forall i, j | 0 <= i < |batch| && Due(t, f, to, j)
                      && t[j].geo == t[batch[i]].geo && t[j].gseq < t[batch[i]].gseq ::
          j in batch[..i])
    && (|batch| < n ==> forall k | Due(t, f, to, k) :: k in batch)
  }

  /** A row of s with the least sequence of its region in s. */
  lemma LeastOfRegion(t: Table, s: set<Key>) returns (k: Key)
    requires s != {} && s <= t.Keys
    ensures k in s && forall j <- s :: t[j].geo == t[k].geo ==> t[k].gseq <= t[j].gseq
  {
    k :| k in s;
    var others := s - {k};
    assert forall i <- s :: i == k || i in others;
    if others != {} {
      var j := LeastOfRegion(t, others);
      if t[j].geo != t[k].geo {
        var same := set i <- s | t[i].geo == t[k].geo;
        assert k in same && j !in same;
        k := LeastOfRegion(t, same);
      } else if t[j].gseq < t[k].gseq {
        k := j;
      }
    }
  }

  /** The batch picked so far and the due rows left over. */
  ghost predicate Picked(t: Table, f: Filter, to: Geo, batch: seq<Key>, rest: set<Key>) {
    && (forall k :: Due(t, f, to, k) <==> k in rest || k in batch)
    && (forall i | 0 <= i < |batch| :: batch[i] in t && batch[i] !in rest)
    && (forall i, j | 0 <= i < j < |batch| :: batch[i] != batch[j])
    && (forall i, j | 0 <= i < |batch| && Due(t, f, to, j) && t[j].geo == t[batch[i]].geo
          && t[j].gseq < t[batch[i]].gseq :: j in batch[..i])
  }

  lemma PickStart(t: Table, f: Filter, to: Geo)
    ensures Picked(t, f, to, [], DueKeys(t, f, to))
  {
  }

  lemma PickNext(t: Table, f: Filter, to: Geo, batch: seq<Key>, rest: set<Key>, k: Key)
    requires Picked(t, f, to, batch, rest) && k in rest && k in t
    requires forall j <- rest :: j in t && (t[j].geo == t[k].geo ==> t[k].gseq <= t[j].gseq)
    ensures Picked(t, f, to, batch + [k], rest - {k})
  {
    hide Due;
    var b := batch + [k];
    assert b[..|batch|] == batch;
    forall j ensures Due(t, f, to, j) <==> j in rest - {k} || j in b {
      assert j in b <==> j in batch || j == k;
    }
    forall i, j | 0 <= i < |b| && Due(t, f, to, j) && t[j].geo == t[b[i]].geo && t[j].gseq < t[b[i]].gseq
      ensures j in b[..i] {
      assert b[..i] == batch[..i];
      if i == |batch| {
        assert b[i] == k && j !in rest;
      }
    }
  }

  lemma PickedIsBatch(t: Table, f: Filter, to: Geo, n: nat, batch: seq<Key>, rest: set<Key>)
    requires Picked(t, f, to, batch, rest) && |batch| <= n && (rest == {} || |batch| == n)
    ensures IsBatch(t, f, to, n, batch)
  {
    hide Due;
    assert forall i | 0 <= i < |batch| :: batch[i] in batch;
  }

  lemma DueInTable(t: Table, f: Filter, to: Geo, batch: seq<Key>, rest: set<Key>)
    requires Picked(t, f, to, batch, rest)
    ensures rest <= t.Keys
  {
    forall k | k in rest ensures k in t {
      assert Due(t, f, to, k);
    }
  }

  method SelectBatch(t: Table, f: Filter, to: Geo, n: nat) returns (batch: seq<Key>)
    requires UniqueSeqs(t)
    ensures IsBatch(t, f, to, n, batch)
  {
    hide Picked, IsBatch, DueKeys, UniqueSeqs;
    batch := [];
    var rest := DueKeys(t, f, to);
    PickStart(t, f, to);
    while rest != {} && |batch| < n
      invariant |batch| <= n && Picked(t, f, to, batch, rest)
      decreases rest
    {
      DueInTable(t, f, to, batch, rest);
      ghost var least := LeastOfRegion(t, rest);
      var k :| k in rest && forall j <- rest :: t[j].geo == t[k].geo ==> t[k].gseq <= t[j].gseq;
      PickNext(t, f, to, batch, rest, k);
      batch := batch + [k];
      rest := rest - {k};
    }
    PickedIsBatch(t, f, to, n, batch, rest);
  }

  /** Rows 0..i of the batch have their new place, every other row is as it was. */
  ghost predicate BatchDone(b: Table, t: Table, to: Geo, top: nat, batch: seq<Key>, i: nat) {
    && i <= |batch| && t.Keys == b.Keys
    && (forall j | 0 <= j < i :: batch[j] in b && t[batch[j]] == b[batch[j]].(geo := to, gseq := top + 1 + j))
    && (forall k <- b | k !in batch[..i] :: t[k] == b[k])
  }

  lemma BatchKeepsUnique(b: Table, t: Table, f: Filter, to: Geo, batch: seq<Key>)
    requires UniqueSeqs(b) && IsBatch(b, f, to, MOVE_BATCH, batch)
    requires BatchDone(b, t, to, MaxSeq(b, to), batch, |batch|)
    ensures UniqueSeqs(t)
  {
    assert t.Keys == b.Keys;
    hide IsBatch, BatchDone, MaxSeq;
    forall j, k | j in t && k in t && t[j].geo == t[k].geo && t[j].gseq == t[k].gseq ensures j == k {
      PairKeepsUnique(b, t, to, batch, j, k);
    }
  }

  lemma PairKeepsUnique(b: Table, t: Table, to: Geo, batch: seq<Key>, j: Key, k: Key)
    requires UniqueSeqs(b) && j in b && k in b && t.Keys == b.Keys
    requires BatchDone(b, t, to, MaxSeq(b, to), batch, |batch|)
    requires t[j].geo == t[k].geo && t[j].gseq == t[k].gseq
    ensures j == k
  {
    hide BatchDone, MaxSeq;
    NewPlace(b, t, to, batch, j);
    NewPlace(b, t, to, batch, k);
  }

  /** A row of the batch lies above the old maximum of the target, any other row of the target at or below it. */
  lemma NewPlace(b: Table, t: Table, to: Geo, batch: seq<Key>, k: Key)
    requires BatchDone(b, t, to, MaxSeq(b, to), batch, |batch|) && k in b
    ensures k in batch ==>
      exists i :: 0 <= i < |batch| && batch[i] == k && t[k] == b[k].(geo := to, gseq := MaxSeq(b, to) + 1 + i)
    ensures k !in batch ==> t[k] == b[k] && (b[k].geo == to ==> t[k].gseq <= MaxSeq(b, to))
  {
    assert batch[..|batch|] == batch;
    if b[k].geo == to {
      assert b[k].gseq in Seqs(b, to);
    }
    if k in batch {
      var i :| 0 <= i < |batch| && batch[i] == k;
    }
  }

  /** Two rows of an aggregate, whether both move, one, or none: order survives. */
  lemma PairKeepsOrder(b: Table, t: Table, f: Filter, to: Geo, batch: seq<Key>, j: Key, k: Key)
    requires j in b && k in b && j.agg == k.agg && j.aseq < k.aseq
    requires b[j].geo == b[k].geo ==> b[j].gseq < b[k].gseq
    requires b[j].geo != b[k].geo ==> b[j].geo == to
    requires IsBatch(b, f, to, MOVE_BATCH, batch) && BatchDone(b, t, to, MaxSeq(b, to), batch, |batch|)
    ensures t[j].geo == t[k].geo ==> t[j].gseq < t[k].gseq
    ensures t[j].geo != t[k].geo ==> t[j].geo == to
  {
    NewPlace(b, t, to, batch, j);
    NewPlace(b, t, to, batch, k);
    if k in batch && b[j].geo != to {
      var i :| 0 <= i < |batch| && batch[i] == k && t[k] == b[k].(geo := to, gseq := MaxSeq(b, to) + 1 + i);
      assert Due(b, f, to, batch[i]) && Due(b, f, to, j);
      assert j in batch[..i];
      var h :| 0 <= h < i && batch[..i][h] == j;
      assert batch[h] == j && t[batch[h]].gseq == MaxSeq(b, to) + 1 + h;
    }
    hide IsBatch, BatchDone, MaxSeq;
  }

  lemma BatchKeepsOrder(b: Table, t: Table, f: Filter, to: Geo, batch: seq<Key>)
    requires PartlyMoved(b, to) && IsBatch(b, f, to, MOVE_BATCH, batch)
    requires BatchDone(b, t, to, MaxSeq(b, to), batch, |batch|)
    ensures PartlyMoved(t, to)
  {
    assert t.Keys == b.Keys;
    hide IsBatch, BatchDone, MaxSeq;
    forall j, k | j in t && k in t && j.agg == k.agg && j.aseq < k.aseq
      ensures t[j].geo == t[k].geo ==> t[j].gseq < t[k].gseq
      ensures t[j].geo != t[k].geo ==> t[j].geo == to {
      PairKeepsOrder(b, t, f, to, batch, j, k);
    }
  }

  lemma BatchMoves(b: Table, t: Table, f: Filter, to: Geo, batch: seq<Key>)
    requires IsBatch(b, f, to, MOVE_BATCH, batch) && BatchDone(b, t, to, MaxSeq(b, to), batch, |batch|)
    ensures MovedSome(b, t, f, to) && DueKeys(t, f, to) == DueKeys(b, f, to) - (set k <- batch)
    ensures MaxSeq(b, to) <= MaxSeq(t, to)
  {
    assert batch[..|batch|] == batch;
    forall k | k in b ensures k in batch ==> Due(b, f, to, k) && t[k].geo == to && t[k].gseq > MaxSeq(b, to)
                                             && t[k].time == b[k].time && t[k].body == b[k].body
                      ensures k !in batch ==> t[k] == b[k] {
      NewPlace(b, t, to, batch, k);
    }
    forall s | s in Seqs(b, to) ensures s in Seqs(t, to) {
      var k :| k in b && b[k].geo == to && b[k].gseq == s;
      assert k !in batch && t[k] == b[k];
    }
    assert Seqs(b, to) <= Seqs(t, to);
  }

  lemma MovedTransitive(a: Table, b: Table, c: Table, f: Filter, to: Geo)
    requires MovedSome(a, b, f, to) && MovedSome(b, c, f, to) && MaxSeq(a, to) <= MaxSeq(b, to)
    ensures MovedSome(a, c, f, to)
  {
  }

  class EventLog {
    var hot: Table

    constructor (hot: Table)
      ensures this.hot == hot
    {
      this.hot := hot;
    }

    /** moveEventBatch, one transaction; moved rows are counted. */
    method MoveEventBatch(f: Filter, to: Geo) returns (moved: nat)
      requires UniqueSeqs(hot) && PartlyMoved(hot, to)
      modifies this
      ensures UniqueSeqs(hot) && PartlyMoved(hot, to)
      ensures MovedSome(old(hot), hot, f, to) && MaxSeq(old(hot), to) <= MaxSeq(hot, to)
      ensures moved == 0 ==> hot == old(hot) && DueKeys(hot, f, to) == {}
      ensures moved > 0 ==> DueKeys(hot, f, to) < DueKeys(old(hot), f, to)
    {
      hide UniqueSeqs, PartlyMoved, MovedSome, MaxSeq, IsBatch, BatchDone, DueKeys;
      ghost var b := hot;
      var batch := SelectBatch(hot, f, to, MOVE_BATCH);
      if batch == [] {
        Nothing(hot, f, to);
        return 0;
      }
      var top := MaxSeq(hot, to);
      moved := 0;
      BatchStart(b, to, top, batch);
      var i := 0;
      while i < |batch|
        invariant 0 <= i <= |batch| && moved == i
        invariant BatchDone(b, hot, to, top, batch, i)
      {
        var k := batch[i];
        BatchFresh(b, f, to, batch, i);
        BatchRow(b, hot, to, top, batch, i);
        hot := hot[k := hot[k].(geo := to, gseq := top + i + 1)];
        moved := moved + 1;
        i := i + 1;
      }
      BatchKeepsUnique(b, hot, f, to, batch);
      BatchKeepsOrder(b, hot, f, to, batch);
      BatchMoves(b, hot, f, to, batch);
      BatchShrinks(b, f, to, batch);
    }

    /** moveEvents. It ends; stopping after any batch (a crash) leaves a state from which calling it again
        finishes the move. */
    method MoveEvents(f: Filter, to: Geo, noCrash: bool) returns (done: bool)
      requires UniqueSeqs(hot) && PartlyMoved(hot, to)
      modifies this
      ensures UniqueSeqs(hot) && PartlyMoved(hot, to)
      ensures MovedSome(old(hot), hot, f, to) && MaxSeq(old(hot), to) <= MaxSeq(hot, to)
      ensures done ==> DueKeys(hot, f, to) == {}
      ensures noCrash ==> done
    {
      hide UniqueSeqs, PartlyMoved, MovedSome, MaxSeq;
      NothingMoved(hot, f, to);
      while true
        invariant UniqueSeqs(hot) && PartlyMoved(hot, to) && MovedSome(old(hot), hot, f, to)
        invariant MaxSeq(old(hot), to) <= MaxSeq(hot, to)
        decreases DueKeys(hot, f, to)
      {
        ghost var mid := hot;
        var n := MoveEventBatch(f, to);
        MovedTransitive(old(hot), mid, hot, f, to);
        if n == 0 {
          return true;
        }
        var crash: bool := *;
        if crash && !noCrash {
          return false;
        }
      }
    }

    /** A move of whole aggregates: from pinned and ordered back to pinned and ordered. */
    method MoveAll(f: Filter, to: Geo, crashes: nat)
      requires UniqueSeqs(hot) && Pinned(hot) && Ordered(hot)
      modifies this
      ensures UniqueSeqs(hot) && Pinned(hot) && Ordered(hot)
      ensures Finished(old(hot), hot, f, to, MaxSeq(old(hot), to))
    {
      PinnedIsPartlyMoved(hot, to);
      hide UniqueSeqs, Pinned, Ordered, PartlyMoved, Finished, MaxSeq;
      MoveAfterCrashes(f, to, crashes, MaxSeq(hot, to));
      FinishedIsPinned(old(hot), hot, f, to, MaxSeq(old(hot), to));
    }

    /** Any number of runs that crash after any batch, and then one that does not: the move is finished. */
    method MoveAfterCrashes(f: Filter, to: Geo, crashes: nat, ghost cp: nat)
      requires UniqueSeqs(hot) && PartlyMoved(hot, to) && cp <= MaxSeq(hot, to)
      modifies this
      ensures UniqueSeqs(hot) && Finished(old(hot), hot, f, to, cp)
    {
      hide UniqueSeqs, PartlyMoved, MovedSome, MaxSeq, Finished;
      NothingMoved(hot, f, to);
      var done := false;
      for n := 0 to crashes
        invariant UniqueSeqs(hot) && PartlyMoved(hot, to)
        invariant MovedSome(old(hot), hot, f, to) && MaxSeq(old(hot), to) <= MaxSeq(hot, to)
      {
        ghost var mid := hot;
        done := MoveEvents(f, to, false);
        MovedTransitive(old(hot), mid, hot, f, to);
      }
      ghost var mid := hot;
      done := MoveEvents(f, to, true);
      MovedTransitive(old(hot), mid, hot, f, to);
      FinishedMove(old(hot), hot, f, to, cp);
    }
  }

  /** The first move of a log of pinned aggregates, whatever crashes fall into it: the log is one of pinned aggregates
      again, each in version order. */
  lemma FinishedIsPinned(b: Table, t: Table, f: Filter, to: Geo, cp: nat)
    requires Pinned(b) && Ordered(b) && Finished(b, t, f, to, cp)
    ensures Pinned(t) && Ordered(t)
  {
    forall j, k | j in t && k in t && j.agg == k.agg
      ensures t[j].geo == t[k].geo && (j.aseq < k.aseq ==> t[j].gseq < t[k].gseq) {
      assert f(j.agg) == f(k.agg);
    }
  }

  lemma BatchStart(b: Table, to: Geo, top: nat, batch: seq<Key>)
    ensures BatchDone(b, b, to, top, batch, 0)
  {
  }

  lemma BatchFresh(b: Table, f: Filter, to: Geo, batch: seq<Key>, i: nat)
    requires IsBatch(b, f, to, MOVE_BATCH, batch) && i < |batch|
    ensures batch[i] in b && batch[i] !in batch[..i]
  {
    assert Due(b, f, to, batch[i]);
  }

  lemma BatchRow(b: Table, t: Table, to: Geo, top: nat, batch: seq<Key>, i: nat)
    requires BatchDone(b, t, to, top, batch, i) && i < |batch|
    requires batch[i] in b && batch[i] !in batch[..i]
    ensures batch[i] in t
    ensures BatchDone(b, t[batch[i] := t[batch[i]].(geo := to, gseq := top + i + 1)], to, top, batch, i + 1)
  {
    var k := batch[i];
    var u := t[k := t[k].(geo := to, gseq := top + i + 1)];
    assert batch[..i + 1] == batch[..i] + [k];
    forall j | 0 <= j < i + 1 ensures batch[j] in b && u[batch[j]] == b[batch[j]].(geo := to, gseq := top + 1 + j) {
      assert j < i ==> batch[j] in batch[..i];
    }
  }

  lemma BatchShrinks(b: Table, f: Filter, to: Geo, batch: seq<Key>)
    requires IsBatch(b, f, to, MOVE_BATCH, batch) && batch != []
    ensures DueKeys(b, f, to) - (set k <- batch) < DueKeys(b, f, to)
  {
    assert Due(b, f, to, batch[0]) && batch[0] in (set k <- batch) && batch[0] in DueKeys(b, f, to);
  }

  lemma Nothing(t: Table, f: Filter, to: Geo)
    requires IsBatch(t, f, to, MOVE_BATCH, [])
    ensures DueKeys(t, f, to) == {} && MovedSome(t, t, f, to) && MaxSeq(t, to) <= MaxSeq(t, to)
  {
    assert forall k | k in DueKeys(t, f, to) :: Due(t, f, to, k);
  }

  lemma NothingMoved(t: Table, f: Filter, to: Geo)
    ensures MovedSome(t, t, f, to)
  {
  }

  /** After a finished move: exactly the filtered rows are in the target, each aggregate's events in version
      order, and moved events lie above the checkpoint. */
  ghost predicate Finished(b: Table, t: Table, f: Filter, to: Geo, cp: nat) {
    && t.Keys == b.Keys
    && (forall k <- b | f(k.agg) :: t[k].geo == to)
    && (forall k <- b | !f(k.agg) || b[k].geo == to :: t[k] == b[k])
    && (forall k <- b | f(k.agg) && b[k].geo != to :: t[k].gseq > cp)
    && (forall j, k | j in t && k in t && j.agg == k.agg && f(j.agg) && j.aseq < k.aseq :: t[j].gseq < t[k].gseq)
  }

  /** A move with nothing due is finished, for any checkpoint that was not above the target's end. */
  lemma FinishedMove(b: Table, t: Table, f: Filter, to: Geo, cp: nat)
    requires MovedSome(b, t, f, to) && DueKeys(t, f, to) == {} && PartlyMoved(t, to) && cp <= MaxSeq(b, to)
    ensures Finished(b, t, f, to, cp)
  {
    forall k | k in b && f(k.agg) ensures t[k].geo == to {
      assert k !in DueKeys(t, f, to);
    }
  }

  /** What an aggregate folds to does not depend on where its events lie. */
  lemma MoveKeepsReplay(m: Model, b: Table, t: Table, f: Filter, to: Geo, a: Id, v: nat)
    requires MovedSome(b, t, f, to) && forall i | 1 <= i <= v :: Key(a, i) in b
    ensures Replay(m, t, a, v) == Replay(m, b, a, v)
  {
    ReplayFrame(m, b, t, a, v);
  }
}

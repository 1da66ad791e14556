/** What the worker does besides projecting: snapshots by the event-count rule, with pruning, and archiving below the
    second-youngest snapshot; other instances commit between any two statements (projection.go:431-691). */
module Housekeeping {
  import opened Wrappers
  import opened EventStore
  import opened EventSteps
  import opened EventRuns
  import opened Loading
  import opened Projection

  // ---------------------------------------------------------------- snapshots

  function Kept(keep: nat): nat {
    if keep < 1 then 1 else keep
  }

  /** The least of a set has every other member above it. */
  lemma LeastNat(s: set<nat>) returns (n: nat)
    requires s != {}
    ensures n in s && forall x <- s :: n <= x
  {
    n :| n in s;
    var others := s - {n};
    assert forall x <- s :: x == n || x in others;
    if others != {} {
      var x := LeastNat(others);
      n := if x < n then x else n;
    }
  }

  lemma SubsetSize(a: set<nat>, b: set<nat>)
    requires a <= b
    ensures |a| <= |b|
  {
    if a != {} {
      var x :| x in a;
      SubsetSize(a - {x}, b - {x});
    }
  }

  /** Pruning leaves at most the number of snapshots to keep. */
  lemma PrunedKeepsAtMost(snaps: map<Key, State>, a: Id, keep: nat)
    ensures |SnapVersions(Pruned(snaps, a, keep), a)| <= Kept(keep)
  {
    var u := Pruned(snaps, a, keep);
    var vs := SnapVersions(u, a);
    if vs != {} {
      var n := LeastNat(vs);
      assert Key(a, n) in u;
      forall v | v in vs - {n} ensures v in Newer(snaps, Key(a, n)) {
        assert Key(a, v) in u && Key(a, v) in snaps;
        assert v in SnapVersions(snaps, a);
      }
      SubsetSize(vs - {n}, Newer(snaps, Key(a, n)));
    }
  }

  /** The late snapshot of a fold is the snapshot step: its state is full replay, whatever was appended since. */
  lemma LateSnapshot(m: Model, folded: Store, st: Store, a: Id, v: nat, s: State, keep: nat)
    requires LogInv(m, st) && Moved(m, folded, st)
    requires Key(a, v) in All(folded) && Replay(m, All(folded), a, v) == Some(s)
    ensures var u := st.(snaps := Pruned(st.snaps[Key(a, v) := s], a, keep));
      && u == Snapshotted(m, st, a, v, keep) && LogInv(m, u) && Moved(m, st, u) && Reached(u.snaps, Key(a, v))
  {
    hide LogInv, RowsOk, Extends, Replay, Grown, Pruned, SnapsGrow, Reached;
    MovedKeeps(m, folded, st, Key(a, v));
    ExtendsReplay(m, All(folded), All(st), a, v);
    var u := Snapshotted(m, st, a, v, keep);
    SnapshotKeepsLog(m, st, a, v, keep);
    SnapshotExtends(m, st, a, v, keep);
    SnapshotGrows(st.snaps, a, v, s, keep);
    NewSnapshotStays(st.snaps, a, v, s, keep);
  }

  lemma NewSnapshotStays(snaps: map<Key, State>, a: Id, v: nat, s: State, keep: nat)
    ensures Reached(Pruned(snaps[Key(a, v) := s], a, keep), Key(a, v))
  {
    hide Pruned;
    PrunedKeepsNewest(snaps[Key(a, v) := s], a, keep, v);
  }

  /** snapshotAggregate: fold, then store and prune in one transaction. */
  method SnapshotAggregate(db: DB, a: Id, keep: nat)
    requires db.Valid()
    modifies db
    ensures db.Valid() && Moved(db.m, old(db.st), db.st)
    ensures db.lease ==> db.st.cps == old(db.st).cps
    ensures var top := old(Top(All(db.st), a));
      top > 0 ==> Reached(db.st.snaps, Key(a, top)) && |SnapVersions(db.st.snaps, a)| <= Kept(keep)
  {
    hide LogInv, Moved, Replay, Top, NewestSnap, Pruned, Reached, SnapVersions;
    var agg := new Aggregate(a, db.m.init);
    ghost var before := db.st;
    var _ := agg.FoldInto(db, 0, None, true);
    ghost var folded := db.st;
    TopAfter(db.m, before, folded, a);
    if agg.version == 0 {
      return;
    }
    TopStored(db.m, folded, a);
    var _ := db.Others(a);
    MovedTransitive(db.m, before, folded, db.st);
    LateSnapshot(db.m, folded, db.st, a, agg.version, agg.self, keep);
    PrunedKeepsAtMost(db.st.snaps[Key(a, agg.version) := agg.self], a, keep);
    ghost var mid := db.st;
    db.st := db.st.(snaps := Pruned(db.st.snaps[Key(a, agg.version) := agg.self], a, keep));
    MovedTransitive(db.m, before, mid, db.st);
    ReachedBelow(db.st.snaps, a, agg.version, Top(All(before), a));
  }

  lemma ReachedBelow(snaps: map<Key, State>, a: Id, v: nat, w: nat)
    requires Reached(snaps, Key(a, v)) && w <= v
    ensures Reached(snaps, Key(a, w))
  {
    var x :| v <= x && Key(a, x) in snaps;
    ReachedBy(snaps, Key(a, w), x);
  }

  lemma NewestReaches(snaps: map<Key, State>, a: Id, v: nat)
    ensures Reached(snaps, Key(a, v)) ==> v <= NewestSnap(snaps, a, 0)
    ensures NewestSnap(snaps, a, 0) > 0 ==> Key(a, NewestSnap(snaps, a, 0)) in snaps
  {
    var all := set w <- SnapVersions(snaps, a) | 0 <= 0 || w <= 0;
    if Reached(snaps, Key(a, v)) {
      var x :| v <= x && Key(a, x) in snaps;
      assert x in SnapVersions(snaps, a) && x in all;
    }
    if NewestSnap(snaps, a, 0) > 0 {
      assert NewestSnap(snaps, a, 0) in SnapVersions(snaps, a);
    }
  }

  lemma NewestGrows(s: map<Key, State>, u: map<Key, State>, a: Id)
    requires SnapsGrow(s, u)
    ensures NewestSnap(s, a, 0) <= NewestSnap(u, a, 0)
  {
    hide NewestSnap, Reached;
    var n := NewestSnap(s, a, 0);
    NewestReaches(s, a, n);
    NewestReaches(u, a, n);
  }

  /** The age rule: the newest snapshot was taken, or without one the oldest hot event happened, that long ago. */
  predicate Aged(hot: Table, taken: map<Id, Time>, now: Time, maxAge: nat, a: Id) {
    && maxAge > 0
    && if a in taken then now - taken[a] >= maxAge
       else exists k <- hot.Keys :: k.agg == a && now - hot[k].time >= maxAge
  }

  /** maybeSnapshot: afterwards no aggregate has every or more events, of those there were, beyond its newest snapshot,
      nor one whose age is due any event of those there were. taken is what the query finds as the latest time of a
      snapshot, now the clock's. */
  method MaybeSnapshot(db: DB, every: nat, maxAge: nat, keep: nat, taken: map<Id, Time>, now: Time)
    requires db.Valid()
    modifies db
    ensures db.Valid() && Moved(db.m, old(db.st), db.st)
    ensures db.lease ==> db.st.cps == old(db.st).cps
    ensures every > 0 ==> forall a :: old(Top(All(db.st), a)) < NewestSnap(db.st.snaps, a, 0) + every
    ensures forall a :: Aged(old(db.st.hot), taken, now, maxAge, a) ==>
              old(Top(All(db.st), a)) <= NewestSnap(db.st.snaps, a, 0)
  {
    hide LogInv, Moved, Top, NewestSnap, Reached, Aged;
    if every == 0 && maxAge == 0 {
      NeverAged(db.st.hot, taken, now);
      MovedReflexive(db.m, db.st);
      return;
    }
    ghost var before := db.st;
    MovedReflexive(db.m, before);
    var hot := db.st.hot;
    var todo := set k <- hot.Keys :: k.agg;
    ghost var cands := todo;
    var _ := db.Others("");
    var snaps := db.st.snaps;
    ghost var read := db.st;
    MovedReflexive(db.m, read);
    while todo != {}
      invariant todo <= cands && db.Valid() && Moved(db.m, before, db.st) && Moved(db.m, read, db.st)
      invariant db.lease ==> db.st.cps == before.cps
      invariant every > 0 ==> forall a <- cands - todo :: Top(hot, a) < NewestSnap(db.st.snaps, a, 0) + every
      invariant forall a <- cands - todo | Aged(hot, taken, now, maxAge, a) ::
          Top(hot, a) <= NewestSnap(db.st.snaps, a, 0)
      decreases todo
    {
      var a :| a in todo;
      ghost var mid := db.st;
      var cur, last := Top(hot, a), NewestSnap(snaps, a, 0);
      if cur > last && ((every > 0 && cur - last >= every) || Aged(hot, taken, now, maxAge, a)) {
        TopAt(db.m, before, mid, a);
        SnapshotAggregate(db, a, keep);
        MovedTransitive(db.m, before, mid, db.st);
        MovedTransitive(db.m, read, mid, db.st);
        ReachedBelow(db.st.snaps, a, Top(All(mid), a), cur);
        NewestReaches(db.st.snaps, a, cur);
        forall b ensures NewestSnap(mid.snaps, b, 0) <= NewestSnap(db.st.snaps, b, 0) {
          MovedSnaps(db.m, mid, db.st, b);
        }
      } else {
        MovedSnaps(db.m, read, db.st, a);
      }
      todo := todo - {a};
    }
    forall a
      ensures every > 0 ==> Top(All(before), a) < NewestSnap(db.st.snaps, a, 0) + every
      ensures Aged(hot, taken, now, maxAge, a) ==> Top(All(before), a) <= NewestSnap(db.st.snaps, a, 0) {
      CandidateOrEmpty(db.m, before, a, cands);
    }
  }

  lemma NeverAged(hot: Table, taken: map<Id, Time>, now: Time)
    ensures forall a :: !Aged(hot, taken, now, 0, a)
  {
  }

  lemma TopAt(m: Model, before: Store, mid: Store, a: Id)
    requires LogInv(m, before) && LogInv(m, mid) && Moved(m, before, mid)
    ensures Top(before.hot, a) <= Top(All(mid), a)
  {
    hide Moved, Top;
    TopAfter(m, before, mid, a);
    HotTop(m, before, a);
  }

  lemma MovedSnaps(m: Model, st: Store, u: Store, a: Id)
    requires Moved(m, st, u)
    ensures NewestSnap(st.snaps, a, 0) <= NewestSnap(u.snaps, a, 0)
  {
    hide RowsOk, Grown, Extends, SnapsGrow, NewestSnap;
    NewestGrows(st.snaps, u.snaps, a);
  }

  lemma CandidateOrEmpty(m: Model, st: Store, a: Id, cands: set<Id>)
    requires LogInv(m, st) && cands == set k <- st.hot.Keys :: k.agg
    ensures Top(st.hot, a) == Top(All(st), a)
    ensures a in cands || Top(All(st), a) == 0
  {
    hide Top;
    HotTop(m, st, a);
    if Top(st.hot, a) > 0 {
      assert Key(a, Top(st.hot, a)) in st.hot;
    }
  }

  // ---------------------------------------------------------------- archiving

  /** What one pass of the archiver has to move, as it stands when the pass begins. */
  ghost predicate ArchiveDue(st: Store, k: Key) {
    && k in st.hot
    && SecondYoungest(st.snaps, k.agg).Some? && k.aseq <= SecondYoungest(st.snaps, k.agg).value
    && st.hot[k].gseq <= Checkpoint(st, st.hot[k].geo)
  }

  /** Reading all bounds in one statement. */
  lemma BoundsRead(m: Model, st: Store, bounds: map<Id, nat>)
    requires LogInv(m, st) && forall a <- bounds :: SecondYoungest(st.snaps, a) == Some(bounds[a])
    ensures var u := st.(bounds := st.bounds + set a <- bounds.Keys :: Key(a, bounds[a]));
      LogInv(m, u) && Moved(m, st, u)
  {
    hide LogOk, SnapsOk, RowsOk, Top, SnapsGrow, Covered, SecondYoungest;
    SnapsGrowReflexive(st.snaps);
    var u := st.(bounds := st.bounds + set a <- bounds.Keys :: Key(a, bounds[a]));
    assert Contiguous(All(st)) by { LogIsContiguous(m, st); }
    forall k | k in u.bounds && k !in st.bounds ensures Covered(st.snaps, k) {
      BoundBelowNewest(st.snaps, k.agg);
    }
  }

  lemma LogIsContiguous(m: Model, st: Store)
    requires LogInv(m, st)
    ensures Contiguous(All(st))
  {
  }

  lemma ArchiveMoves(m: Model, st: Store, a: Id, bound: nat, cp: nat)
    requires LogInv(m, st)
    ensures var u := Archived(st, a, bound, cp);
      LogInv(m, u) && Moved(m, st, u) && u.cps == st.cps && u.bounds == st.bounds
  {
    hide LogInv, RowsOk, Extends, Grown, SnapsGrow, Archived;
    HotIsDisjoint(m, st);
    ArchiveKeepsLog(m, st, a, bound, cp);
    ArchiveExtends(m, st, a, bound, cp);
    ArchiveMovesOnly(st, a, bound, cp);
    SnapsGrowReflexive(st.snaps);
    ArchiveGrows(st, a, bound, cp);
  }

  lemma ArchiveGrows(st: Store, a: Id, bound: nat, cp: nat)
    ensures st.arch.Keys <= Archived(st, a, bound, cp).arch.Keys
  {
  }

  lemma BoundsStay(m: Model, st: Store, steps: seq<Step>)
    ensures st.bounds <= Run(m, st, steps).bounds
    decreases steps
  {
    if steps != [] {
      BoundsStayOne(m, st, steps[0]);
      BoundsStay(m, Do(m, st, steps[0]), steps[1..]);
    }
  }

  lemma BoundsStayOne(m: Model, st: Store, step: Step)
    ensures st.bounds <= Do(m, st, step).bounds
  {
    hide Replay, SecondYoungest, ApplyAll, Inserted;
  }

  /** After a's transaction everything due of a is archived, by this pass or another. */
  lemma DueIsArchived(m: Model, start: Store, st: Store, a: Id, bound: nat, cp: nat, k: Key)
    requires LogInv(m, start) && LogInv(m, st) && Moved(m, start, st) && Key(a, bound) in st.bounds
    requires ArchiveDue(start, k) && k.agg == a && SecondYoungest(start.snaps, a) == Some(bound)
    requires cp == Checkpoint(start, start.hot[k].geo)
    ensures k in Archived(st, a, bound, cp).arch
  {
    hide LogInv, Moved, SecondYoungest, Top, Checkpoint;
    assert k in All(start) && All(start)[k] == start.hot[k] by { HotIsDisjoint(m, start); }
    MovedKeeps(m, start, st, k);
    NewestAbove(m, st, k);
    SeqsArePositive(m, st, k);
  }

  lemma SeqsArePositive(m: Model, st: Store, k: Key)
    requires LogInv(m, st) && k in All(st)
    ensures All(st)[k].gseq >= 1
  {
    hide Contiguous, Pinned, Ordered, UniqueSeqs, Replayable;
  }

  /** The region maybeArchive finds is that of every event of the aggregate. */
  lemma HomeOfDue(m: Model, start: Store, st: Store, k: Key)
    requires LogInv(m, start) && LogInv(m, st) && Moved(m, start, st) && k in start.hot
    ensures var home := Key(k.agg, Top(st.hot, k.agg));
      home in st.hot && st.hot[home].geo == start.hot[k].geo
  {
    hide LogInv, Moved, Top;
    assert k in All(start) && All(start)[k] == start.hot[k] by { HotIsDisjoint(m, start); }
    MovedKeeps(m, start, st, k);
    NewestAbove(m, st, k);
  }

  /** maybeArchive: bounds, then checkpoints, then aggregate by aggregate its home region and the move. Whatever
      others do meanwhile, everything that was due is archived afterwards, and no event is lost. */
  method MaybeArchive(db: DB)
    requires db.Valid() && db.lease
    modifies db
    ensures db.Valid() && Moved(db.m, old(db.st), db.st) && db.st.cps == old(db.st).cps
    ensures forall k | ArchiveDue(old(db.st), k) :: k in db.st.arch && k !in db.st.hot
  {
    hide LogInv, Moved, SecondYoungest, Top, ArchiveDue, Archived, Run;
    ghost var before := db.st;
    var aggs := set k <- db.st.snaps.Keys :: k.agg;
    var bounds := map a | a in aggs && SecondYoungest(db.st.snaps, a).Some? :: SecondYoungest(db.st.snaps, a).value;
    BoundsRead(db.m, db.st, bounds);
    db.st := db.st.(bounds := db.st.bounds + set a <- bounds.Keys :: Key(a, bounds[a]));
    ghost var mid := db.st;
    var cps := db.st.cps;
    var todo := bounds.Keys;
    while todo != {}
      invariant todo <= bounds.Keys && db.Valid() && Moved(db.m, before, db.st) && db.st.cps == cps
      invariant forall a <- bounds :: Key(a, bounds[a]) in db.st.bounds
      invariant forall k | ArchiveDue(before, k) && k.agg in bounds.Keys - todo :: k in db.st.arch
      decreases todo
    {
      var a :| a in todo;
      mid := db.st;
      var steps := db.Others("");
      BoundsStay(db.m, mid, steps);
      MovedTransitive(db.m, before, mid, db.st);
      ArchiveStays(db.m, mid, db.st);
      var home := Key(a, Top(db.st.hot, a));
      var cp := if home in db.st.hot && db.st.hot[home].geo in cps then cps[db.st.hot[home].geo] else 0;
      forall k | k in before.hot && k.agg == a ensures cp == Checkpoint(before, before.hot[k].geo) {
        HomeOfDue(db.m, before, db.st, k);
      }
      mid := db.st;
      steps := db.Others("");
      BoundsStay(db.m, mid, steps);
      MovedTransitive(db.m, before, mid, db.st);
      ArchiveStays(db.m, mid, db.st);
      mid := db.st;
      ArchiveMoves(db.m, mid, a, bounds[a], cp);
      forall k | ArchiveDue(before, k) && k.agg == a ensures k in Archived(mid, a, bounds[a], cp).arch {
        DueIsHot(before, k);
        DueIsArchived(db.m, before, mid, a, bounds[a], cp, k);
      }
      db.st := Archived(db.st, a, bounds[a], cp);
      MovedTransitive(db.m, before, mid, db.st);
      ArchiveStays(db.m, mid, db.st);
      todo := todo - {a};
    }
    HotIsDisjoint(db.m, db.st);
    forall k | ArchiveDue(before, k) ensures k.agg in bounds {
      DueHasBound(before, k, aggs);
    }
  }

  lemma ArchiveStays(m: Model, st: Store, u: Store)
    requires Moved(m, st, u)
    ensures st.arch.Keys <= u.arch.Keys
  {
    hide Extends, Grown, RowsOk, SnapsGrow;
  }

  lemma DueIsHot(st: Store, k: Key)
    requires ArchiveDue(st, k)
    ensures k in st.hot && SecondYoungest(st.snaps, k.agg).Some?
  {
  }

  lemma DueHasBound(st: Store, k: Key, aggs: set<Id>)
    requires ArchiveDue(st, k) && aggs == set j <- st.snaps.Keys :: j.agg
    ensures k.agg in aggs && SecondYoungest(st.snaps, k.agg).Some?
  {
    hide SecondYoungest;
    BoundBelowNewest(st.snaps, k.agg);
  }
}

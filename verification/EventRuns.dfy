/** Snapshots, archiving and the worker's upsert, and what every run of all steps keeps. */
module EventRuns {
  import opened Wrappers
  import opened EventStore
  import opened EventSteps

  // ---------------------------------------------------------------- snapshots

  /** Keep the newest snapshots of one aggregate (ORDER BY aggregate_seq DESC LIMIT keep, at least one). */
  function Pruned(snaps: map<Key, State>, a: Id, keep: nat): map<Key, State> {
    map k | k in snaps && (k.agg != a || |Newer(snaps, k)| < if keep < 1 then 1 else keep) :: snaps[k]
  }

  function Newer(snaps: map<Key, State>, k: Key): set<nat> {
    set v <- SnapVersions(snaps, k.agg) | v > k.aseq
  }

  /** snapshotAggregate: store the fold at version v, then prune; a version the log lacks stores nothing. */
  function Snapshotted(m: Model, st: Store, a: Id, v: nat, keep: nat): Store {
    if Key(a, v) !in All(st) || Replay(m, All(st), a, v).None? then st
    else st.(snaps := Pruned(st.snaps[Key(a, v) := Replay(m, All(st), a, v).value], a, keep))
  }

  lemma PrunedKeepsNewest(snaps: map<Key, State>, a: Id, keep: nat, v: nat)
    requires Key(a, v) in snaps
    ensures exists w :: v <= w && Key(a, w) in Pruned(snaps, a, keep)
  {
    var top := MaxNat(SnapVersions(snaps, a));
    assert v in SnapVersions(snaps, a);
    assert Key(a, top) in snaps;
    assert Newer(snaps, Key(a, top)) == {};
  }

  /** What a snapshot covered is covered after any later snapshot and its pruning. */
  lemma StaysCovered(snaps: map<Key, State>, a: Id, v: nat, s: State, keep: nat, k: Key)
    requires Covered(snaps, k)
    ensures Covered(Pruned(snaps[Key(a, v) := s], a, keep), k)
  {
    var mid := snaps[Key(a, v) := s];
    var w :| k.aseq < w && Key(k.agg, w) in snaps;
    if k.agg == a {
      PrunedKeepsNewest(mid, a, keep, w);
    } else {
      assert Key(k.agg, w) in Pruned(mid, a, keep);
    }
  }

  lemma SnapshotKeepsLog(m: Model, st: Store, a: Id, v: nat, keep: nat)
    requires LogInv(m, st)
    ensures LogInv(m, Snapshotted(m, st, a, v, keep))
  {
    hide LogOk, Covered;
    var u := Snapshotted(m, st, a, v, keep);
    if u != st {
      forall k | Covered(st.snaps, k) ensures Covered(u.snaps, k) {
        StaysCovered(st.snaps, a, v, Replay(m, All(st), a, v).value, keep, k);
      }
    }
  }

  // ---------------------------------------------------------------- archiving

  /** The archive bound: the second-youngest snapshot, if there is one. */
  function SecondYoungest(snaps: map<Key, State>, a: Id): Option<nat> {
    var vs := SnapVersions(snaps, a);
    var older := set v <- vs | v < MaxNat(vs);
    if older == {} then None else Some(MaxNat(older))
  }

  function Checkpoint(st: Store, g: Geo): nat {
    if g in st.cps then st.cps[g] else 0
  }

  /** The statement of maybeArchive that reads the bounds, for one aggregate. */
  function BoundRead(st: Store, a: Id): Store {
    var bound := SecondYoungest(st.snaps, a);
    if bound.None? then st else st.(bounds := st.bounds + {Key(a, bound.value)})
  }

  /** The rows one archive transaction moves. */
  function Movable(hot: Table, a: Id, bound: nat, cp: nat): Table {
    map k | k in hot && k.agg == a && k.aseq <= bound && hot[k].gseq <= cp :: hot[k]
  }

  /** The transaction of maybeArchive for one aggregate, with a bound and a checkpoint read at any earlier time:
      INSERT .. ON CONFLICT DO NOTHING, then DELETE. */
  function Archived(st: Store, a: Id, bound: nat, cp: nat): Store {
    if Key(a, bound) !in st.bounds || Key(a, Top(st.hot, a)) !in st.hot || cp == 0 then st
    else
      var moved := Movable(st.hot, a, bound, cp);
      st.(hot := st.hot - moved.Keys, arch := moved + st.arch)
  }

  lemma BoundBelowNewest(snaps: map<Key, State>, a: Id)
    requires SecondYoungest(snaps, a).Some?
    ensures Key(a, SecondYoungest(snaps, a).value) in snaps
    ensures Covered(snaps, Key(a, SecondYoungest(snaps, a).value))
  {
    var vs := SnapVersions(snaps, a);
    var b := SecondYoungest(snaps, a).value;
    assert b in vs && MaxNat(vs) in vs;
    assert Key(a, MaxNat(vs)) in snaps;
  }

  lemma BoundKeepsLog(m: Model, st: Store, a: Id)
    requires LogInv(m, st)
    ensures LogInv(m, BoundRead(st, a))
  {
    hide LogOk, SnapsOk, Covered;
    if SecondYoungest(st.snaps, a).Some? {
      BoundBelowNewest(st.snaps, a);
    }
  }

  lemma ArchiveMovesOnly(st: Store, a: Id, bound: nat, cp: nat)
    requires st.hot.Keys !! st.arch.Keys
    ensures var u := Archived(st, a, bound, cp);
      && All(u) == All(st) && u.hot.Keys !! u.arch.Keys
      && u.snaps == st.snaps && u.rows == st.rows && u.bounds == st.bounds && u.cps == st.cps
  {
  }

  /** Archiving only moves rows, and only rows below a stored snapshot, also with a stale bound. */
  lemma ArchiveConserves(st: Store, a: Id, bound: nat, cp: nat)
    requires ArchiveOk(st)
    ensures var u := Archived(st, a, bound, cp);
      && All(u) == All(st) && ArchiveOk(u) && u.snaps == st.snaps && u.rows == st.rows
  {
    ArchiveMovesOnly(st, a, bound, cp);
    var u := Archived(st, a, bound, cp);
    forall k | k in u.arch && k !in st.arch ensures Covered(st.snaps, k) {
      var v :| bound < v && Key(a, v) in st.snaps;
      assert k.aseq < v && Key(k.agg, v) in st.snaps;
    }
  }

  // ---------------------------------------------------------------- steps and runs

  /** Project(a, v): a worker whose fold saw version v upserts only now, whatever committed since. Archive(a, bound,
      cp): likewise with a bound and a checkpoint read earlier. */
  datatype Step =
    | Append(a: Id, ctx: Geo, ver: nat, now: Time, ps: seq<Payload>)
    | Snapshot(a: Id, v: nat, keep: nat)
    | ReadBound(a: Id)
    | Archive(a: Id, bound: nat, cp: nat)
    | Project(a: Id, v: nat)
    | SetCheckpoint(g: Geo, s: nat)

  function Projected(m: Model, st: Store, a: Id, v: nat): Store {
    if Key(a, v) !in All(st) || Replay(m, All(st), a, v).None? then st
    else st.(rows := Upsert(st.rows, a, Row(v, Replay(m, All(st), a, v).value, HomeGeo(st, a, "local"))))
  }

  function Do(m: Model, st: Store, step: Step): Store {
    match step
    case Append(a, ctx, ver, now, ps) => Appended(m, st, a, ctx, ver, now, ps)
    case Snapshot(a, v, keep) => Snapshotted(m, st, a, v, keep)
    case ReadBound(a) => BoundRead(st, a)
    case Archive(a, bound, cp) => Archived(st, a, bound, cp)
    case Project(a, v) => Projected(m, st, a, v)
    case SetCheckpoint(g, s) => st.(cps := st.cps[g := s])
  }

  function Run(m: Model, st: Store, steps: seq<Step>): Store
    decreases steps
  {
    if steps == [] then st else Run(m, Do(m, st, steps[0]), steps[1..])
  }

  lemma StepKeepsLog(m: Model, st: Store, step: Step)
    requires LogInv(m, st)
    ensures LogInv(m, Do(m, st, step))
  {
    match step
    case Append(a, ctx, ver, now, ps) => AppendKeepsLogInv(m, st, a, ctx, ver, now, ps);
    case Snapshot(a, v, keep) => SnapshotKeepsLog(m, st, a, v, keep);
    case ReadBound(a) => BoundKeepsLog(m, st, a);
    case Archive(a, bound, cp) => ArchiveKeepsLog(m, st, a, bound, cp);
    case Project(a, v) => hide LogOk, SnapsOk, Covered;
    case SetCheckpoint(g, s) => hide LogOk, SnapsOk, Covered;
  }

  lemma ArchiveKeepsLog(m: Model, st: Store, a: Id, bound: nat, cp: nat)
    requires LogInv(m, st)
    ensures LogInv(m, Archived(st, a, bound, cp))
  {
    hide LogOk, SnapsOk, ArchiveOk, Archived;
    ArchiveConserves(st, a, bound, cp);
  }

  lemma StepKeepsRows(m: Model, st: Store, step: Step)
    requires LogInv(m, st) && RowsOk(m, All(st), st.rows)
    ensures RowsOk(m, All(Do(m, st, step)), Do(m, st, step).rows)
  {
    match step
    case Append(a, ctx, ver, now, ps) => AppendKeepsRows(m, st, a, ctx, ver, now, ps);
    case ReadBound(a) => hide LogInv, Replay;
    case Archive(a, bound, cp) => ArchiveMovesOnly(st, a, bound, cp);
    case Project(a, v) => ProjectKeepsRows(m, st, a, v);
    case Snapshot(a, v, keep) => hide LogInv, Replay;
    case SetCheckpoint(g, s) => hide LogInv, Replay;
  }

  lemma ProjectKeepsRows(m: Model, st: Store, a: Id, v: nat)
    requires RowsOk(m, All(st), st.rows)
    ensures RowsOk(m, All(Projected(m, st, a, v)), Projected(m, st, a, v).rows)
  {
    hide Replay, HomeGeo;
  }

  /** No step changes or loses an event: in particular none ever changes an event's region or sequence. */
  lemma StepExtends(m: Model, st: Store, step: Step)
    requires LogInv(m, st)
    ensures Extends(All(st), All(Do(m, st, step))) && Grown(st, Do(m, st, step))
  {
    hide LogInv, Extends, Grown, Appended, Snapshotted, BoundRead, Archived, Projected, All;
    match step
    case Append(a, ctx, ver, now, ps) => AppendExtends(m, st, a, ctx, ver, now, ps);
    case ReadBound(a) => BoundExtends(m, st, a);
    case Archive(a, bound, cp) => ArchiveExtends(m, st, a, bound, cp);
    case Snapshot(a, v, keep) => SnapshotExtends(m, st, a, v, keep);
    case Project(a, v) => ProjectExtends(m, st, a, v);
    case SetCheckpoint(g, s) => CheckpointExtends(m, st, g, s);
  }

  lemma ArchiveExtends(m: Model, st: Store, a: Id, bound: nat, cp: nat)
    requires LogInv(m, st)
    ensures var u := Archived(st, a, bound, cp); Extends(All(st), All(u)) && Grown(st, u)
  {
    hide Extends, Grown, LogOk, SnapsOk, Archived;
    ArchiveMovesOnly(st, a, bound, cp);
    SameAll(m, st, Archived(st, a, bound, cp));
  }

  lemma BoundExtends(m: Model, st: Store, a: Id)
    requires LogInv(m, st)
    ensures Extends(All(st), All(BoundRead(st, a))) && Grown(st, BoundRead(st, a))
  {
    hide Extends, Grown, LogInv, SecondYoungest;
    SameAll(m, st, BoundRead(st, a));
  }

  lemma SnapshotExtends(m: Model, st: Store, a: Id, v: nat, keep: nat)
    requires LogInv(m, st)
    ensures var u := Snapshotted(m, st, a, v, keep); Extends(All(st), All(u)) && Grown(st, u)
  {
    hide LogInv, Extends, Grown, Replay, Pruned;
    SameAll(m, st, Snapshotted(m, st, a, v, keep));
  }

  lemma CheckpointExtends(m: Model, st: Store, g: Geo, s: nat)
    requires LogInv(m, st)
    ensures var u := st.(cps := st.cps[g := s]); Extends(All(st), All(u)) && Grown(st, u)
  {
    hide LogInv, Extends, Grown;
    SameAll(m, st, st.(cps := st.cps[g := s]));
  }

  lemma AppendExtends(m: Model, st: Store, a: Id, ctx: Geo, ver: nat, now: Time, ps: seq<Payload>)
    requires LogInv(m, st)
    ensures var u := Appended(m, st, a, ctx, ver, now, ps); Extends(All(st), All(u)) && Grown(st, u)
  {
    assert Contiguous(All(st));
    AppendGrows(m, st, a, ctx, ver, now, ps);
    if Appended(m, st, a, ctx, ver, now, ps) != st {
      AppendedLog(m, st, a, ctx, ver, now, ps);
    }
    hide LogInv, Grown, Appended, Contiguous;
  }

  lemma SameAll(m: Model, st: Store, u: Store)
    requires LogInv(m, st) && All(u) == All(st) && u.rows == st.rows
    ensures Extends(All(st), All(u)) && Grown(st, u)
  {
    hide Top, SnapsOk, ArchiveOk;
  }

  lemma ProjectExtends(m: Model, st: Store, a: Id, v: nat)
    requires LogInv(m, st)
    ensures var u := Projected(m, st, a, v); Extends(All(st), All(u)) && Grown(st, u)
  {
    hide Top, Replay, HomeGeo, SnapsOk, ArchiveOk;
  }

  lemma GrownTransitive(st: Store, u: Store, w: Store)
    requires Grown(st, u) && Grown(u, w)
    ensures Grown(st, w)
  {
  }

  lemma {:induction false} RunKeepsLog(m: Model, st: Store, steps: seq<Step>)
    requires LogInv(m, st)
    ensures LogInv(m, Run(m, st, steps))
    ensures Extends(All(st), All(Run(m, st, steps))) && Grown(st, Run(m, st, steps))
    decreases steps
  {
    if steps == [] {
      assert Contiguous(All(st));
    } else {
      var mid := Do(m, st, steps[0]);
      StepKeepsLog(m, st, steps[0]);
      StepExtends(m, st, steps[0]);
      hide LogInv, Grown;
      RunKeepsLog(m, mid, steps[1..]);
      GrownTransitive(st, mid, Run(m, mid, steps[1..]));
    }
  }

  lemma {:induction false} RunKeepsRows(m: Model, st: Store, steps: seq<Step>)
    requires LogInv(m, st) && RowsOk(m, All(st), st.rows)
    ensures RowsOk(m, All(Run(m, st, steps)), Run(m, st, steps).rows)
    decreases steps
  {
    hide LogInv, RowsOk;
    if steps != [] {
      StepKeepsLog(m, st, steps[0]);
      StepKeepsRows(m, st, steps[0]);
      RunKeepsRows(m, Do(m, st, steps[0]), steps[1..]);
    }
  }

  /** Every reachable store satisfies the invariants. */
  lemma RunKeepsInv(m: Model, st: Store, steps: seq<Step>)
    requires Inv(m, st)
    ensures Inv(m, Run(m, st, steps))
  {
    hide LogInv, RowsOk, Run, Full;
    RunKeepsLog(m, st, steps);
    RunKeepsRows(m, st, steps);
    var u := Run(m, st, steps);
    forall a | Top(All(u), a) > 0 ensures Full(u, a) {
      if Top(All(st), a) > 0 {
        assert Full(st, a);
      }
    }
  }

  lemma EmptyOk(m: Model)
    ensures Inv(m, EMPTY)
  {
  }

  /** A snapshot at k's version or a later one is stored. */
  ghost predicate Reached(snaps: map<Key, State>, k: Key) {
    exists w :: k.aseq <= w && Key(k.agg, w) in snaps
  }

  /** The newest snapshot of an aggregate never gets older. */
  ghost predicate SnapsGrow(snaps: map<Key, State>, later: map<Key, State>) {
    forall k <- snaps :: Reached(later, k)
  }

  lemma ReachedBy(snaps: map<Key, State>, k: Key, w: nat)
    requires Key(k.agg, w) in snaps && k.aseq <= w
    ensures Reached(snaps, k)
  {
  }

  lemma ReachedLater(u: map<Key, State>, w: map<Key, State>, k: Key)
    requires Reached(u, k) && SnapsGrow(u, w)
    ensures Reached(w, k)
  {
    var y :| k.aseq <= y && Key(k.agg, y) in u;
    assert Reached(w, Key(k.agg, y));
    var x :| y <= x && Key(k.agg, x) in w;
    ReachedBy(w, k, x);
  }

  lemma SnapsGrowTransitive(s: map<Key, State>, u: map<Key, State>, w: map<Key, State>)
    requires SnapsGrow(s, u) && SnapsGrow(u, w)
    ensures SnapsGrow(s, w)
  {
    forall k | k in s ensures Reached(w, k) {
      hide Reached;
      ReachedLater(u, w, k);
    }
  }

  lemma SnapsGrowReflexive(snaps: map<Key, State>)
    ensures SnapsGrow(snaps, snaps)
  {
    hide Reached;
    forall k | k in snaps ensures Reached(snaps, k) {
      ReachedBy(snaps, k, k.aseq);
    }
  }

  lemma SnapshotGrows(snaps: map<Key, State>, a: Id, v: nat, s: State, keep: nat)
    ensures SnapsGrow(snaps, Pruned(snaps[Key(a, v) := s], a, keep))
  {
    var mid := snaps[Key(a, v) := s];
    var u := Pruned(mid, a, keep);
    forall k | k in snaps ensures Reached(u, k) {
      assert k == Key(k.agg, k.aseq);
      if k.agg == a {
        PrunedKeepsNewest(mid, a, keep, k.aseq);
        var w :| k.aseq <= w && Key(a, w) in u;
        ReachedBy(u, k, w);
      } else {
        ReachedBy(u, k, k.aseq);
      }
    }
  }

  lemma StepGrows(m: Model, st: Store, step: Step)
    ensures st.arch.Keys <= Do(m, st, step).arch.Keys && SnapsGrow(st.snaps, Do(m, st, step).snaps)
  {
    hide SnapsGrow, Replay, SecondYoungest;
    SnapsGrowReflexive(st.snaps);
    if step.Snapshot? && Key(step.a, step.v) in All(st) && Replay(m, All(st), step.a, step.v).Some? {
      SnapshotGrows(st.snaps, step.a, step.v, Replay(m, All(st), step.a, step.v).value, step.keep);
    }
  }

  lemma {:induction false} RunGrows(m: Model, st: Store, steps: seq<Step>)
    ensures st.arch.Keys <= Run(m, st, steps).arch.Keys && SnapsGrow(st.snaps, Run(m, st, steps).snaps)
    decreases steps
  {
    hide SnapsGrow, Do;
    SnapsGrowReflexive(st.snaps);
    if steps != [] {
      var mid := Do(m, st, steps[0]);
      StepGrows(m, st, steps[0]);
      RunGrows(m, mid, steps[1..]);
      SnapsGrowTransitive(st.snaps, mid.snaps, Run(m, mid, steps[1..]).snaps);
    }
  }

  /** Whatever is no append leaves hot log and archive together as they are. */
  lemma HouseKeepsAll(m: Model, st: Store, step: Step)
    requires LogInv(m, st) && !step.Append?
    ensures All(Do(m, st, step)) == All(st)
  {
    hide Replay, Archived, Pruned, SecondYoungest, LogOk, SnapsOk, HomeGeo;
    if step.Archive? {
      ArchiveMovesOnly(st, step.a, step.bound, step.cp);
    }
  }

  // ---------------------------------------------------------------- whole runs

  /** Geo pinning over whole runs: an aggregate that ever had an event in region g has all its
      events there, whatever regions later callers name. */
  lemma NeverLeavesHome(m: Model, st: Store, steps: seq<Step>, a: Id, i: nat)
    requires Inv(m, st) && Key(a, 1) in All(st) && Key(a, i) in All(Run(m, st, steps))
    ensures All(Run(m, st, steps))[Key(a, i)].geo == All(st)[Key(a, 1)].geo
  {
    RunKeepsLog(m, st, steps);
    assert Pinned(All(Run(m, st, steps)));
    hide LogInv, Run;
  }

  /** The hot log is enough, in every reachable store: each aggregate's newest event is hot, MAX over the
      hot log is the maximum ever issued, and a region's sequences are 1..MAX, none twice. */
  lemma HotLogIsEnough(m: Model, steps: seq<Step>, a: Id, g: Geo)
    ensures var st := Run(m, EMPTY, steps);
      && (forall i: nat :: Key(a, i) in All(st) <==> 1 <= i <= Top(st.hot, a))
      && (Top(st.hot, a) > 0 ==> Key(a, Top(st.hot, a)) in st.hot)
      && (forall s: nat :: Issued(All(st), g, s) <==> 1 <= s <= MaxSeq(st.hot, g))
      && UniqueSeqs(All(st))
  {
    EmptyOk(m);
    RunKeepsLog(m, EMPTY, steps);
    var st := Run(m, EMPTY, steps);
    hide Run;
    NewestIsHot(st, a);
    HotMaxIsIssuedMax(st, g);
  }

  lemma StepRowsForward(m: Model, st: Store, step: Step, a: Id)
    requires a in st.rows
    ensures a in Do(m, st, step).rows && st.rows[a].version <= Do(m, st, step).rows[a].version
  {
  }

  /** Read-model rows over whole runs, with worker folds and upserts apart: every row is the fold of
      exactly its version's events and an existing row never goes back. */
  lemma {:induction false} RowsOverRuns(m: Model, st: Store, steps: seq<Step>, a: Id)
    requires LogInv(m, st) && RowsOk(m, All(st), st.rows) && a in st.rows
    ensures var u := Run(m, st, steps);
      && a in u.rows && st.rows[a].version <= u.rows[a].version
      && Replay(m, All(u), a, u.rows[a].version) == Some(u.rows[a].state)
    decreases steps
  {
    if steps != [] {
      StepKeepsLog(m, st, steps[0]);
      StepKeepsRows(m, st, steps[0]);
      StepRowsForward(m, st, steps[0], a);
      hide LogInv, RowsOk;
      RowsOverRuns(m, Do(m, st, steps[0]), steps[1..], a);
    }
  }

  /** In every reachable store, hence after each committed Append: exactly the aggregates of the log
      have a row, and it stands at the log top. */
  lemma RowAtTop(m: Model, steps: seq<Step>, a: Id)
    ensures var st := Run(m, EMPTY, steps);
      && (a in st.rows <==> Top(All(st), a) > 0)
      && (a in st.rows ==> st.rows[a].version == Top(All(st), a))
  {
    EmptyOk(m);
    RunKeepsInv(m, EMPTY, steps);
    var st := Run(m, EMPTY, steps);
    hide Run;
    TopOfContiguous(All(st), a);
  }
}

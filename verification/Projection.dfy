/** The built-in projection: one worker pass, RebuildProjection and the reconcile pass, with other
    instances appending, snapshotting and archiving between any two statements (projection.go). */
module Projection {
  import opened Wrappers
  import opened EventStore
  import opened EventSteps
  import opened EventRuns
  import opened Loading

  lemma MovedTransitive(m: Model, st: Store, u: Store, w: Store)
    requires Moved(m, st, u) && Moved(m, u, w)
    ensures Moved(m, st, w)
  {
    hide RowsOk, Contiguous, Top, SnapsGrow;
    SnapsGrowTransitive(st.snaps, u.snaps, w.snaps);
  }

  lemma MovedReflexive(m: Model, st: Store)
    requires LogInv(m, st)
    ensures Moved(m, st, st)
  {
    hide RowsOk, Top, SnapsGrow, SnapsOk, ArchiveOk;
    SnapsGrowReflexive(st.snaps);
    assert Contiguous(All(st));
  }

  /** Upserting any right row is a move. */
  lemma UpsertMoves(m: Model, st: Store, a: Id, r: Row)
    requires LogInv(m, st)
    requires Key(a, r.version) in All(st) && Replay(m, All(st), a, r.version) == Some(r.state)
    ensures LogInv(m, st.(rows := Upsert(st.rows, a, r)))
    ensures Moved(m, st, st.(rows := Upsert(st.rows, a, r)))
  {
    var u := st.(rows := Upsert(st.rows, a, r));
    hide LogInv, Extends, Top, Replay, SnapsGrow;
    SameLog(m, st, u);
    SnapsGrowReflexive(st.snaps);
    if RowsOk(m, All(st), st.rows) {
      UpsertKeepsRows(m, All(st), st.rows, a, r);
      hide RowsOk;
    }
  }

  lemma SameLog(m: Model, st: Store, u: Store)
    requires LogInv(m, st) && u.hot == st.hot && u.arch == st.arch && u.snaps == st.snaps && u.bounds == st.bounds
    ensures LogInv(m, u) && Extends(All(st), All(u)) && All(u) == All(st)
  {
    assert Contiguous(All(st));
    hide LogOk, SnapsOk;
  }

  /** The late upsert of a fold: a row of version v, folded when v was the top, written now. */
  lemma LateUpsert(m: Model, folded: Store, st: Store, a: Id, r: Row)
    requires LogInv(m, st) && Moved(m, folded, st)
    requires r.version == Top(All(folded), a) > 0 && Key(a, r.version) in All(folded)
    requires Replay(m, All(folded), a, r.version) == Some(r.state)
    ensures var u := st.(rows := Upsert(st.rows, a, r));
      LogInv(m, u) && Moved(m, st, u) && Full(u, a)
  {
    hide LogInv, RowsOk, Replay, Top;
    ExtendsReplay(m, All(folded), All(st), a, r.version);
    TopAfter(m, folded, st, a);
    assert Key(a, r.version) in All(st);
    UpsertMoves(m, st, a, r);
  }

  /** projectAggregate: fold, then upsert; the aggregate's row stands at the log top afterwards,
      whatever was appended in between. */
  method ProjectAggregate(db: DB, a: Id, geo: Geo)
    requires db.Valid()
    modifies db
    ensures db.Valid() && Moved(db.m, old(db.st), db.st)
    ensures db.lease ==> db.st.cps == old(db.st).cps
    ensures old(Top(All(db.st), a)) > 0 ==> Full(db.st, a)
  {
    hide LogInv, Moved, Replay, RowsOk, Upsert, Top, NewestSnap;
    var agg := new Aggregate(a, db.m.init);
    ghost var before := db.st;
    var _ := agg.FoldInto(db, 0, None, true);
    ghost var folded := db.st;
    TopAfter(db.m, before, folded, a);
    if agg.version == 0 {
      return;
    }
    TopStored(db.m, folded, a);
    var steps := db.Others(a);
    LateUpsert(db.m, folded, db.st, a, Row(agg.version, agg.self, geo));
    MovedTransitive(db.m, before, folded, db.st);
    ghost var mid := db.st;
    db.st := db.st.(rows := Upsert(db.st.rows, a, Row(agg.version, agg.self, geo)));
    MovedTransitive(db.m, before, mid, db.st);
  }

  lemma TopAfter(m: Model, st: Store, u: Store, a: Id)
    requires LogInv(m, u) && Moved(m, st, u)
    ensures Top(All(st), a) <= Top(All(u), a)
  {
    assert Contiguous(All(u));
    hide LogInv, RowsOk, Grown;
    TopOfContiguous(All(st), a);
    TopOfContiguous(All(u), a);
    if Top(All(st), a) > 0 {
      assert Key(a, Top(All(st), a)) in All(u);
    }
  }

  lemma TopStored(m: Model, st: Store, a: Id)
    requires LogInv(m, st)
    ensures Top(All(st), a) > 0 ==> Key(a, Top(All(st), a)) in All(st)
  {
    TopOfContiguous(All(st), a);
  }

  // ---------------------------------------------------------------- one pass

  /** a has a hot event of region g beyond checkpoint cp. */
  ghost predicate Past(hot: Table, a: Id, g: Geo, cp: nat) {
    exists k :: k in hot && k.agg == a && hot[k].geo == g && hot[k].gseq > cp
  }

  /** The row with a given region sequence, if the table has it. */
  function KeyAt(t: Table, g: Geo, s: nat): Option<Key>
    requires UniqueSeqs(t)
  {
    if k :| k in t && t[k].geo == g && t[k].gseq == s then Some(k) else None
  }

  /** SELECT aggregate_id, seq FROM the hot log WHERE geo = g AND seq > cp ORDER BY seq, first sight of
      each aggregate. */
  method Scan(hot: Table, g: Geo, cp: nat) returns (order: seq<Id>, last: nat)
    requires UniqueSeqs(hot)
    ensures forall k <- hot | hot[k].geo == g && hot[k].gseq > cp :: k.agg in order && hot[k].gseq <= last
    ensures forall a <- order :: Past(hot, a, g, cp)
    ensures order != [] ==> cp < last && Issued(hot, g, last)
    ensures forall i, j | 0 <= i < j < |order| :: order[i] != order[j]
  {
    order, last := [], 0;
    var s, hi := cp + 1, MaxSeq(hot, g);
    while s <= hi
      invariant cp < s
      invariant forall k <- hot | hot[k].geo == g && cp < hot[k].gseq < s :: k.agg in order && hot[k].gseq <= last
      invariant forall a <- order :: Past(hot, a, g, cp)
      invariant order != [] ==> cp < last && Issued(hot, g, last)
      invariant forall i, j | 0 <= i < j < |order| :: order[i] != order[j]
      invariant last < s
      decreases hi + 1 - s
    {
      var k := KeyAt(hot, g, s);
      if k.Some? {
        if k.value.agg !in order {
          order := order + [k.value.agg];
        }
        last := s;
      }
      s := s + 1;
    }
    forall k | k in hot && hot[k].geo == g && hot[k].gseq > cp ensures hot[k].gseq < s {
      assert hot[k].gseq in Seqs(hot, g);
    }
  }

  /** Foreign commits, archiving included, never hide an aggregate from the scan: its newest event is hot. */
  lemma PastStays(m: Model, st: Store, u: Store, a: Id, g: Geo, cp: nat)
    requires LogInv(m, u) && Moved(m, st, u) && Past(st.hot, a, g, cp)
    requires st.hot.Keys !! st.arch.Keys
    ensures Past(u.hot, a, g, cp)
  {
    hide LogInv, Moved, Top;
    var k :| k in st.hot && k.agg == a && st.hot[k].geo == g && st.hot[k].gseq > cp;
    assert k in All(st) && All(st)[k] == st.hot[k];
    MovedKeeps(m, st, u, k);
    NewestAbove(m, u, k);
    assert Key(a, Top(u.hot, a)) in u.hot;
  }

  lemma MovedKeeps(m: Model, st: Store, u: Store, k: Key)
    requires Moved(m, st, u) && k in All(st)
    ensures k in All(u) && All(u)[k] == All(st)[k]
  {
    hide RowsOk, Grown, Contiguous;
  }

  /** Every event is at or below its aggregate's newest event, hot and in the same region. */
  lemma NewestAbove(m: Model, st: Store, k: Key)
    requires LogInv(m, st) && k in All(st)
    ensures var top := Key(k.agg, Top(st.hot, k.agg));
      top in st.hot && st.hot[top].geo == All(st)[k].geo && st.hot[top].gseq >= All(st)[k].gseq
  {
    hide Replayable, UniqueSeqs, GaplessSeqs, Top;
    NewestIsHot(st, k.agg);
    var top := Key(k.agg, Top(st.hot, k.agg));
    assert k == Key(k.agg, k.aseq);
    assert top in st.hot && All(st)[top] == st.hot[top];
  }

  /** One region of processProjection. */
  method ProcessGeo(db: DB, g: Geo)
    requires db.Valid() && db.lease
    modifies db
    ensures db.Valid() && Moved(db.m, old(db.st), db.st)
    ensures forall h | h != g :: Checkpoint(db.st, h) == Checkpoint(old(db.st), h)
    ensures forall a | Past(old(db.st).hot, a, g, Checkpoint(old(db.st), g)) :: Full(db.st, a)
  {
    hide LogOk, SnapsOk, Moved, Top, Past;
    ghost var before := db.st;
    var cp := Checkpoint(db.st, g);
    var _ := db.Others("");
    ghost var scanned := db.st;
    HotIsUnique(db.m, db.st);
    var order, last := Scan(db.st.hot, g, cp);
    forall a | Past(before.hot, a, g, cp) ensures a in order {
      PastStays(db.m, before, scanned, a, g, cp);
      PastIsScanned(scanned, a, g, cp, order);
    }
    if order == [] {
      return;
    }
    MovedReflexive(db.m, scanned);
    var i := 0;
    while i < |order|
      invariant 0 <= i <= |order|
      invariant db.Valid() && Moved(db.m, before, db.st) && Moved(db.m, scanned, db.st) && db.st.cps == before.cps
      invariant forall j | 0 <= j < i :: Full(db.st, order[j])
    {
      ghost var mid := db.st;
      InLog(db.m, scanned, mid, order[i], g, cp);
      ProjectAggregate(db, order[i], g);
      MovedTransitive(db.m, before, mid, db.st);
      MovedTransitive(db.m, scanned, mid, db.st);
      FullStays(db.m, mid, db.st);
      i := i + 1;
    }
    CheckpointMoves(db.m, db.st, g, last);
    MovedTransitive(db.m, before, db.st, db.st.(cps := db.st.cps[g := last]));
    FullStays(db.m, db.st, db.st.(cps := db.st.cps[g := last]));
    db.st := db.st.(cps := db.st.cps[g := last]);
  }

  lemma HotIsUnique(m: Model, st: Store)
    requires LogInv(m, st)
    ensures UniqueSeqs(st.hot)
  {
    assert forall k <- st.hot :: k in All(st) && All(st)[k] == st.hot[k];
    assert UniqueSeqs(All(st));
    hide LogInv;
  }

  lemma PastIsScanned(st: Store, a: Id, g: Geo, cp: nat, order: seq<Id>)
    requires Past(st.hot, a, g, cp)
    requires forall k <- st.hot | st.hot[k].geo == g && st.hot[k].gseq > cp :: k.agg in order
    ensures a in order
  {
  }

  lemma InLog(m: Model, st: Store, u: Store, a: Id, g: Geo, cp: nat)
    requires LogInv(m, st) && LogInv(m, u) && Moved(m, st, u)
    requires Past(st.hot, a, g, cp)
    ensures Top(All(u), a) > 0
  {
    hide LogInv, Moved, Top;
    var k :| k in st.hot && k.agg == a;
    HotTop(m, st, a);
    TopAfter(m, st, u, a);
    assert k in All(st) && k == Key(a, k.aseq);
  }

  lemma FullStays(m: Model, st: Store, u: Store)
    requires Moved(m, st, u)
    ensures forall a | Full(st, a) :: Full(u, a)
  {
  }

  lemma CheckpointMoves(m: Model, st: Store, g: Geo, s: nat)
    requires LogInv(m, st)
    ensures LogInv(m, st.(cps := st.cps[g := s])) && Moved(m, st, st.(cps := st.cps[g := s]))
  {
    hide LogInv, RowsOk, Extends, Top, SnapsGrow;
    SnapsGrowReflexive(st.snaps);
    SameLog(m, st, st.(cps := st.cps[g := s]));
  }

  /** processProjection: each region once, in no particular order. */
  method ProcessProjection(db: DB)
    requires db.Valid() && db.lease
    modifies db
    ensures db.Valid() && Moved(db.m, old(db.st), db.st)
    ensures forall a, g | Past(old(db.st).hot, a, g, Checkpoint(old(db.st), g)) :: Full(db.st, a)
  {
    hide LogInv, Moved, Top, Past;
    ghost var before := db.st;
    MovedReflexive(db.m, before);
    var geos := set k <- All(db.st).Keys :: All(db.st)[k].geo;
    ghost var done: set<Geo> := {};
    while geos != {}
      invariant db.Valid() && Moved(db.m, before, db.st)
      invariant forall g | g !in done :: Checkpoint(db.st, g) == Checkpoint(before, g)
      invariant geos !! done && forall k <- All(before) :: All(before)[k].geo in geos + done
      invariant forall a, g | g in done && Past(before.hot, a, g, Checkpoint(before, g)) :: Full(db.st, a)
      decreases geos
    {
      var g :| g in geos;
      ghost var mid := db.st;
      forall a | Past(before.hot, a, g, Checkpoint(before, g)) ensures Past(mid.hot, a, g, Checkpoint(mid, g)) {
        HotIsDisjoint(db.m, before);
        PastStays(db.m, before, mid, a, g, Checkpoint(before, g));
      }
      ProcessGeo(db, g);
      MovedTransitive(db.m, before, mid, db.st);
      FullStays(db.m, mid, db.st);
      geos, done := geos - {g}, done + {g};
    }
    HotIsDisjoint(db.m, before);
    forall a, g | Past(before.hot, a, g, Checkpoint(before, g)) ensures g in done {
      PastHasGeo(before, a, g, Checkpoint(before, g));
    }
  }

  lemma HotIsDisjoint(m: Model, st: Store)
    requires LogInv(m, st)
    ensures st.hot.Keys !! st.arch.Keys
  {
  }

  lemma PastHasGeo(st: Store, a: Id, g: Geo, cp: nat)
    requires Past(st.hot, a, g, cp) && st.hot.Keys !! st.arch.Keys
    ensures exists k :: k in All(st) && All(st)[k].geo == g
  {
    var k :| k in st.hot && k.agg == a && st.hot[k].geo == g && st.hot[k].gseq > cp;
    assert k in All(st) && All(st)[k] == st.hot[k];
  }

  // ---------------------------------------------------------------- rebuild and reconcile

  /** Every aggregate of the log has a hot event, so a scan of the hot log from zero sees them all. */
  lemma EveryAggregateIsHot(m: Model, st: Store, a: Id)
    requires LogInv(m, st) && Top(All(st), a) > 0
    ensures exists g :: Past(st.hot, a, g, 0)
  {
    NewestIsHot(st, a);
    var k := Key(a, Top(st.hot, a));
    assert k in st.hot && k in All(st) && All(st)[k] == st.hot[k];
    assert All(st)[k].gseq >= 1;
    hide LogInv;
    assert Past(st.hot, a, st.hot[k].geo, 0);
  }

  /** RebuildProjection: from any read model and any checkpoints to exactly one row per aggregate, each
      the fold of all its events, although archived events are never scanned. */
  method RebuildProjection(db: DB)
    requires db.Valid() && db.lease
    modifies db
    ensures db.Valid() && Extends(old(All(db.st)), All(db.st))
    ensures Inv(db.m, db.st)
  {
    hide LogOk, SnapsOk, Top, Past, RowsOk;
    db.st := db.st.(rows := map[], cps := map[]);
    ghost var wiped := db.st;
    assert RowsOk(db.m, All(wiped), wiped.rows) by { EmptyRowsOk(db.m, wiped); }
    ProcessProjection(db);
    forall a | Top(All(db.st), a) > 0 ensures Full(db.st, a) {
      if Top(All(wiped), a) > 0 {
        EveryAggregateIsHot(db.m, wiped, a);
        var g :| Past(wiped.hot, a, g, 0);
        assert Past(wiped.hot, a, g, Checkpoint(wiped, g));
      }
    }
  }

  lemma EmptyRowsOk(m: Model, st: Store)
    requires st.rows == map[]
    ensures RowsOk(m, All(st), st.rows)
  {
  }

  /** The reconcile query: aggregates whose row is missing or behind the hot log. */
  function Behind(st: Store): set<Id> {
    set k <- st.hot.Keys | k.agg !in st.rows || st.rows[k.agg].version < Top(st.hot, k.agg) :: k.agg
  }

  lemma BehindOrFull(m: Model, st: Store, a: Id)
    requires LogInv(m, st)
    ensures a in Behind(st) <==> Top(All(st), a) > 0 && !Full(st, a)
  {
    NewestIsHot(st, a);
    hide LogOk, SnapsOk, ArchiveOk;
    if Top(All(st), a) > 0 {
      assert Key(a, Top(st.hot, a)) in st.hot;
    }
    if a in Behind(st) {
      var k :| k in st.hot && k.agg == a;
      assert k in All(st) && k == Key(a, k.aseq);
    }
  }

  /** aggregateGeo: the pinned region, from any hot event, else from the archive. */
  function AggregateGeo(st: Store, a: Id): Geo {
    if Key(a, Top(st.hot, a)) in st.hot then st.hot[Key(a, Top(st.hot, a))].geo
    else if Key(a, Top(st.arch, a)) in st.arch then st.arch[Key(a, Top(st.arch, a))].geo
    else "local"
  }

  /** reconcileProjection: whatever rows are missing or behind, afterwards every aggregate of the log
      has its row at the log top, and rows that were right (Moved) still are. */
  method ReconcileProjection(db: DB)
    requires db.Valid()
    modifies db
    ensures db.Valid() && Moved(db.m, old(db.st), db.st)
    ensures RowsFull(db.st)
  {
    hide LogInv, Moved, Top, Behind;
    ghost var before := db.st;
    MovedReflexive(db.m, before);
    var todo := Behind(db.st);
    ghost var done: set<Id> := {};
    while todo != {}
      invariant db.Valid() && Moved(db.m, before, db.st)
      invariant todo !! done && todo + done == Behind(before)
      invariant forall a <- done :: Full(db.st, a)
      decreases todo
    {
      var a :| a in todo;
      ghost var mid := db.st;
      BehindOrFull(db.m, before, a);
      TopAfter(db.m, before, mid, a);
      ProjectAggregate(db, a, AggregateGeo(db.st, a));
      MovedTransitive(db.m, before, mid, db.st);
      FullStays(db.m, mid, db.st);
      todo, done := todo - {a}, done + {a};
    }
    forall a | Top(All(db.st), a) > 0 ensures Full(db.st, a) {
      BehindOrFull(db.m, before, a);
      GrownOrFull(db.m, before, db.st, a);
    }
  }

  lemma GrownOrFull(m: Model, st: Store, u: Store, a: Id)
    requires Moved(m, st, u)
    ensures Full(st, a) || Top(All(st), a) < Top(All(u), a) ==> Full(u, a)
  {
  }
}

/** Export then import gives the tenant back; nothing less than a full export is accepted. */
module TransferProof {
  import opened Wrappers
  import opened EventStore
  import opened Loading
  import opened ModelOrder
  import opened TransferStream
  import opened TenantExport
  import opened TenantStatus

  // ---------------------------------------------------------------- completeness shows

  lemma ExportAccepted(sc: Schema, src: TenantData, s: seq<Line>, drift: bool)
    requires IsExport(sc, src, s)
    ensures Accepted(sc, drift, s)
  {
    hide LineOk, Carries;
    assert s[|s| - 1].End?;
    forall i | 1 <= i < |s| ensures s[i].End? || (LineOk(sc, s[i]) && !Ended(s[..i])) {
      if i < |s| - 1 {
        forall j | 1 <= j < |s[..i]| ensures !s[..i][j].End? {
          NoEnd(sc, s[j]);
        }
      }
    }
  }

  lemma NoEnd(sc: Schema, l: Line)
    requires LineOk(sc, l)
    ensures !l.End?
  {
  }

  /** Every proper record prefix of an export is rejected, whatever the options. */
  lemma PrefixRejected(sc: Schema, src: TenantData, s: seq<Line>, n: nat, drift: bool)
    requires IsExport(sc, src, s) && n < |s|
    ensures !Accepted(sc, drift, s[..n])
  {
    hide LineOk, Carries, SchemaMatches;
    if n > 0 {
      forall j | 1 <= j < n ensures !s[..n][j].End? {
        NoEnd(sc, s[j]);
      }
    }
  }

  // ---------------------------------------------------------------- which exports load

  function RefsOf(rows: seq<RowRec>): set<Ref> {
    set r <- rows :: r.ref
  }

  /** Row i refers only to rows inserted before it, to itself, or outside the tenant. */
  ghost predicate Rooted(sc: Schema, rows: seq<RowRec>, i: nat)
    requires i < |rows|
  {
    rows[i].row.refs <= RefsOf(rows[..i + 1]) + sc.shared
  }

  ghost predicate DistinctRows(rows: seq<RowRec>) {
    forall i, j | 0 <= i < j < |rows| :: rows[i].ref != rows[j].ref
  }

  ghost predicate AllRooted(sc: Schema, rows: seq<RowRec>) {
    forall i | 0 <= i < |rows| :: Rooted(sc, rows, i)
  }

  ghost predicate Stored(c: Crud, rows: seq<RowRec>) {
    c.Keys == RefsOf(rows) && forall i | 0 <= i < |rows| :: c[rows[i].ref] == rows[i].row
  }

  lemma RowsButLast(sc: Schema, t: seq<RowRec>, r: RowRec)
    requires DistinctRows(t + [r])
    ensures DistinctRows(t) && r.ref !in RefsOf(t) && RefsOf(t + [r]) == RefsOf(t) + {r.ref}
  {
    var rows := t + [r];
    assert forall x :: x in rows <==> x in t || x == r;
    assert forall i | 0 <= i < |t| :: rows[i] == t[i];
    assert rows[|t|] == r;
  }

  lemma RootedButLast(sc: Schema, t: seq<RowRec>, r: RowRec)
    ensures AllRooted(sc, t + [r]) <==> AllRooted(sc, t) && r.row.refs <= RefsOf(t + [r]) + sc.shared
  {
    hide RefsOf;
    var rows := t + [r];
    assert rows[..|rows|] == rows && rows[|t|] == r;
    forall i | 0 <= i < |t| ensures Rooted(sc, rows, i) <==> Rooted(sc, t, i) {
      assert rows[..i + 1] == t[..i + 1];
    }
    assert AllRooted(sc, rows) ==> Rooted(sc, rows, |t|);
  }

  lemma StoredNext(c: Crud, t: seq<RowRec>, r: RowRec)
    requires Stored(c, t) && DistinctRows(t + [r]) && RefsOf(t + [r]) == RefsOf(t) + {r.ref}
    ensures Stored(c[r.ref := r.row], t + [r])
  {
    hide RefsOf;
    var rows := t + [r];
    forall i | 0 <= i < |rows| ensures rows[i].ref in RefsOf(rows) && c[r.ref := r.row][rows[i].ref] == rows[i].row {
      RefIn(rows, i);
      if i < |t| {
        RefIn(t, i);
        assert rows[i].ref != rows[|t|].ref;
      }
    }
  }

  lemma RefIn(rows: seq<RowRec>, i: nat)
    requires i < |rows|
    ensures rows[i].ref in RefsOf(rows)
  {
  }

  lemma {:induction false} CrudOfIff(sc: Schema, rows: seq<RowRec>)
    requires DistinctRows(rows)
    ensures CrudOf(sc, rows).Some? <==> AllRooted(sc, rows)
    ensures CrudOf(sc, rows).Some? ==> Stored(CrudOf(sc, rows).value, rows)
    decreases rows
  {
    hide CrudOf, RefsOf, AllRooted, DistinctRows;
    if rows == [] {
      NoRows(sc);
    } else {
      var t, r := rows[..|rows| - 1], rows[|rows| - 1];
      assert rows == t + [r];
      RowsButLast(sc, t, r);
      RootedButLast(sc, t, r);
      CrudOfIff(sc, t);
      CrudOfNext(sc, t, r);
      if CrudOf(sc, t).Some? {
        StoredNext(CrudOf(sc, t).value, t, r);
      }
    }
  }

  lemma NoRows(sc: Schema)
    ensures CrudOf(sc, []) == Some(map[]) && AllRooted(sc, []) && RefsOf([]) == {}
  {
  }

  /** What the exporter's caller can check: a row of a self-referencing model refers to no later primary key. */
  ghost predicate NoForwardSelfRef(crud: Crud) {
    forall k, r | k in crud && r in crud[k].refs && r.model == k.model :: r.pk <= k.pk
  }

  lemma OrderIsDistinct(order: seq<ModelName>, rows: seq<RowRec>)
    requires Distinct(order) && InOrder(order, rows)
    ensures DistinctRows(rows)
  {
  }

  lemma BeforeIsStrict(order: seq<ModelName>, m: ModelName, n: ModelName)
    requires Distinct(order) && Before(order, m, n)
    ensures m != n && !Before(order, n, m)
  {
  }

  /** Dependency order puts the target of a reference first. */
  lemma TargetBefore(sc: Schema, m: ModelName, t: ModelName)
    requires SchemaOk(sc) && m in sc.order && t in Targets(sc.registry, m) && t != m
    ensures Before(sc.order, t, m)
  {
    var q :| 0 <= q < |sc.order| && sc.order[q] == m;
    assert Edge(sc.registry, sc.order[q], t);
    var p :| 0 <= p < q && sc.order[..q][p] == t;
    assert sc.order[p] == t;
  }

  /** The row a reference points to stands before the referring row exactly when it must not be later in its
      own model. */
  lemma RefPlace(sc: Schema, rows: seq<RowRec>, i: nat, j: nat)
    requires SchemaOk(sc) && InOrder(sc.order, rows) && i < |rows| && j < |rows|
    requires rows[i].ref.model in sc.order && rows[j].ref.model in Targets(sc.registry, rows[i].ref.model)
    ensures j <= i <==> (rows[j].ref.model == rows[i].ref.model ==> rows[j].ref.pk <= rows[i].ref.pk)
  {
    hide Before;
    var m, t := rows[i].ref.model, rows[j].ref.model;
    if t != m {
      TargetBefore(sc, m, t);
      BeforeIsStrict(sc.order, t, m);
    }
  }

  lemma RowFound(rows: seq<RowRec>, r: Ref) returns (j: nat)
    requires r in RefsOf(rows)
    ensures j < |rows| && rows[j].ref == r
  {
    var x :| x in rows && x.ref == r;
    j :| 0 <= j < |rows| && rows[j] == x;
  }

  lemma RefInPrefix(rows: seq<RowRec>, i: nat, j: nat)
    requires DistinctRows(rows) && i < |rows| && j < |rows|
    ensures rows[j].ref in RefsOf(rows[..i + 1]) <==> j <= i
  {
    var p := rows[..i + 1];
    if j <= i {
      assert p[j] in p;
    }
    if rows[j].ref in RefsOf(p) {
      var k := RowFound(p, rows[j].ref);
      assert rows[k].ref == rows[j].ref;
    }
  }

  lemma RootedIff(sc: Schema, src: TenantData, rows: seq<RowRec>, i: nat)
    requires SchemaOk(sc) && GoodTenant(sc, src) && InOrder(sc.order, rows) && DistinctRows(rows)
    requires RefsOf(rows) == src.crud.Keys && i < |rows| && IsRow(sc, src.crud, rows[i])
    ensures Rooted(sc, rows, i)
       <==> forall r <- rows[i].row.refs :: r.model == rows[i].ref.model ==> r.pk <= rows[i].ref.pk
  {
    hide SchemaOk, InOrder, DistinctRows, GoodLog, RefsOf;
    var k := rows[i].ref;
    assert GoodRow(sc, src.crud, k);
    forall r | r in rows[i].row.refs
      ensures r in RefsOf(rows[..i + 1]) + sc.shared <==> (r.model == k.model ==> r.pk <= k.pk) {
      if r in src.crud {
        var j := RowFound(rows, r);
        RefPlace(sc, rows, i, j);
        RefInPrefix(rows, i, j);
        NotShared(sc, src, r);
      } else {
        SharedIsOther(sc, r, k);
      }
    }
  }

  lemma NotShared(sc: Schema, src: TenantData, r: Ref)
    requires SchemaOk(sc) && GoodTenant(sc, src) && r in src.crud
    ensures r !in sc.shared
  {
    hide GoodLog, Resolved, Sorted;
    assert GoodRow(sc, src.crud, r);
  }

  lemma SharedIsOther(sc: Schema, r: Ref, k: Ref)
    requires SchemaOk(sc) && r in sc.shared && k.model in sc.tenanted
    ensures r.model != k.model
  {
    hide Resolved, Sorted;
  }

  /** All rows of a full export. */
  lemma ExportRows(sc: Schema, src: TenantData, s: seq<Line>)
    requires SchemaOk(sc) && GoodTenant(sc, src) && IsExport(sc, src, s)
    ensures var rows := RowsIn(sc, s);
      && InOrder(sc.order, rows) && DistinctRows(rows) && RefsOf(rows) == src.crud.Keys
      && forall r <- rows :: IsRow(sc, src.crud, r)
  {
    hide Collect, GoodLog, Resolved, TargetsFirst, InOrder, Ascending, DistinctSnaps;
    var rows := RowsIn(sc, s);
    OrderIsDistinct(sc.order, rows);
    assert sc.order[..|sc.order|] == sc.order;
    forall k | k in src.crud ensures k in RefsOf(rows) {
      assert GoodRow(sc, src.crud, k);
      assert RowRec(k, src.crud[k]) in rows;
    }
  }

  lemma CrudLoads(sc: Schema, src: TenantData, s: seq<Line>)
    requires SchemaOk(sc) && GoodTenant(sc, src) && IsExport(sc, src, s)
    ensures CrudOf(sc, RowsIn(sc, s)).Some? <==> NoForwardSelfRef(src.crud)
    ensures CrudOf(sc, RowsIn(sc, s)).Some? ==> CrudOf(sc, RowsIn(sc, s)).value == src.crud
  {
    hide SchemaOk, GoodTenant, IsExport, Collect, InOrder, DistinctRows, Rooted, CrudOf;
    var rows := RowsIn(sc, s);
    ExportRows(sc, src, s);
    CrudOfIff(sc, rows);
    forall i | 0 <= i < |rows|
      ensures Rooted(sc, rows, i)
         <==> forall r <- rows[i].row.refs :: r.model == rows[i].ref.model ==> r.pk <= rows[i].ref.pk {
      assert rows[i] in rows;
      RootedIff(sc, src, rows, i);
    }
    if forall i | 0 <= i < |rows| :: Rooted(sc, rows, i) {
      forall k, r | k in src.crud && r in src.crud[k].refs && r.model == k.model ensures r.pk <= k.pk {
        var i := RowFound(rows, k);
        assert rows[i] in rows && Rooted(sc, rows, i);
      }
    }
    if NoForwardSelfRef(src.crud) {
      forall i | 0 <= i < |rows| ensures Rooted(sc, rows, i) {
        assert rows[i] in rows;
      }
    }
    if CrudOf(sc, rows).Some? {
      forall k | k in src.crud ensures CrudOf(sc, rows).value[k] == src.crud[k] {
        var i := RowFound(rows, k);
        assert rows[i] in rows;
      }
    }
  }

  // ---------------------------------------------------------------- events and folds

  lemma AscendingIsDistinct(evs: seq<EventRec>)
    requires Ascending(evs)
    ensures DistinctEvents(evs)
  {
  }

  /** Hot log and archive come back as one hot log with the same events. */
  lemma EventsReturn(sc: Schema, src: TenantData, s: seq<Line>, geo: Geo, nums: seq<nat>, m: ModelName)
    requires SchemaOk(sc) && GoodTenant(sc, src) && IsExport(sc, src, s) && m in sc.es && |nums| == |EventsIn(s)|
    ensures SameFacts(HotOf(EventsIn(s), nums, geo, m), All(src.es[m]))
  {
    hide Collect, HotOf, All, GoodLog, Resolved, Sorted, InOrder, DistinctSnaps;
    var evs := EventsIn(s);
    AscendingIsDistinct(evs);
    assert sc.order[..|sc.order|] == sc.order;
    HotKeys(evs, nums, geo, m);
    var hot, all := HotOf(evs, nums, geo, m), All(src.es[m]);
    forall k | k in hot ensures k in all && hot[k].time == all[k].time && hot[k].body == all[k].body {
      var i :| 0 <= i < |evs| && evs[i].model == m && evs[i].key == k;
      assert evs[i] in evs && IsEvent(src.es, evs[i]);
      HotAt(evs, nums, geo, i);
    }
    forall k | k in all ensures k in hot {
      var e := EventRec(m, k, all[k].time, all[k].body);
      assert IsEvent(src.es, e) && e in evs;
      var i :| 0 <= i < |evs| && evs[i] == e;
    }
  }

  lemma SnapsReturn(sc: Schema, src: TenantData, s: seq<Line>, m: ModelName)
    requires SchemaOk(sc) && GoodTenant(sc, src) && IsExport(sc, src, s) && m in sc.es
    ensures SnapsOf(SnapsIn(s), m) == src.es[m].snaps
  {
    hide Collect, SnapsOf, GoodLog, Resolved, Sorted, InOrder, Ascending;
    var sns := SnapsIn(s);
    assert sc.order[..|sc.order|] == sc.order;
    SnapKeys(sns, m);
    var got, snaps := SnapsOf(sns, m), src.es[m].snaps;
    forall k | k in got ensures k in snaps && got[k] == snaps[k] {
      var i :| 0 <= i < |sns| && sns[i].model == m && sns[i].key == k;
      assert sns[i] in sns && IsSnap(src.es, sns[i]);
      SnapAt(sns, i);
    }
    forall k | k in snaps ensures k in got {
      var x := SnapRec(m, k, snaps[k]);
      assert IsSnap(src.es, x) && x in sns;
      var i :| 0 <= i < |sns| && sns[i] == x;
    }
  }

  /** Newest snapshot plus later events fold to full replay of the exported log. */
  lemma FoldedIsReplay(md: Model, t: Table, snaps: map<Key, State>, a: Id)
    requires Contiguous(t) && Replayable(md, t) && SnapsOk(md, t, snaps)
    ensures var n := Top(t, a);
      Replay(md, t, a, n).Some? && Folded(md, t, snaps, a) == Some((n, Replay(md, t, a, n).value))
  {
    hide FoldRows, Select, Replay, Top, NewestSnap, SnapsOk;
    var v, n := NewestSnap(snaps, a, 0), Top(t, a);
    TopOfContiguous(t, a);
    SnapInLog(md, t, snaps, a);
    SelectConsecutive(t, t, a, v + 1, n);
    var rows := Select(t, a, v + 1, n);
    forall i | 1 <= i <= v + |rows| ensures Replay(md, t, a, i).Some? {
      assert Key(a, i) in t;
    }
    FoldConsecutive(md, t, a, v, Replay(md, t, a, v).value, rows);
    if rows != [] {
      RowAt(rows, t, a, v + 1, n);
    } else {
      assert n == v;
    }
  }

  lemma SnapInLog(md: Model, t: Table, snaps: map<Key, State>, a: Id)
    requires Contiguous(t) && SnapsOk(md, t, snaps)
    ensures var v := NewestSnap(snaps, a, 0);
      && v <= Top(t, a)
      && Replay(md, t, a, v) == Some(if Key(a, v) in snaps then snaps[Key(a, v)] else md.init)
  {
    var v := NewestSnap(snaps, a, 0);
    if v > 0 {
      assert v in SnapVersions(snaps, a);
      assert Key(a, v) in snaps && Key(a, v) in t;
      assert v in Versions(t, a);
    } else {
      assert Key(a, 0) !in t;
    }
  }

  // ---------------------------------------------------------------- the round trip

  /** The imported tenant: same rows; per model the same events (now all hot), the same snapshots, and a read
      model that is full replay of every aggregate. Regions and region sequences are the target's. */
  ghost predicate Restored(sc: Schema, geo: Geo, src: TenantData, d: TenantData) {
    && d.crud == src.crud && d.es.Keys == src.es.Keys == sc.es.Keys
    && forall m <- sc.es :: RestoredLog(sc.es[m], geo, All(src.es[m]), src.es[m].snaps, d.es[m])
  }

  ghost predicate RestoredLog(md: Model, geo: Geo, all: Table, snaps: map<Key, State>, st: Store) {
    && st.arch == map[] && SameFacts(st.hot, all) && st.snaps == snaps
    && (forall k <- st.hot :: st.hot[k].geo == geo)
    && (forall a :: a in st.rows <==> Top(all, a) > 0)
    && (forall a <- st.rows :: Replay(md, all, a, Top(all, a)).Some?
          && st.rows[a] == Row(Top(all, a), Replay(md, all, a, Top(all, a)).value, geo))
  }

  lemma {:induction false} HotGeo(evs: seq<EventRec>, nums: seq<nat>, geo: Geo, m: ModelName)
    requires |nums| == |evs|
    ensures forall k <- HotOf(evs, nums, geo, m) :: HotOf(evs, nums, geo, m)[k].geo == geo
    decreases evs
  {
    if evs != [] {
      var n := |evs| - 1;
      HotGeo(evs[..n], nums[..n], geo, m);
    }
  }

  lemma AggsAreTops(t: Table, hot: Table, a: Id)
    requires t.Keys == hot.Keys && Contiguous(t)
    ensures a in Aggs(hot) <==> Top(t, a) > 0
  {
    TopOfContiguous(t, a);
    if a in Aggs(hot) {
      var k :| k in hot && k.agg == a;
      assert k == Key(a, k.aseq) && k in t;
    }
    if Top(t, a) > 0 {
      assert Key(a, Top(t, a)) in hot;
    }
  }

  lemma FoldsReturn(md: Model, geo: Geo, t: Table, hot: Table, snaps: map<Key, State>)
    requires Contiguous(t) && Replayable(md, t) && SnapsOk(md, t, snaps) && SameFacts(hot, t)
    ensures Foldable(md, hot, snaps)
    ensures forall a :: a in Views(md, hot, snaps, geo) <==> Top(t, a) > 0
    ensures forall a <- Views(md, hot, snaps, geo) :: Replay(md, t, a, Top(t, a)).Some?
              && Views(md, hot, snaps, geo)[a] == Row(Top(t, a), Replay(md, t, a, Top(t, a)).value, geo)
  {
    hide Folded, Contiguous, Replayable, SnapsOk, SameFacts, Top, Aggs;
    forall a ensures && Replay(md, t, a, Top(t, a)).Some?
                     && Folded(md, hot, snaps, a) == Some((Top(t, a), Replay(md, t, a, Top(t, a)).value)) {
      FoldedSame(md, hot, t, snaps, a);
      FoldedIsReplay(md, t, snaps, a);
    }
    forall a ensures a in Aggs(hot) <==> Top(t, a) > 0 {
      KeysOf(hot, t);
      AggsAreTops(t, hot, a);
    }
  }

  lemma KeysOf(hot: Table, t: Table)
    requires SameFacts(hot, t)
    ensures hot.Keys == t.Keys
  {
  }

  /** A full export can be loaded exactly when no row of a self-referencing model refers to a later primary key. */
  lemma LoadsIff(sc: Schema, src: TenantData, s: seq<Line>, geo: Geo)
    requires SchemaOk(sc) && GoodTenant(sc, src) && IsExport(sc, src, s)
    ensures Loadable(sc, geo, s) <==> NoForwardSelfRef(src.crud)
  {
    hide SchemaOk, GoodRow, Collect, CrudOf, HotOf, SnapsOf, Foldable, InOrder, DistinctEvents, DistinctSnaps;
    CrudLoads(sc, src, s);
    AscendingIsDistinct(EventsIn(s));
    forall m | m in sc.es
      ensures Foldable(sc.es[m], HotOf(EventsIn(s), Zeros(|EventsIn(s)|), geo, m), SnapsOf(SnapsIn(s), m)) {
      EventsReturn(sc, src, s, geo, Zeros(|EventsIn(s)|), m);
      SnapsReturn(sc, src, s, m);
      LogFacts(sc, sc.es[m], src.es[m]);
      hide GoodLog, IsExport;
      FoldsReturn(sc.es[m], geo, All(src.es[m]), HotOf(EventsIn(s), Zeros(|EventsIn(s)|), geo, m), src.es[m].snaps);
    }
  }

  lemma LogFacts(sc: Schema, md: Model, st: Store)
    requires GoodLog(sc, md, st)
    ensures Contiguous(All(st)) && Replayable(md, All(st)) && SnapsOk(md, All(st), st.snaps)
  {
  }

  /** The round trip: whatever sequences the events got and wherever the flushes fell, importing an export
      restores the tenant. */
  lemma RoundTrip(sc: Schema, src: TenantData, s: seq<Line>, geo: Geo, nums: seq<nat>, d: TenantData)
    requires SchemaOk(sc) && GoodTenant(sc, src) && IsExport(sc, src, s) && Holds(sc, geo, s, nums, d)
    ensures Restored(sc, geo, src, d)
  {
    hide SchemaOk, GoodRow, IsExport, Collect, CrudOf, HotOf, SnapsOf, Foldable, Views, RestoredLog;
    CrudLoads(sc, src, s);
    forall m | m in sc.es ensures RestoredLog(sc.es[m], geo, All(src.es[m]), src.es[m].snaps, d.es[m]) {
      EventsReturn(sc, src, s, geo, nums, m);
      SnapsReturn(sc, src, s, m);
      LogFacts(sc, sc.es[m], src.es[m]);
      HotGeo(EventsIn(s), nums, geo, m);
      LogReturns(sc.es[m], geo, All(src.es[m]), src.es[m].snaps, d.es[m]);
    }
  }

  lemma LogReturns(md: Model, geo: Geo, t: Table, snaps: map<Key, State>, st: Store)
    requires Contiguous(t) && Replayable(md, t) && SnapsOk(md, t, snaps) && SameFacts(st.hot, t)
    requires Foldable(md, st.hot, snaps) && forall k <- st.hot :: st.hot[k].geo == geo
    requires st == Store(st.hot, map[], snaps, Views(md, st.hot, snaps, geo), map[], {})
    ensures RestoredLog(md, geo, t, snaps, st)
  {
    hide Contiguous, Replayable, SnapsOk, SameFacts, Foldable, Views;
    FoldsReturn(md, geo, t, st.hot, snaps);
  }

  // ---------------------------------------------------------------- repeating an import

  /** Equal but for regions and region sequences. */
  ghost predicate SameTenant(d: TenantData, e: TenantData) {
    && d.crud == e.crud && d.es.Keys == e.es.Keys
    && forall m <- d.es ::
         && SameFacts(d.es[m].hot, e.es[m].hot) && d.es[m].arch == e.es[m].arch == map[]
         && d.es[m].snaps == e.es[m].snaps && d.es[m].rows == e.es[m].rows
  }

  /** Two imports of one stream, after whatever failed attempts, leave the same tenant; without other tenants'
      appends each event sits at the same distance from the region's start. */
  lemma SameImport(sc: Schema, geo: Geo, s: seq<Line>, nums: seq<nat>, d: TenantData, base: map<ModelName, nat>,
                   nums': seq<nat>, d': TenantData, base': map<ModelName, nat>)
    requires Holds(sc, geo, s, nums, d) && Holds(sc, geo, s, nums', d')
    ensures SameTenant(d, d')
    ensures Gapless(EventsIn(s), nums, base) && Gapless(EventsIn(s), nums', base') ==>
              forall i | 0 <= i < |EventsIn(s)| ::
                nums[i] - base[EventsIn(s)[i].model] == nums'[i] - base'[EventsIn(s)[i].model]
  {
    hide Collect, CrudOf, HotOf, SnapsOf, Folded, CountOf;
    var evs := EventsIn(s);
    forall m | m in sc.es
      ensures SameFacts(d.es[m].hot, d'.es[m].hot) && d.es[m].rows == d'.es[m].rows {
      HotSame(evs, nums, nums', geo, geo, m);
      SameViews(sc.es[m], d.es[m].hot, d'.es[m].hot, SnapsOf(SnapsIn(s), m), geo);
    }
  }

  lemma SameViews(md: Model, t: Table, u: Table, snaps: map<Key, State>, geo: Geo)
    requires SameFacts(t, u) && Foldable(md, t, snaps) && Foldable(md, u, snaps)
    ensures Views(md, t, snaps, geo) == Views(md, u, snaps, geo)
  {
    hide Folded;
    assert Aggs(t) == Aggs(u);
    forall a ensures Folded(md, t, snaps, a) == Folded(md, u, snaps, a) {
      FoldedSame(md, t, u, snaps, a);
    }
  }

  // ---------------------------------------------------------------- the limit of the round trip

  /** A category whose parent has a later id: a good tenant, and no export of it can ever be imported. */
  lemma ForwardParentIsLost(data: Data, s: seq<Line>, geo: Geo)
    requires IsExport(Tree(), ForwardParent(data), s)
    ensures SchemaOk(Tree()) && GoodTenant(Tree(), ForwardParent(data))
    ensures Accepted(Tree(), false, s) && !Loadable(Tree(), geo, s)
  {
    var sc, src := Tree(), ForwardParent(data);
    assert sc.order[0] == "Category" && Targets(sc.registry, "Category")[0] == "Category";
    assert SchemaOk(sc) by {
      assert forall m :: m in sc.order <==> m == "Category";
    }
    assert GoodTenant(sc, src) by {
      assert "Category" in sc.order;
    }
    ExportAccepted(sc, src, s, false);
    assert Ref("Category", 2) in src.crud[Ref("Category", 1)].refs;
    LoadsIff(sc, src, s, geo);
  }

  function Tree(): Schema {
    Schema(Registry(["Category"], map["Category" := ["Category"]]), ["Category"], {"Category"}, map[], _ => true, {},
           1, "")
  }

  function ForwardParent(data: Data): TenantData {
    TenantData(map[Ref("Category", 1) := CrudRow(data, {Ref("Category", 2)}), Ref("Category", 2) := CrudRow(data, {})],
               map[])
  }

  // ---------------------------------------------------------------- backup and restore

  /** Export one tenant and import the stream into another, empty, archived or half imported: it ends restored and
      active exactly when no self reference points forward. */
  method Restore(src: TenantData, t: Tenant) returns (r: Outcome)
    requires t.Valid() && SchemaOk(t.sc) && GoodTenant(t.sc, src)
    requires t.CurrentStatus() == Active ==> !t.HasData()
    modifies t
    ensures t.Valid()
    ensures r == Imported <==> NoForwardSelfRef(src.crud)
    ensures r == Imported ==> t.CurrentStatus() == Active && Restored(t.sc, t.geo, src, t.data)
    ensures r != Imported && t.CurrentStatus() == Active ==> t.data == old(t.data)
  {
    hide SchemaOk, GoodTenant, IsExport, Accepted, Loadable, Holds, Restored, Rising, Gapless, NoForwardSelfRef;
    GoodIsExportable(t.sc, src);
    var s := Export(t.sc, src);
    ExportAccepted(t.sc, src, s, false);
    LoadsIff(t.sc, src, s, t.geo);
    ghost var nums;
    r, nums := t.Import(s, false, true);
    if r == Imported {
      RoundTrip(t.sc, src, s, t.geo, nums, t.data);
    }
  }
}

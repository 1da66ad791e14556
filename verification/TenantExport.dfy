/** Export of a tenant: header, per model in dependency order its rows, events and snapshots, and an end line
    (tenants.go:154-285). */
module TenantExport {
  import opened Wrappers
  import opened EventStore
  import opened Keyset
  import opened ModelOrder
  import opened TransferStream

  // ---------------------------------------------------------------- what a full export is

  /** A tenant as the store keeps it: references resolve, logs and snapshots satisfy the store's invariants. */
  ghost predicate GoodTenant(sc: Schema, src: TenantData) {
    && src.es.Keys == sc.es.Keys
    && (forall k <- src.crud :: GoodRow(sc, src.crud, k))
    && (forall m <- sc.es :: GoodLog(sc, sc.es[m], src.es[m]))
  }

  ghost predicate GoodRow(sc: Schema, crud: Crud, k: Ref)
    requires k in crud
  {
    && k.model in sc.order && k.model in sc.tenanted && k.model !in sc.es
    && crud[k].refs <= crud.Keys + sc.shared
    && forall r <- crud[k].refs :: r.model in Targets(sc.registry, k.model)
  }

  ghost predicate GoodLog(sc: Schema, md: Model, st: Store) {
    && st.hot.Keys !! st.arch.Keys && Contiguous(All(st)) && Replayable(md, All(st)) && SnapsOk(md, All(st), st.snaps)
    && forall k <- All(st) :: k.agg != "" && sc.declared(All(st)[k].body)
  }

  /** What the encoding of a record asks of it. The SELECTs of an export run one after the other, so this is all that
      can be said of what they find in a tenant that is being written. */
  ghost predicate Exportable(sc: Schema, src: TenantData) {
    && src.es.Keys == sc.es.Keys
    && (forall k <- src.crud :: k.model in sc.order && k.model in sc.tenanted && k.model !in sc.es)
    && (forall m <- sc.es :: GoodEvents(sc, src.es[m]))
  }

  ghost predicate GoodEvents(sc: Schema, st: Store) {
    forall k <- All(st) :: k.aseq >= 1 && k.agg != "" && sc.declared(All(st)[k].body)
  }

  lemma GoodIsExportable(sc: Schema, src: TenantData)
    requires GoodTenant(sc, src)
    ensures Exportable(sc, src)
  {
    hide Replayable, SnapsOk, All;
    forall k | k in src.crud ensures k.model in sc.order && k.model in sc.tenanted && k.model !in sc.es {
      assert GoodRow(sc, src.crud, k);
    }
    forall m | m in sc.es ensures GoodEvents(sc, src.es[m]) {
      assert GoodLog(sc, sc.es[m], src.es[m]);
    }
  }

  ghost predicate Before(order: seq<ModelName>, m: ModelName, n: ModelName) {
    exists p, q :: 0 <= p < q < |order| && order[p] == m && order[q] == n
  }

  /** Model order, and within a model ORDER BY pk. */
  ghost predicate InOrder(order: seq<ModelName>, rows: seq<RowRec>) {
    forall i, j | 0 <= i < j < |rows| ::
      if rows[i].ref.model == rows[j].ref.model then rows[i].ref.pk < rows[j].ref.pk
      else Before(order, rows[i].ref.model, rows[j].ref.model)
  }

  /** ORDER BY aggregate_seq within each aggregate. */
  ghost predicate Ascending(evs: seq<EventRec>) {
    forall i, j | 0 <= i < j < |evs| && evs[i].model == evs[j].model && evs[i].key.agg == evs[j].key.agg ::
      evs[i].key.aseq < evs[j].key.aseq
  }

  predicate IsRow(sc: Schema, crud: Crud, r: RowRec) {
    r.ref in crud && crud[r.ref] == r.row
  }

  predicate IsEvent(es: map<ModelName, Store>, e: EventRec) {
    && e.model in es && e.key in All(es[e.model])
    && var ev := All(es[e.model])[e.key]; ev.time == e.time && ev.body == e.body
  }

  predicate IsSnap(es: map<ModelName, Store>, x: SnapRec) {
    x.model in es && x.key in es[x.model].snaps && es[x.model].snaps[x.key] == x.state
  }

  /** Exactly the rows, events (hot and archived) and snapshots of the first n models, each once, in order. */
  ghost predicate Carries(sc: Schema, src: TenantData, n: nat, rows: seq<RowRec>, evs: seq<EventRec>,
                          sns: seq<SnapRec>) {
    && n <= |sc.order|
    && InOrder(sc.order, rows) && Ascending(evs) && DistinctSnaps(sns)
    && (forall r :: r in rows <==> IsRow(sc, src.crud, r) && r.ref.model in sc.order[..n])
    && (forall e :: e in evs <==> IsEvent(src.es, e) && e.model in sc.order[..n])
    && (forall x :: x in sns <==> IsSnap(src.es, x) && x.model in sc.order[..n])
  }

  ghost predicate IsExport(sc: Schema, src: TenantData, s: seq<Line>) {
    && |s| >= 2 && s[0] == Header(Some(sc.version), sc.checksum) && s[|s| - 1] == End
    && (forall i | 1 <= i < |s| - 1 :: LineOk(sc, s[i]))
    && Carries(sc, src, |sc.order|, RowsIn(sc, s), EventsIn(s), SnapsIn(s))
  }

  // ---------------------------------------------------------------- cursors

  /** SELECT pk .. ORDER BY pk. */
  method PkCursor(keys: set<Pk>) returns (pks: seq<Pk>)
    ensures forall i, j | 0 <= i < j < |pks| :: pks[i] < pks[j]
    ensures forall k :: k in pks <==> k in keys
  {
    pks := [];
    var rest := keys;
    while rest != {}
      invariant rest <= keys && forall k :: k in keys <==> k in rest || k in pks
      invariant forall i, j | 0 <= i < j < |pks| :: pks[i] < pks[j]
      invariant forall i, r | 0 <= i < |pks| && r in rest :: pks[i] < r
      decreases rest
    {
      ghost var least := LeastOf(rest);
      var k :| k in rest && forall j <- rest :: k <= j;
      pks := pks + [k];
      rest := rest - {k};
    }
  }

  lemma LeastKey(rest: set<Key>) returns (k: Key)
    requires rest != {}
    ensures k in rest && forall j <- rest | j.agg == k.agg :: k.aseq <= j.aseq
  {
    k :| k in rest;
    var others := rest - {k};
    assert forall j <- rest :: j == k || j in others;
    if others != {} {
      var j := LeastKey(others);
      if j.agg != k.agg {
        var same := set i <- rest | i.agg == k.agg;
        assert k in same && j !in same;
        k := LeastKey(same);
      } else if j.aseq < k.aseq {
        k := j;
      }
    }
  }

  /** SELECT .. ORDER BY aggregate_id, aggregate_seq, whatever the order of the aggregates. */
  method KeyCursor(keys: set<Key>) returns (order: seq<Key>)
    ensures forall i, j | 0 <= i < j < |order| :: order[i] != order[j]
    ensures forall i, j | 0 <= i < j < |order| && order[i].agg == order[j].agg :: order[i].aseq < order[j].aseq
    ensures forall k :: k in order <==> k in keys
  {
    order := [];
    var rest := keys;
    while rest != {}
      invariant KeysInOrder(order) && TakenFirst(order, rest)
      invariant forall k :: k in keys <==> k in rest || k in order
      decreases rest
    {
      hide KeysInOrder, TakenFirst;
      ghost var least := LeastKey(rest);
      var k :| k in rest && forall j <- rest | j.agg == k.agg :: k.aseq <= j.aseq;
      TakeNext(order, rest, k);
      order := order + [k];
      rest := rest - {k};
    }
  }

  ghost predicate KeysInOrder(order: seq<Key>) {
    && (forall i, j | 0 <= i < j < |order| :: order[i] != order[j])
    && (forall i, j | 0 <= i < j < |order| && order[i].agg == order[j].agg :: order[i].aseq < order[j].aseq)
  }

  /** Nothing left comes before a key already taken. */
  ghost predicate TakenFirst(order: seq<Key>, rest: set<Key>) {
    forall p, r | p in order && r in rest :: p != r && (p.agg == r.agg ==> p.aseq < r.aseq)
  }

  lemma TakeNext(order: seq<Key>, rest: set<Key>, k: Key)
    requires KeysInOrder(order) && TakenFirst(order, rest)
    requires k in rest && forall j <- rest | j.agg == k.agg :: k.aseq <= j.aseq
    ensures KeysInOrder(order + [k]) && TakenFirst(order + [k], rest - {k})
  {
    forall r | r in rest - {k} && r.agg == k.agg ensures k.aseq < r.aseq {
      assert r == Key(r.agg, r.aseq) && k == Key(k.agg, k.aseq);
    }
    assert forall i | 0 <= i < |order| :: order[i] in order;
  }

  // ---------------------------------------------------------------- sections

  /** Lines that carry one record each. */
  lemma {:induction false} CollectEach<T>(pick: Line -> seq<T>, s: seq<Line>)
    requires forall l <- s :: |pick(l)| == 1
    ensures |Collect(pick, s)| == |s| && forall i | 0 <= i < |s| :: pick(s[i]) == [Collect(pick, s)[i]]
    decreases s
  {
    if s != [] {
      var t, last := s[..|s| - 1], s[|s| - 1];
      assert (forall l <- t :: l in s) && last in s;
      CollectEach(pick, t);
      CollectLast(pick, s);
      hide Collect;
      assert pick(last) == [pick(last)[0]];
    }
  }

  lemma CollectLast<T>(pick: Line -> seq<T>, s: seq<Line>)
    requires s != []
    ensures Collect(pick, s) == Collect(pick, s[..|s| - 1]) + pick(s[|s| - 1])
  {
  }

  lemma {:induction false} CollectNone<T>(pick: Line -> seq<T>, s: seq<Line>)
    requires forall l <- s :: pick(l) == []
    ensures Collect(pick, s) == []
    decreases s
  {
    if s != [] {
      var t := s[..|s| - 1];
      assert forall l <- t :: l in s;
      CollectNone(pick, t);
      assert s[|s| - 1] in s;
    }
  }

  /** The lines of one model: its rows, or its events and snapshots, all of them. */
  ghost predicate RowsOfModel(sc: Schema, crud: Crud, m: ModelName, rows: seq<RowRec>) {
    && (forall i, j | 0 <= i < j < |rows| :: rows[i].ref.pk < rows[j].ref.pk)
    && (forall r :: r in rows <==> IsRow(sc, crud, r) && r.ref.model == m)
  }

  ghost predicate EventsOfModel(es: map<ModelName, Store>, m: ModelName, evs: seq<EventRec>) {
    && Ascending(evs) && (forall e :: e in evs <==> IsEvent(es, e) && e.model == m)
  }

  ghost predicate SnapsOfModel(es: map<ModelName, Store>, m: ModelName, sns: seq<SnapRec>) {
    && DistinctSnaps(sns) && (forall x :: x in sns <==> IsSnap(es, x) && x.model == m)
  }

  /** exportRows of a CRUD model. */
  method RowLines(sc: Schema, crud: Crud, m: ModelName) returns (s: seq<Line>)
    requires m in sc.tenanted && m !in sc.es
    ensures forall l <- s :: LineOk(sc, l)
    ensures RowsOfModel(sc, crud, m, RowsIn(sc, s)) && EventsIn(s) == [] && SnapsIn(s) == []
  {
    hide RowsOfModel, Collect;
    var pks := PkCursor(set k <- crud.Keys | k.model == m :: k.pk);
    s := [];
    var i := 0;
    while i < |pks|
      invariant 0 <= i <= |pks| && |s| == i
      invariant forall j | 0 <= j < i :: Ref(m, pks[j]) in crud && s[j] == RowLine(m, pks[j], crud[Ref(m, pks[j])])
    {
      assert pks[i] in pks;
      s := s + [RowLine(m, pks[i], crud[Ref(m, pks[i])])];
      i := i + 1;
    }
    CollectNone(PickEvent(), s);
    CollectNone(PickSnap(), s);
    RowLinesCarry(sc, crud, m, pks, s);
  }

  lemma RowLinesCarry(sc: Schema, crud: Crud, m: ModelName, pks: seq<Pk>, s: seq<Line>)
    requires m !in sc.es && |s| == |pks|
    requires forall j | 0 <= j < |s| :: Ref(m, pks[j]) in crud && s[j] == RowLine(m, pks[j], crud[Ref(m, pks[j])])
    requires forall k <- crud | k.model == m :: k.pk in pks
    requires forall i, j | 0 <= i < j < |pks| :: pks[i] < pks[j]
    ensures RowsOfModel(sc, crud, m, RowsIn(sc, s))
  {
    hide Collect;
    CollectEach(PickRow(sc), s);
    var rows := RowsIn(sc, s);
    forall j | 0 <= j < |s| ensures rows[j] == RowRec(Ref(m, pks[j]), crud[Ref(m, pks[j])]) {
      assert PickRow(sc)(s[j]) == [rows[j]];
    }
    forall r | IsRow(sc, crud, r) && r.ref.model == m ensures r in rows {
      assert r.ref == Ref(m, r.ref.pk) && r.ref.pk in pks;
      var j :| 0 <= j < |pks| && pks[j] == r.ref.pk;
      assert rows[j] == r;
    }
  }

  /** exportEvents: hot log and archive. */
  method EventLines(sc: Schema, es: map<ModelName, Store>, m: ModelName) returns (s: seq<Line>)
    requires m in sc.tenanted && m in sc.es && m in es && GoodEvents(sc, es[m])
    ensures forall l <- s :: LineOk(sc, l)
    ensures EventsOfModel(es, m, EventsIn(s)) && RowsIn(sc, s) == [] && SnapsIn(s) == []
  {
    hide EventsOfModel, Collect, All;
    var all := All(es[m]);
    var keys := KeyCursor(all.Keys);
    s := [];
    var i := 0;
    while i < |keys|
      invariant 0 <= i <= |keys| && |s| == i
      invariant forall j | 0 <= j < i ::
          keys[j] in all && s[j] == EventLine(m, keys[j], all[keys[j]].time, all[keys[j]].body)
    {
      assert keys[i] in keys;
      s := s + [EventLine(m, keys[i], all[keys[i]].time, all[keys[i]].body)];
      i := i + 1;
    }
    CollectNone(PickRow(sc), s);
    CollectNone(PickSnap(), s);
    EventLinesCarry(es, m, all, keys, s);
  }

  lemma EventLinesCarry(es: map<ModelName, Store>, m: ModelName, all: Table, keys: seq<Key>, s: seq<Line>)
    requires m in es && all == All(es[m]) && |s| == |keys|
    requires forall j | 0 <= j < |s| ::
               keys[j] in all && s[j] == EventLine(m, keys[j], all[keys[j]].time, all[keys[j]].body)
    requires forall k <- all :: k in keys
    requires forall i, j | 0 <= i < j < |keys| && keys[i].agg == keys[j].agg :: keys[i].aseq < keys[j].aseq
    ensures EventsOfModel(es, m, EventsIn(s))
  {
    hide Collect, All;
    CollectEach(PickEvent(), s);
    var evs := EventsIn(s);
    forall j | 0 <= j < |s| ensures evs[j] == EventRec(m, keys[j], all[keys[j]].time, all[keys[j]].body) {
      assert PickEvent()(s[j]) == [evs[j]];
    }
    forall e | IsEvent(es, e) && e.model == m ensures e in evs {
      assert e.key in keys;
      var j :| 0 <= j < |keys| && keys[j] == e.key;
      assert evs[j] == e;
    }
  }

  method SnapLines(sc: Schema, es: map<ModelName, Store>, m: ModelName) returns (s: seq<Line>)
    requires m in sc.tenanted && m in sc.es && m in es
    ensures forall l <- s :: LineOk(sc, l)
    ensures SnapsOfModel(es, m, SnapsIn(s)) && RowsIn(sc, s) == [] && EventsIn(s) == []
  {
    hide SnapsOfModel, Collect;
    var snaps := es[m].snaps;
    var keys := KeyCursor(snaps.Keys);
    s := [];
    var i := 0;
    while i < |keys|
      invariant 0 <= i <= |keys| && |s| == i
      invariant forall j | 0 <= j < i :: keys[j] in snaps && s[j] == SnapLine(m, keys[j], snaps[keys[j]])
    {
      assert keys[i] in keys;
      s := s + [SnapLine(m, keys[i], snaps[keys[i]])];
      i := i + 1;
    }
    CollectNone(PickRow(sc), s);
    CollectNone(PickEvent(), s);
    SnapLinesCarry(es, m, keys, s);
  }

  lemma SnapLinesCarry(es: map<ModelName, Store>, m: ModelName, keys: seq<Key>, s: seq<Line>)
    requires m in es && |s| == |keys|
    requires forall j | 0 <= j < |s| :: keys[j] in es[m].snaps && s[j] == SnapLine(m, keys[j], es[m].snaps[keys[j]])
    requires forall k <- es[m].snaps :: k in keys
    requires forall i, j | 0 <= i < j < |keys| :: keys[i] != keys[j]
    ensures SnapsOfModel(es, m, SnapsIn(s))
  {
    hide Collect;
    CollectEach(PickSnap(), s);
    var sns, snaps := SnapsIn(s), es[m].snaps;
    forall j | 0 <= j < |s| ensures sns[j] == SnapRec(m, keys[j], snaps[keys[j]]) {
      assert PickSnap()(s[j]) == [sns[j]];
    }
    forall x | IsSnap(es, x) && x.model == m ensures x in sns {
      assert x.key in keys;
      var j :| 0 <= j < |keys| && keys[j] == x.key;
      assert sns[j] == x;
    }
  }

  /** exportRows of an event-sourced model: its read model, which the import passes over. */
  method ViewLines(sc: Schema, rows: map<Id, Row>, m: ModelName) returns (s: seq<Line>)
    requires m in sc.tenanted && m in sc.es
    ensures forall l <- s :: LineOk(sc, l)
    ensures RowsIn(sc, s) == [] && EventsIn(s) == [] && SnapsIn(s) == []
  {
    s := [];
    var rest := rows.Keys;
    while rest != {}
      invariant rest <= rows.Keys
      invariant forall l <- s :: l.ViewLine? && LineOk(sc, l)
      decreases rest
    {
      var a :| a in rest;
      s := s + [ViewLine(m, a, rows[a])];
      rest := rest - {a};
    }
    CollectNone(PickRow(sc), s);
    CollectNone(PickEvent(), s);
    CollectNone(PickSnap(), s);
  }

  // ---------------------------------------------------------------- the export

  lemma BeforeNext(order: seq<ModelName>, n: nat, m: ModelName)
    requires n < |order| && m in order[..n]
    ensures Before(order, m, order[n])
  {
    var p :| 0 <= p < n && order[..n][p] == m;
    assert order[p] == m;
  }

  lemma RowsStep(sc: Schema, crud: Crud, n: nat, rows: seq<RowRec>, more: seq<RowRec>)
    requires n < |sc.order| && Distinct(sc.order) && InOrder(sc.order, rows)
    requires forall r :: r in rows <==> IsRow(sc, crud, r) && r.ref.model in sc.order[..n]
    requires RowsOfModel(sc, crud, sc.order[n], more)
    ensures InOrder(sc.order, rows + more)
    ensures forall r :: r in rows + more <==> IsRow(sc, crud, r) && r.ref.model in sc.order[..n + 1]
  {
    hide IsRow, Before;
    var m, u := sc.order[n], rows + more;
    assert forall x :: x in sc.order[..n + 1] <==> x in sc.order[..n] || x == m;
    assert m !in sc.order[..n];
    forall i, j | 0 <= i < j < |u|
      ensures if u[i].ref.model == u[j].ref.model then u[i].ref.pk < u[j].ref.pk
              else Before(sc.order, u[i].ref.model, u[j].ref.model) {
      if j < |rows| {
        assert u[i] == rows[i] && u[j] == rows[j];
      } else if i >= |rows| {
        assert u[i] in more && u[j] in more;
      } else {
        assert u[i] in rows && u[j] in more;
        BeforeNext(sc.order, n, u[i].ref.model);
      }
    }
  }

  lemma EventsStep(sc: Schema, es: map<ModelName, Store>, n: nat, evs: seq<EventRec>, more: seq<EventRec>)
    requires n < |sc.order| && Distinct(sc.order) && Ascending(evs)
    requires forall e :: e in evs <==> IsEvent(es, e) && e.model in sc.order[..n]
    requires EventsOfModel(es, sc.order[n], more)
    ensures Ascending(evs + more)
    ensures forall e :: e in evs + more <==> IsEvent(es, e) && e.model in sc.order[..n + 1]
  {
    hide IsEvent;
    var m, u := sc.order[n], evs + more;
    assert forall x :: x in sc.order[..n + 1] <==> x in sc.order[..n] || x == m;
    assert m !in sc.order[..n];
    forall i, j | 0 <= i < j < |u| && u[i].model == u[j].model && u[i].key.agg == u[j].key.agg
      ensures u[i].key.aseq < u[j].key.aseq {
      assert i < |evs| ==> u[i] in evs;
      assert j >= |evs| ==> u[j] in more;
    }
  }

  lemma SnapsStep(sc: Schema, es: map<ModelName, Store>, n: nat, sns: seq<SnapRec>, more: seq<SnapRec>)
    requires n < |sc.order| && Distinct(sc.order) && DistinctSnaps(sns)
    requires forall x :: x in sns <==> IsSnap(es, x) && x.model in sc.order[..n]
    requires SnapsOfModel(es, sc.order[n], more)
    ensures DistinctSnaps(sns + more)
    ensures forall x :: x in sns + more <==> IsSnap(es, x) && x.model in sc.order[..n + 1]
  {
    hide IsSnap;
    var m, u := sc.order[n], sns + more;
    assert forall x :: x in sc.order[..n + 1] <==> x in sc.order[..n] || x == m;
    assert m !in sc.order[..n];
    forall i, j | 0 <= i < j < |u| && u[i].model == u[j].model ensures u[i].key != u[j].key {
      assert i < |sns| ==> u[i] in sns;
      assert j >= |sns| ==> u[j] in more;
    }
  }

  /** The section of one model extends what the stream carries by exactly that model. */
  lemma SectionStep(sc: Schema, src: TenantData, n: nat, s: seq<Line>, part: seq<Line>)
    requires n < |sc.order| && Distinct(sc.order)
    requires Carries(sc, src, n, RowsIn(sc, s), EventsIn(s), SnapsIn(s))
    requires RowsOfModel(sc, src.crud, sc.order[n], RowsIn(sc, part))
    requires EventsOfModel(src.es, sc.order[n], EventsIn(part)) && SnapsOfModel(src.es, sc.order[n], SnapsIn(part))
    ensures Carries(sc, src, n + 1, RowsIn(sc, s + part), EventsIn(s + part), SnapsIn(s + part))
  {
    hide IsRow, IsEvent, IsSnap, InOrder, Ascending, DistinctSnaps, RowsOfModel, EventsOfModel, SnapsOfModel,
         Distinct, Collect;
    CollectConcat(PickRow(sc), s, part);
    CollectConcat(PickEvent(), s, part);
    CollectConcat(PickSnap(), s, part);
    RowsStep(sc, src.crud, n, RowsIn(sc, s), RowsIn(sc, part));
    EventsStep(sc, src.es, n, EventsIn(s), EventsIn(part));
    SnapsStep(sc, src.es, n, SnapsIn(s), SnapsIn(part));
  }

  /** exportRows, exportEvents and exportSnapshots of one model. */
  method Section(sc: Schema, src: TenantData, n: nat) returns (s: seq<Line>)
    requires SchemaOk(sc) && Exportable(sc, src) && n < |sc.order|
    ensures forall l <- s :: LineOk(sc, l)
    ensures RowsOfModel(sc, src.crud, sc.order[n], RowsIn(sc, s))
    ensures EventsOfModel(src.es, sc.order[n], EventsIn(s)) && SnapsOfModel(src.es, sc.order[n], SnapsIn(s))
  {
    hide LineOk, GoodEvents, Resolved, Sorted, Ascending, DistinctSnaps;
    var m := sc.order[n];
    NoneOfModel(sc, src, m);
    if m !in sc.tenanted {
      s := [];
    } else if m !in sc.es {
      s := RowLines(sc, src.crud, m);
    } else {
      var views := ViewLines(sc, src.es[m].rows, m);
      var events := EventLines(sc, src.es, m);
      var snaps := SnapLines(sc, src.es, m);
      s := views + events + snaps;
      Joined(PickRow(sc), views, events, snaps);
      Joined(PickEvent(), views, events, snaps);
      Joined(PickSnap(), views, events, snaps);
      assert [] + EventsIn(events) + [] == EventsIn(events) && [] + SnapsIn(snaps) == SnapsIn(snaps);
    }
  }

  lemma Joined<T>(pick: Line -> seq<T>, a: seq<Line>, b: seq<Line>, c: seq<Line>)
    ensures Collect(pick, a + b + c) == Collect(pick, a) + Collect(pick, b) + Collect(pick, c)
  {
    CollectConcat(pick, a, b);
    CollectConcat(pick, a + b, c);
  }

  lemma NoneOfModel(sc: Schema, src: TenantData, m: ModelName)
    requires Exportable(sc, src)
    ensures m !in sc.tenanted || m in sc.es ==> RowsOfModel(sc, src.crud, m, [])
    ensures m !in sc.es ==> EventsOfModel(src.es, m, []) && SnapsOfModel(src.es, m, [])
  {
    hide GoodEvents;
  }

  /** Export: the stream carries the whole tenant, once, in an order its own import can follow. src is what the
      statements find, each at its own time. */
  method Export(sc: Schema, src: TenantData) returns (s: seq<Line>)
    requires SchemaOk(sc) && Exportable(sc, src)
    ensures IsExport(sc, src, s)
  {
    hide LineOk, Exportable, Carries, RowsOfModel, EventsOfModel, SnapsOfModel, Resolved;
    s := [Header(Some(sc.version), sc.checksum)];
    EmptyCarries(sc, src, s);
    var n := 0;
    while n < |sc.order|
      invariant 0 <= n <= |sc.order| && |s| >= 1 && s[0] == Header(Some(sc.version), sc.checksum)
      invariant forall i | 1 <= i < |s| :: LineOk(sc, s[i])
      invariant Carries(sc, src, n, RowsIn(sc, s), EventsIn(s), SnapsIn(s))
    {
      var part := Section(sc, src, n);
      SectionStep(sc, src, n, s, part);
      assert forall i | 0 <= i < |part| :: part[i] in part;
      s := s + part;
      n := n + 1;
    }
    EndCarriesNothing(sc, s);
    s := s + [End];
  }

  lemma EmptyCarries(sc: Schema, src: TenantData, s: seq<Line>)
    requires |s| == 1 && s[0].Header?
    ensures Carries(sc, src, 0, RowsIn(sc, s), EventsIn(s), SnapsIn(s))
  {
    CollectNone(PickRow(sc), s);
    CollectNone(PickEvent(), s);
    CollectNone(PickSnap(), s);
    assert sc.order[..0] == [];
  }

  lemma EndCarriesNothing(sc: Schema, s: seq<Line>)
    ensures RowsIn(sc, s + [End]) == RowsIn(sc, s)
    ensures EventsIn(s + [End]) == EventsIn(s) && SnapsIn(s + [End]) == SnapsIn(s)
  {
    assert (s + [End])[..|s|] == s;
  }
}

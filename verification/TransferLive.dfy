/** The export of a tenant that is being written: rows, events and snapshots of a model come from separate statements
    (tenants.go:187-202), and others append and snapshot between them. */
module TransferLive {
  import opened Wrappers
  import opened EventStore
  import opened EventSteps
  import opened EventRuns
  import opened UniqueKeys
  import opened AppendRoutes
  import opened ModelOrder
  import opened TransferStream
  import opened TenantExport

  /** What the export finds of an event-sourced model: the events at one time, the snapshots at a later one. */
  function Mixed(at: Store, later: Store): Store {
    at.(snaps := later.snaps)
  }

  function Found(sc: Schema, rows: Crud, at: map<ModelName, Store>, later: map<ModelName, Store>): TenantData
    requires at.Keys == later.Keys == sc.es.Keys
  {
    TenantData(rows, map m | m in at :: Mixed(at[m], later[m]))
  }

  /** The store as the snapshots were read came out of the store as the events were read. */
  ghost predicate CameLater(md: Model, at: Store, later: Store) {
    LogInv(md, at) && exists steps :: later == Run(md, at, steps)
  }

  /** Events and snapshots fit together exactly when no snapshot stands above the events read. */
  lemma MixedIsGoodIff(sc: Schema, md: Model, at: Store, later: Store)
    requires CameLater(md, at, later) && GoodEvents(sc, at)
    ensures GoodLog(sc, md, Mixed(at, later)) <==> later.snaps.Keys <= All(at).Keys
  {
    hide Run, LogInv, SnapsOk, GoodEvents, GoodLog, Extends, All;
    var steps :| later == Run(md, at, steps);
    RunKeepsLog(md, at, steps);
    SnapsOfInv(md, later);
    SnapsFitIff(md, All(at), All(later), later.snaps);
    MixedLog(sc, md, at, later);
  }

  lemma SnapsOfInv(md: Model, st: Store)
    requires LogInv(md, st)
    ensures SnapsOk(md, All(st), st.snaps)
  {
  }

  lemma SnapsFitIff(md: Model, t: Table, u: Table, snaps: map<Key, State>)
    requires Extends(t, u) && SnapsOk(md, u, snaps)
    ensures SnapsOk(md, t, snaps) <==> snaps.Keys <= t.Keys
  {
    hide Contiguous, Replay;
    if snaps.Keys <= t.Keys {
      forall k | k in snaps ensures Replay(md, t, k.agg, k.aseq) == Some(snaps[k]) {
        assert k == Key(k.agg, k.aseq) && k in t;
        ExtendsReplay(md, t, u, k.agg, k.aseq);
      }
    }
  }

  lemma MixedLog(sc: Schema, md: Model, at: Store, later: Store)
    requires LogInv(md, at) && GoodEvents(sc, at)
    ensures GoodLog(sc, md, Mixed(at, later)) <==> SnapsOk(md, All(at), later.snaps)
  {
    hide SnapsOk, Contiguous, Replayable, Pinned, Ordered, UniqueSeqs, GaplessSeqs, Covered;
  }

  /** Every row found refers to rows found, or outside the tenant. */
  ghost predicate RowsFit(sc: Schema, rows: Crud) {
    forall k <- rows :: GoodRow(sc, rows, k)
  }

  /** When the export of a tenant that is being written is one of a sound tenant, so that importing it restores what it
      carries (TransferProof.RoundTrip): exactly when its rows refer to exported rows and no snapshot stands above the
      exported events. */
  lemma FoundIsGoodIff(sc: Schema, rows: Crud, at: map<ModelName, Store>, later: map<ModelName, Store>)
    requires at.Keys == later.Keys == sc.es.Keys
    requires forall m <- sc.es :: CameLater(sc.es[m], at[m], later[m]) && GoodEvents(sc, at[m])
    ensures GoodTenant(sc, Found(sc, rows, at, later))
       <==> RowsFit(sc, rows) && forall m <- sc.es :: later[m].snaps.Keys <= All(at[m]).Keys
  {
    hide GoodLog, GoodRow, CameLater, GoodEvents, Mixed, All;
    var src := Found(sc, rows, at, later);
    forall m | m in sc.es ensures GoodLog(sc, sc.es[m], src.es[m]) <==> later[m].snaps.Keys <= All(at[m]).Keys {
      MixedIsGoodIff(sc, sc.es[m], at[m], later[m]);
    }
  }

  /** A snapshot above the events needs an append in between. */
  ghost predicate NoAppend(steps: seq<Step>) {
    forall step <- steps :: !step.Append?
  }

  lemma {:induction false} QuietExportFits(md: Model, st: Store, steps: seq<Step>)
    requires LogInv(md, st) && NoAppend(steps)
    ensures All(Run(md, st, steps)) == All(st) && Run(md, st, steps).snaps.Keys <= All(st).Keys
    decreases steps
  {
    hide Do, All;
    if steps == [] {
      SnapsInLog(md, st);
    } else {
      assert steps[0] in steps && forall step <- steps[1..] :: step in steps;
      StepKeepsLog(md, st, steps[0]);
      HouseKeepsAll(md, st, steps[0]);
      QuietExportFits(md, Do(md, st, steps[0]), steps[1..]);
    }
  }

  lemma SnapsInLog(md: Model, st: Store)
    requires LogInv(md, st)
    ensures st.snaps.Keys <= All(st).Keys
  {
  }

  /** A run between the two statements that spoils the export: one append and its snapshot. What is restored from it
      has a snapshot at version 2 over a log of one event; the next append, whose handle is loaded from the snapshot,
      passes the optimistic check and leaves version 2 out for good. */
  lemma SnapshotAboveEvents(g: Geo, s: State, p: Payload)
    ensures var md := Willing(s);
      var at := Run(md, EMPTY, [Append("a", g, 0, 0, [p])]);
      var later := Run(md, at, [Append("a", g, 1, 0, [p]), Snapshot("a", 2, 2)]);
      var found := Mixed(at, later);
      var next := Committed(found, "a", 2, g, 1, 0, [p], s);
      && LogInv(md, at) && LogInv(md, later) && !LogInv(md, found)
      && found.snaps == map[Key("a", 2) := s] && Top(found.hot, "a") == 1 && MaxSeq(found.hot, g) == 1
      && !PkCollides(found.hot, "a", 2, 1) && !SeqCollides(found.hot, g, 1, 1)
      && Key("a", 3) in All(next) && Key("a", 2) !in All(next)
  {
    hide LogInv, Run, Do, Committed, HomeGeo, Top, MaxSeq, Pruned, Snapshotted, Replay;
    var md := Willing(s);
    EmptyOk(md);
    InvIsLog(md, EMPTY);
    RunKeepsLog(md, EMPTY, [Append("a", g, 0, 0, [p])]);
    FirstEvent("a", g, s, p);
    var at := Run(md, EMPTY, [Append("a", g, 0, 0, [p])]);
    var steps := [Append("a", g, 1, 0, [p]), Snapshot("a", 2, 2)];
    RunKeepsLog(md, at, steps);
    OneMore(at, g, s, p);
    FoundNext(md, Mixed(at, Run(md, at, steps)), g, s, p);
  }

  lemma InvIsLog(md: Model, st: Store)
    requires Inv(md, st)
    ensures LogInv(md, st)
  {
  }

  /** The second event and its snapshot. */
  lemma OneMore(at: Store, g: Geo, s: State, p: Payload)
    requires at == EMPTY.(hot := map[Key("a", 1) := At(g, 1, p)], rows := map["a" := Row(1, s, g)])
    ensures Run(Willing(s), at, [Append("a", g, 1, 0, [p]), Snapshot("a", 2, 2)]).snaps == map[Key("a", 2) := s]
  {
    hide Run, Pruned, Top, MaxSeq, HomeGeo, Upsert;
    var md := Willing(s);
    TopIs(at.hot, "a", 1);
    MaxSeqIs(at.hot, Key("a", 1));
    HomeIs(at, "a", 1, g);
    Appends(at, "a", g, 1, 1, [p], s);
    var u := Committed(at, "a", 1, g, 1, 0, [p], s);
    InsertsOne(at.hot, "a", 1, g, 1, p);
    WillingReplay(All(u), "a", 2, s);
    var none: map<Key, State> := map[];
    Keeps(none, "a", 2, s);
    var v := Snapshotted(md, u, "a", 2, 2);
    assert v.snaps == map[Key("a", 2) := s];
    var steps := [Append("a", g, 1, 0, [p]), Snapshot("a", 2, 2)];
    RunTwo(md, at, steps);
  }

  lemma RunTwo(md: Model, st: Store, steps: seq<Step>)
    requires |steps| == 2
    ensures Run(md, st, steps) == Do(md, Do(md, st, steps[0]), steps[1])
  {
    hide Do;
    RunFront(md, st, steps);
    RunFront(md, Do(md, st, steps[0]), steps[1..]);
    assert steps[1..][1..] == [];
  }

  lemma HomeIs(st: Store, a: Id, n: nat, g: Geo)
    requires Top(st.hot, a) == n && Key(a, n) in st.hot && st.hot[Key(a, n)].geo == g
    ensures forall ctx :: HomeGeo(st, a, ctx) == g
  {
  }

  lemma FoundNext(md: Model, found: Store, g: Geo, s: State, p: Payload)
    requires found.hot == map[Key("a", 1) := At(g, 1, p)] && found.arch == map[] && found.snaps == map[Key("a", 2) := s]
    ensures var next := Committed(found, "a", 2, g, 1, 0, [p], s);
      && !LogInv(md, found) && !PkCollides(found.hot, "a", 2, 1) && !SeqCollides(found.hot, g, 1, 1)
      && Key("a", 3) in All(next) && Key("a", 2) !in All(next)
  {
    hide LogInv, Upsert, Inserted;
    InsertsOne(found.hot, "a", 2, g, 1, p);
    if LogInv(md, found) {
      SnapsInLog(md, found);
    }
  }
}

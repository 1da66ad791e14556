/** The steps that change the event store, and that each keeps the invariants: the write
    closure of Append, the read-model upsert, snapshot with pruning, and archiving. */
module EventSteps {
  import opened Wrappers
  import opened EventStore

  // ---------------------------------------------------------------- one appended event

  /** What an event must look like to continue aggregate a and its region. */
  ghost predicate Continues(m: Model, t: Table, a: Id, n: nat, e: Event) {
    && (forall i: nat :: Key(a, i) in t <==> 1 <= i <= n)
    && (n > 0 ==> t[Key(a, n)].geo == e.geo)
    && e.gseq >= 1
    && (forall s: nat :: Issued(t, e.geo, s) <==> 1 <= s < e.gseq)
    && Replay(m, t, a, n).Some?
    && m.apply(Replay(m, t, a, n).value, n + 1, e.time, e.body).Some?
  }

  lemma InsertContiguous(m: Model, t: Table, a: Id, n: nat, e: Event)
    requires Contiguous(t) && Continues(m, t, a, n, e)
    ensures Contiguous(t[Key(a, n + 1) := e])
    ensures Top(t[Key(a, n + 1) := e], a) == n + 1
  {
    var u := t[Key(a, n + 1) := e];
    assert n + 1 in Versions(u, a) by { assert Key(a, n + 1) in u; }
    forall i | i in Versions(u, a) ensures i <= n + 1 {
      assert Key(a, i) in u;
    }
  }

  lemma InsertOrdered(m: Model, t: Table, a: Id, n: nat, e: Event)
    requires Pinned(t) && Ordered(t) && Continues(m, t, a, n, e)
    ensures Pinned(t[Key(a, n + 1) := e]) && Ordered(t[Key(a, n + 1) := e])
  {
    forall k | k in t && k.agg == a ensures t[k].geo == e.geo && k.aseq <= n && t[k].gseq < e.gseq {
      assert k == Key(a, k.aseq);
      assert Key(a, n) in t;
      assert Issued(t, e.geo, t[k].gseq);
    }
  }

  lemma InsertIssued(t: Table, k: Key, e: Event, g: Geo, s: nat)
    requires k !in t
    ensures Issued(t[k := e], g, s) <==> Issued(t, g, s) || (g == e.geo && s == e.gseq)
  {
    var u := t[k := e];
    if Issued(t, g, s) {
      var j :| j in t && t[j].geo == g && t[j].gseq == s;
      assert j in u && u[j] == t[j];
    }
    if g == e.geo && s == e.gseq {
      assert k in u && u[k] == e;
    }
  }

  lemma InsertSeqs(m: Model, t: Table, a: Id, n: nat, e: Event)
    requires UniqueSeqs(t) && GaplessSeqs(t) && Continues(m, t, a, n, e)
    ensures UniqueSeqs(t[Key(a, n + 1) := e]) && GaplessSeqs(t[Key(a, n + 1) := e])
  {
    var u := t[Key(a, n + 1) := e];
    forall k | k in t && t[k].geo == e.geo ensures t[k].gseq < e.gseq {
      assert Issued(t, e.geo, t[k].gseq);
    }
    forall g, s: nat, r: nat | Issued(u, g, s) && 1 <= r <= s ensures Issued(u, g, r) {
      InsertIssued(t, Key(a, n + 1), e, g, s);
      InsertIssued(t, Key(a, n + 1), e, g, r);
    }
  }

  lemma InsertReplay(m: Model, t: Table, a: Id, n: nat, e: Event, b: Id, v: nat)
    requires forall i: nat :: Key(a, i) in t <==> 1 <= i <= n
    requires forall i | 1 <= i <= v :: Key(b, i) in t
    ensures Replay(m, t[Key(a, n + 1) := e], b, v) == Replay(m, t, b, v)
  {
    ReplayFrame(m, t, t[Key(a, n + 1) := e], b, v);
  }

  lemma InsertReplayable(m: Model, t: Table, a: Id, n: nat, e: Event)
    requires Contiguous(t) && Replayable(m, t) && Continues(m, t, a, n, e)
    ensures Replayable(m, t[Key(a, n + 1) := e])
    ensures Replay(m, t[Key(a, n + 1) := e], a, n + 1)
         == m.apply(Replay(m, t, a, n).value, n + 1, e.time, e.body)
  {
    var u := t[Key(a, n + 1) := e];
    InsertReplay(m, t, a, n, e, a, n);
    forall k | k in u ensures Replay(m, u, k.agg, k.aseq).Some? {
      if k != Key(a, n + 1) {
        InsertReplay(m, t, a, n, e, k.agg, k.aseq);
      }
    }
  }

  lemma InsertKeepsLog(m: Model, t: Table, a: Id, n: nat, e: Event)
    requires LogOk(m, t) && Continues(m, t, a, n, e)
    ensures LogOk(m, t[Key(a, n + 1) := e])
    ensures Replay(m, t[Key(a, n + 1) := e], a, n + 1)
         == m.apply(Replay(m, t, a, n).value, n + 1, e.time, e.body)
  {
    InsertContiguous(m, t, a, n, e);
    InsertOrdered(m, t, a, n, e);
    InsertSeqs(m, t, a, n, e);
    InsertReplayable(m, t, a, n, e);
  }

  // ---------------------------------------------------------------- Append

  /** The rows of one Append: versions ver+1.., region sequences top+1.., one timestamp. */
  function Inserted(t: Table, a: Id, ver: nat, g: Geo, top: nat, now: Time, ps: seq<Payload>): Table
    decreases ps
  {
    if ps == [] then t
    else Inserted(t[Key(a, ver + 1) := Event(g, top + 1, now, ps[0])], a, ver + 1, g, top + 1, now, ps[1..])
  }

  function ApplyAll(m: Model, s: State, ver: nat, now: Time, ps: seq<Payload>): Option<State>
    decreases ps
  {
    if ps == [] then Some(s)
    else
      match m.apply(s, ver + 1, now, ps[0])
      case None => None
      case Some(s') => ApplyAll(m, s', ver + 1, now, ps[1..])
  }

  /** The forward-only upsert: a row of the same or a higher version stays. */
  function Upsert(rows: map<Id, Row>, a: Id, r: Row): map<Id, Row> {
    if a in rows && rows[a].version >= r.version then rows else rows[a := r]
  }

  /** Geo pinning: the home region of an existing aggregate wins over the caller's. */
  function HomeGeo(st: Store, a: Id, ctx: Geo): Geo {
    var k := Key(a, Top(st.hot, a));
    if k in st.hot then st.hot[k].geo else ctx
  }

  /** One committed Append by a handle at version ver whose memory is the fold of that prefix. Where
      the optimistic check fails or Apply refuses an event the transaction leaves nothing behind. */
  function Appended(m: Model, st: Store, a: Id, ctx: Geo, ver: nat, now: Time, ps: seq<Payload>): Store {
    var g := HomeGeo(st, a, ctx);
    var mem := Replay(m, All(st), a, ver);
    if ps == [] || Top(st.hot, a) != ver || mem.None? || ApplyAll(m, mem.value, ver, now, ps).None? then st
    else
      var s := ApplyAll(m, mem.value, ver, now, ps).value;
      st.(hot := Inserted(st.hot, a, ver, g, MaxSeq(st.hot, g), now, ps),
          rows := Upsert(st.rows, a, Row(ver + |ps|, s, g)))
  }

  /** Inserting into the hot log is inserting into hot plus archive, when the keys are new. */
  lemma {:induction false} InsertedIntoAll(hot: Table, arch: Table, a: Id, ver: nat, g: Geo, top: nat,
                                           now: Time, ps: seq<Payload>)
    requires forall k <- arch :: k.agg == a ==> k.aseq <= ver
    ensures Inserted(hot, a, ver, g, top, now, ps) + arch
         == Inserted(hot + arch, a, ver, g, top, now, ps)
    decreases ps
  {
    if ps != [] {
      var e := Event(g, top + 1, now, ps[0]);
      assert hot[Key(a, ver + 1) := e] + arch == (hot + arch)[Key(a, ver + 1) := e];
      InsertedIntoAll(hot[Key(a, ver + 1) := e], arch, a, ver + 1, g, top + 1, now, ps[1..]);
    }
  }

  lemma {:induction false} InsertedKeys(t: Table, a: Id, ver: nat, g: Geo, top: nat, now: Time, ps: seq<Payload>)
    ensures forall k :: k in Inserted(t, a, ver, g, top, now, ps)
              <==> k in t || (k.agg == a && ver < k.aseq <= ver + |ps|)
    ensures forall k <- t.Keys :: k.agg != a || k.aseq <= ver
              ==> Inserted(t, a, ver, g, top, now, ps)[k] == t[k]
    decreases ps
  {
    if ps != [] {
      var u := t[Key(a, ver + 1) := Event(g, top + 1, now, ps[0])];
      InsertedKeys(u, a, ver + 1, g, top + 1, now, ps[1..]);
      assert forall k: Key :: k.agg == a && k.aseq == ver + 1 ==> k == Key(a, ver + 1);
    }
  }

  predicate RowIs(t: Table, a: Id, ver: nat, g: Geo, top: nat, now: Time, ps: seq<Payload>, i: nat)
    requires i < |ps|
  {
    var k := Key(a, ver + 1 + i);
    k in t && t[k] == Event(g, top + 1 + i, now, ps[i])
  }

  /** The new rows: versions, region sequences and payloads in step, in the order given. */
  ghost predicate RowsOf(t: Table, a: Id, ver: nat, g: Geo, top: nat, now: Time, ps: seq<Payload>) {
    forall i | 0 <= i < |ps| :: RowIs(t, a, ver, g, top, now, ps, i)
  }

  lemma {:induction false} InsertedRows(t: Table, a: Id, ver: nat, g: Geo, top: nat, now: Time, ps: seq<Payload>)
    ensures RowsOf(Inserted(t, a, ver, g, top, now, ps), a, ver, g, top, now, ps)
    decreases ps
  {
    if ps != [] {
      var u := t[Key(a, ver + 1) := Event(g, top + 1, now, ps[0])];
      InsertedRows(u, a, ver + 1, g, top + 1, now, ps[1..]);
      InsertedKeys(u, a, ver + 1, g, top + 1, now, ps[1..]);
      var w := Inserted(u, a, ver + 1, g, top + 1, now, ps[1..]);
      hide Inserted;
      forall i | 0 <= i < |ps| ensures RowIs(w, a, ver, g, top, now, ps, i) {
        if i > 0 {
          assert RowIs(w, a, ver + 1, g, top + 1, now, ps[1..], i - 1);
        }
      }
    }
  }

  lemma {:induction false} InsertedKeepsLog(m: Model, t: Table, a: Id, ver: nat, g: Geo, top: nat,
                                            now: Time, ps: seq<Payload>)
    requires LogOk(m, t)
    requires forall i: nat :: Key(a, i) in t <==> 1 <= i <= ver
    requires ver > 0 ==> t[Key(a, ver)].geo == g
    requires forall s: nat :: Issued(t, g, s) <==> 1 <= s <= top
    requires Replay(m, t, a, ver).Some?
    requires ApplyAll(m, Replay(m, t, a, ver).value, ver, now, ps).Some?
    ensures LogOk(m, Inserted(t, a, ver, g, top, now, ps))
    ensures Replay(m, Inserted(t, a, ver, g, top, now, ps), a, ver + |ps|)
         == ApplyAll(m, Replay(m, t, a, ver).value, ver, now, ps)
    decreases ps
  {
    hide LogOk;
    if ps != [] {
      var e := Event(g, top + 1, now, ps[0]);
      var u := t[Key(a, ver + 1) := e];
      InsertKeepsLog(m, t, a, ver, e);
      forall s: nat ensures Issued(u, g, s) <==> 1 <= s <= top + 1 {
        InsertIssued(t, Key(a, ver + 1), e, g, s);
      }
      InsertedKeepsLog(m, u, a, ver + 1, g, top + 1, now, ps[1..]);
    }
  }

  /** Only the prefix of an aggregate decides its replay, so a longer log replays the same. */
  lemma ReplayInLonger(m: Model, t: Table, u: Table, a: Id, v: nat)
    requires forall i | 1 <= i <= v :: Key(a, i) in t && Key(a, i) in u && u[Key(a, i)] == t[Key(a, i)]
    ensures Replay(m, u, a, v) == Replay(m, t, a, v)
  {
    ReplayFrame(m, t, u, a, v);
  }

  /** t is a log and u the same log with later events. */
  ghost predicate Extends(t: Table, u: Table) {
    Contiguous(t) && forall k <- t :: k in u && u[k] == t[k]
  }

  lemma ExtendsReplay(m: Model, t: Table, u: Table, a: Id, v: nat)
    requires Extends(t, u) && (v == 0 || Key(a, v) in t)
    ensures Replay(m, u, a, v) == Replay(m, t, a, v)
  {
    assert v > 0 ==> Key(a, v).aseq == v && Key(a, v).agg == a;
    ReplayInLonger(m, t, u, a, v);
  }

  lemma ExtendsKeepsSnaps(m: Model, t: Table, u: Table, snaps: map<Key, State>)
    requires Extends(t, u) && SnapsOk(m, t, snaps)
    ensures SnapsOk(m, u, snaps)
  {
    forall k | k in snaps ensures Replay(m, u, k.agg, k.aseq) == Some(snaps[k]) {
      assert k == Key(k.agg, k.aseq);
      ExtendsReplay(m, t, u, k.agg, k.aseq);
    }
  }

  lemma ExtendsKeepsRows(m: Model, t: Table, u: Table, rows: map<Id, Row>)
    requires Extends(t, u) && RowsOk(m, t, rows)
    ensures RowsOk(m, u, rows)
  {
    forall a | a in rows ensures Replay(m, u, a, rows[a].version) == Some(rows[a].state) {
      ExtendsReplay(m, t, u, a, rows[a].version);
    }
  }

  /** What the two MAX queries of Append tell, given that the newest events are hot. */
  lemma AppendedStart(m: Model, st: Store, a: Id, ctx: Geo, ver: nat)
    requires LogInv(m, st) && Top(st.hot, a) == ver
    ensures forall i: nat :: Key(a, i) in All(st) <==> 1 <= i <= ver
    ensures ver > 0 ==> All(st)[Key(a, ver)].geo == HomeGeo(st, a, ctx)
    ensures var g := HomeGeo(st, a, ctx);
      forall s: nat :: Issued(All(st), g, s) <==> 1 <= s <= MaxSeq(st.hot, g)
  {
    NewestIsHot(st, a);
    HotMaxIsIssuedMax(st, HomeGeo(st, a, ctx));
  }

  /** What an Append that commits does to hot plus archive. */
  lemma AppendedLog(m: Model, st: Store, a: Id, ctx: Geo, ver: nat, now: Time, ps: seq<Payload>)
    requires LogInv(m, st) && Appended(m, st, a, ctx, ver, now, ps) != st
    ensures var u := Appended(m, st, a, ctx, ver, now, ps);
            && LogOk(m, All(u)) && Extends(All(st), All(u))
            && u.hot.Keys !! u.arch.Keys
            && (forall k :: k in All(u) <==> k in All(st) || (k.agg == a && ver < k.aseq <= ver + |ps|))
            && Replay(m, All(u), a, ver + |ps|)
               == ApplyAll(m, Replay(m, All(st), a, ver).value, ver, now, ps)
  {
    AppendedStart(m, st, a, ctx, ver);
    LogOfInv(m, st);
    hide LogInv, LogOk, Extends, Contiguous, Issued, Top, MaxSeq, Replay, ApplyAll, Inserted, HomeGeo, All;
    InsertedExtends(m, st.hot, st.arch, a, ver, HomeGeo(st, a, ctx), MaxSeq(st.hot, HomeGeo(st, a, ctx)), now, ps);
    AllOf(st);
    AllOf(Appended(m, st, a, ctx, ver, now, ps));
  }

  lemma AllOf(st: Store)
    ensures All(st) == st.hot + st.arch
  {
  }

  /** The hot log tells an aggregate's top, and the top is hot. */
  lemma HotTop(m: Model, st: Store, a: Id)
    requires LogInv(m, st)
    ensures Top(All(st), a) == Top(st.hot, a) && (Top(st.hot, a) > 0 ==> Key(a, Top(st.hot, a)) in st.hot)
    ensures forall i: nat :: Key(a, i) in All(st) <==> 1 <= i <= Top(st.hot, a)
    ensures st.hot.Keys !! st.arch.Keys
  {
    NewestIsHot(st, a);
  }

  lemma LogOfInv(m: Model, st: Store)
    requires LogInv(m, st)
    ensures LogOk(m, All(st)) && st.hot.Keys !! st.arch.Keys
  {
  }

  /** Inserting the new events into the hot part of a log extends the whole of it. */
  lemma InsertedExtends(m: Model, hot: Table, arch: Table, a: Id, ver: nat, g: Geo, top: nat, now: Time,
                        ps: seq<Payload>)
    requires var all := hot + arch;
      && LogOk(m, all) && hot.Keys !! arch.Keys
      && (forall i: nat :: Key(a, i) in all <==> 1 <= i <= ver)
      && (ver > 0 ==> all[Key(a, ver)].geo == g)
      && (forall s: nat :: Issued(all, g, s) <==> 1 <= s <= top)
      && Replay(m, all, a, ver).Some? && ApplyAll(m, Replay(m, all, a, ver).value, ver, now, ps).Some?
    ensures var all, u := hot + arch, Inserted(hot, a, ver, g, top, now, ps);
      && LogOk(m, u + arch) && Extends(all, u + arch) && u.Keys !! arch.Keys
      && (forall k :: k in u + arch <==> k in all || (k.agg == a && ver < k.aseq <= ver + |ps|))
      && Replay(m, u + arch, a, ver + |ps|) == ApplyAll(m, Replay(m, all, a, ver).value, ver, now, ps)
  {
    var all := hot + arch;
    assert Contiguous(all);
    hide LogOk, Contiguous, Issued, Replay, ApplyAll, Inserted;
    InsertedKeepsLog(m, all, a, ver, g, top, now, ps);
    InsertedKeys(all, a, ver, g, top, now, ps);
    InsertedKeys(hot, a, ver, g, top, now, ps);
    assert forall k <- all :: k.agg == a ==> k == Key(a, k.aseq);
    assert forall k <- arch :: k in all;
    InsertedIntoAll(hot, arch, a, ver, g, top, now, ps);
  }

  lemma AppendKeepsLogInv(m: Model, st: Store, a: Id, ctx: Geo, ver: nat, now: Time, ps: seq<Payload>)
    requires LogInv(m, st)
    ensures LogInv(m, Appended(m, st, a, ctx, ver, now, ps))
  {
    var u := Appended(m, st, a, ctx, ver, now, ps);
    if u != st {
      AppendedLog(m, st, a, ctx, ver, now, ps);
      hide LogOk, Extends, SnapsOk;
      ExtendsKeepsSnaps(m, All(st), All(u), st.snaps);
    }
  }

  /** Upserting a right row keeps all rows right, and full if only its aggregate grew, up to its version. */
  lemma UpsertKeepsRows(m: Model, t: Table, rows: map<Id, Row>, a: Id, r: Row)
    requires RowsOk(m, t, rows)
    requires Key(a, r.version) in t && Replay(m, t, a, r.version) == Some(r.state)
    ensures RowsOk(m, t, Upsert(rows, a, r))
    ensures a in Upsert(rows, a, r) && Upsert(rows, a, r)[a].version >= r.version
    ensures forall b <- rows :: b in Upsert(rows, a, r) && Upsert(rows, a, r)[b].version >= rows[b].version
  {
  }

  lemma AppendKeepsRows(m: Model, st: Store, a: Id, ctx: Geo, ver: nat, now: Time, ps: seq<Payload>)
    requires LogInv(m, st) && RowsOk(m, All(st), st.rows)
    ensures var u := Appended(m, st, a, ctx, ver, now, ps); RowsOk(m, All(u), u.rows)
  {
    hide RowsOk, LogOk, SnapsOk, ArchiveOk, Extends;
    var u := Appended(m, st, a, ctx, ver, now, ps);
    if u != st {
      AppendedLog(m, st, a, ctx, ver, now, ps);
      var s := ApplyAll(m, Replay(m, All(st), a, ver).value, ver, now, ps).value;
      ExtendsKeepsRows(m, All(st), All(u), st.rows);
      UpsertKeepsRows(m, All(u), st.rows, a, Row(ver + |ps|, s, HomeGeo(st, a, ctx)));
    }
  }

  /** What any foreign commits do to the read model: rows at the top stay there, and an aggregate
      that grew has its row at the top. */
  ghost predicate Grown(st: Store, u: Store) {
    && (forall a :: Full(st, a) ==> Full(u, a))
    && (forall a :: Top(All(st), a) < Top(All(u), a) ==> Full(u, a))
  }

  lemma GrownByOne(st: Store, u: Store, a: Id, r: Row)
    requires u.rows == Upsert(st.rows, a, r)
    requires Top(All(u), a) == r.version || (All(u) == All(st))
    requires forall b :: b != a ==> Top(All(u), b) == Top(All(st), b)
    requires Top(All(st), a) <= Top(All(u), a)
    ensures Grown(st, u)
  {
    hide Top;
  }

  lemma AppendGrows(m: Model, st: Store, a: Id, ctx: Geo, ver: nat, now: Time, ps: seq<Payload>)
    requires LogInv(m, st)
    ensures Grown(st, Appended(m, st, a, ctx, ver, now, ps))
  {
    var u := Appended(m, st, a, ctx, ver, now, ps);
    if u != st {
      AppendedLog(m, st, a, ctx, ver, now, ps);
      NewestIsHot(st, a);
      assert Contiguous(All(u)) && Contiguous(All(st));
      hide LogInv, LogOk, Contiguous, Extends, Grown, Top, Upsert;
      AppendedTops(All(st), All(u), a, ver + |ps|);
      var s := ApplyAll(m, Replay(m, All(st), a, ver).value, ver, now, ps).value;
      GrownByOne(st, u, a, Row(ver + |ps|, s, HomeGeo(st, a, ctx)));
    }
  }

  lemma AppendedTops(t: Table, u: Table, a: Id, n: nat)
    requires Contiguous(t) && Contiguous(u) && Top(t, a) < n
    requires forall k :: k in u <==> k in t || (k.agg == a && Top(t, a) < k.aseq <= n)
    ensures Top(u, a) == n
    ensures forall b :: b != a ==> Top(u, b) == Top(t, b)
  {
    TopOfContiguous(t, a);
    TopOfContiguous(u, a);
    assert Key(a, n) in u;
    forall b | b != a ensures Top(u, b) == Top(t, b) {
      assert Versions(u, b) == Versions(t, b);
    }
  }
}

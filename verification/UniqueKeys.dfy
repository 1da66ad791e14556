/** The unique keys that guard an Append (schema.go:275-296): what they refuse, what they miss once the events they
    would collide with are archived, and when a commit that passes both of them keeps the log. */
module UniqueKeys {
  import opened Wrappers
  import opened EventStore
  import opened EventSteps

  // ---------------------------------------------------------------- the keys

  /** PRIMARY KEY (aggregate_id, aggregate_seq) refuses one of k rows. */
  ghost predicate PkCollides(t: Table, a: Id, ver: nat, k: nat) {
    exists n: nat :: ver < n <= ver + k && Key(a, n) in t
  }

  /** PRIMARY KEY (aggregate_id, aggregate_seq, geo), on a partitioned backend, refuses one of k rows. */
  ghost predicate GeoPkCollides(t: Table, a: Id, ver: nat, g: Geo, k: nat) {
    exists n: nat :: ver < n <= ver + k && Key(a, n) in t && t[Key(a, n)].geo == g
  }

  /** UNIQUE (geo, seq) refuses one of k rows. */
  ghost predicate SeqCollides(t: Table, g: Geo, top: nat, k: nat) {
    exists n: nat :: top < n <= top + k && Issued(t, g, n)
  }

  /** What the primary key index finds. */
  predicate KeyTaken(t: Table, a: Id, ver: nat, g: Geo, k: nat, byGeo: bool): (taken: bool)
    ensures taken <==> if byGeo then GeoPkCollides(t, a, ver, g, k) else PkCollides(t, a, ver, k)
  {
    var taken := exists j <- t.Keys :: j.agg == a && ver < j.aseq <= ver + k && (byGeo ==> t[j].geo == g);
    assert taken ==> if byGeo then GeoPkCollides(t, a, ver, g, k) else PkCollides(t, a, ver, k) by {
      if j :| j in t.Keys && j.agg == a && ver < j.aseq <= ver + k && (byGeo ==> t[j].geo == g) {
        assert j == Key(a, j.aseq);
      }
    }
    taken
  }

  /** What the unique index over (geo, seq) finds. */
  predicate SeqTaken(t: Table, g: Geo, top: nat, k: nat): (taken: bool)
    ensures taken <==> SeqCollides(t, g, top, k)
  {
    var taken := exists j <- t.Keys :: t[j].geo == g && top < t[j].gseq <= top + k;
    assert taken ==> SeqCollides(t, g, top, k) by {
      if j :| j in t.Keys && t[j].geo == g && top < t[j].gseq <= top + k {
        assert Issued(t, g, t[j].gseq);
      }
    }
    taken
  }

  /** The region column weakens the primary key by nothing: an existing aggregate has one region, and the id of a new
      one is known to nobody else. */
  lemma GeoColumnIsFree(t: Table, all: Table, a: Id, ver: nat, g: Geo, k: nat)
    requires Pinned(all) && forall j <- t :: j in all && all[j] == t[j]
    requires ver > 0 ==> Key(a, ver) in all && all[Key(a, ver)].geo == g
    requires ver == 0 ==> forall j <- all :: j.agg != a
    ensures GeoPkCollides(t, a, ver, g, k) <==> PkCollides(t, a, ver, k)
  {
    if n: nat :| ver < n <= ver + k && Key(a, n) in t {
      assert ver > 0 && all[Key(a, n)].geo == all[Key(a, ver)].geo;
      assert t[Key(a, n)].geo == g;
    }
  }

  /** How often an attempt that collides before Apply is repeated. */
  const MAX_ATTEMPT := 8

  // ---------------------------------------------------------------- what a commit rests on

  /** What the two reads of an Append told and what nobody can undo: the handle's version exists, in this region, and
      every sequence of the region up to the one read is given. */
  ghost predicate Reads(all: Table, a: Id, ver: nat, g: Geo, top: nat) {
    && (ver > 0 ==> Key(a, ver) in all && all[Key(a, ver)].geo == g)
    && forall s | 1 <= s <= top :: Issued(all, g, s)
  }

  /** No archived event is one that the k new rows would collide with. */
  ghost predicate Unarchived(arch: Table, a: Id, ver: nat, g: Geo, top: nat, k: nat) {
    && (forall j <- arch :: !(j.agg == a && ver < j.aseq <= ver + k))
    && (forall j <- arch :: !(arch[j].geo == g && top < arch[j].gseq <= top + k))
  }

  lemma IssuedHere(t: Table, k: Key)
    requires k in t
    ensures Issued(t, t[k].geo, t[k].gseq)
  {
  }

  lemma IssuedStays(t: Table, u: Table, g: Geo, s: nat)
    requires Extends(t, u) && Issued(t, g, s)
    ensures Issued(u, g, s)
  {
    var k :| k in t && t[k].geo == g && t[k].gseq == s;
    assert k in u && u[k] == t[k];
  }

  lemma VersionIsTop(m: Model, st: Store, a: Id, ver: nat, k: nat)
    requires LogInv(m, st) && k > 0 && (ver > 0 ==> Key(a, ver) in All(st))
    requires forall j <- st.arch :: !(j.agg == a && ver < j.aseq <= ver + k)
    requires !PkCollides(st.hot, a, ver, k)
    ensures Top(st.hot, a) == ver
    ensures ver > 0 ==> Key(a, ver) in st.hot
    ensures ver == 0 ==> Key(a, 0) !in st.hot
  {
    hide LogInv, Top;
    HotTop(m, st, a);
    assert Key(a, ver + 1) !in st.hot && Key(a, ver + 1) !in st.arch;
    assert Key(a, 0) !in All(st);
  }

  lemma RegionIssued(m: Model, st: Store, geo: Geo)
    requires LogInv(m, st)
    ensures forall s: nat :: Issued(All(st), geo, s) <==> 1 <= s <= MaxSeq(st.hot, geo)
    ensures st.hot.Keys !! st.arch.Keys
  {
    hide Replayable, UniqueSeqs, MaxSeq, Issued;
    HotMaxIsIssuedMax(st, geo);
  }

  lemma SeqIsTop(m: Model, st: Store, geo: Geo, top: nat, k: nat)
    requires LogInv(m, st) && k > 0 && forall s | 1 <= s <= top :: Issued(All(st), geo, s)
    requires forall j <- st.arch :: !(st.arch[j].geo == geo && top < st.arch[j].gseq <= top + k)
    requires !SeqCollides(st.hot, geo, top, k)
    ensures MaxSeq(st.hot, geo) == top
  {
    hide LogInv, MaxSeq;
    RegionIssued(m, st, geo);
    assert !Issued(st.hot, geo, top + 1);
    forall j | j in All(st) ensures !(All(st)[j].geo == geo && All(st)[j].gseq == top + 1) {
      assert All(st)[j] == if j in st.hot then st.hot[j] else st.arch[j];
    }
    assert !Issued(All(st), geo, top + 1);
    assert top > 0 ==> Issued(All(st), geo, top);
  }

  /** With both keys free and nothing archived that they would need to see, both reads are still current. */
  lemma NothingCameBetween(m: Model, st: Store, a: Id, ver: nat, geo: Geo, top: nat, k: nat)
    requires LogInv(m, st) && k > 0 && Reads(All(st), a, ver, geo, top)
    requires !PkCollides(st.hot, a, ver, k) && !SeqCollides(st.hot, geo, top, k)
    requires Unarchived(st.arch, a, ver, geo, top, k)
    ensures Top(st.hot, a) == ver && HomeGeo(st, a, geo) == geo && MaxSeq(st.hot, geo) == top
    ensures ver > 0 ==> forall ctx :: HomeGeo(st, a, ctx) == geo
    ensures ver == 0 ==> forall ctx :: HomeGeo(st, a, ctx) == ctx
  {
    hide Top, MaxSeq, Issued, PkCollides, SeqCollides;
    VersionIsTop(m, st, a, ver, k);
    SeqIsTop(m, st, geo, top, k);
    hide LogInv;
    if ver > 0 {
      assert All(st)[Key(a, ver)] == st.hot[Key(a, ver)] by { HotTop(m, st, a); }
    }
  }

  /** What a committing Append writes: the rows read and numbered before, wherever the log stands by now. */
  function Committed(st: Store, a: Id, ver: nat, geo: Geo, top: nat, now: Time, ps: seq<Payload>, s: State): Store {
    st.(hot := Inserted(st.hot, a, ver, geo, top, now, ps), rows := Upsert(st.rows, a, Row(ver + |ps|, s, geo)))
  }

  /** With current reads it is the atomic Append step. */
  lemma CommitIsAppended(m: Model, st: Store, a: Id, ver: nat, mem: State, geo: Geo, top: nat, now: Time,
                         ps: seq<Payload>, s: State)
    requires LogInv(m, st) && ps != [] && Top(st.hot, a) == ver && HomeGeo(st, a, geo) == geo
    requires MaxSeq(st.hot, geo) == top
    requires Replay(m, All(st), a, ver) == Some(mem) && ApplyAll(m, mem, ver, now, ps) == Some(s)
    ensures var u := Committed(st, a, ver, geo, top, now, ps, s);
      && u == Appended(m, st, a, geo, ver, now, ps) && u != st
      && LogInv(m, u) && Extends(All(st), All(u)) && Top(All(st), a) == ver
      && u.arch == st.arch && u.snaps == st.snaps && u.bounds == st.bounds
      && (forall k :: k in All(u) <==> k in All(st) || (k.agg == a && ver < k.aseq <= ver + |ps|))
      && Replay(m, All(u), a, ver + |ps|) == Some(s)
  {
    hide LogInv, Replay, ApplyAll, Top, MaxSeq, HomeGeo, Upsert, Inserted, Extends, LogOk;
    var u := Committed(st, a, ver, geo, top, now, ps, s);
    HotTop(m, st, a);
    InsertedKeys(st.hot, a, ver, geo, top, now, ps);
    assert Key(a, ver + 1) in u.hot && Key(a, ver + 1) !in All(st);
    AppendKeepsLogInv(m, st, a, geo, ver, now, ps);
    AppendedLog(m, st, a, geo, ver, now, ps);
  }

  /** Exactly when a commit that both keys let pass keeps the log: when no archived event of the aggregate has one of
      the new versions and none of the region has one of the new sequences. */
  lemma CommitKeepsLogIff(m: Model, st: Store, a: Id, ver: nat, mem: State, geo: Geo, top: nat, now: Time,
                          ps: seq<Payload>, s: State)
    requires LogInv(m, st) && ps != [] && Reads(All(st), a, ver, geo, top)
    requires Replay(m, All(st), a, ver) == Some(mem) && ApplyAll(m, mem, ver, now, ps) == Some(s)
    requires !PkCollides(st.hot, a, ver, |ps|) && !SeqCollides(st.hot, geo, top, |ps|)
    ensures LogInv(m, Committed(st, a, ver, geo, top, now, ps, s)) <==> Unarchived(st.arch, a, ver, geo, top, |ps|)
  {
    hide LogInv, Replay, ApplyAll, Top, MaxSeq, PkCollides, SeqCollides, Reads, HomeGeo, Upsert, Inserted, Unarchived;
    if Unarchived(st.arch, a, ver, geo, top, |ps|) {
      NothingCameBetween(m, st, a, ver, geo, top, |ps|);
      AppendKeepsLogInv(m, st, a, geo, ver, now, ps);
    } else if LogInv(m, Committed(st, a, ver, geo, top, now, ps, s)) {
      ArchivedIsDoubled(m, st, a, ver, geo, top, now, ps, s);
    }
  }

  lemma ArchivedIsDoubled(m: Model, st: Store, a: Id, ver: nat, geo: Geo, top: nat, now: Time, ps: seq<Payload>,
                          s: State)
    requires LogInv(m, Committed(st, a, ver, geo, top, now, ps, s))
    ensures Unarchived(st.arch, a, ver, geo, top, |ps|)
  {
    hide LogInv, Inserted, Upsert, RowIs;
    var u := Committed(st, a, ver, geo, top, now, ps, s);
    HotTop(m, u, a);
    InsertedKeys(st.hot, a, ver, geo, top, now, ps);
    InsertedRows(st.hot, a, ver, geo, top, now, ps);
    forall j | j in st.arch ensures !(st.arch[j].geo == geo && top < st.arch[j].gseq <= top + |ps|) {
      if top < st.arch[j].gseq <= top + |ps| {
        assert RowIs(u.hot, a, ver, geo, top, now, ps, st.arch[j].gseq - top - 1);
        SequenceIsTaken(m, u, a, ver, geo, top, now, ps, st.arch[j].gseq - top - 1, j);
      }
    }
  }

  lemma SequenceIsTaken(m: Model, u: Store, a: Id, ver: nat, geo: Geo, top: nat, now: Time, ps: seq<Payload>, i: nat,
                        j: Key)
    requires LogInv(m, u) && i < |ps| && RowIs(u.hot, a, ver, geo, top, now, ps, i) && j in u.arch
    ensures !(u.arch[j].geo == geo && u.arch[j].gseq == top + 1 + i)
  {
    assert UniqueSeqs(All(u)) && u.hot.Keys !! u.arch.Keys by { LogParts(m, u); }
    hide LogInv;
    assert All(u)[j] == u.arch[j];
    assert All(u)[Key(a, ver + 1 + i)] == u.hot[Key(a, ver + 1 + i)];
  }

  lemma LogParts(m: Model, st: Store)
    requires LogInv(m, st)
    ensures UniqueSeqs(All(st)) && Contiguous(All(st)) && Pinned(All(st)) && st.hot.Keys !! st.arch.Keys
  {
  }

  /** The primary key of the hot log lets the events of an overtaken handle pass exactly when every event they would
      collide with is archived. */
  lemma OvertakenInsertPasses(m: Model, st: Store, a: Id, ver: nat, k: nat)
    requires LogInv(m, st) && ver < Top(st.hot, a)
    ensures !PkCollides(st.hot, a, ver, k)
       <==> forall n: nat | ver < n <= ver + k && n <= Top(st.hot, a) :: Key(a, n) in st.arch
  {
    hide LogInv, Top;
    HotTop(m, st, a);
    forall n: nat | ver < n <= ver + k ensures Key(a, n) in st.hot <==> n <= Top(st.hot, a) && Key(a, n) !in st.arch {
      assert Key(a, n) in All(st) <==> n <= Top(st.hot, a);
    }
  }
}

/** Append as one process runs it: the statements of a transaction with foreign commits and archive runs between them,
    the retry loop, and the handle in memory (aggregate.go:225-386). */
module Appending {
  import opened Wrappers
  import opened EventStore
  import opened EventSteps
  import opened EventRuns
  import opened ArchiveRace
  import opened UniqueKeys
  import opened Loading
  import opened Projection

  datatype Result = Committed(geo: Geo, lastSeq: nat) | VersionConflict | Failed

  /** A handle from New, Load or a committed Append: its memory is the fold of its prefix of the log. */
  ghost predicate HandleOk(m: Model, st: Store, a: Id, version: nat, mem: State) {
    && (version > 0 ==> Key(a, version) in All(st))
    && Replay(m, All(st), a, version) == Some(mem)
  }

  lemma HandleStays(m: Model, st: Store, u: Store, a: Id, version: nat, mem: State)
    requires Moved(m, st, u) && HandleOk(m, st, a, version, mem)
    ensures HandleOk(m, u, a, version, mem)
  {
    hide RowsOk, Grown, SnapsGrow, Replay;
    ExtendsReplay(m, All(st), All(u), a, version);
  }

  /** What the first read of an attempt tells. */
  lemma FirstRead(m: Model, st: Store, a: Id, ver: nat, mem: State)
    requires LogInv(m, st) && HandleOk(m, st, a, ver, mem) && Top(st.hot, a) <= ver
    ensures Top(st.hot, a) == ver
  {
    hide Replay, LogInv, Top;
    HotTop(m, st, a);
  }

  /** No event of region g is in u that is not in st: what an advisory lock on the region guarantees. */
  predicate Quiet(st: Store, u: Store, g: Geo) {
    forall k <- All(u).Keys :: k in All(st) || All(u)[k].geo != g
  }

  /** No event of a is in u that is not in st: nobody else knows the id of a new aggregate. */
  predicate Secret(st: Store, u: Store, a: Id) {
    forall k <- All(u).Keys :: k in All(st) || k.agg != a
  }

  /** Which aggregates' snapshots the window of an Append depends on: under the region's lock only its own. */
  function Watch(db: DB, a: Id): Option<Id> {
    if db.locks then Some(a) else None
  }

  /** While no watched aggregate got a second new snapshot, taken holds those that got one, and the archiver trails. */
  ghost predicate Trailing(ref: Store, st: Store, watch: Option<Id>, taken: Option<set<Id>>) {
    taken.Some? ==> Trails(ref, st, watch, taken.value)
  }

  /** What has happened since the two reads of an attempt, at ref and at mid, whoever committed and archived. */
  ghost predicate Since(m: Model, ref: Store, mid: Store, st: Store, a: Id, ver: nat, geo: Geo, watch: Option<Id>,
                        taken: Option<set<Id>>, byGeo: bool) {
    && LogInv(m, ref) && LogInv(m, mid) && Moved(m, ref, mid) && Moved(m, mid, st)
    && Trailing(ref, st, watch, taken)
    && (watch != None ==> watch == Some(a) && Quiet(mid, st, geo))
    && (byGeo && ver == 0 ==> Secret(ref, st, a))
  }

  /** Nothing archived since then is in the way of either key, as long as the archiver trails. */
  lemma NothingHidden(m: Model, ref: Store, mid: Store, st: Store, a: Id, ver: nat, geo: Geo, watch: Option<Id>,
                      taken: Option<set<Id>>, byGeo: bool, k: nat)
    requires LogInv(m, st) && Since(m, ref, mid, st, a, ver, geo, watch, taken, byGeo) && Top(ref.hot, a) == ver
    requires taken.Some?
    ensures Unarchived(st.arch, a, ver, geo, MaxSeq(mid.hot, geo), k)
  {
    hide LogInv, Trails, Top, MaxSeq, Grown, SnapsGrow, RowsOk, Issued, Contiguous;
    MovedExtends(m, ref, mid, st);
    LaterIsHot(m, ref, st, watch, taken.value);
    HotTop(m, ref, a);
    HotTop(m, st, a);
    RegionIssued(m, mid, geo);
    forall j | j in st.arch ensures !(j.agg == a && ver < j.aseq) {
      assert j == Key(j.agg, j.aseq);
    }
    forall j | j in st.arch ensures !(st.arch[j].geo == geo && MaxSeq(mid.hot, geo) < st.arch[j].gseq) {
      assert j in All(st) && All(st)[j] == st.arch[j];
      if st.arch[j].geo == geo {
        assert j in All(mid) && All(mid)[j] == st.arch[j];
        IssuedHere(All(mid), j);
      }
    }
  }

  lemma MovedExtends(m: Model, ref: Store, mid: Store, st: Store)
    requires Moved(m, ref, mid) && Moved(m, mid, st)
    ensures Extends(All(ref), All(mid)) && Extends(All(mid), All(st)) && Extends(All(ref), All(st))
  {
  }

  lemma ReadsStay(m: Model, ref: Store, mid: Store, st: Store, a: Id, ver: nat, geo: Geo)
    requires LogInv(m, ref) && LogInv(m, mid) && Moved(m, ref, mid) && Moved(m, mid, st)
    requires Top(ref.hot, a) == ver && HomeGeo(ref, a, geo) == geo
    ensures Reads(All(st), a, ver, geo, MaxSeq(mid.hot, geo))
  {
    hide LogInv, Top, MaxSeq, Grown, SnapsGrow, RowsOk, Issued;
    MovedExtends(m, ref, mid, st);
    HotTop(m, ref, a);
    if ver > 0 {
      assert Key(a, ver) in All(ref) && All(ref)[Key(a, ver)] == ref.hot[Key(a, ver)];
    }
    RegionIssued(m, mid, geo);
    forall s | 1 <= s <= MaxSeq(mid.hot, geo) ensures Issued(All(st), geo, s) {
      IssuedStays(All(mid), All(st), geo, s);
    }
  }

  /** A key with the region as third column is as good as one without. */
  lemma KeyIsEnough(m: Model, ref: Store, mid: Store, st: Store, a: Id, ver: nat, geo: Geo, watch: Option<Id>,
                    taken: Option<set<Id>>, byGeo: bool, k: nat)
    requires LogInv(m, st) && Since(m, ref, mid, st, a, ver, geo, watch, taken, byGeo)
    requires Top(ref.hot, a) == ver && HomeGeo(ref, a, geo) == geo && !KeyTaken(st.hot, a, ver, geo, k, byGeo)
    ensures !PkCollides(st.hot, a, ver, k)
  {
    hide LogInv, Top, MaxSeq, PkCollides, GeoPkCollides, Trails, Moved;
    if byGeo {
      HotTop(m, ref, a);
      HotTop(m, st, a);
      ReadsStay(m, ref, mid, st, a, ver, geo);
      LogParts(m, st);
      assert ver == 0 ==> forall j <- All(ref) :: j == Key(j.agg, j.aseq);
      GeoColumnIsFree(st.hot, All(st), a, ver, geo, k);
    }
  }

  /** Without a key collision, and nothing in the way archived, the handle still stands at the top, and the region's
      maximum is still the one read. */
  lemma StillCurrent(m: Model, ref: Store, mid: Store, st: Store, a: Id, ver: nat, geo: Geo, ctx: Geo,
                     watch: Option<Id>, taken: Option<set<Id>>, byGeo: bool, k: nat)
    requires LogInv(m, st) && Since(m, ref, mid, st, a, ver, geo, watch, taken, byGeo) && k > 0
    requires Top(ref.hot, a) == ver && HomeGeo(ref, a, ctx) == geo
    requires !KeyTaken(st.hot, a, ver, geo, k, byGeo) && !SeqTaken(st.hot, geo, MaxSeq(mid.hot, geo), k)
    requires Unarchived(st.arch, a, ver, geo, MaxSeq(mid.hot, geo), k)
    ensures Top(st.hot, a) == ver && HomeGeo(st, a, ctx) == geo && MaxSeq(st.hot, geo) == MaxSeq(mid.hot, geo)
  {
    hide LogInv, Top, MaxSeq, KeyTaken, SeqTaken, PkCollides, SeqCollides, GeoPkCollides, Reads, Unarchived, Trailing,
         Moved, Quiet, Secret;
    assert HomeGeo(ref, a, geo) == geo && (ver == 0 ==> geo == ctx) by { HomeOfNew(m, ref, a, ctx); }
    ReadsStay(m, ref, mid, st, a, ver, geo);
    KeyIsEnough(m, ref, mid, st, a, ver, geo, watch, taken, byGeo, k);
    hide HomeGeo;
    NothingCameBetween(m, st, a, ver, geo, MaxSeq(mid.hot, geo), k);
  }

  /** Exactly then the commit keeps the log. */
  lemma CommitIsRightIff(m: Model, ref: Store, mid: Store, st: Store, a: Id, ver: nat, geo: Geo, ctx: Geo,
                         watch: Option<Id>, taken: Option<set<Id>>, byGeo: bool, mem: State, now: Time,
                         ps: seq<Payload>, s: State)
    requires LogInv(m, st) && Since(m, ref, mid, st, a, ver, geo, watch, taken, byGeo) && ps != []
    requires Top(ref.hot, a) == ver && HomeGeo(ref, a, ctx) == geo
    requires !KeyTaken(st.hot, a, ver, geo, |ps|, byGeo) && !SeqTaken(st.hot, geo, MaxSeq(mid.hot, geo), |ps|)
    requires HandleOk(m, st, a, ver, mem) && ApplyAll(m, mem, ver, now, ps) == Some(s)
    ensures LogInv(m, UniqueKeys.Committed(st, a, ver, geo, MaxSeq(mid.hot, geo), now, ps, s))
       <==> Unarchived(st.arch, a, ver, geo, MaxSeq(mid.hot, geo), |ps|)
  {
    hide LogInv, Top, MaxSeq, KeyTaken, SeqTaken, PkCollides, SeqCollides, GeoPkCollides, Reads, Unarchived, Trailing,
         Moved, Quiet, Secret, UniqueKeys.Committed, Replay, ApplyAll;
    assert HomeGeo(ref, a, geo) == geo by { HomeOfNew(m, ref, a, ctx); }
    ReadsStay(m, ref, mid, st, a, ver, geo);
    KeyIsEnough(m, ref, mid, st, a, ver, geo, watch, taken, byGeo, |ps|);
    CommitKeepsLogIff(m, st, a, ver, mem, geo, MaxSeq(mid.hot, geo), now, ps, s);
  }

  lemma HomeOfNew(m: Model, st: Store, a: Id, ctx: Geo)
    requires LogInv(m, st)
    ensures Top(st.hot, a) == 0 ==> HomeGeo(st, a, ctx) == ctx
    ensures Key(a, 0) !in st.hot
  {
    hide LogInv, Top;
    HotTop(m, st, a);
    assert Key(a, 0) !in All(st);
  }

  /** The Apply loop of the write closure. */
  method ApplyInMemory(agg: Aggregate, m: Model, now: Time, ps: seq<Payload>) returns (ok: bool)
    modifies agg`self
    ensures ok <==> ApplyAll(m, old(agg.self), agg.version, now, ps).Some?
    ensures ok ==> ApplyAll(m, old(agg.self), agg.version, now, ps) == Some(agg.self)
  {
    var i := 0;
    assert ps[0..] == ps;
    while i < |ps|
      invariant 0 <= i <= |ps|
      invariant ApplyAll(m, agg.self, agg.version + i, now, ps[i..]) == ApplyAll(m, old(agg.self), agg.version, now, ps)
    {
      assert ps[i..][0] == ps[i] && ps[i..][1..] == ps[i + 1..];
      var next := m.apply(agg.self, agg.version + i + 1, now, ps[i]);
      if next.None? {
        return false;
      }
      agg.self := next.value;
      i := i + 1;
    }
    return true;
  }

  /** The commit is the Append step. */
  lemma CommitIsStep(m: Model, st: Store, a: Id, ver: nat, mem: State, geo: Geo, ctx: Geo, top: nat, now: Time,
                     ps: seq<Payload>, s: State)
    requires LogInv(m, st) && HandleOk(m, st, a, ver, mem) && ps != []
    requires Top(st.hot, a) == ver && HomeGeo(st, a, ctx) == geo && MaxSeq(st.hot, geo) == top
    requires ApplyAll(m, mem, ver, now, ps) == Some(s)
    ensures var u := UniqueKeys.Committed(st, a, ver, geo, top, now, ps, s);
      && u == Appended(m, st, a, ctx, ver, now, ps)
      && LogInv(m, u) && Moved(m, st, u) && HandleOk(m, u, a, ver + |ps|, s)
      && Top(All(u), a) == ver + |ps| && Full(u, a) && u.arch == st.arch
      && RowsOf(All(u), a, ver, geo, top, now, ps)
  {
    hide LogInv, Replay, ApplyAll, Inserted, Top, MaxSeq, Moved, HandleOk, Full, Upsert, HomeGeo, RowsOf;
    assert Replay(m, All(st), a, ver) == Some(mem) by { HandleFold(m, st, a, ver, mem); }
    UpsertAndInsertDiffer(st, a, ver, geo, top, now, ps, s);
    AppendMoves(m, st, a, ver, mem, ctx, now, ps, s);
    InsertedRows(st.hot, a, ver, geo, top, now, ps);
    HotRowsAreAll(m, Appended(m, st, a, ctx, ver, now, ps), a, ver, geo, top, now, ps);
  }

  lemma HotRowsAreAll(m: Model, st: Store, a: Id, ver: nat, g: Geo, top: nat, now: Time, ps: seq<Payload>)
    requires LogInv(m, st) && RowsOf(st.hot, a, ver, g, top, now, ps)
    ensures RowsOf(All(st), a, ver, g, top, now, ps)
  {
    hide LogOk, SnapsOk, Covered;
    forall i | 0 <= i < |ps| ensures RowIs(All(st), a, ver, g, top, now, ps, i) {
      assert RowIs(st.hot, a, ver, g, top, now, ps, i);
    }
  }

  lemma HandleFold(m: Model, st: Store, a: Id, ver: nat, mem: State)
    requires HandleOk(m, st, a, ver, mem)
    ensures Replay(m, All(st), a, ver) == Some(mem)
  {
  }

  lemma AppendMoves(m: Model, st: Store, a: Id, ver: nat, mem: State, ctx: Geo, now: Time, ps: seq<Payload>, s: State)
    requires LogInv(m, st) && Appended(m, st, a, ctx, ver, now, ps) != st && Top(st.hot, a) == ver
    requires Replay(m, All(st), a, ver) == Some(mem) && ApplyAll(m, mem, ver, now, ps) == Some(s)
    ensures var u := Appended(m, st, a, ctx, ver, now, ps);
      && LogInv(m, u) && Moved(m, st, u) && HandleOk(m, u, a, ver + |ps|, s)
      && Top(All(u), a) == ver + |ps| && Full(u, a) && u.arch == st.arch
  {
    hide LogInv, LogOk, Replay, ApplyAll, Top, RowsOk, Extends, Grown, SnapsGrow, Full, Upsert, Inserted, MaxSeq,
         HomeGeo, All;
    var u := Appended(m, st, a, ctx, ver, now, ps);
    AppendKeepsLogInv(m, st, a, ctx, ver, now, ps);
    AppendExtends(m, st, a, ctx, ver, now, ps);
    AppendedLog(m, st, a, ctx, ver, now, ps);
    AppendLeaves(m, st, a, ctx, ver, now, ps);
    SnapsGrowReflexive(st.snaps);
    if RowsOk(m, All(st), st.rows) {
      AppendKeepsRows(m, st, a, ctx, ver, now, ps);
    }
    HotTop(m, st, a);
    TopFromKeys(m, u, a, ver + |ps|);
    GrownFull(st, u, a);
  }

  lemma AppendLeaves(m: Model, st: Store, a: Id, ctx: Geo, ver: nat, now: Time, ps: seq<Payload>)
    ensures var u := Appended(m, st, a, ctx, ver, now, ps);
      && u.arch == st.arch && u.snaps == st.snaps && (u != st ==> ps != [])
  {
    hide Replay, ApplyAll, Inserted, Top, MaxSeq;
  }

  lemma UpsertAndInsertDiffer(st: Store, a: Id, ver: nat, geo: Geo, top: nat, now: Time, ps: seq<Payload>, s: State)
    requires ps != [] && Top(st.hot, a) == ver
    ensures Inserted(st.hot, a, ver, geo, top, now, ps) != st.hot
  {
    InsertedKeys(st.hot, a, ver, geo, top, now, ps);
    hide Inserted;
    assert Key(a, ver + 1) in Inserted(st.hot, a, ver, geo, top, now, ps);
    assert Key(a, ver + 1) in st.hot ==> ver + 1 in Versions(st.hot, a);
  }

  lemma TopFromKeys(m: Model, u: Store, a: Id, n: nat)
    requires LogInv(m, u) && Key(a, n) in All(u) && Key(a, n + 1) !in All(u)
    ensures Top(All(u), a) == n
  {
    hide SnapsOk, ArchiveOk, Replayable;
    TopOfContiguous(All(u), a);
  }

  lemma GrownFull(st: Store, u: Store, a: Id)
    requires Grown(st, u) && Top(All(st), a) < Top(All(u), a)
    ensures Full(u, a)
  {
    hide Top;
  }

  /** After a commit: the handle stands at the new log top, its memory the fold of the whole log, the row of the read
      model too, and the new events are there with the sequences reported. */
  ghost predicate Landed(m: Model, st: Store, a: Id, base: nat, mem: State, r: Result, now: Time, ps: seq<Payload>)
    requires r.Committed?
  {
    && HandleOk(m, st, a, base + |ps|, mem) && Top(All(st), a) == base + |ps| && Full(st, a)
    && r.lastSeq >= |ps| && RowsOf(All(st), a, base, r.geo, r.lastSeq - |ps|, now, ps)
  }

  /** With nobody else at work: a conflict exactly when the handle was overtaken before, and else a commit exactly when
      Apply accepts the payloads. */
  ghost predicate SoleOutcome(m: Model, st: Store, a: Id, ver: nat, mem: State, now: Time, ps: seq<Payload>,
                              r: Result) {
    if Top(All(st), a) > ver then r == VersionConflict
    else r.Committed? <==> ApplyAll(m, mem, ver, now, ps).Some?
  }

  /** The commit of r found the store at; it keeps the log exactly when nothing archived there is in its way, and then
      has landed. */
  ghost predicate Kept(m: Model, at: Store, st: Store, a: Id, base: nat, mem: State, r: Result, now: Time,
                       ps: seq<Payload>)
    requires r.Committed?
  {
    && LogInv(m, at) && r.lastSeq >= |ps|
    && (LogInv(m, st) <==> Unarchived(at.arch, a, base, r.geo, r.lastSeq - |ps|, |ps|))
    && (LogInv(m, st) ==> Moved(m, at, st) && Landed(m, st, a, base, mem, r, now, ps))
  }

  /** Append: a commit leaves the log right exactly when no event that it would collide with is archived, and then the
      handle stands at the new log top, its memory the fold of the whole log, and the row of the read model is there
      too. That is always so when calm: while of no aggregate the window depends on two new snapshots fall into one
      attempt.
      A version conflict means that someone else's events follow the handle's version. Between its statements others
      commit, snapshot and archive (Foreign). */
  method Append(agg: Aggregate, db: DB, ctx: Geo, now: Time, ps: seq<Payload>, calm: bool, alone: bool)
    returns (r: Result, ghost at: Store)
    requires db.Valid() && HandleOk(db.m, db.st, agg.id, agg.version, agg.self)
    modifies agg, db
    ensures Moved(db.m, old(db.st), at) && (r.Committed? || at == db.st)
    ensures ps == [] ==> r == Failed && db.st == old(db.st)
    ensures r.Committed? ==>
              && agg.version == old(agg.version) + |ps| && agg.updatedAt == Some(now)
              && Kept(db.m, at, db.st, agg.id, old(agg.version), agg.self, r, now, ps)
    ensures calm || alone || !r.Committed? ==> db.Valid()
    ensures r == VersionConflict ==> Top(All(db.st), agg.id) > agg.version
    ensures !r.Committed? ==> agg.version == old(agg.version) && agg.updatedAt == old(agg.updatedAt)
    ensures alone && ps != [] ==>
              SoleOutcome(db.m, old(db.st), agg.id, old(agg.version), old(agg.self), now, ps, r)
  {
    hide LogInv, Moved, Replay, Top, MaxSeq, ApplyAll, HandleOk, Full, KeyTaken, SeqTaken, RowsOf, Trailing,
         PkCollides, SeqCollides, GeoPkCollides, Since, Watch, Kept;
    ghost var before := db.st;
    MovedReflexive(db.m, before);
    at := db.st;
    if ps == [] {
      return Failed, at;
    }
    ghost var mem, ver := agg.self, agg.version;
    var watch, attempt := Watch(db, agg.id), 0;
    while true
      invariant attempt <= MAX_ATTEMPT && db.Valid() && Moved(db.m, before, db.st)
      invariant agg.version == ver == old(agg.version) && agg.self == mem && agg.updatedAt == old(agg.updatedAt)
      invariant HandleOk(db.m, db.st, agg.id, ver, mem) && (alone ==> db.st == before && attempt == 0)
      decreases MAX_ATTEMPT - attempt
    {
      var cur := Top(db.st.hot, agg.id);
      var geo := if Key(agg.id, cur) in db.st.hot then db.st.hot[Key(agg.id, cur)].geo else ctx;
      HotTop(db.m, db.st, agg.id);
      if cur > agg.version {
        return VersionConflict, db.st;
      }
      FirstRead(db.m, db.st, agg.id, ver, mem);
      ghost var ref := db.st;
      var taken := BeforeLock(db, before, agg.id, agg.version, mem, calm, alone);
      var top := MaxSeq(db.st.hot, geo);
      ghost var mid := db.st;
      SinceStart(db, ref, mid, agg.id, ver, geo, taken);
      taken := Window(db, before, ref, mid, agg.id, agg.version, mem, geo, watch, taken, calm, alone);
      var lost: bool := *;
      lost := lost && !alone;
      if alone {
        NoCollisionAlone(db.m, db.st, agg.id, ver, geo, |ps|, db.byGeo);
      }
      if KeyTaken(db.st.hot, agg.id, agg.version, geo, |ps|, db.byGeo) {
        CollisionIsLater(db.m, db.st, agg.id, agg.version, geo, |ps|, db.byGeo);
        return VersionConflict, db.st;
      }
      if SeqTaken(db.st.hot, geo, top, |ps|) || lost {
        if attempt < MAX_ATTEMPT {
          attempt := attempt + 1;
          continue;
        }
        return Failed, db.st;
      }
      var ok := ApplyInMemory(agg, db.m, now, ps);
      if !ok {
        return Failed, db.st;
      }
      r, at := Finish(agg, db, before, ref, mid, mem, geo, ctx, top, now, ps, taken, calm, alone);
      return;
    }
  }

  /** The end of an attempt after Apply: nothing is repeated here, the handle's memory holds the events already. */
  method Finish(agg: Aggregate, db: DB, ghost before: Store, ghost ref: Store, ghost mid: Store, ghost mem: State,
                geo: Geo, ctx: Geo, top: nat, now: Time, ps: seq<Payload>, taken: Option<set<Id>>, calm: bool,
                alone: bool)
    returns (r: Result, ghost at: Store)
    requires db.Valid() && Moved(db.m, before, db.st) && HandleOk(db.m, db.st, agg.id, agg.version, mem) && ps != []
    requires Since(db.m, ref, mid, db.st, agg.id, agg.version, geo, Watch(db, agg.id), taken, db.byGeo)
    requires Top(ref.hot, agg.id) == agg.version && HomeGeo(ref, agg.id, ctx) == geo && MaxSeq(mid.hot, geo) == top
    requires ApplyAll(db.m, mem, agg.version, now, ps) == Some(agg.self)
    requires calm || alone ==> taken.Some?
    requires alone ==> !KeyTaken(db.st.hot, agg.id, agg.version, geo, |ps|, db.byGeo)
    requires alone ==> !SeqTaken(db.st.hot, geo, top, |ps|)
    modifies agg, db
    ensures Moved(db.m, before, at) && (r.Committed? || at == db.st)
    ensures r.Committed? ==>
              && agg.version == old(agg.version) + |ps| && agg.updatedAt == Some(now)
              && Kept(db.m, at, db.st, agg.id, old(agg.version), agg.self, r, now, ps)
    ensures calm || alone || !r.Committed? ==> db.Valid()
    ensures r == VersionConflict ==> Top(All(db.st), agg.id) > agg.version
    ensures !r.Committed? ==> agg.version == old(agg.version) && agg.updatedAt == old(agg.updatedAt)
    ensures alone ==> r.Committed?
  {
    hide LogInv, Moved, Replay, Top, MaxSeq, ApplyAll, HandleOk, Full, KeyTaken, SeqTaken, RowsOf, Trailing, HomeGeo,
         PkCollides, SeqCollides, GeoPkCollides, Since, Watch, Unarchived, UniqueKeys.Committed;
    ghost var ver := agg.version;
    var took := Window(db, before, ref, mid, agg.id, agg.version, mem, geo, Watch(db, agg.id), taken, calm, alone);
    at := db.st;
    if KeyTaken(db.st.hot, agg.id, agg.version, geo, |ps|, db.byGeo) {
      CollisionIsLater(db.m, db.st, agg.id, agg.version, geo, |ps|, db.byGeo);
      return VersionConflict, at;
    }
    var refused: bool := *;
    refused := refused && !alone;
    if SeqTaken(db.st.hot, geo, top, |ps|) || refused {
      return Failed, at;
    }
    CommitIsRightIff(db.m, ref, mid, at, agg.id, ver, geo, ctx, Watch(db, agg.id), took, db.byGeo, mem, now, ps,
                     agg.self);
    if took.Some? {
      NothingHidden(db.m, ref, mid, at, agg.id, ver, geo, Watch(db, agg.id), took, db.byGeo, |ps|);
    }
    if Unarchived(at.arch, agg.id, ver, geo, top, |ps|) {
      StillCurrent(db.m, ref, mid, at, agg.id, ver, geo, ctx, Watch(db, agg.id), took, db.byGeo, |ps|);
      CommitIsStep(db.m, at, agg.id, ver, mem, geo, ctx, top, now, ps, agg.self);
    }
    db.st := UniqueKeys.Committed(db.st, agg.id, agg.version, geo, top, now, ps, agg.self);
    agg.version, agg.updatedAt := agg.version + |ps|, Some(now);
    return Result.Committed(geo, top + |ps|), at;
  }

  lemma SinceStart(db: DB, ref: Store, mid: Store, a: Id, ver: nat, geo: Geo, taken: Option<set<Id>>)
    requires LogInv(db.m, ref) && LogInv(db.m, mid) && Moved(db.m, ref, mid) && Trailing(ref, mid, Watch(db, a), taken)
    requires db.byGeo && ver == 0 ==> Secret(ref, mid, a)
    ensures Since(db.m, ref, mid, mid, a, ver, geo, Watch(db, a), taken, db.byGeo)
  {
    hide LogInv, Moved, Trailing;
    MovedReflexive(db.m, mid);
  }

  /** What others commit and archive between the first read and the lock. */
  method BeforeLock(db: DB, ghost before: Store, a: Id, ver: nat, ghost mem: State, calm: bool, alone: bool)
    returns (taken: Option<set<Id>>)
    requires db.Valid() && Moved(db.m, before, db.st) && HandleOk(db.m, db.st, a, ver, mem)
    modifies db
    ensures db.Valid() && Moved(db.m, before, db.st) && HandleOk(db.m, db.st, a, ver, mem)
    ensures Moved(db.m, old(db.st), db.st) && Trailing(old(db.st), db.st, Watch(db, a), taken)
    ensures db.byGeo && ver == 0 ==> Secret(old(db.st), db.st, a)
    ensures (calm || alone ==> taken.Some?) && (alone ==> db.st == old(db.st))
  {
    hide LogInv, Moved, HandleOk, Trails, Watch;
    ghost var ref := db.st;
    StartsTrailing(db.m, db.st, Watch(db, a));
    taken := Foreign(db, ref, Watch(db, a), Some({}), None, if db.byGeo && ver == 0 then Some(a) else None, calm,
                     alone);
    MovedTransitive(db.m, before, ref, db.st);
    HandleStays(db.m, ref, db.st, a, ver, mem);
  }

  /** The same between the later statements, where the lock, if there is one, keeps the region quiet. */
  method Window(db: DB, ghost before: Store, ghost ref: Store, ghost mid: Store, a: Id, ver: nat, ghost mem: State,
                geo: Geo, watch: Option<Id>, taken: Option<set<Id>>, calm: bool, alone: bool)
    returns (took: Option<set<Id>>)
    requires db.Valid() && Moved(db.m, before, db.st) && HandleOk(db.m, db.st, a, ver, mem) && watch == Watch(db, a)
    requires Since(db.m, ref, mid, db.st, a, ver, geo, watch, taken, db.byGeo)
    modifies db
    ensures db.Valid() && Moved(db.m, before, db.st) && HandleOk(db.m, db.st, a, ver, mem)
    ensures Since(db.m, ref, mid, db.st, a, ver, geo, watch, took, db.byGeo)
    ensures Moved(db.m, old(db.st), db.st) && (alone ==> db.st == old(db.st))
    ensures (calm || alone) && taken.Some? ==> took.Some?
  {
    hide LogInv, Moved, HandleOk, Quiet, Secret;
    assert Trailing(ref, db.st, watch, taken) && Moved(db.m, mid, db.st);
    hide Trailing;
    ghost var st := db.st;
    took := Foreign(db, ref, watch, taken, if db.locks then Some(geo) else None,
                    if db.byGeo && ver == 0 then Some(a) else None, calm, alone);
    MovedTransitive(db.m, before, st, db.st);
    MovedTransitive(db.m, mid, st, db.st);
    StaysQuiet(db.m, ref, mid, st, db.st, a, ver, geo, watch, taken, took, db.byGeo);
    HandleStays(db.m, st, db.st, a, ver, mem);
  }

  lemma StaysQuiet(m: Model, ref: Store, mid: Store, st: Store, u: Store, a: Id, ver: nat, geo: Geo, watch: Option<Id>,
                   taken: Option<set<Id>>, took: Option<set<Id>>, byGeo: bool)
    requires Since(m, ref, mid, st, a, ver, geo, watch, taken, byGeo)
    requires Moved(m, st, u) && Moved(m, mid, u) && Trailing(ref, u, watch, took)
    requires (watch != None ==> Quiet(st, u, geo)) && (byGeo && ver == 0 ==> Secret(st, u, a))
    ensures Since(m, ref, mid, u, a, ver, geo, watch, took, byGeo)
  {
    hide LogInv, Trailing, Grown, SnapsGrow, RowsOk, Contiguous;
    assert Extends(All(st), All(u));
    hide Moved;
  }

  /** Any run of foreign commits, archive runs and upserts that brings no event into a locked region and none of an id
      nobody else knows; when calm, one that gives no watched aggregate a second new snapshot; nothing when alone. */
  method Foreign(db: DB, ghost ref: Store, watch: Option<Id>, taken: Option<set<Id>>, locked: Option<Geo>,
                 secret: Option<Id>, calm: bool, alone: bool) returns (took: Option<set<Id>>)
    requires db.Valid() && Trailing(ref, db.st, watch, taken)
    modifies db
    ensures db.Valid() && Moved(db.m, old(db.st), db.st) && Trailing(ref, db.st, watch, took)
    ensures locked.Some? ==> Quiet(old(db.st), db.st, locked.value)
    ensures secret.Some? ==> Secret(old(db.st), db.st, secret.value)
    ensures (calm || alone) && taken.Some? ==> took.Some?
    ensures alone ==> db.st == old(db.st)
  {
    hide LogInv, Grown, Extends, RowsOk, SnapsGrow, Trails, Do;
    var steps: seq<Step> := *;
    if || alone
       || (db.lease && exists step <- steps :: step.SetCheckpoint?)
       || (calm && taken.Some? && !Calm(db.m, db.st, steps, watch, taken.value))
       || (locked.Some? && !Quiet(db.st, Run(db.m, db.st, steps), locked.value))
       || (secret.Some? && !Secret(db.st, Run(db.m, db.st, steps), secret.value)) {
      steps := [];
    }
    RunKeepsLog(db.m, db.st, steps);
    RunGrows(db.m, db.st, steps);
    if RowsOk(db.m, All(db.st), db.st.rows) {
      RunKeepsRows(db.m, db.st, steps);
    }
    took := None;
    if taken.Some? && Calm(db.m, db.st, steps, watch, taken.value) {
      RunStaysTrailing(db.m, ref, db.st, steps, watch, taken.value);
      took := Some(TakenBy(db.m, db.st, steps, watch, taken.value));
    }
    db.st := Run(db.m, db.st, steps);
  }

  /** With nobody else committing, neither key can be taken. */
  lemma NoCollisionAlone(m: Model, st: Store, a: Id, ver: nat, geo: Geo, k: nat, byGeo: bool)
    requires LogInv(m, st) && Top(st.hot, a) == ver
    ensures !KeyTaken(st.hot, a, ver, geo, k, byGeo) && !SeqTaken(st.hot, geo, MaxSeq(st.hot, geo), k)
  {
    hide LogInv;
    forall j | j in st.hot && j.agg == a ensures j.aseq <= ver {
      assert j.aseq in Versions(st.hot, a);
    }
    forall j | j in st.hot && st.hot[j].geo == geo ensures st.hot[j].gseq <= MaxSeq(st.hot, geo) {
      assert st.hot[j].gseq in Seqs(st.hot, geo);
    }
  }

  lemma CollisionIsLater(m: Model, st: Store, a: Id, ver: nat, geo: Geo, k: nat, byGeo: bool)
    requires LogInv(m, st) && KeyTaken(st.hot, a, ver, geo, k, byGeo)
    ensures Top(All(st), a) > ver
  {
    hide LogInv, Top;
    HotTop(m, st, a);
    var n :| ver < n <= ver + k && Key(a, n) in st.hot;
    assert Key(a, n) in All(st);
  }
}

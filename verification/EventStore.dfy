/** The event store of one event-sourced model: its tables, the steps that change them,
    and the invariants every run of those steps keeps (aggregate.go, projection.go). */
module EventStore {
  import opened Wrappers

  type Id = string
  type Geo = string
  type Time = int
  type Payload(==, !new)
  type State(==, !new)

  /** Primary key of the event log and of the snapshot table. */
  datatype Key = Key(agg: Id, aseq: nat)

  /** An event row without its key; gseq is the sequence of the row's region. */
  datatype Event = Event(geo: Geo, gseq: nat, time: Time, body: Payload)

  type Table = map<Key, Event>

  /** A read-model row: the folded state and the aggregate_seq it stands for. */
  datatype Row = Row(version: nat, state: State, geo: Geo)

  /** A model: its zero state and its Apply, which may refuse an event. */
  datatype Model = Model(init: State, apply: (State, nat, Time, Payload) -> Option<State>)

  /** bounds remembers every archive bound a worker has read, as (aggregate, version): a move may use any of them,
      however stale. */
  datatype Store = Store(hot: Table, arch: Table, snaps: map<Key, State>,
                         rows: map<Id, Row>, cps: map<Geo, nat>, bounds: set<Key>)

  const EMPTY := Store(map[], map[], map[], map[], map[], {})

  /** Hot log and archive together (the UNION ALL of event.go). */
  function All(st: Store): Table {
    st.hot + st.arch
  }

  // ---------------------------------------------------------------- SQL aggregates

  lemma MaxExists(s: set<nat>)
    requires s != {}
    ensures exists m :: m in s && forall x <- s :: x <= m
  {
    var y :| y in s;
    if s != {y} {
      MaxExists(s - {y});
      var m :| m in s - {y} && forall x <- s - {y} :: x <= m;
      var top := if m < y then y else m;
      forall x | x in s ensures x <= top {
        assert x == y || x in s - {y};
      }
    }
  }

  /** COALESCE(MAX(..), 0). */
  function MaxNat(s: set<nat>): (m: nat)
    ensures forall x <- s :: x <= m
    ensures if s == {} then m == 0 else m in s
  {
    if s == {} then 0 else
      MaxExists(s);
      var m :| m in s && forall x <- s :: x <= m;
      m
  }

  function Versions(t: Table, a: Id): set<nat> {
    set k <- t.Keys | k.agg == a :: k.aseq
  }

  function Seqs(t: Table, g: Geo): set<nat> {
    set k <- t.Keys | t[k].geo == g :: t[k].gseq
  }

  function SnapVersions(snaps: map<Key, State>, a: Id): set<nat> {
    set k <- snaps.Keys | k.agg == a :: k.aseq
  }

  function Top(t: Table, a: Id): nat {
    MaxNat(Versions(t, a))
  }

  function MaxSeq(t: Table, g: Geo): nat {
    MaxNat(Seqs(t, g))
  }

  // ---------------------------------------------------------------- full replay

  /** The reference: fold events 1..v of an aggregate, all of them, from the zero state. */
  function Replay(m: Model, t: Table, a: Id, v: nat): Option<State> {
    if v == 0 then Some(m.init)
    else if Key(a, v) !in t then None
    else
      match Replay(m, t, a, v - 1)
      case None => None
      case Some(s) => m.apply(s, v, t[Key(a, v)].time, t[Key(a, v)].body)
  }

  ghost predicate SamePrefix(t: Table, u: Table, a: Id, v: nat) {
    forall i | 1 <= i <= v :: Key(a, i) in t && Key(a, i) in u
      && t[Key(a, i)].time == u[Key(a, i)].time && t[Key(a, i)].body == u[Key(a, i)].body
  }

  lemma {:induction false} ReplayFrame(m: Model, t: Table, u: Table, a: Id, v: nat)
    requires SamePrefix(t, u, a, v)
    ensures Replay(m, t, a, v) == Replay(m, u, a, v)
  {
    if v > 0 {
      ReplayFrame(m, t, u, a, v - 1);
      assert Key(a, v) in t && Key(a, v) in u;
    }
  }

  // ---------------------------------------------------------------- invariants

  ghost predicate Issued(t: Table, g: Geo, s: nat) {
    exists k :: k in t && t[k].geo == g && t[k].gseq == s
  }

  ghost predicate Contiguous(t: Table) {
    && (forall k <- t :: k.aseq >= 1)
    && (forall k, i | k in t && 1 <= i <= k.aseq :: Key(k.agg, i) in t)
  }

  ghost predicate Pinned(t: Table) {
    forall j, k | j in t && k in t && j.agg == k.agg :: t[j].geo == t[k].geo
  }

  ghost predicate Ordered(t: Table) {
    forall j, k | j in t && k in t && j.agg == k.agg && j.aseq < k.aseq :: t[j].gseq < t[k].gseq
  }

  ghost predicate UniqueSeqs(t: Table) {
    forall j, k | j in t && k in t && t[j].geo == t[k].geo && t[j].gseq == t[k].gseq :: j == k
  }

  ghost predicate GaplessSeqs(t: Table) {
    && (forall k <- t :: t[k].gseq >= 1)
    && (forall g, s, r | Issued(t, g, s) && 1 <= r <= s :: Issued(t, g, r))
  }

  ghost predicate Replayable(m: Model, t: Table) {
    forall k <- t :: Replay(m, t, k.agg, k.aseq).Some?
  }

  ghost predicate LogOk(m: Model, t: Table) {
    Contiguous(t) && Pinned(t) && Ordered(t) && UniqueSeqs(t) && GaplessSeqs(t) && Replayable(m, t)
  }

  ghost predicate SnapsOk(m: Model, t: Table, snaps: map<Key, State>) {
    && snaps.Keys <= t.Keys
    && forall k <- snaps :: Replay(m, t, k.agg, k.aseq) == Some(snaps[k])
  }

  ghost predicate Covered(snaps: map<Key, State>, k: Key) {
    exists v :: k.aseq < v && Key(k.agg, v) in snaps
  }

  /** What archiving promises: an archived event, and any bound still in use, is older than some stored snapshot. */
  ghost predicate ArchiveOk(st: Store) {
    && st.hot.Keys !! st.arch.Keys
    && (forall k <- st.arch :: Covered(st.snaps, k))
    && (forall k <- st.bounds :: Covered(st.snaps, k))
  }

  ghost predicate RowsOk(m: Model, t: Table, rows: map<Id, Row>) {
    forall a <- rows :: Key(a, rows[a].version) in t
      && Replay(m, t, a, rows[a].version) == Some(rows[a].state)
  }

  /** The read-model row of a stands at the log top. */
  ghost predicate Full(st: Store, a: Id) {
    a in st.rows && Top(All(st), a) <= st.rows[a].version
  }

  ghost predicate RowsFull(st: Store) {
    forall a :: Top(All(st), a) > 0 ==> Full(st, a)
  }

  /** The log side, which no read-model corruption touches. */
  ghost predicate LogInv(m: Model, st: Store) {
    && LogOk(m, All(st))
    && SnapsOk(m, All(st), st.snaps)
    && ArchiveOk(st)
  }

  ghost predicate Inv(m: Model, st: Store) {
    && LogInv(m, st)
    && RowsOk(m, All(st), st.rows)
    && RowsFull(st)
  }

  // ---------------------------------------------------------------- what the hot log knows

  lemma TopOfContiguous(t: Table, a: Id)
    requires Contiguous(t)
    ensures forall i: nat :: Key(a, i) in t <==> 1 <= i <= Top(t, a)
  {
    var n := Top(t, a);
    forall i | Key(a, i) in t ensures 1 <= i <= n {
      assert i in Versions(t, a);
    }
    if n > 0 {
      assert n in Versions(t, a);
      assert Key(a, n) in t;
    }
  }

  /** The newest event of an aggregate never leaves the hot log: its archiving would need a
      snapshot newer than the newest event. */
  lemma NewestIsHot(st: Store, a: Id)
    requires Contiguous(All(st))
    requires st.snaps.Keys <= All(st).Keys
    requires ArchiveOk(st)
    ensures Top(st.hot, a) == Top(All(st), a)
    ensures Top(st.hot, a) > 0 ==> Key(a, Top(st.hot, a)) in st.hot
    ensures forall i: nat :: Key(a, i) in All(st) <==> 1 <= i <= Top(st.hot, a)
  {
    var all := All(st);
    var n := Top(all, a);
    TopOfContiguous(all, a);
    if n > 0 {
      forall v | Key(a, v) in st.snaps ensures v <= n {
        assert Key(a, v) in all;
      }
      assert Key(a, n) in st.hot;
      assert n in Versions(st.hot, a);
    }
    forall i | i in Versions(st.hot, a) ensures i <= n {
      assert Key(a, i) in all;
    }
  }

  /** MAX(seq) over the hot log is the largest sequence ever issued in the region, and the
      issued sequences of the region are exactly 1..MAX. */
  lemma HotMaxIsIssuedMax(st: Store, g: Geo)
    requires Contiguous(All(st)) && Pinned(All(st)) && Ordered(All(st)) && GaplessSeqs(All(st))
    requires st.snaps.Keys <= All(st).Keys
    requires ArchiveOk(st)
    ensures forall s: nat :: Issued(All(st), g, s) <==> 1 <= s <= MaxSeq(st.hot, g)
  {
    var all := All(st);
    var n := MaxSeq(st.hot, g);
    forall k | k in all && all[k].geo == g ensures 1 <= all[k].gseq <= n {
      HotTopDominates(st, k);
    }
    if n > 0 {
      var k :| k in st.hot && st.hot[k].geo == g && st.hot[k].gseq == n;
      assert k in all && all[k] == st.hot[k];
      assert Issued(all, g, n);
    }
  }

  /** Every event is at or below its aggregate's newest event, which is hot and in the same region. */
  lemma HotTopDominates(st: Store, k: Key)
    requires Contiguous(All(st)) && Pinned(All(st)) && Ordered(All(st))
    requires st.snaps.Keys <= All(st).Keys
    requires ArchiveOk(st)
    requires k in All(st)
    ensures All(st)[k].gseq <= MaxSeq(st.hot, All(st)[k].geo)
  {
    var all := All(st);
    NewestIsHot(st, k.agg);
    var top := Key(k.agg, Top(st.hot, k.agg));
    assert k == Key(k.agg, k.aseq);
    assert top in st.hot && all[top] == st.hot[top];
    assert all[k].gseq <= all[top].gseq;
    assert all[top].gseq in Seqs(st.hot, all[k].geo);
  }
}

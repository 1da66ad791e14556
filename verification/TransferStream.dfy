/** The record stream of a tenant export, and what a database holds after loading a stream: the reference for
    export and import (tenants.go:154-285, import.go:120-283). */
module TransferStream {
  import opened Wrappers
  import opened EventStore
  import opened Loading
  import opened Keyset
  import opened ModelOrder

  type Data(==, !new)

  /** A row of a CRUD model. */
  datatype Ref = Ref(model: ModelName, pk: Pk)

  /** Its content, encrypted fields as plaintext, and the non-null references a foreign key guards. */
  datatype CrudRow = CrudRow(data: Data, refs: set<Ref>)

  type Crud = map<Ref, CrudRow>

  /** order is the result of sortedByDeps; shared are the rows of TenantFree models. */
  datatype Schema = Schema(registry: Registry, order: seq<ModelName>, tenanted: set<ModelName>,
                           es: map<ModelName, Model>, declared: Payload -> bool, shared: set<Ref>,
                           version: int, checksum: string)

  ghost predicate SchemaOk(sc: Schema) {
    && Resolved(sc.registry) && Sorted(sc.registry, sc.order)
    && (forall m <- sc.es :: m in sc.order && m in sc.tenanted)
    && (forall r <- sc.shared :: r.model !in sc.tenanted)
  }

  /** One tenant's part of the database. */
  datatype TenantData = TenantData(crud: Crud, es: map<ModelName, Store>)

  function NoData(sc: Schema): TenantData {
    TenantData(map[], map m | m in sc.es :: EMPTY)
  }

  datatype Line =
    | Header(version: Option<int>, models: string)
    | End
    | RowLine(model: ModelName, pk: Pk, row: CrudRow)
    | ViewLine(model: ModelName, id: Id, view: Row)
    | EventLine(model: ModelName, key: Key, time: Time, body: Payload)
    | SnapLine(model: ModelName, key: Key, state: State)
    | Garbage

  // ---------------------------------------------------------------- which streams are accepted

  /** checkExportSchema. */
  predicate SchemaMatches(sc: Schema, drift: bool, h: Line)
    requires h.Header?
  {
    drift || (h.version == Some(sc.version) && (h.models == "" || h.models == sc.checksum))
  }

  /** A line between header and end that the import can decode. */
  predicate LineOk(sc: Schema, l: Line) {
    match l
    case RowLine(m, _, _) => m in sc.tenanted
    case ViewLine(m, _, _) => m in sc.tenanted && m in sc.es
    case EventLine(m, k, _, body) => m in sc.tenanted && m in sc.es && sc.declared(body) && k.agg != "" && k.aseq >= 1
    case SnapLine(m, _, _) => m in sc.tenanted && m in sc.es
    case _ => false
  }

  /** A header that fits; then good lines; then, if the header tells its schema, an end; after it nothing else. */
  predicate Accepted(sc: Schema, drift: bool, s: seq<Line>) {
    && s != [] && s[0].Header? && SchemaMatches(sc, drift, s[0])
    && LinesOk(sc, s)
    && (s[0].version.Some? ==> Ended(s))
  }

  predicate Ended(s: seq<Line>) {
    exists i :: 1 <= i < |s| && s[i].End?
  }

  predicate LinesOk(sc: Schema, s: seq<Line>) {
    forall i | 1 <= i < |s| :: s[i].End? || (LineOk(sc, s[i]) && !Ended(s[..i]))
  }

  // ---------------------------------------------------------------- what a stream carries

  datatype RowRec = RowRec(ref: Ref, row: CrudRow)
  datatype EventRec = EventRec(model: ModelName, key: Key, time: Time, body: Payload)
  datatype SnapRec = SnapRec(model: ModelName, key: Key, state: State)

  function Collect<T>(pick: Line -> seq<T>, s: seq<Line>): seq<T> {
    if s == [] then [] else Collect(pick, s[..|s| - 1]) + pick(s[|s| - 1])
  }

  lemma {:induction false} CollectConcat<T>(pick: Line -> seq<T>, a: seq<Line>, b: seq<Line>)
    ensures Collect(pick, a + b) == Collect(pick, a) + Collect(pick, b)
    decreases b
  {
    if b == [] {
      assert a + b == a;
    } else {
      var c := b[..|b| - 1];
      assert (a + b)[..|a + b| - 1] == a + c;
      CollectConcat(pick, a, c);
      assert (Collect(pick, a) + Collect(pick, c)) + pick(b[|b| - 1])
          == Collect(pick, a) + (Collect(pick, c) + pick(b[|b| - 1]));
    }
  }

  lemma CollectNext<T>(pick: Line -> seq<T>, s: seq<Line>, i: nat)
    requires i < |s|
    ensures Collect(pick, s[..i + 1]) == Collect(pick, s[..i]) + pick(s[i])
  {
    assert s[..i + 1][..i] == s[..i];
  }

  /** Rows of event-sourced models are derived: the import passes over them. */
  function PickRow(sc: Schema): Line -> seq<RowRec> {
    (l: Line) => if l.RowLine? && l.model !in sc.es then [RowRec(Ref(l.model, l.pk), l.row)] else []
  }

  function PickEvent(): Line -> seq<EventRec> {
    (l: Line) => if l.EventLine? then [EventRec(l.model, l.key, l.time, l.body)] else []
  }

  function PickSnap(): Line -> seq<SnapRec> {
    (l: Line) => if l.SnapLine? then [SnapRec(l.model, l.key, l.state)] else []
  }

  function RowsIn(sc: Schema, s: seq<Line>): seq<RowRec> {
    Collect(PickRow(sc), s)
  }

  function EventsIn(s: seq<Line>): seq<EventRec> {
    Collect(PickEvent(), s)
  }

  function SnapsIn(s: seq<Line>): seq<SnapRec> {
    Collect(PickSnap(), s)
  }

  // ---------------------------------------------------------------- loading rows

  predicate Insertable(sc: Schema, crud: Crud, r: RowRec) {
    r.ref !in crud && r.row.refs <= crud.Keys + {r.ref} + sc.shared
  }

  /** INSERT one row after another; a taken key or a dangling reference fails. */
  function CrudOf(sc: Schema, rows: seq<RowRec>): Option<Crud> {
    if rows == [] then Some(map[])
    else
      match CrudOf(sc, rows[..|rows| - 1])
      case None => None
      case Some(crud) =>
        var r := rows[|rows| - 1];
        if Insertable(sc, crud, r) then Some(crud[r.ref := r.row]) else None
  }

  lemma CrudOfNext(sc: Schema, rows: seq<RowRec>, r: RowRec)
    ensures CrudOf(sc, rows + [r])
         == match CrudOf(sc, rows)
            case None => None
            case Some(crud) => if Insertable(sc, crud, r) then Some(crud[r.ref := r.row]) else None
  {
    assert (rows + [r])[..|rows|] == rows;
  }

  lemma {:induction false} CrudOfFails(sc: Schema, a: seq<RowRec>, b: seq<RowRec>)
    requires CrudOf(sc, a).None?
    ensures CrudOf(sc, a + b).None?
    decreases b
  {
    if b == [] {
      assert a + b == a;
    } else {
      CrudOfFails(sc, a, b[..|b| - 1]);
      assert a + b == a + b[..|b| - 1] + [b[|b| - 1]];
      CrudOfNext(sc, a + b[..|b| - 1], b[|b| - 1]);
    }
  }

  // ---------------------------------------------------------------- loading events and snapshots

  /** The hot log of model m after inserting the events in order, each with its region sequence. */
  function HotOf(evs: seq<EventRec>, nums: seq<nat>, geo: Geo, m: ModelName): Table
    requires |nums| == |evs|
    decreases evs
  {
    if evs == [] then map[]
    else
      var n := |evs| - 1;
      var t := HotOf(evs[..n], nums[..n], geo, m);
      if evs[n].model == m then t[evs[n].key := Event(geo, nums[n], evs[n].time, evs[n].body)] else t
  }

  lemma HotOfNext(evs: seq<EventRec>, nums: seq<nat>, geo: Geo, m: ModelName, e: EventRec, n: nat)
    requires |nums| == |evs|
    ensures HotOf(evs + [e], nums + [n], geo, m)
         == if e.model == m then HotOf(evs, nums, geo, m)[e.key := Event(geo, n, e.time, e.body)]
            else HotOf(evs, nums, geo, m)
  {
    assert (evs + [e])[..|evs|] == evs && (nums + [n])[..|nums|] == nums;
  }

  ghost predicate DistinctEvents(evs: seq<EventRec>) {
    forall i, j | 0 <= i < j < |evs| && evs[i].model == evs[j].model :: evs[i].key != evs[j].key
  }

  ghost predicate DistinctSnaps(sns: seq<SnapRec>) {
    forall i, j | 0 <= i < j < |sns| && sns[i].model == sns[j].model :: sns[i].key != sns[j].key
  }

  lemma {:induction false} HotKeys(evs: seq<EventRec>, nums: seq<nat>, geo: Geo, m: ModelName)
    requires |nums| == |evs|
    ensures forall k :: k in HotOf(evs, nums, geo, m)
               <==> exists i :: 0 <= i < |evs| && evs[i].model == m && evs[i].key == k
    decreases evs
  {
    if evs != [] {
      var n := |evs| - 1;
      HotKeys(evs[..n], nums[..n], geo, m);
      forall k ensures k in HotOf(evs, nums, geo, m)
                  <==> exists i :: 0 <= i < |evs| && evs[i].model == m && evs[i].key == k {
        if i :| 0 <= i < |evs| && evs[i].model == m && evs[i].key == k {
          assert i < n ==> evs[..n][i] == evs[i];
        }
        if k in HotOf(evs[..n], nums[..n], geo, m) {
          var i :| 0 <= i < n && evs[..n][i].model == m && evs[..n][i].key == k;
          assert evs[i] == evs[..n][i];
        }
      }
    }
  }

  lemma {:induction false} HotAt(evs: seq<EventRec>, nums: seq<nat>, geo: Geo, i: nat)
    requires |nums| == |evs| && i < |evs| && DistinctEvents(evs)
    ensures var t := HotOf(evs, nums, geo, evs[i].model);
      evs[i].key in t && t[evs[i].key] == Event(geo, nums[i], evs[i].time, evs[i].body)
    decreases evs
  {
    var n := |evs| - 1;
    if i < n {
      assert DistinctEvents(evs[..n]);
      HotAt(evs[..n], nums[..n], geo, i);
    }
  }

  function SnapsOf(sns: seq<SnapRec>, m: ModelName): map<Key, State> {
    if sns == [] then map[]
    else
      var s, t := sns[|sns| - 1], SnapsOf(sns[..|sns| - 1], m);
      if s.model == m then t[s.key := s.state] else t
  }

  lemma SnapsOfNext(sns: seq<SnapRec>, m: ModelName, s: SnapRec)
    ensures SnapsOf(sns + [s], m) == if s.model == m then SnapsOf(sns, m)[s.key := s.state] else SnapsOf(sns, m)
  {
    assert (sns + [s])[..|sns|] == sns;
  }

  lemma {:induction false} SnapKeys(sns: seq<SnapRec>, m: ModelName)
    ensures forall k :: k in SnapsOf(sns, m) <==> exists i :: 0 <= i < |sns| && sns[i].model == m && sns[i].key == k
    decreases sns
  {
    if sns != [] {
      var n := |sns| - 1;
      SnapKeys(sns[..n], m);
      forall k ensures k in SnapsOf(sns, m) <==> exists i :: 0 <= i < |sns| && sns[i].model == m && sns[i].key == k {
        if i :| 0 <= i < |sns| && sns[i].model == m && sns[i].key == k {
          assert i < n ==> sns[..n][i] == sns[i];
        }
        if k in SnapsOf(sns[..n], m) {
          var i :| 0 <= i < n && sns[..n][i].model == m && sns[..n][i].key == k;
          assert sns[i] == sns[..n][i];
        }
      }
    }
  }

  lemma {:induction false} SnapAt(sns: seq<SnapRec>, i: nat)
    requires i < |sns| && DistinctSnaps(sns)
    ensures var t := SnapsOf(sns, sns[i].model); sns[i].key in t && t[sns[i].key] == sns[i].state
    decreases sns
  {
    var n := |sns| - 1;
    if i < n {
      assert DistinctSnaps(sns[..n]);
      SnapAt(sns[..n], i);
    }
  }

  // ---------------------------------------------------------------- the read model

  /** Newest snapshot, then the hot events after it. */
  function Folded(md: Model, hot: Table, snaps: map<Key, State>, a: Id): Option<(nat, State)> {
    var v := NewestSnap(snaps, a, 0);
    var s := if Key(a, v) in snaps then snaps[Key(a, v)] else md.init;
    var rows := Select(hot, a, v + 1, Top(hot, a));
    match FoldRows(md, s, rows)
    case None => None
    case Some(s') => Some((if rows == [] then v else rows[|rows| - 1].0, s'))
  }

  function Aggs(hot: Table): set<Id> {
    set k <- hot.Keys :: k.agg
  }

  predicate Foldable(md: Model, hot: Table, snaps: map<Key, State>) {
    forall a <- Aggs(hot) :: Folded(md, hot, snaps, a).Some?
  }

  function View(md: Model, hot: Table, snaps: map<Key, State>, a: Id, geo: Geo): Row
    requires Folded(md, hot, snaps, a).Some?
  {
    var (v, s) := Folded(md, hot, snaps, a).value;
    Row(v, s, geo)
  }

  /** One row per aggregate of the hot log; an aggregate that folds to version 0 gets none. */
  function Views(md: Model, hot: Table, snaps: map<Key, State>, geo: Geo): map<Id, Row>
    requires Foldable(md, hot, snaps)
  {
    map a | a in Aggs(hot) && View(md, hot, snaps, a, geo).version > 0 :: View(md, hot, snaps, a, geo)
  }

  /** The same events in both logs, whatever their regions and sequences. */
  ghost predicate SameFacts(t: Table, u: Table) {
    t.Keys == u.Keys && forall k <- t :: t[k].time == u[k].time && t[k].body == u[k].body
  }

  lemma {:induction false} SameRows(md: Model, t: Table, u: Table, a: Id, lo: nat, hi: nat, s: State)
    requires SameFacts(t, u)
    ensures var xs, ys := Select(t, a, lo, hi), Select(u, a, lo, hi);
      && FoldRows(md, s, xs) == FoldRows(md, s, ys)
      && |xs| == |ys| && forall i | 0 <= i < |xs| :: xs[i].0 == ys[i].0
    decreases hi + 1 - lo
  {
    if lo <= hi {
      var xs, ys := Select(t, a, lo + 1, hi), Select(u, a, lo + 1, hi);
      SameRows(md, t, u, a, lo + 1, hi, s);
      if Key(a, lo) in t {
        var e := t[Key(a, lo)];
        assert Select(t, a, lo, hi) == [(lo, e)] + xs && Select(u, a, lo, hi) == [(lo, u[Key(a, lo)])] + ys;
        assert Select(t, a, lo, hi)[1..] == xs && Select(u, a, lo, hi)[1..] == ys;
        var s' := md.apply(s, lo, e.time, e.body);
        if s'.Some? {
          SameRows(md, t, u, a, lo + 1, hi, s'.value);
        }
      } else {
        assert Select(t, a, lo, hi) == xs && Select(u, a, lo, hi) == ys;
      }
    }
  }

  lemma SameTop(t: Table, u: Table, a: Id)
    requires SameFacts(t, u)
    ensures Top(t, a) == Top(u, a)
  {
    assert Versions(t, a) == Versions(u, a);
  }

  /** Folding an aggregate does not depend on region sequences. */
  lemma FoldedSame(md: Model, t: Table, u: Table, snaps: map<Key, State>, a: Id)
    requires SameFacts(t, u)
    ensures Folded(md, t, snaps, a) == Folded(md, u, snaps, a)
  {
    hide Select, FoldRows, NewestSnap, Top;
    SameTop(t, u, a);
    var v := NewestSnap(snaps, a, 0);
    var s := if Key(a, v) in snaps then snaps[Key(a, v)] else md.init;
    SameRows(md, t, u, a, v + 1, Top(t, a), s);
  }

  lemma {:induction false} HotSame(evs: seq<EventRec>, nums: seq<nat>, others: seq<nat>, geo: Geo, to: Geo,
                                   m: ModelName)
    requires |nums| == |evs| == |others|
    ensures SameFacts(HotOf(evs, nums, geo, m), HotOf(evs, others, to, m))
    decreases evs
  {
    if evs != [] {
      var n := |evs| - 1;
      HotSame(evs[..n], nums[..n], others[..n], geo, to, m);
    }
  }

  lemma FoldableSame(md: Model, evs: seq<EventRec>, nums: seq<nat>, others: seq<nat>, geo: Geo, m: ModelName,
                     snaps: map<Key, State>)
    requires |nums| == |evs| == |others|
    ensures Foldable(md, HotOf(evs, nums, geo, m), snaps) == Foldable(md, HotOf(evs, others, geo, m), snaps)
  {
    hide HotOf, Folded;
    HotSame(evs, nums, others, geo, geo, m);
    var t, u := HotOf(evs, nums, geo, m), HotOf(evs, others, geo, m);
    assert Aggs(t) == Aggs(u);
    forall a ensures Folded(md, t, snaps, a) == Folded(md, u, snaps, a) {
      FoldedSame(md, t, u, snaps, a);
    }
  }

  // ---------------------------------------------------------------- the whole

  /** The rows, events and snapshots of a stream can be inserted and folded. */
  ghost predicate Loadable(sc: Schema, geo: Geo, s: seq<Line>) {
    && CrudOf(sc, RowsIn(sc, s)).Some?
    && DistinctEvents(EventsIn(s)) && DistinctSnaps(SnapsIn(s))
    && forall m <- sc.es :: Foldable(sc.es[m], HotOf(EventsIn(s), Zeros(|EventsIn(s)|), geo, m), SnapsOf(SnapsIn(s), m))
  }

  function Zeros(n: nat): (z: seq<nat>)
    ensures |z| == n
  {
    seq(n, _ => 0)
  }

  /** The data loaded from a stream, given the region sequences its events got. */
  ghost predicate Holds(sc: Schema, geo: Geo, s: seq<Line>, nums: seq<nat>, d: TenantData) {
    && |nums| == |EventsIn(s)|
    && CrudOf(sc, RowsIn(sc, s)) == Some(d.crud)
    && d.es.Keys == sc.es.Keys
    && forall m <- sc.es ::
         var hot, snaps := HotOf(EventsIn(s), nums, geo, m), SnapsOf(SnapsIn(s), m);
         && Foldable(sc.es[m], hot, snaps)
         && d.es[m] == Store(hot, map[], snaps, Views(sc.es[m], hot, snaps, geo), map[], {})
  }

  function CountOf(evs: seq<EventRec>, m: ModelName): nat {
    if evs == [] then 0 else CountOf(evs[..|evs| - 1], m) + if evs[|evs| - 1].model == m then 1 else 0
  }

  /** Above every sequence the region had, and rising in stream order. */
  ghost predicate Rising(evs: seq<EventRec>, nums: seq<nat>, base: map<ModelName, nat>) {
    && |nums| == |evs|
    && (forall i | 0 <= i < |evs| :: evs[i].model in base && nums[i] > base[evs[i].model])
    && (forall i, j | 0 <= i < j < |evs| && evs[i].model == evs[j].model :: nums[i] < nums[j])
  }

  /** The next sequences of the region without a gap, in stream order. */
  ghost predicate Gapless(evs: seq<EventRec>, nums: seq<nat>, base: map<ModelName, nat>) {
    && |nums| == |evs|
    && forall i | 0 <= i < |evs| ::
         evs[i].model in base && nums[i] == base[evs[i].model] + CountOf(evs[..i + 1], evs[i].model)
  }
}

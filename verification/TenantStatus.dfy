/** The tenant during imports: one attempt, statement by statement, and attempts repeated
    (import.go:55-105, 193-271, 410-459, 467-497). */
module TenantStatus {
  import opened Wrappers
  import opened EventStore
  import opened EventSteps
  import opened ModelOrder
  import opened TransferStream
  import opened TenantImport

  datatype Status = Active | Archived | Importing

  /** NotEmpty is ErrTenantNotEmpty; Failed is any other error, or a crash. */
  datatype Outcome = Imported | NotEmpty | Failed

  // ---------------------------------------------------------------- prefixes of a stream

  lemma PrefixFails(sc: Schema, geo: Geo, s: seq<Line>, i: nat)
    requires i <= |s|
    requires || CrudOf(sc, RowsIn(sc, s[..i])).None?
             || !DistinctEvents(EventsIn(s[..i])) || !DistinctSnaps(SnapsIn(s[..i]))
    ensures !Loadable(sc, geo, s)
  {
    hide Foldable, HotOf, CrudOf;
    assert s == s[..i] + s[i..];
    CollectConcat(PickRow(sc), s[..i], s[i..]);
    CollectConcat(PickEvent(), s[..i], s[i..]);
    CollectConcat(PickSnap(), s[..i], s[i..]);
    if CrudOf(sc, RowsIn(sc, s[..i])).None? {
      CrudOfFails(sc, RowsIn(sc, s[..i]), RowsIn(sc, s[i..]));
    }
    DistinctPrefix(EventsIn(s[..i]), EventsIn(s[i..]), SnapsIn(s[..i]), SnapsIn(s[i..]));
  }

  lemma DistinctPrefix(a: seq<EventRec>, b: seq<EventRec>, c: seq<SnapRec>, d: seq<SnapRec>)
    ensures DistinctEvents(a + b) ==> DistinctEvents(a)
    ensures DistinctSnaps(c + d) ==> DistinctSnaps(c)
  {
    if DistinctEvents(a + b) {
      forall i, j | 0 <= i < j < |a| && a[i].model == a[j].model ensures a[i].key != a[j].key {
        assert (a + b)[i] == a[i] && (a + b)[j] == a[j];
      }
    }
    if DistinctSnaps(c + d) {
      forall i, j | 0 <= i < j < |c| && c[i].model == c[j].model ensures c[i].key != c[j].key {
        assert (c + d)[i] == c[i] && (c + d)[j] == c[j];
      }
    }
  }

  lemma LineNext(sc: Schema, s: seq<Line>, i: nat)
    requires 1 <= i < |s| && LinesOk(sc, s[..i])
    ensures LinesOk(sc, s[..i + 1]) <==> s[i].End? || (LineOk(sc, s[i]) && !Ended(s[..i]))
    ensures Ended(s[..i + 1]) <==> Ended(s[..i]) || s[i].End?
  {
    hide LineOk;
    var t, u := s[..i], s[..i + 1];
    assert forall j | 0 <= j < i :: u[j] == t[j];
    assert forall j | 0 <= j <= i :: u[..j] == s[..j];
    assert forall j | 0 <= j < i :: t[..j] == s[..j];
    if Ended(t) {
      var j :| 1 <= j < |t| && t[j].End?;
      assert u[j].End?;
    }
    assert s[i].End? ==> u[i].End?;
  }

  lemma LinesPrefix(sc: Schema, s: seq<Line>, i: nat)
    requires i <= |s| && LinesOk(sc, s)
    ensures LinesOk(sc, s[..i])
  {
    hide LineOk, Ended;
    assert forall j | 0 <= j < i :: s[..i][j] == s[j] && s[..i][..j] == s[..j];
  }

  // ---------------------------------------------------------------- projecting

  /** Model by model the read model is built; the rest is as loaded. */
  ghost predicate Projecting(sc: Schema, geo: Geo, s: seq<Line>, nums: seq<nat>, d: TenantData, todo: set<ModelName>) {
    && |nums| == |EventsIn(s)|
    && CrudOf(sc, RowsIn(sc, s)) == Some(d.crud)
    && d.es.Keys == sc.es.Keys
    && forall m <- sc.es ::
         var hot, snaps := HotOf(EventsIn(s), nums, geo, m), SnapsOf(SnapsIn(s), m);
         if m in todo then d.es[m] == Store(hot, map[], snaps, map[], map[], {})
         else Foldable(sc.es[m], hot, snaps)
              && d.es[m] == Store(hot, map[], snaps, Views(sc.es[m], hot, snaps, geo), map[], {})
  }

  /** esSeen: every model the stream has events of. */
  ghost predicate Seen(sc: Schema, s: seq<Line>, esSeen: set<ModelName>) {
    && (forall m <- esSeen :: m in sc.es)
    && (forall e <- EventsIn(s) :: e.model in esSeen)
  }

  lemma UnseenIsEmpty(evs: seq<EventRec>, nums: seq<nat>, geo: Geo, m: ModelName)
    requires |nums| == |evs| && forall e <- evs :: e.model != m
    ensures HotOf(evs, nums, geo, m) == map[]
  {
    hide HotOf;
    HotKeys(evs, nums, geo, m);
    assert forall i | 0 <= i < |evs| :: evs[i] in evs;
  }

  lemma LoadedIsProjecting(sc: Schema, geo: Geo, s: seq<Line>, l: Loaded, d: TenantData, base: Tops, others: Tops,
                           esSeen: set<ModelName>)
    requires DataIs(sc, geo, l, d, base, others) && Seen(sc, s, esSeen)
    requires l.rows == RowsIn(sc, s) && l.events == EventsIn(s) && l.snaps == SnapsIn(s)
    ensures Projecting(sc, geo, s, l.nums, d, esSeen)
  {
    hide CrudOf, Numbered, RowsIn, EventsIn, SnapsIn;
    forall m | m in sc.es && m !in esSeen ensures HotOf(l.events, l.nums, geo, m) == map[] {
      UnseenIsEmpty(l.events, l.nums, geo, m);
    }
  }

  lemma ProjectedIsHeld(sc: Schema, geo: Geo, s: seq<Line>, nums: seq<nat>, d: TenantData)
    requires Projecting(sc, geo, s, nums, d, {}) && DistinctEvents(EventsIn(s)) && DistinctSnaps(SnapsIn(s))
    ensures Holds(sc, geo, s, nums, d) && Loadable(sc, geo, s)
  {
    hide CrudOf, RowsIn, EventsIn, SnapsIn, HotOf, SnapsOf, Foldable, DistinctEvents, DistinctSnaps;
    forall m | m in sc.es
      ensures Foldable(sc.es[m], HotOf(EventsIn(s), Zeros(|EventsIn(s)|), geo, m), SnapsOf(SnapsIn(s), m)) {
      FoldableSame(sc.es[m], EventsIn(s), nums, Zeros(|EventsIn(s)|), geo, m, SnapsOf(SnapsIn(s), m));
    }
  }

  lemma ProjectingAt(sc: Schema, geo: Geo, s: seq<Line>, nums: seq<nat>, d: TenantData, todo: set<ModelName>,
                     m: ModelName)
    requires Projecting(sc, geo, s, nums, d, todo) && m in todo && m in sc.es
    ensures |nums| == |EventsIn(s)| && m in d.es
    ensures d.es[m] == Store(HotOf(EventsIn(s), nums, geo, m), map[], SnapsOf(SnapsIn(s), m), map[], map[], {})
  {
    hide CrudOf, RowsIn, EventsIn, SnapsIn, HotOf, SnapsOf, Foldable, Views;
  }

  /** No table but the tenant's own is in the data. */
  ghost predicate Plain(sc: Schema, d: TenantData) {
    d.es.Keys == sc.es.Keys && forall m <- d.es :: d.es[m].cps == map[] && d.es[m].bounds == {}
  }

  lemma PlainStores(sc: Schema, geo: Geo, s: seq<Line>, nums: seq<nat>, d: TenantData, todo: set<ModelName>)
    requires Projecting(sc, geo, s, nums, d, todo)
    ensures Plain(sc, d)
  {
    hide CrudOf, RowsIn, EventsIn, SnapsIn, HotOf, SnapsOf, Foldable, Views;
  }

  lemma PartlyProjected(sc: Schema, geo: Geo, s: seq<Line>, nums: seq<nat>, d: TenantData, u: TenantData,
                        todo: set<ModelName>, m: ModelName)
    requires Projecting(sc, geo, s, nums, d, todo) && m in sc.es
    requires u.es.Keys == d.es.Keys && forall k <- u.es | k != m :: u.es[k] == d.es[k]
    requires m in d.es && u.es[m] == d.es[m].(rows := u.es[m].rows)
    ensures Plain(sc, u)
  {
    hide Projecting;
    PlainStores(sc, geo, s, nums, d, todo);
  }

  lemma ProjectedOne(sc: Schema, geo: Geo, s: seq<Line>, nums: seq<nat>, d: TenantData, u: TenantData,
                     todo: set<ModelName>, m: ModelName)
    requires Projecting(sc, geo, s, nums, d, todo) && m in todo && m in sc.es
    requires u.crud == d.crud && u.es.Keys == d.es.Keys && forall k <- u.es | k != m :: u.es[k] == d.es[k]
    requires m in d.es && Foldable(sc.es[m], d.es[m].hot, d.es[m].snaps)
    requires u.es[m] == d.es[m].(rows := Views(sc.es[m], d.es[m].hot, d.es[m].snaps, geo))
    ensures Projecting(sc, geo, s, nums, u, todo - {m})
  {
    hide CrudOf, RowsIn, EventsIn, SnapsIn, HotOf, SnapsOf, Foldable, Views;
  }

  lemma UnfoldableFails(sc: Schema, geo: Geo, s: seq<Line>, nums: seq<nat>, m: ModelName)
    requires |nums| == |EventsIn(s)| && m in sc.es
    requires !Foldable(sc.es[m], HotOf(EventsIn(s), nums, geo, m), SnapsOf(SnapsIn(s), m))
    ensures !Loadable(sc, geo, s)
  {
    hide CrudOf, RowsIn, EventsIn, SnapsIn, HotOf, SnapsOf, Foldable;
    FoldableSame(sc.es[m], EventsIn(s), nums, Zeros(|EventsIn(s)|), geo, m, SnapsOf(SnapsIn(s), m));
  }

  lemma OthersRise(sc: Schema, geo: Geo, l: Loaded, d: TenantData, base: Tops, others: Tops, now: Tops)
    requires DataIs(sc, geo, l, d, base, others)
    requires now.Keys == others.Keys && forall m <- others :: base[m] <= others[m] <= now[m]
    ensures DataIs(sc, geo, l, d, base, now)
  {
    hide CrudOf, HotLoaded, SnapsLoaded, Bare, Rising, Gapless, CountOf, MaxSeq;
    if now == base {
      assert others == base;
    }
    assert forall m <- d.es :: TopIn(d.es, geo, others, m) <= TopIn(d.es, geo, now, m);
    forall i | 0 <= i < |l.events| ensures l.nums[i] <= TopIn(d.es, geo, now, l.events[i].model) {
      assert l.nums[i] <= TopIn(d.es, geo, others, l.events[i].model);
    }
  }

  /** Every aggregate not in rest has its row. */
  ghost predicate PartViews(md: Model, st: Store, geo: Geo, rows: map<Id, Row>, rest: set<Id>) {
    && (forall a <- Aggs(st.hot) - rest :: Folded(md, st.hot, st.snaps, a).Some?)
    && (forall a :: a in rows <==>
          && a in Aggs(st.hot) - rest
          && Folded(md, st.hot, st.snaps, a).Some? && View(md, st.hot, st.snaps, a, geo).version > 0)
    && (forall a <- rows :: a in Aggs(st.hot) && Folded(md, st.hot, st.snaps, a).Some?
          && rows[a] == View(md, st.hot, st.snaps, a, geo))
  }

  lemma PartStart(md: Model, st: Store, geo: Geo)
    ensures PartViews(md, st, geo, map[], Aggs(st.hot))
  {
    hide Folded;
  }

  lemma PartStep(md: Model, st: Store, geo: Geo, rows: map<Id, Row>, rest: set<Id>, a: Id)
    requires PartViews(md, st, geo, rows, rest) && a in rest && a in Aggs(st.hot)
    requires Folded(md, st.hot, st.snaps, a).Some?
    ensures var (v, s) := Folded(md, st.hot, st.snaps, a).value;
      PartViews(md, st, geo, if v > 0 then Upsert(rows, a, Row(v, s, geo)) else rows, rest - {a})
  {
    hide Folded, Aggs;
  }

  lemma PartEnd(md: Model, st: Store, geo: Geo, rows: map<Id, Row>)
    requires PartViews(md, st, geo, rows, {})
    ensures Foldable(md, st.hot, st.snaps) && rows == Views(md, st.hot, st.snaps, geo)
  {
    hide Folded, Aggs;
    var none: set<Id> := {};
    assert Aggs(st.hot) - none == Aggs(st.hot);
  }

  lemma NotFoldable(md: Model, st: Store, a: Id)
    requires a in Aggs(st.hot) && Folded(md, st.hot, st.snaps, a).None?
    ensures !Foldable(md, st.hot, st.snaps)
  {
    hide Folded, Aggs;
  }

  // ---------------------------------------------------------------- reading

  /** What reading one good line adds to the pending batch. */
  function Collected(sc: Schema, p: Pending, l: Line): Pending {
    match l
    case RowLine(m, pk, row) => if m in sc.es then p else p.(rows := p.rows + [RowRec(Ref(m, pk), row)])
    case EventLine(m, k, time, body) => p.(events := p.events + [EventRec(m, k, time, body)])
    case SnapLine(m, k, state) => p.(snaps := p.snaps + [SnapRec(m, k, state)])
    case _ => p
  }

  function SeenWith(esSeen: set<ModelName>, l: Line): set<ModelName> {
    if l.EventLine? || l.SnapLine? then esSeen + {l.model} else esSeen
  }

  /** After i lines: what they carry is loaded or pending. */
  ghost predicate Read(sc: Schema, s: seq<Line>, i: nat, l: Loaded, p: Pending, esSeen: set<ModelName>) {
    && i <= |s|
    && RowsIn(sc, s[..i]) == l.rows + p.rows
    && EventsIn(s[..i]) == l.events + p.events
    && SnapsIn(s[..i]) == l.snaps + p.snaps
    && (forall e <- p.events :: e.model in sc.es) && (forall x <- p.snaps :: x.model in sc.es)
    && Seen(sc, s[..i], esSeen)
  }

  lemma ReadNext(sc: Schema, s: seq<Line>, i: nat, l: Loaded, p: Pending, esSeen: set<ModelName>)
    requires Read(sc, s, i, l, p, esSeen) && i < |s|
    requires s[i].EventLine? || s[i].SnapLine? ==> s[i].model in sc.es
    ensures Read(sc, s, i + 1, l, Collected(sc, p, s[i]), SeenWith(esSeen, s[i]))
  {
    hide Collect;
    CollectNext(PickRow(sc), s, i);
    CollectNext(PickEvent(), s, i);
    CollectNext(PickSnap(), s, i);
    var q := Collected(sc, p, s[i]);
    assert l.rows + p.rows + PickRow(sc)(s[i]) == l.rows + q.rows;
    assert l.events + p.events + PickEvent()(s[i]) == l.events + q.events;
    assert l.snaps + p.snaps + PickSnap()(s[i]) == l.snaps + q.snaps;
    assert forall e :: e in EventsIn(s[..i]) + PickEvent()(s[i]) ==> e in EventsIn(s[..i]) || e in PickEvent()(s[i]);
  }

  /** Header and end carry nothing. */
  lemma ReadFrame(sc: Schema, s: seq<Line>, i: nat, l: Loaded, p: Pending, esSeen: set<ModelName>)
    requires Read(sc, s, i, l, p, esSeen) && i < |s| && (s[i].Header? || s[i].End?)
    ensures Read(sc, s, i + 1, l, p, esSeen)
  {
    hide Read;
    ReadNext(sc, s, i, l, p, esSeen);
  }

  lemma ReadNone(sc: Schema, s: seq<Line>)
    ensures Read(sc, s, 0, NOTHING, NONE_PENDING, {})
  {
    assert s[..0] == [];
  }

  lemma ReadFlushed(sc: Schema, s: seq<Line>, i: nat, l: Loaded, p: Pending, esSeen: set<ModelName>, l': Loaded)
    requires Read(sc, s, i, l, p, esSeen)
    requires l'.rows == l.rows + p.rows && l'.events == l.events + p.events && l'.snaps == l.snaps + p.snaps
    ensures Read(sc, s, i, l', NONE_PENDING, esSeen)
  {
    hide RowsIn, EventsIn, SnapsIn, Seen;
    assert l'.rows + NONE_PENDING.rows == l'.rows && l'.events + NONE_PENDING.events == l'.events
        && l'.snaps + NONE_PENDING.snaps == l'.snaps;
  }

  lemma HeaderLine(sc: Schema, s: seq<Line>)
    requires s != []
    ensures LinesOk(sc, s[..1]) && !Ended(s[..1])
  {
  }

  /** What the reading loop has checked of the first i lines. */
  ghost predicate Framed(sc: Schema, drift: bool, s: seq<Line>, i: nat, first: bool, terminated: bool, sawEnd: bool) {
    && i <= |s| && first == (i == 0) && (first ==> !sawEnd)
    && (i > 0 ==>
          && s[0].Header? && SchemaMatches(sc, drift, s[0]) && terminated == s[0].version.Some?
          && LinesOk(sc, s[..i]) && sawEnd == Ended(s[..i]))
  }

  lemma FramedNone(sc: Schema, drift: bool, s: seq<Line>)
    ensures Framed(sc, drift, s, 0, true, false, false)
  {
  }

  /** One more line: checked, or a reason to refuse the stream. */
  lemma FramedNext(sc: Schema, drift: bool, s: seq<Line>, i: nat, first: bool, terminated: bool, sawEnd: bool)
    requires Framed(sc, drift, s, i, first, terminated, sawEnd) && i < |s|
    ensures first ==>
              if s[0].Header? && SchemaMatches(sc, drift, s[0])
              then Framed(sc, drift, s, 1, false, s[0].version.Some?, sawEnd)
              else !Accepted(sc, drift, s)
    ensures !first ==>
              if s[i].End? then Framed(sc, drift, s, i + 1, false, terminated, true)
              else if sawEnd || !LineOk(sc, s[i]) then !Accepted(sc, drift, s)
              else Framed(sc, drift, s, i + 1, false, terminated, sawEnd)
  {
    hide LinesOk, LineOk, Ended, SchemaMatches;
    if first {
      HeaderLine(sc, s);
    } else {
      LineNext(sc, s, i);
      if !s[i].End? && (sawEnd || !LineOk(sc, s[i])) {
        BadLine(sc, drift, s, i);
      }
    }
  }

  lemma FramedAll(sc: Schema, drift: bool, s: seq<Line>, first: bool, terminated: bool, sawEnd: bool)
    requires Framed(sc, drift, s, |s|, first, terminated, sawEnd)
    ensures Accepted(sc, drift, s) <==> !first && (terminated ==> sawEnd)
  {
    hide LinesOk, Ended, SchemaMatches;
    assert s[..|s|] == s;
  }

  lemma BadLine(sc: Schema, drift: bool, s: seq<Line>, i: nat)
    requires 1 <= i < |s| && LinesOk(sc, s[..i]) && !s[i].End? && (Ended(s[..i]) || !LineOk(sc, s[i]))
    ensures !Accepted(sc, drift, s)
  {
    hide LineOk, Ended, SchemaMatches, LinesOk;
    LineNext(sc, s, i);
    if LinesOk(sc, s) {
      LinesPrefix(sc, s, i + 1);
    }
  }

  lemma DataFacts(sc: Schema, geo: Geo, l: Loaded, d: TenantData, base: Tops, others: Tops)
    requires DataIs(sc, geo, l, d, base, others)
    ensures d.es.Keys == sc.es.Keys == others.Keys && forall m <- d.es :: d.es[m].cps == map[] && d.es[m].bounds == {}
    ensures DistinctEvents(l.events) && DistinctSnaps(l.snaps) && Rising(l.events, l.nums, base)
    ensures others == base ==> Gapless(l.events, l.nums, base)
  {
    hide CrudOf, HotOf, SnapsOf, DistinctEvents, DistinctSnaps, Rising, Gapless, AllBelow;
  }

  // ---------------------------------------------------------------- the tenant

  class Tenant {
    const sc: Schema
    const geo: Geo
    /** The status column of ormpp_tenants. */
    var archived: bool
    /** Whether ormpp_tenant_imports has a row of the tenant. */
    var importing: bool
    var data: TenantData
    /** Per model the highest hot sequence of the region among the other tenants. */
    var others: Tops

    constructor (sc: Schema, geo: Geo, others: Tops)
      requires others.Keys == sc.es.Keys
      ensures this.sc == sc && this.geo == geo && Valid() && data == NoData(sc) && CurrentStatus() == Active
    {
      this.sc, this.geo, this.others := sc, geo, others;
      archived, importing, data := false, false, NoData(sc);
    }

    ghost predicate Valid()
      reads this
    {
      && sc.es.Keys == others.Keys && Plain(sc, data)
      && (importing ==> archived)
    }

    /** The derived status: an imports row overrides the column. */
    function CurrentStatus(): Status
      reads this
    {
      if importing then Importing else if archived then Archived else Active
    }

    /** tenantHasData. */
    predicate HasData()
      reads this
    {
      || data.crud != map[]
      || exists m <- data.es :: data.es[m].hot != map[] || data.es[m].arch != map[] || data.es[m].snaps != map[]
                                || data.es[m].rows != map[]
    }

    /** Other tenants append to the region, unless the run is calm. */
    method OthersAppend(calm: bool)
      requires Valid()
      modifies this`others
      ensures Valid() && forall m <- others :: m in old(others) && old(others)[m] <= others[m]
      ensures calm ==> others == old(others)
    {
      var now: Tops := *;
      if !calm && now.Keys == others.Keys && forall m <- others :: others[m] <= now[m] {
        others := now;
      }
    }

    /** flushImport: all or nothing. */
    method Flush(p: Pending, ghost l: Loaded, ghost base: Tops) returns (ok: bool, ghost l': Loaded)
      requires DataIs(sc, geo, l, data, base, others)
      requires (forall e <- p.events :: e.model in sc.es) && (forall s <- p.snaps :: s.model in sc.es)
      modifies this`data
      ensures ok ==>
                && DataIs(sc, geo, l', data, base, others)
                && l'.rows == l.rows + p.rows && l'.events == l.events + p.events && l'.snaps == l.snaps + p.snaps
      ensures !ok ==>
                && data == old(data)
                && (CrudOf(sc, l.rows + p.rows).None? || !DistinctEvents(l.events + p.events)
                    || !DistinctSnaps(l.snaps + p.snaps))
    {
      hide CrudOf, HotLoaded, SnapsLoaded, Numbered, Bare, DistinctEvents, DistinctSnaps;
      l' := l;
      var crud := InsertRows(sc, data.crud, p.rows, l.rows);
      if crud.None? {
        return false, l;
      }
      var es, nums := InsertEvents(sc, geo, data.es, p.events, others, base, l);
      if es.None? {
        return false, l;
      }
      ghost var mid := l.(events := l.events + p.events, nums := nums);
      var es' := InsertSnaps(sc, geo, es.value, p.snaps, base, others, mid);
      if es'.None? {
        return false, l;
      }
      data := TenantData(crud.value, es'.value);
      return true, Loaded(l.rows + p.rows, mid.events, nums, l.snaps + p.snaps);
    }

    /** reprojectTenant for one model, 500 aggregates a transaction. */
    method Reproject(m: ModelName, calm: bool) returns (ok: bool)
      requires m in sc.es && m in data.es && data.es[m].rows == map[]
      modifies this`data
      ensures data.crud == old(data.crud) && data.es.Keys == old(data.es.Keys)
      ensures forall k <- data.es | k != m :: data.es[k] == old(data.es)[k]
      ensures data.es[m] == old(data.es)[m].(rows := data.es[m].rows)
      ensures ok ==> var st := old(data.es)[m];
                && Foldable(sc.es[m], st.hot, st.snaps) && data.es[m].rows == Views(sc.es[m], st.hot, st.snaps, geo)
      ensures calm && Foldable(sc.es[m], old(data.es)[m].hot, old(data.es)[m].snaps) ==> ok
    {
      hide Folded, PartViews, Foldable, Upsert;
      var st, md := data.es[m], sc.es[m];
      var rest, rows := Aggs(st.hot), st.rows;
      PartStart(md, st, geo);
      while rest != {}
        invariant rest <= Aggs(st.hot)
        invariant data.crud == old(data.crud) && data.es.Keys == old(data.es.Keys)
        invariant data.es[m] == st.(rows := rows)
        invariant forall k <- data.es | k != m :: data.es[k] == old(data.es)[k]
        invariant PartViews(md, st, geo, rows, rest)
        decreases rest
      {
        var crash: bool := *;
        if crash && !calm {
          return false;
        }
        var n := 0;
        ghost var before, now := rest, data;
        while rest != {} && n < IMPORT_BATCH
          invariant n <= IMPORT_BATCH && rest <= before && (n > 0 ==> rest < before) && data == now
          invariant PartViews(md, st, geo, rows, rest)
          decreases rest
        {
          var a :| a in rest;
          var folded := Folded(md, st.hot, st.snaps, a);
          if folded.None? {
            NotFoldable(md, st, a);
            return false;
          }
          PartStep(md, st, geo, rows, rest, a);
          if folded.value.0 > 0 {
            rows := Upsert(rows, a, Row(folded.value.0, folded.value.1, geo));
          }
          rest := rest - {a};
          n := n + 1;
        }
        data := data.(es := data.es[m := st.(rows := rows)]);
      }
      PartEnd(md, st, geo, rows);
      return true;
    }

    /** Others append, then the pending batch is written. */
    method FlushRead(s: seq<Line>, i: nat, p: Pending, ghost l: Loaded, esSeen: set<ModelName>, ghost base: Tops,
                     calm: bool) returns (ok: bool, ghost l': Loaded)
      requires Valid() && Read(sc, s, i, l, p, esSeen) && DataIs(sc, geo, l, data, base, others) && Above(base)
      modifies this`data, this`others
      ensures Valid() && Above(base) && (calm ==> others == old(others))
      ensures ok ==> Read(sc, s, i, l', NONE_PENDING, esSeen) && DataIs(sc, geo, l', data, base, others)
      ensures !ok ==> !Loadable(sc, geo, s)
    {
      hide DataIs, CrudOf, DistinctEvents, DistinctSnaps, Loadable, Seen, RowsIn, EventsIn, SnapsIn, Rising, Gapless;
      DataFacts(sc, geo, l, data, base, others);
      ghost var before := others;
      OthersAppend(calm);
      OthersRise(sc, geo, l, data, base, before, others);
      ok, l' := Flush(p, l, base);
      if ok {
        ReadFlushed(sc, s, i, l, p, esSeen, l');
        DataFacts(sc, geo, l', data, base, others);
      } else {
        PrefixFails(sc, geo, s, i);
      }
    }

    ghost predicate Above(base: Tops)
      reads this
    {
      base.Keys == others.Keys && forall m <- others :: base[m] <= others[m]
    }

    /** The last loop of runImport. */
    method ReprojectAll(s: seq<Line>, ghost nums: seq<nat>, esSeen: set<ModelName>, calm: bool) returns (ok: bool)
      requires Valid() && Projecting(sc, geo, s, nums, data, esSeen) && forall m <- esSeen :: m in sc.es
      requires DistinctEvents(EventsIn(s)) && DistinctSnaps(SnapsIn(s))
      modifies this`data
      ensures Valid()
      ensures ok ==> Holds(sc, geo, s, nums, data) && Loadable(sc, geo, s)
      ensures calm && Loadable(sc, geo, s) ==> ok
    {
      hide CrudOf, RowsIn, EventsIn, SnapsIn, HotOf, SnapsOf, Foldable, DistinctEvents, DistinctSnaps, Loadable, Holds,
           Projecting, Views, Plain;
      var todo := esSeen;
      while todo != {}
        invariant todo <= esSeen && Projecting(sc, geo, s, nums, data, todo)
        decreases todo
      {
        var m :| m in todo;
        ghost var before := data;
        ProjectingAt(sc, geo, s, nums, data, todo, m);
        ok := Reproject(m, calm);
        if !ok {
          if calm {
            UnfoldableFails(sc, geo, s, nums, m);
          }
          PartlyProjected(sc, geo, s, nums, before, data, todo, m);
          return;
        }
        ProjectedOne(sc, geo, s, nums, before, data, todo, m);
        todo := todo - {m};
      }
      PlainStores(sc, geo, s, nums, data, todo);
      ProjectedIsHeld(sc, geo, s, nums, data);
      return true;
    }

    /** One record of the stream: collected, and written with its batch when that is full. */
    method TakeRecord(s: seq<Line>, i: nat, p: Pending, ghost l: Loaded, esSeen: set<ModelName>, ghost base: Tops,
                      calm: bool) returns (ok: bool, p': Pending, ghost l': Loaded, esSeen': set<ModelName>)
      requires Valid() && Read(sc, s, i, l, p, esSeen) && DataIs(sc, geo, l, data, base, others) && Above(base)
      requires 1 <= i < |s| && !s[i].End? && LineOk(sc, s[i])
      modifies this`data, this`others
      ensures Valid() && Above(base) && (calm ==> others == old(others))
      ensures ok ==> Read(sc, s, i + 1, l', p', esSeen') && DataIs(sc, geo, l', data, base, others)
      ensures !ok ==> !Loadable(sc, geo, s)
    {
      hide DataIs, Loadable, Read, Collected, SeenWith, LineOk;
      LineModel(sc, s[i]);
      ReadNext(sc, s, i, l, p, esSeen);
      ok, p', l', esSeen' := true, Collected(sc, p, s[i]), l, SeenWith(esSeen, s[i]);
      if Size(p') >= IMPORT_BATCH {
        ok, l' := FlushRead(s, i + 1, p', l, esSeen', base, calm);
        p' := NONE_PENDING;
      }
    }

    /** runImport after beginImport: read, flush every 500 records, build the read models. Unless calm, a crash
        may come between any two transactions, and other tenants append. */
    method RunImport(s: seq<Line>, drift: bool, calm: bool) returns (ok: bool, ghost nums: seq<nat>)
      requires Valid() && data == NoData(sc)
      modifies this`data, this`others
      ensures Valid() && forall m <- others :: m in old(others) && old(others)[m] <= others[m]
      ensures ok ==>
                && Accepted(sc, drift, s) && Loadable(sc, geo, s) && Holds(sc, geo, s, nums, data)
                && Rising(EventsIn(s), nums, old(others))
                && (calm ==> Gapless(EventsIn(s), nums, old(others)))
      ensures calm && Accepted(sc, drift, s) && Loadable(sc, geo, s) ==> ok
    {
      hide DataIs, CrudOf, Loadable, Holds, Seen, Projecting, Read, Rising, Gapless, NoData, Framed, Accepted;
      ghost var base := others;
      nums := [];
      var p: Pending, esSeen: set<ModelName>, first: bool, terminated: bool, sawEnd: bool;
      ghost var l: Loaded;
      ok, p, l, esSeen, first, terminated, sawEnd := ReadStream(s, drift, calm);
      if !ok {
        return;
      }
      FramedAll(sc, drift, s, first, terminated, sawEnd);
      if first || (terminated && !sawEnd) {
        return false, nums;
      }
      ok, l := FlushRead(s, |s|, p, l, esSeen, base, calm);
      if !ok {
        return;
      }
      nums := l.nums;
      DataFacts(sc, geo, l, data, base, others);
      AllRead(sc, s, l, esSeen);
      LoadedIsProjecting(sc, geo, s, l, data, base, others, esSeen);
      ok := ReprojectAll(s, nums, esSeen, calm);
    }

    /** The reading loop of runImport. */
    method ReadStream(s: seq<Line>, drift: bool, calm: bool)
      returns (ok: bool, p: Pending, ghost l: Loaded, esSeen: set<ModelName>, first: bool, terminated: bool,
               sawEnd: bool)
      requires Valid() && data == NoData(sc)
      modifies this`data, this`others
      ensures Valid() && Above(old(others)) && (calm ==> others == old(others))
      ensures ok ==>
                && Read(sc, s, |s|, l, p, esSeen) && DataIs(sc, geo, l, data, old(others), others)
                && Framed(sc, drift, s, |s|, first, terminated, sawEnd)
      ensures calm && !ok ==> !(Accepted(sc, drift, s) && Loadable(sc, geo, s))
    {
      hide DataIs, LinesOk, LineOk, SchemaMatches, Loadable, Read, Collected, SeenWith, NoData, Accepted, Framed;
      ghost var base := others;
      l := NOTHING;
      NothingLoaded(sc, geo, base);
      ReadNone(sc, s);
      p, esSeen, first, terminated, sawEnd := NONE_PENDING, {}, true, false, false;
      FramedNone(sc, drift, s);
      var i := 0;
      while i < |s|
        invariant 0 <= i <= |s| && first == (i == 0)
        invariant Read(sc, s, i, l, p, esSeen) && DataIs(sc, geo, l, data, base, others)
        invariant Valid() && Above(base) && (calm ==> others == base)
        invariant Framed(sc, drift, s, i, first, terminated, sawEnd)
      {
        var crash: bool := *;
        if crash && !calm {
          ok := false;
          return;
        }
        var rec := s[i];
        FramedNext(sc, drift, s, i, first, terminated, sawEnd);
        if first {
          if !rec.Header? || !SchemaMatches(sc, drift, rec) {
            ok := false;
            return;
          }
          terminated, first := rec.version.Some?, false;
          ReadFrame(sc, s, i, l, p, esSeen);
        } else if rec.End? {
          sawEnd := true;
          ReadFrame(sc, s, i, l, p, esSeen);
        } else {
          if sawEnd || !LineOk(sc, rec) {
            ok := false;
            return;
          }
          ok, p, l, esSeen := TakeRecord(s, i, p, l, esSeen, base, calm);
          if !ok {
            return;
          }
        }
        i := i + 1;
      }
      ok := true;
    }

    /** beginImport: the status column first, so that no instance takes the tenant for active in between. */
    method BeginImport(calm: bool) returns (crash: bool)
      modifies this`archived, this`importing
      ensures calm ==> !crash
      ensures !crash ==> archived && importing
      ensures crash ==> importing == old(importing) && (archived || archived == old(archived))
    {
      crash := *;
      if crash && !calm {
        return;
      }
      archived := true;
      crash := *;
      if crash && !calm {
        return;
      }
      importing := true;
      crash := false;
    }

    /** finishImport, in the opposite order. */
    method FinishImport(calm: bool) returns (crash: bool)
      requires archived && importing
      modifies this`archived, this`importing
      ensures calm ==> !crash
      ensures !crash ==> !archived && !importing
      ensures crash ==> archived
    {
      crash := *;
      if crash && !calm {
        return;
      }
      importing := false;
      crash := *;
      if crash && !calm {
        return;
      }
      archived := false;
      crash := false;
    }

    /** One Import, with a crash after any statement unless calm. Whatever happens, the tenant is active afterwards
        only with the data it had or with the complete data of the stream. */
    method Import(s: seq<Line>, drift: bool, calm: bool) returns (r: Outcome, ghost nums: seq<nat>)
      requires Valid()
      modifies this
      ensures Valid() && forall m <- others :: m in old(others) && old(others)[m] <= others[m]
      ensures r == NotEmpty <==> old(CurrentStatus()) == Active && old(HasData())
      ensures r == NotEmpty ==> data == old(data) && CurrentStatus() == Active
      ensures CurrentStatus() == Active ==>
                || (old(CurrentStatus()) == Active && data == old(data))
                || (Accepted(sc, drift, s) && Loadable(sc, geo, s) && Holds(sc, geo, s, nums, data))
      ensures r == Imported ==>
                && CurrentStatus() == Active && Accepted(sc, drift, s)
                && Loadable(sc, geo, s) && Holds(sc, geo, s, nums, data)
                && Rising(EventsIn(s), nums, old(others)) && (calm ==> Gapless(EventsIn(s), nums, old(others)))
      ensures calm && r != NotEmpty ==> (r == Imported <==> Accepted(sc, drift, s) && Loadable(sc, geo, s))
    {
      hide Accepted, Loadable, Holds, Rising, Gapless;
      nums := [];
      if CurrentStatus() == Active {
        if HasData() {
          return NotEmpty, nums;
        }
        EmptyIsNoData();
      } else {
        var crash: bool := *;
        if crash && !calm {
          return Failed, nums;
        }
        importing, data := false, NoData(sc);
      }
      var crash := BeginImport(calm);
      if crash {
        return Failed, nums;
      }
      var ok;
      ok, nums := RunImport(s, drift, calm);
      if !ok {
        return Failed, nums;
      }
      crash := FinishImport(calm);
      if crash {
        return Failed, nums;
      }
      crash := *;
      if crash && !calm {
        return Failed, nums; // before the audit entry
      }
      return Imported, nums;
    }

    lemma EmptyIsNoData()
      requires Valid() && !HasData()
      ensures data == NoData(sc)
    {
      forall m | m in sc.es ensures data.es[m] == EMPTY {
        assert m in data.es;
      }
    }

    /** Attempts with any streams, each failing or crashing anywhere while others append; then one without
        either. base is what the region held of other tenants when it began. */
    method ImportAfterFailures(attempts: seq<seq<Line>>, s: seq<Line>, drift: bool)
      returns (r: Outcome, ghost nums: seq<nat>, ghost base: Tops)
      requires Valid()
      modifies this
      ensures Valid() && base.Keys == old(others).Keys && forall m <- base :: old(others)[m] <= base[m]
      ensures r == Imported ==>
                && CurrentStatus() == Active && Holds(sc, geo, s, nums, data)
                && Rising(EventsIn(s), nums, base) && Gapless(EventsIn(s), nums, base)
      ensures r == NotEmpty ==>
                || (old(CurrentStatus()) == Active && data == old(data))
                || exists t <- attempts :: Accepted(sc, drift, t) && Loadable(sc, geo, t)
      ensures r == Failed ==> !(Accepted(sc, drift, s) && Loadable(sc, geo, s))
    {
      hide Accepted, Loadable, Holds, Rising, Gapless;
      var i := 0;
      while i < |attempts|
        invariant 0 <= i <= |attempts| && Valid()
        invariant forall m <- others :: m in old(others) && old(others)[m] <= others[m]
        invariant CurrentStatus() == Active ==>
            || (old(CurrentStatus()) == Active && data == old(data))
            || exists t <- attempts :: Accepted(sc, drift, t) && Loadable(sc, geo, t)
      {
        var r', _ := Import(attempts[i], drift, false);
        assert attempts[i] in attempts;
        i := i + 1;
      }
      base := others;
      r, nums := Import(s, drift, true);
    }
  }

  lemma LineModel(sc: Schema, l: Line)
    requires LineOk(sc, l)
    ensures l.EventLine? || l.SnapLine? ==> l.model in sc.es
  {
  }

  lemma AllRead(sc: Schema, s: seq<Line>, l: Loaded, esSeen: set<ModelName>)
    requires Read(sc, s, |s|, l, NONE_PENDING, esSeen)
    ensures l.rows == RowsIn(sc, s) && l.events == EventsIn(s) && l.snaps == SnapsIn(s)
    ensures Seen(sc, s, esSeen) && forall m <- esSeen :: m in sc.es
  {
    hide RowsIn, EventsIn, SnapsIn;
    assert s[..|s|] == s;
    assert l.rows + NONE_PENDING.rows == l.rows && l.events + NONE_PENDING.events == l.events
        && l.snaps + NONE_PENDING.snaps == l.snaps;
  }
}

/** The inserts of a tenant's import: the rows, events and snapshots of one batch, the events numbered behind what their
    region holds (import.go:371-418). */
module TenantImport {
  import opened Wrappers
  import opened EventStore
  import opened ModelOrder
  import opened TransferStream

  const IMPORT_BATCH := 500

  /** Collected records, to be written in one transaction. */
  datatype Pending = Pending(rows: seq<RowRec>, events: seq<EventRec>, snaps: seq<SnapRec>)

  const NONE_PENDING := Pending([], [], [])

  function Size(p: Pending): nat {
    |p.rows| + |p.events| + |p.snaps|
  }

  // ---------------------------------------------------------------- region sequences

  function Max(a: nat, b: nat): nat {
    if a < b then b else a
  }

  /** SELECT MAX(seq) over the hot log of a region: this tenant's rows and everybody else's. */
  function RegionTop(hot: Table, geo: Geo, others: nat): nat {
    Max(MaxSeq(hot, geo), others)
  }

  lemma MaxIs(s: set<nat>, n: nat)
    requires n in s && forall x <- s :: x <= n
    ensures MaxNat(s) == n
  {
  }

  lemma InsertTop(hot: Table, geo: Geo, others: nat, k: Key, e: Event)
    requires k !in hot && e.geo == geo && e.gseq == RegionTop(hot, geo, others) + 1
    ensures RegionTop(hot[k := e], geo, others) == e.gseq
  {
    var u := hot[k := e];
    assert u[k] == e && e.gseq in Seqs(u, geo);
    forall n | n in Seqs(u, geo) ensures n <= e.gseq {
      var j :| j in u && u[j].geo == geo && u[j].gseq == n;
      if j != k {
        assert hot[j] == u[j] && n in Seqs(hot, geo);
      }
    }
    MaxIs(Seqs(u, geo), e.gseq);
  }

  // ---------------------------------------------------------------- what has been loaded

  datatype Loaded = Loaded(rows: seq<RowRec>, events: seq<EventRec>, nums: seq<nat>, snaps: seq<SnapRec>)

  const NOTHING := Loaded([], [], [], [])

  ghost predicate HotLoaded(sc: Schema, geo: Geo, evs: seq<EventRec>, nums: seq<nat>, es: map<ModelName, Store>) {
    && |nums| == |evs| && DistinctEvents(evs) && es.Keys == sc.es.Keys
    && (forall e <- evs :: e.model in sc.es)
    && forall m <- sc.es :: es[m].hot == HotOf(evs, nums, geo, m)
  }

  ghost predicate SnapsLoaded(sc: Schema, sns: seq<SnapRec>, es: map<ModelName, Store>) {
    && DistinctSnaps(sns) && es.Keys == sc.es.Keys
    && (forall s <- sns :: s.model in sc.es)
    && forall m <- sc.es :: es[m].snaps == SnapsOf(sns, m)
  }

  /** Nothing but hot events and snapshots. */
  ghost predicate Bare(es: map<ModelName, Store>) {
    forall m <- es :: es[m] == Store(es[m].hot, map[], es[m].snaps, map[], map[], {})
  }

  type Tops = map<ModelName, nat>

  function TopIn(es: map<ModelName, Store>, geo: Geo, others: Tops, m: ModelName): nat {
    if m in es && m in others then RegionTop(es[m].hot, geo, others[m]) else 0
  }

  ghost predicate AllBelow(evs: seq<EventRec>, nums: seq<nat>, es: map<ModelName, Store>, geo: Geo, base: Tops,
                           others: Tops) {
    && |nums| == |evs|
    && (forall m <- es :: m in base && base[m] <= TopIn(es, geo, others, m))
    && forall i | 0 <= i < |evs| :: nums[i] <= TopIn(es, geo, others, evs[i].model)
  }

  /** While no other tenant appends, the region grows by exactly the inserted events. */
  ghost predicate Exactly(evs: seq<EventRec>, nums: seq<nat>, es: map<ModelName, Store>, geo: Geo, base: Tops) {
    && Gapless(evs, nums, base)
    && forall m <- es :: m in base && TopIn(es, geo, base, m) == base[m] + CountOf(evs, m)
  }

  /** Each inserted event got the next sequence of its region. */
  ghost predicate Numbered(sc: Schema, geo: Geo, evs: seq<EventRec>, nums: seq<nat>, es: map<ModelName, Store>,
                           base: Tops, others: Tops) {
    && es.Keys == sc.es.Keys == base.Keys == others.Keys
    && Rising(evs, nums, base) && AllBelow(evs, nums, es, geo, base, others)
    && (others == base ==> Exactly(evs, nums, es, geo, base))
  }

  ghost predicate DataIs(sc: Schema, geo: Geo, l: Loaded, d: TenantData, base: Tops,
                         others: Tops) {
    && CrudOf(sc, l.rows) == Some(d.crud)
    && HotLoaded(sc, geo, l.events, l.nums, d.es) && SnapsLoaded(sc, l.snaps, d.es) && Bare(d.es)
    && Numbered(sc, geo, l.events, l.nums, d.es, base, others)
  }

  lemma NothingLoaded(sc: Schema, geo: Geo, base: Tops)
    requires base.Keys == sc.es.Keys
    ensures DataIs(sc, geo, NOTHING, NoData(sc), base, base)
  {
    var d := NoData(sc);
    forall m | m in sc.es ensures TopIn(d.es, geo, base, m) == base[m] {
      assert Seqs(d.es[m].hot, geo) == {};
    }
  }

  lemma HotStep(sc: Schema, geo: Geo, evs: seq<EventRec>, nums: seq<nat>, es: map<ModelName, Store>, e: EventRec,
                n: nat)
    requires HotLoaded(sc, geo, evs, nums, es) && e.model in sc.es && e.key !in es[e.model].hot
    ensures HotLoaded(sc, geo, evs + [e], nums + [n], WithEvent(es, geo, e, n))
  {
    var u := evs + [e];
    HotKeys(evs, nums, geo, e.model);
    forall i, j | 0 <= i < j < |u| && u[i].model == u[j].model ensures u[i].key != u[j].key {
      assert u[i] == evs[i];
    }
    forall m | m in sc.es ensures WithEvent(es, geo, e, n)[m].hot == HotOf(u, nums + [n], geo, m) {
      HotOfNext(evs, nums, geo, m, e, n);
    }
  }

  function WithEvent(es: map<ModelName, Store>, geo: Geo, e: EventRec, n: nat): map<ModelName, Store>
    requires e.model in es
  {
    var st := es[e.model];
    es[e.model := st.(hot := st.hot[e.key := Event(geo, n, e.time, e.body)])]
  }

  function WithSnap(es: map<ModelName, Store>, s: SnapRec): map<ModelName, Store>
    requires s.model in es
  {
    var st := es[s.model];
    es[s.model := st.(snaps := st.snaps[s.key := s.state])]
  }

  lemma NumberStep(sc: Schema, geo: Geo, evs: seq<EventRec>, nums: seq<nat>, es: map<ModelName, Store>,
                   base: Tops, others: Tops, e: EventRec)
    requires Numbered(sc, geo, evs, nums, es, base, others) && e.model in sc.es && e.key !in es[e.model].hot
    ensures var n := TopIn(es, geo, others, e.model) + 1;
      Numbered(sc, geo, evs + [e], nums + [n], WithEvent(es, geo, e, n), base, others)
  {
    hide TopIn, Rising, Gapless, AllBelow, Exactly, WithEvent;
    var n := TopIn(es, geo, others, e.model) + 1;
    var u := WithEvent(es, geo, e, n);
    TopInStep(es, geo, others, e);
    BelowTop(evs, nums, es, geo, base, others, e.model);
    RisingStep(evs, nums, base, e, n);
    BelowStep(evs, nums, es, u, geo, base, others, e, n);
    if others == base {
      ExactStep(evs, nums, es, u, geo, base, e, n);
    }
  }

  /** The inserted event is the new maximum of its region, and of no other. */
  lemma TopInStep(es: map<ModelName, Store>, geo: Geo, others: Tops, e: EventRec)
    requires e.model in es && e.model in others && e.key !in es[e.model].hot
    ensures var n := TopIn(es, geo, others, e.model) + 1; var u := WithEvent(es, geo, e, n);
      && u.Keys == es.Keys
      && forall m :: TopIn(u, geo, others, m) == if m == e.model then n else TopIn(es, geo, others, m)
  {
    hide RegionTop;
    var n := TopIn(es, geo, others, e.model) + 1;
    InsertTop(es[e.model].hot, geo, others[e.model], e.key, Event(geo, n, e.time, e.body));
  }

  lemma BelowTop(evs: seq<EventRec>, nums: seq<nat>, es: map<ModelName, Store>, geo: Geo, base: Tops, others: Tops,
                 m: ModelName)
    requires AllBelow(evs, nums, es, geo, base, others) && m in es
    ensures m in base && base[m] <= TopIn(es, geo, others, m) && |nums| == |evs|
    ensures forall i | 0 <= i < |evs| && evs[i].model == m :: nums[i] <= TopIn(es, geo, others, m)
  {
    hide TopIn;
  }

  lemma BelowStep(evs: seq<EventRec>, nums: seq<nat>, es: map<ModelName, Store>, u: map<ModelName, Store>, geo: Geo,
                  base: Tops, others: Tops, e: EventRec, n: nat)
    requires AllBelow(evs, nums, es, geo, base, others) && u.Keys == es.Keys
    requires n == TopIn(es, geo, others, e.model) + 1
    requires forall m :: TopIn(u, geo, others, m) == if m == e.model then n else TopIn(es, geo, others, m)
    ensures AllBelow(evs + [e], nums + [n], u, geo, base, others)
  {
    hide TopIn;
  }

  lemma ExactStep(evs: seq<EventRec>, nums: seq<nat>, es: map<ModelName, Store>, u: map<ModelName, Store>, geo: Geo,
                  base: Tops, e: EventRec, n: nat)
    requires Exactly(evs, nums, es, geo, base) && u.Keys == es.Keys && e.model in es
    requires n == TopIn(es, geo, base, e.model) + 1
    requires forall m :: TopIn(u, geo, base, m) == if m == e.model then n else TopIn(es, geo, base, m)
    ensures Exactly(evs + [e], nums + [n], u, geo, base)
  {
    hide TopIn, Gapless, CountOf;
    CountNext(evs, e);
    GaplessStep(evs, nums, base, e, n);
  }

  lemma RisingStep(evs: seq<EventRec>, nums: seq<nat>, base: Tops, e: EventRec, n: nat)
    requires Rising(evs, nums, base) && e.model in base && n > base[e.model]
    requires forall i | 0 <= i < |evs| && evs[i].model == e.model :: nums[i] < n
    ensures Rising(evs + [e], nums + [n], base)
  {
  }

  lemma GaplessStep(evs: seq<EventRec>, nums: seq<nat>, base: Tops, e: EventRec, n: nat)
    requires Gapless(evs, nums, base) && e.model in base && n == base[e.model] + CountOf(evs, e.model) + 1
    ensures Gapless(evs + [e], nums + [n], base)
  {
    var u := evs + [e];
    CountNext(evs, e);
    hide CountOf;
    forall i | 0 <= i < |u|
      ensures u[i].model in base && (nums + [n])[i] == base[u[i].model] + CountOf(u[..i + 1], u[i].model) {
      if i < |evs| {
        assert u[..i + 1] == evs[..i + 1];
      } else {
        assert u[..i + 1] == u;
      }
    }
  }

  lemma CountNext(evs: seq<EventRec>, e: EventRec)
    ensures forall m :: CountOf(evs + [e], m) == CountOf(evs, m) + if e.model == m then 1 else 0
  {
    assert (evs + [e])[..|evs|] == evs;
  }

  lemma SnapStep(sc: Schema, sns: seq<SnapRec>, es: map<ModelName, Store>, s: SnapRec)
    requires SnapsLoaded(sc, sns, es) && s.model in sc.es && s.key !in es[s.model].snaps
    ensures SnapsLoaded(sc, sns + [s], WithSnap(es, s))
  {
    var u := sns + [s];
    SnapKeys(sns, s.model);
    forall i, j | 0 <= i < j < |u| && u[i].model == u[j].model ensures u[i].key != u[j].key {
      assert u[i] == sns[i];
    }
    forall m | m in sc.es ensures WithSnap(es, s)[m].snaps == SnapsOf(u, m) {
      SnapsOfNext(sns, m, s);
    }
  }

  lemma TakenEvent(sc: Schema, geo: Geo, evs: seq<EventRec>, nums: seq<nat>, es: map<ModelName, Store>, e: EventRec,
                   rest: seq<EventRec>)
    requires HotLoaded(sc, geo, evs, nums, es) && e.model in sc.es && e.key in es[e.model].hot
    ensures !DistinctEvents(evs + [e] + rest)
  {
    HotKeys(evs, nums, geo, e.model);
    var i :| 0 <= i < |evs| && evs[i].model == e.model && evs[i].key == e.key;
    var u := evs + [e] + rest;
    assert u[i] == evs[i] && u[|evs|] == e;
  }

  lemma TakenSnap(sc: Schema, sns: seq<SnapRec>, es: map<ModelName, Store>, s: SnapRec, rest: seq<SnapRec>)
    requires SnapsLoaded(sc, sns, es) && s.model in sc.es && s.key in es[s.model].snaps
    ensures !DistinctSnaps(sns + [s] + rest)
  {
    SnapKeys(sns, s.model);
    var i :| 0 <= i < |sns| && sns[i].model == s.model && sns[i].key == s.key;
    var u := sns + [s] + rest;
    assert u[i] == sns[i] && u[|sns|] == s;
  }

  // ---------------------------------------------------------------- flush

  method InsertRows(sc: Schema, crud0: Crud, rows: seq<RowRec>, ghost done: seq<RowRec>) returns (r: Option<Crud>)
    requires CrudOf(sc, done) == Some(crud0)
    ensures r == CrudOf(sc, done + rows)
  {
    hide Insertable;
    var crud := crud0;
    var i := 0;
    assert done + rows[..0] == done;
    while i < |rows|
      invariant 0 <= i <= |rows|
      invariant CrudOf(sc, done + rows[..i]) == Some(crud)
    {
      assert done + rows[..i + 1] == done + rows[..i] + [rows[i]];
      CrudOfNext(sc, done + rows[..i], rows[i]);
      if !Insertable(sc, crud, rows[i]) {
        assert done + rows == done + rows[..i + 1] + rows[i + 1..];
        CrudOfFails(sc, done + rows[..i + 1], rows[i + 1..]);
        return None;
      }
      crud := crud[rows[i].ref := rows[i].row];
      i := i + 1;
    }
    assert rows[..i] == rows;
    return Some(crud);
  }

  /** The event loop of flushImport: tops caches each model's running maximum. */
  method InsertEvents(sc: Schema, geo: Geo, es0: map<ModelName, Store>, evs: seq<EventRec>,
                      others: Tops, ghost base: Tops, ghost done: Loaded)
    returns (r: Option<map<ModelName, Store>>, ghost nums: seq<nat>)
    requires HotLoaded(sc, geo, done.events, done.nums, es0) && SnapsLoaded(sc, done.snaps, es0) && Bare(es0)
    requires Numbered(sc, geo, done.events, done.nums, es0, base, others)
    requires forall e <- evs :: e.model in sc.es
    ensures r.None? <==> !DistinctEvents(done.events + evs)
    ensures r.Some? ==>
              && HotLoaded(sc, geo, done.events + evs, nums, r.value) && SnapsLoaded(sc, done.snaps, r.value)
              && Bare(r.value) && Numbered(sc, geo, done.events + evs, nums, r.value, base, others)
  {
    hide HotLoaded, SnapsLoaded, Numbered, DistinctEvents, TopIn, WithEvent, Bare;
    HotFacts(sc, geo, done.events, done.nums, es0);
    NumberFacts(sc, geo, done.events, done.nums, es0, base, others);
    var es, tops: Tops := es0, map[];
    nums := done.nums;
    var i := 0;
    assert done.events + evs[..0] == done.events;
    while i < |evs|
      invariant 0 <= i <= |evs| && es.Keys == sc.es.Keys
      invariant HotLoaded(sc, geo, done.events + evs[..i], nums, es) && SnapsLoaded(sc, done.snaps, es) && Bare(es)
      invariant Numbered(sc, geo, done.events + evs[..i], nums, es, base, others)
      invariant TopsOk(es, geo, others, tops)
    {
      var e := evs[i];
      var top := if e.model in tops then tops[e.model] else TopIn(es, geo, others, e.model);
      assert done.events + evs[..i + 1] == done.events + evs[..i] + [e];
      if e.key in es[e.model].hot {
        assert done.events + evs == done.events + evs[..i] + [e] + evs[i + 1..];
        TakenEvent(sc, geo, done.events + evs[..i], nums, es, e, evs[i + 1..]);
        return None, nums;
      }
      HotStep(sc, geo, done.events + evs[..i], nums, es, e, top + 1);
      NumberStep(sc, geo, done.events + evs[..i], nums, es, base, others, e);
      SameSnaps(sc, done.snaps, es, geo, e, top + 1);
      TopInStep(es, geo, others, e);
      es := WithEvent(es, geo, e, top + 1);
      tops := tops[e.model := top + 1];
      nums := nums + [top + 1];
      i := i + 1;
    }
    assert evs[..i] == evs;
    HotFacts(sc, geo, done.events + evs, nums, es);
    return Some(es), nums;
  }

  predicate TopsOk(es: map<ModelName, Store>, geo: Geo, others: Tops, tops: Tops) {
    forall m <- tops :: tops[m] == TopIn(es, geo, others, m)
  }

  lemma HotFacts(sc: Schema, geo: Geo, evs: seq<EventRec>, nums: seq<nat>, es: map<ModelName, Store>)
    requires HotLoaded(sc, geo, evs, nums, es)
    ensures es.Keys == sc.es.Keys && DistinctEvents(evs)
  {
  }

  lemma NumberFacts(sc: Schema, geo: Geo, evs: seq<EventRec>, nums: seq<nat>, es: map<ModelName, Store>,
                    base: Tops, others: Tops)
    requires Numbered(sc, geo, evs, nums, es, base, others)
    ensures others.Keys == sc.es.Keys
  {
  }

  lemma SameSnaps(sc: Schema, sns: seq<SnapRec>, es: map<ModelName, Store>, geo: Geo, e: EventRec, n: nat)
    requires SnapsLoaded(sc, sns, es) && Bare(es) && e.model in es
    ensures SnapsLoaded(sc, sns, WithEvent(es, geo, e, n)) && Bare(WithEvent(es, geo, e, n))
  {
    hide SnapsOf;
  }

  lemma SameHots(sc: Schema, geo: Geo, evs: seq<EventRec>, nums: seq<nat>, es: map<ModelName, Store>,
                 base: Tops, others: Tops, s: SnapRec)
    requires HotLoaded(sc, geo, evs, nums, es) && Bare(es) && s.model in es
    requires Numbered(sc, geo, evs, nums, es, base, others)
    ensures HotLoaded(sc, geo, evs, nums, WithSnap(es, s)) && Bare(WithSnap(es, s))
    ensures Numbered(sc, geo, evs, nums, WithSnap(es, s), base, others)
  {
    hide HotOf, RegionTop, Rising, Gapless, CountOf, DistinctEvents, MaxSeq;
    assert forall m <- es :: WithSnap(es, s)[m].hot == es[m].hot;
  }

  method InsertSnaps(sc: Schema, geo: Geo, es0: map<ModelName, Store>, sns: seq<SnapRec>,
                     ghost base: Tops, ghost others: Tops, ghost done: Loaded)
    returns (r: Option<map<ModelName, Store>>)
    requires HotLoaded(sc, geo, done.events, done.nums, es0) && SnapsLoaded(sc, done.snaps, es0) && Bare(es0)
    requires Numbered(sc, geo, done.events, done.nums, es0, base, others)
    requires forall s <- sns :: s.model in sc.es
    ensures r.None? <==> !DistinctSnaps(done.snaps + sns)
    ensures r.Some? ==>
              && HotLoaded(sc, geo, done.events, done.nums, r.value) && SnapsLoaded(sc, done.snaps + sns, r.value)
              && Bare(r.value) && Numbered(sc, geo, done.events, done.nums, r.value, base, others)
  {
    hide HotLoaded, SnapsLoaded, Numbered, DistinctSnaps;
    HotFacts(sc, geo, done.events, done.nums, es0);
    var es := es0;
    var i := 0;
    assert done.snaps + sns[..0] == done.snaps;
    while i < |sns|
      invariant 0 <= i <= |sns| && es.Keys == sc.es.Keys
      invariant HotLoaded(sc, geo, done.events, done.nums, es) && SnapsLoaded(sc, done.snaps + sns[..i], es) && Bare(es)
      invariant Numbered(sc, geo, done.events, done.nums, es, base, others)
    {
      var s := sns[i];
      assert done.snaps + sns[..i + 1] == done.snaps + sns[..i] + [s];
      if s.key in es[s.model].snaps {
        assert done.snaps + sns == done.snaps + sns[..i] + [s] + sns[i + 1..];
        TakenSnap(sc, done.snaps + sns[..i], es, s, sns[i + 1..]);
        return None;
      }
      SnapStep(sc, done.snaps + sns[..i], es, s);
      SameHots(sc, geo, done.events, done.nums, es, base, others, s);
      es := WithSnap(es, s);
      i := i + 1;
    }
    assert sns[..i] == sns;
    SnapFacts(sc, done.snaps + sns, es);
    return Some(es);
  }

  lemma SnapFacts(sc: Schema, sns: seq<SnapRec>, es: map<ModelName, Store>)
    requires SnapsLoaded(sc, sns, es)
    ensures DistinctSnaps(sns)
  {
  }
}

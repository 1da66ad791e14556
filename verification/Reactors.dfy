/** OnEvent consumers: one worker per view delivers each region's log in order, one transaction per
    event, with failing handlers, crashes and foreign commits anywhere (projection.go:345-428, 754-773). */
module Reactors {
  import opened Wrappers
  import opened EventStore
  import opened EventSteps
  import opened EventRuns
  import opened Loading
  import opened Projection

  type Pattern = Payload -> bool

  /** The reference: the events of region g with seq 1..s that match, in seq order. */
  function Delivered(t: Table, g: Geo, hit: Pattern, s: nat): seq<Key>
    requires UniqueSeqs(t)
  {
    if s == 0 then []
    else
      var k := KeyAt(t, g, s);
      Delivered(t, g, hit, s - 1) + if k.Some? && hit(t[k.value].body) then [k.value] else []
  }

  lemma KeyAtStays(t: Table, u: Table, g: Geo, s: nat)
    requires Extends(t, u) && UniqueSeqs(t) && UniqueSeqs(u) && Issued(t, g, s)
    ensures KeyAt(t, g, s).Some? && KeyAt(u, g, s) == KeyAt(t, g, s) && KeyAt(t, g, s).value in t
    ensures u[KeyAt(t, g, s).value] == t[KeyAt(t, g, s).value]
  {
    var k :| k in t && t[k].geo == g && t[k].gseq == s;
    assert k in u && u[k] == t[k];
  }

  lemma DeliveredNext(t: Table, g: Geo, hit: Pattern, s: nat, k: Key)
    requires UniqueSeqs(t) && s > 0 && KeyAt(t, g, s) == Some(k) && k in t
    ensures Delivered(t, g, hit, s) == Delivered(t, g, hit, s - 1) + if hit(t[k].body) then [k] else []
  {
  }

  /** Later appends do not change what the first s deliveries are. */
  lemma {:induction false} DeliveredStays(t: Table, u: Table, g: Geo, hit: Pattern, s: nat)
    requires Extends(t, u) && UniqueSeqs(t) && UniqueSeqs(u)
    requires forall r | 1 <= r <= s :: Issued(t, g, r)
    ensures Delivered(u, g, hit, s) == Delivered(t, g, hit, s)
  {
    if s > 0 {
      assert Issued(t, g, s);
      KeyAtStays(t, u, g, s);
      DeliveredStays(t, u, g, hit, s - 1);
    }
  }

  /** The end of a region's log, in hot and archive together. */
  function End(st: Store, g: Geo): nat {
    MaxSeq(All(st), g)
  }

  /** The regions that occur in the log. */
  function Regions(st: Store): set<Geo> {
    set k <- All(st).Keys :: All(st)[k].geo
  }

  lemma LogToEnd(m: Model, st: Store, g: Geo)
    requires LogInv(m, st)
    ensures UniqueSeqs(All(st))
    ensures forall s: nat :: Issued(All(st), g, s) <==> 1 <= s <= End(st, g)
  {
    var all := All(st);
    forall k | k in all && all[k].geo == g ensures all[k].gseq <= End(st, g) {
      assert all[k].gseq in Seqs(all, g);
    }
    if End(st, g) > 0 {
      assert End(st, g) in Seqs(all, g);
      var k :| k in all && all[k].geo == g && all[k].gseq == End(st, g);
      assert Issued(all, g, End(st, g));
    }
    hide ArchiveOk, SnapsOk, Replayable, Ordered, Pinned, Contiguous;
  }

  lemma EndGrows(m: Model, st: Store, u: Store, g: Geo)
    requires LogInv(m, st) && LogInv(m, u) && Moved(m, st, u)
    ensures End(st, g) <= End(u, g)
  {
    hide LogInv, End, UniqueSeqs, RowsOk, Grown, Contiguous, SnapsGrow;
    LogToEnd(m, st, g);
    LogToEnd(m, u, g);
    if End(st, g) > 0 {
      assert Issued(All(st), g, End(st, g));
      var k :| k in All(st) && All(st)[k].geo == g && All(st)[k].gseq == End(st, g);
      assert k in All(u) && All(u)[k] == All(st)[k];
      assert Issued(All(u), g, End(st, g));
    }
  }

  /** A consumer: its stored checkpoints, and the handler transactions committed per region since
      the last RebuildView. */
  class View {
    const hit: Pattern
    var cps: map<Geo, nat>
    var handled: map<Geo, seq<Key>>

    constructor (hit: Pattern)
      ensures this.hit == hit && cps == map[] && handled == map[]
    {
      this.hit, cps, handled := hit, map[], map[];
    }

    function Checkpoint(g: Geo): nat
      reads this
    {
      if g in cps then cps[g] else 0
    }

    function Handled(g: Geo): seq<Key>
      reads this
    {
      if g in handled then handled[g] else []
    }

    /** What delivery promises: per region exactly the matching events at or below the checkpoint,
        in order, none skipped, none repeated. */
    ghost predicate Exact(m: Model, st: Store)
      requires LogInv(m, st)
      reads this
    {
      LogIsUnique(m, st);
      forall g :: Checkpoint(g) <= End(st, g) && Handled(g) == Delivered(All(st), g, hit, Checkpoint(g))
    }

    /** Foreign commits and archiving change nothing. */
    lemma ExactStays(m: Model, st: Store, u: Store)
      requires LogInv(m, st) && LogInv(m, u) && Moved(m, st, u) && Exact(m, st)
      ensures Exact(m, u)
    {
      LogIsUnique(m, st);
      LogIsUnique(m, u);
      forall g ensures Checkpoint(g) <= End(u, g) && Handled(g) == Delivered(All(u), g, hit, Checkpoint(g)) {
        EndGrows(m, st, u, g);
        LogToEnd(m, st, g);
        DeliveredStays(All(st), All(u), g, hit, Checkpoint(g));
      }
    }

    /** One event: the handler and the checkpoint in one transaction, or neither; smooth means that no handler fails and
        no crash comes. */
    method Deliver(db: DB, g: Geo, s: nat, k: Key, smooth: bool) returns (ok: bool)
      requires db.Valid() && Exact(db.m, db.st)
      requires s == Checkpoint(g) + 1 <= End(db.st, g)
      requires UniqueSeqs(All(db.st)) && KeyAt(All(db.st), g, s) == Some(k) && k in All(db.st)
      modifies this
      ensures Exact(db.m, db.st)
      ensures Checkpoint(g) == if ok then s else s - 1
      ensures smooth ==> ok
      ensures forall h | h != g :: Checkpoint(h) == old(Checkpoint(h))
    {
      hide LogInv, End, KeyAt, UniqueSeqs, Delivered;
      DeliveredNext(All(db.st), g, hit, s, k);
      var matched := hit(All(db.st)[k].body);
      var handlerFails: bool := *;
      if matched && handlerFails && !smooth {
        return false;
      }
      var crash: bool := *;
      if crash && !smooth {
        return false;
      }
      if matched {
        handled := handled[g := Handled(g) + [k]];
      }
      cps := cps[g := s];
      return true;
    }

    /** The row loop over one fetched batch; foreign commits fall between any two transactions. */
    method DeliverBatch(db: DB, g: Geo, batch: seq<(nat, Key)>, smooth: bool) returns (ok: bool)
      requires db.Valid() && Exact(db.m, db.st)
      requires Stretch(db.m, db.st, g, batch, Checkpoint(g))
      modifies this, db
      ensures db.Valid() && Moved(db.m, old(db.st), db.st) && Exact(db.m, db.st)
      ensures ok ==> Checkpoint(g) == old(Checkpoint(g)) + |batch|
      ensures smooth ==> ok
      ensures old(Checkpoint(g)) <= Checkpoint(g)
      ensures forall h | h != g :: Checkpoint(h) == old(Checkpoint(h))
    {
      hide LogInv, Moved, Exact, Stretch;
      ghost var before, cp := db.st, Checkpoint(g);
      MovedReflexive(db.m, before);
      var i := 0;
      while i < |batch|
        invariant 0 <= i <= |batch| && Checkpoint(g) == cp + i
        invariant db.Valid() && Moved(db.m, before, db.st) && Exact(db.m, db.st)
        invariant forall h | h != g :: Checkpoint(h) == old(Checkpoint(h))
      {
        ghost var mid := db.st;
        var _ := db.Others("");
        MovedTransitive(db.m, before, mid, db.st);
        ExactStays(db.m, mid, db.st);
        NextStretch(db.m, before, db.st, g, batch, cp, i);
        ok := Deliver(db, g, batch[i].0, batch[i].1, smooth);
        if !ok {
          return;
        }
        i := i + 1;
      }
      ok := true;
    }

    /** One fetch of up to 500 events of a region and their delivery. */
    method ReactOnce(db: DB, ghost before: Store, g: Geo, smooth: bool) returns (ok: bool, empty: bool)
      requires db.Valid() && Exact(db.m, db.st) && LogInv(db.m, before) && Moved(db.m, before, db.st)
      modifies this, db
      ensures db.Valid() && Exact(db.m, db.st) && Moved(db.m, before, db.st) && Moved(db.m, old(db.st), db.st)
      ensures forall h | h != g :: Checkpoint(h) == old(Checkpoint(h))
      ensures empty ==> ok && Checkpoint(g) == old(Checkpoint(g)) && End(before, g) <= Checkpoint(g)
      ensures ok && !empty ==> old(Checkpoint(g)) < Checkpoint(g)
      ensures old(Checkpoint(g)) <= Checkpoint(g) && (smooth ==> ok)
    {
      hide LogInv, Moved, Exact, Stretch, End, Fetch, UniqueSeqs, Issued, Replay;
      var cp := Checkpoint(g);
      ghost var mid := db.st;
      var _ := db.Others("");
      MovedTransitive(db.m, before, mid, db.st);
      ExactStays(db.m, mid, db.st);
      ghost var read := db.st;
      LogToEnd(db.m, read, g);
      var batch := Fetch(All(db.st), g, cp + 1, End(db.st, g), 500);
      FetchStretch(db.m, read, g, cp);
      if batch == [] {
        EndGrows(db.m, before, read, g);
        return true, true;
      }
      ok := DeliverBatch(db, g, batch, smooth);
      empty := false;
      MovedTransitive(db.m, before, read, db.st);
      MovedTransitive(db.m, mid, read, db.st);
    }

    /** processReactor. The process lives for some number of batches; done says that every region was found
        empty beyond its checkpoint. */
    method ProcessReactor(db: DB, lifetime: nat, smooth: bool) returns (done: bool)
      requires db.Valid() && Exact(db.m, db.st)
      modifies this, db
      ensures db.Valid() && Moved(db.m, old(db.st), db.st) && Exact(db.m, db.st)
      ensures done ==> forall g :: End(old(db.st), g) <= Checkpoint(g)
      ensures forall g :: old(Checkpoint(g)) <= Checkpoint(g)
      ensures smooth && lifetime > |Regions(old(db.st))| ==> done || exists g :: old(Checkpoint(g)) < Checkpoint(g)
    {
      hide LogInv, Moved, Exact, Stretch, End, Fetch, UniqueSeqs, Issued, Replay;
      ghost var before := db.st;
      MovedReflexive(db.m, before);
      var life: nat := lifetime;
      var geos := Regions(db.st);
      ghost var advanced := false;
      while geos != {}
        invariant db.Valid() && Moved(db.m, before, db.st) && Exact(db.m, db.st)
        invariant forall k <- All(before) ::
            All(before)[k].geo in geos || End(before, All(before)[k].geo) <= Checkpoint(All(before)[k].geo)
        invariant forall g :: old(Checkpoint(g)) <= Checkpoint(g)
        invariant !advanced ==> life + |Regions(before)| == lifetime + |geos|
        invariant advanced ==> exists g :: old(Checkpoint(g)) < Checkpoint(g)
        decreases life, geos
      {
        if life == 0 {
          return false;
        }
        life := life - 1;
        var g :| g in geos;
        var ok, empty := ReactOnce(db, before, g, smooth);
        if !ok {
          return false;
        }
        if empty {
          geos := geos - {g};
        } else {
          assert old(Checkpoint(g)) < Checkpoint(g);
          advanced := true;
        }
      }
      done := true;
      forall g ensures End(before, g) <= Checkpoint(g) {
        EndHasEvent(before, g);
      }
    }

    /** RebuildView: forget the checkpoints and deliver the whole log again, archive included. */
    method RebuildView(db: DB, lifetime: nat, smooth: bool) returns (done: bool)
      requires db.Valid()
      modifies this, db
      ensures db.Valid() && Moved(db.m, old(db.st), db.st) && Exact(db.m, db.st)
      ensures done ==> forall g :: End(old(db.st), g) <= Checkpoint(g)
    {
      cps, handled := map[], map[];
      ExactAtStart(db.m, db.st);
      hide LogInv, Moved, Exact;
      done := ProcessReactor(db, lifetime, smooth);
    }

    lemma ExactAtStart(m: Model, st: Store)
      requires LogInv(m, st) && cps == map[] && handled == map[]
      ensures Exact(m, st)
    {
      LogIsUnique(m, st);
      hide LogInv, End;
    }
  }

  /** SELECT .. WHERE geo = g AND seq >= s ORDER BY seq LIMIT n. */
  function Fetch(t: Table, g: Geo, s: nat, hi: nat, n: nat): seq<(nat, Key)>
    requires UniqueSeqs(t)
    decreases hi + 1 - s
  {
    if s > hi || n == 0 then []
    else
      var k := KeyAt(t, g, s);
      if k.None? then Fetch(t, g, s + 1, hi, n)
      else [(s, k.value)] + Fetch(t, g, s + 1, hi, n - 1)
  }

  /** The batch is the consecutive stretch of the region's log after cp. */
  ghost predicate Stretch(m: Model, st: Store, g: Geo, batch: seq<(nat, Key)>, cp: nat)
    requires LogInv(m, st)
  {
    LogIsUnique(m, st);
    forall i | 0 <= i < |batch| ::
      && batch[i].0 == cp + 1 + i && batch[i].0 <= End(st, g)
      && KeyAt(All(st), g, batch[i].0) == Some(batch[i].1)
  }

  lemma {:induction false} FetchConsecutive(t: Table, g: Geo, s: nat, hi: nat, n: nat)
    requires UniqueSeqs(t) && forall r | s <= r <= hi :: KeyAt(t, g, r).Some?
    ensures var b := Fetch(t, g, s, hi, n);
      && (b == [] <==> s > hi || n == 0)
      && forall i | 0 <= i < |b| :: b[i].0 == s + i <= hi && KeyAt(t, g, b[i].0) == Some(b[i].1)
    decreases hi + 1 - s
  {
    FetchStep(t, g, s, hi, n);
    hide Fetch, KeyAt, UniqueSeqs;
    if s <= hi && n > 0 {
      FetchConsecutive(t, g, s + 1, hi, n - 1);
      var rest := Fetch(t, g, s + 1, hi, n - 1);
      var b := Fetch(t, g, s, hi, n);
      forall i | 0 <= i < |b| ensures b[i].0 == s + i <= hi && KeyAt(t, g, b[i].0) == Some(b[i].1) {
        if i > 0 {
          assert b[i] == rest[i - 1];
        }
      }
    }
  }

  lemma FetchStep(t: Table, g: Geo, s: nat, hi: nat, n: nat)
    requires UniqueSeqs(t) && forall r | s <= r <= hi :: KeyAt(t, g, r).Some?
    ensures Fetch(t, g, s, hi, n)
         == if s > hi || n == 0 then [] else [(s, KeyAt(t, g, s).value)] + Fetch(t, g, s + 1, hi, n - 1)
  {
    hide KeyAt, UniqueSeqs;
    assert s <= hi ==> KeyAt(t, g, s).Some?;
  }

  lemma KeysToEnd(m: Model, st: Store, g: Geo)
    requires LogInv(m, st) && UniqueSeqs(All(st))
    ensures forall r | 1 <= r <= End(st, g) :: KeyAt(All(st), g, r).Some?
  {
    LogToEnd(m, st, g);
    hide LogInv, End;
    forall r | 1 <= r <= End(st, g) ensures KeyAt(All(st), g, r).Some? {
      assert Issued(All(st), g, r);
    }
  }

  lemma FetchStretch(m: Model, st: Store, g: Geo, cp: nat)
    requires LogInv(m, st) && cp <= End(st, g) && UniqueSeqs(All(st))
    ensures var b := Fetch(All(st), g, cp + 1, End(st, g), 500);
      Stretch(m, st, g, b, cp) && (b == [] <==> cp == End(st, g))
  {
    hide LogInv, End, KeyAt, Issued, UniqueSeqs, All, Fetch;
    KeysToEnd(m, st, g);
    FetchConsecutive(All(st), g, cp + 1, End(st, g), 500);
  }

  lemma NextStretch(m: Model, st: Store, u: Store, g: Geo, batch: seq<(nat, Key)>, cp: nat, i: nat)
    requires LogInv(m, st) && LogInv(m, u) && Moved(m, st, u) && Stretch(m, st, g, batch, cp) && i < |batch|
    ensures UniqueSeqs(All(u)) && batch[i].0 == cp + i + 1 <= End(u, g)
    ensures KeyAt(All(u), g, batch[i].0) == Some(batch[i].1) && batch[i].1 in All(u)
  {
    hide LogInv, End, UniqueSeqs;
    LogToEnd(m, st, g);
    LogIsUnique(m, u);
    EndGrows(m, st, u, g);
    var s: nat := batch[i].0;
    assert s == cp + 1 + i && 1 <= s <= End(st, g);
    assert Issued(All(st), g, s);
    KeyAtStays(All(st), All(u), g, s);
  }

  lemma EndHasEvent(st: Store, g: Geo)
    ensures End(st, g) > 0 ==> exists k :: k in All(st) && All(st)[k].geo == g
  {
  }

  lemma LogIsUnique(m: Model, st: Store)
    requires LogInv(m, st)
    ensures UniqueSeqs(All(st))
  {
    hide ArchiveOk, SnapsOk, Replayable, Ordered, Pinned, Contiguous, GaplessSeqs;
  }
}

/** Two runs out of the empty store in which an Append passes both unique keys of the hot log and breaks the log all
    the same, because an archive run fell into its window (aggregate.go:287-347, projection.go:604-691). */
module AppendRoutes {
  import opened Wrappers
  import opened EventStore
  import opened EventSteps
  import opened EventRuns
  import opened UniqueKeys

  /** A model whose Apply takes every event. */
  function Willing(s: State): Model {
    Model(s, (st, n, t, body) => Some(s))
  }

  // ---------------------------------------------------------------- single steps on known stores

  lemma TopIs(t: Table, a: Id, n: nat)
    requires Key(a, n) in t && forall k <- t | k.agg == a :: k.aseq <= n
    ensures Top(t, a) == n
  {
    assert n in Versions(t, a);
  }

  lemma MaxSeqIs(t: Table, k: Key)
    requires k in t && forall j <- t | t[j].geo == t[k].geo :: t[j].gseq <= t[k].gseq
    ensures MaxSeq(t, t[k].geo) == t[k].gseq
  {
    assert t[k].gseq in Seqs(t, t[k].geo);
  }

  lemma NothingYet(t: Table, a: Id)
    requires forall k <- t :: k.agg != a
    ensures Top(t, a) == 0 && forall m: Model :: Replay(m, t, a, 0) == Some(m.init)
  {
    assert Versions(t, a) == {};
  }

  lemma {:induction false} WillingReplay(t: Table, a: Id, v: nat, s: State)
    requires forall i | 1 <= i <= v :: Key(a, i) in t
    ensures Replay(Willing(s), t, a, v) == Some(s)
  {
    if v > 0 {
      WillingReplay(t, a, v - 1, s);
    }
  }

  lemma {:induction false} WillingApplies(s: State, ver: nat, now: Time, ps: seq<Payload>)
    ensures ApplyAll(Willing(s), s, ver, now, ps) == Some(s)
    decreases ps
  {
    if ps != [] {
      WillingApplies(s, ver + 1, now, ps[1..]);
    }
  }

  /** An Append by a handle that stands at the top. */
  lemma Appends(st: Store, a: Id, g: Geo, ver: nat, top: nat, ps: seq<Payload>, s: State)
    requires ps != [] && Top(st.hot, a) == ver && HomeGeo(st, a, g) == g && MaxSeq(st.hot, g) == top
    requires forall i | 1 <= i <= ver :: Key(a, i) in All(st)
    ensures Appended(Willing(s), st, a, g, ver, 0, ps) == Committed(st, a, ver, g, top, 0, ps, s)
  {
    hide Top, MaxSeq, HomeGeo, Inserted, Upsert;
    WillingReplay(All(st), a, ver, s);
    WillingApplies(s, ver, 0, ps);
  }

  /** Two snapshots of an aggregate that had none, both kept, the bound they give and the archive run up to it. */
  function Housekept(st: Store, a: Id, g: Geo, v: nat, s: State, cp: nat): Store {
    var moved := Movable(st.hot, a, v, cp);
    st.(snaps := st.snaps[Key(a, v) := s][Key(a, v + 1) := s], bounds := st.bounds + {Key(a, v)},
        cps := st.cps[g := cp], hot := st.hot - moved.Keys, arch := moved + st.arch)
  }

  function Housekeeping(a: Id, g: Geo, v: nat, cp: nat): seq<Step> {
    [Snapshot(a, v, 2), Snapshot(a, v + 1, 2), ReadBound(a), SetCheckpoint(g, cp), Archive(a, v, cp)]
  }

  lemma Keeps(snaps: map<Key, State>, a: Id, v: nat, s: State)
    requires forall k <- snaps :: k.agg != a
    ensures Pruned(snaps[Key(a, v) := s], a, 2) == snaps[Key(a, v) := s]
    ensures var two := snaps[Key(a, v) := s][Key(a, v + 1) := s];
      Pruned(two, a, 2) == two && SecondYoungest(two, a) == Some(v)
  {
    var one := snaps[Key(a, v) := s];
    var two := one[Key(a, v + 1) := s];
    assert SnapVersions(one, a) == {v} && SnapVersions(two, a) == {v, v + 1};
    assert Newer(one, Key(a, v)) == {} && Newer(two, Key(a, v)) == {v + 1} && Newer(two, Key(a, v + 1)) == {};
    assert (set w <- SnapVersions(two, a) | w < v + 1) == {v};
  }

  lemma Snapshots(st: Store, a: Id, v: nat, s: State)
    requires (forall k <- st.snaps :: k.agg != a) && forall i | 1 <= i <= v + 1 :: Key(a, i) in All(st)
    requires v > 0
    ensures var m := Willing(s);
      Snapshotted(m, Snapshotted(m, st, a, v, 2), a, v + 1, 2)
        == st.(snaps := st.snaps[Key(a, v) := s][Key(a, v + 1) := s])
  {
    hide Pruned, SecondYoungest, Replay;
    Keeps(st.snaps, a, v, s);
    WillingReplay(All(st), a, v, s);
    var s1 := Snapshotted(Willing(s), st, a, v, 2);
    assert s1 == st.(snaps := st.snaps[Key(a, v) := s]);
    WillingReplay(All(s1), a, v + 1, s);
  }

  lemma Housekeeps(st: Store, a: Id, g: Geo, v: nat, s: State, cp: nat)
    requires (forall k <- st.snaps :: k.agg != a) && cp > 0 && Key(a, Top(st.hot, a)) in st.hot
    requires forall i | 1 <= i <= v + 1 :: Key(a, i) in All(st)
    requires v > 0
    ensures Run(Willing(s), st, Housekeeping(a, g, v, cp)) == Housekept(st, a, g, v, s, cp)
  {
    hide Top, Pruned, SecondYoungest, Replay, Movable, Snapshotted, All;
    Keeps(st.snaps, a, v, s);
    Snapshots(st, a, v, s);
    var two := st.(snaps := st.snaps[Key(a, v) := s][Key(a, v + 1) := s]);
    var read := BoundRead(two, a);
    assert read == two.(bounds := st.bounds + {Key(a, v)});
    Runs(Willing(s), st, Housekeeping(a, g, v, cp));
  }

  lemma Runs(m: Model, st: Store, steps: seq<Step>)
    requires |steps| == 5
    ensures Run(m, st, steps) == Do(m, Do(m, Do(m, Do(m, Do(m, st, steps[0]), steps[1]), steps[2]), steps[3]), steps[4])
  {
    hide Do;
    RunFront(m, st, steps);
    RunFront(m, Do(m, st, steps[0]), steps[1..]);
    RunFront(m, Do(m, Do(m, st, steps[0]), steps[1]), steps[2..]);
    RunFront(m, Do(m, Do(m, Do(m, st, steps[0]), steps[1]), steps[2]), steps[3..]);
    RunFront(m, Do(m, Do(m, Do(m, Do(m, st, steps[0]), steps[1]), steps[2]), steps[3]), steps[4..]);
  }

  lemma RunFront(m: Model, st: Store, steps: seq<Step>)
    requires steps != []
    ensures Run(m, st, steps) == Run(m, Do(m, st, steps[0]), steps[1..])
    ensures Run(m, Do(m, st, steps[0]), []) == Do(m, st, steps[0])
  {
    hide Do;
  }

  // ---------------------------------------------------------------- the two routes

  function At(g: Geo, n: nat, p: Payload): Event {
    Event(g, n, 0, p)
  }

  lemma InsertsOne(t: Table, a: Id, ver: nat, g: Geo, top: nat, p: Payload)
    ensures Inserted(t, a, ver, g, top, 0, [p]) == t[Key(a, ver + 1) := At(g, top + 1, p)]
  {
    assert [p][1..] == [];
  }

  lemma InsertsTwo(t: Table, a: Id, ver: nat, g: Geo, top: nat, p: Payload)
    ensures Inserted(t, a, ver, g, top, 0, [p, p])
         == t[Key(a, ver + 1) := At(g, top + 1, p)][Key(a, ver + 2) := At(g, top + 2, p)]
  {
    assert [p, p][1..] == [p];
    InsertsOne(t[Key(a, ver + 1) := At(g, top + 1, p)], a, ver + 1, g, top + 1, p);
  }

  /** The log after the first event of an aggregate. */
  lemma FirstEvent(a: Id, g: Geo, s: State, p: Payload)
    ensures var st := Run(Willing(s), EMPTY, [Append(a, g, 0, 0, [p])]);
      && st == EMPTY.(hot := map[Key(a, 1) := At(g, 1, p)], rows := map[a := Row(1, s, g)])
      && Top(st.hot, a) == 1 && HomeGeo(st, a, g) == g && MaxSeq(st.hot, g) == 1
  {
    NothingYet(EMPTY.hot, a);
    assert Seqs(EMPTY.hot, g) == {};
    Appends(EMPTY, a, g, 0, 0, [p], s);
    var st := Committed(EMPTY, a, 0, g, 0, 0, [p], s);
    InsertsOne(EMPTY.hot, a, 0, g, 0, p);
    TopIs(st.hot, a, 1);
    MaxSeqIs(st.hot, Key(a, 1));
    RunFront(Willing(s), EMPTY, [Append(a, g, 0, 0, [p])]);
  }

  /** Two more events of an aggregate on such a log, with the next sequences. */
  lemma TwoMore(st: Store, a: Id, b: Id, g: Geo, ver: nat, s: State, p: Payload)
    requires st == EMPTY.(hot := map[Key(a, 1) := At(g, 1, p)], rows := map[a := Row(1, s, g)])
    requires ver == if b == a then 1 else 0
    ensures var u := Do(Willing(s), st, Append(b, g, ver, 0, [p, p]));
      && u.hot == map[Key(a, 1) := At(g, 1, p), Key(b, ver + 1) := At(g, 2, p), Key(b, ver + 2) := At(g, 3, p)]
      && u.arch == map[] && u.snaps == map[] && u.bounds == {} && Top(u.hot, b) == ver + 2
  {
    if b == a {
      TopIs(st.hot, b, 1);
    } else {
      NothingYet(st.hot, b);
    }
    MaxSeqIs(st.hot, Key(a, 1));
    Appends(st, b, g, ver, 1, [p, p], s);
    var u := Committed(st, b, ver, g, 1, 0, [p, p], s);
    InsertsTwo(st.hot, b, ver, g, 1, p);
    TopIs(u.hot, b, ver + 2);
  }

  /** The first route: a handle at version 1 passes the optimistic check, is then overtaken by two events, and the
      first of them is archived before its insert. The insert passes both keys and doubles version 2. */
  lemma OvertakenHandleBreaksLog(g: Geo, s: State, p: Payload, byGeo: bool)
    ensures var m := Willing(s);
      var read := Run(m, EMPTY, [Append("a", g, 0, 0, [p])]);
      var st := Run(m, Do(m, read, Append("a", g, 1, 0, [p, p])), Housekeeping("a", g, 2, 3));
      var u := Committed(st, "a", 1, g, 3, 0, [p], s);
      && Top(read.hot, "a") == 1 && HomeGeo(read, "a", g) == g
      && MaxSeq(st.hot, g) == 3 && ApplyAll(m, s, 1, 0, [p]) == Some(s)
      && !KeyTaken(st.hot, "a", 1, g, 1, byGeo) && !SeqTaken(st.hot, g, 3, 1)
      && !LogInv(m, u)
      && Key("a", 2) in u.hot && Key("a", 2) in u.arch && u.hot[Key("a", 2)] != u.arch[Key("a", 2)]
  {
    hide LogInv, Run, Do, Committed, Housekept, HomeGeo, Top, MaxSeq, KeyTaken, SeqTaken;
    var m := Willing(s);
    FirstEvent("a", g, s, p);
    var read := Run(m, EMPTY, [Append("a", g, 0, 0, [p])]);
    TwoMore(read, "a", "a", g, 1, s, p);
    var mid := Do(m, read, Append("a", g, 1, 0, [p, p]));
    Housekeeps(mid, "a", g, 2, s, 3);
    var st := Housekept(mid, "a", g, 2, s, 3);
    TwoArchived(mid, g, s, p);
    WillingApplies(s, 1, 0, [p]);
    OvertakenCommit(m, st, g, s, p, byGeo);
  }

  lemma TwoArchived(mid: Store, g: Geo, s: State, p: Payload)
    requires mid.hot == map[Key("a", 1) := At(g, 1, p), Key("a", 2) := At(g, 2, p), Key("a", 3) := At(g, 3, p)]
    requires mid.arch == map[]
    ensures var st := Housekept(mid, "a", g, 2, s, 3);
      && st.hot == map[Key("a", 3) := At(g, 3, p)]
      && st.arch == map[Key("a", 1) := At(g, 1, p), Key("a", 2) := At(g, 2, p)]
  {
    assert Movable(mid.hot, "a", 2, 3) == map[Key("a", 1) := At(g, 1, p), Key("a", 2) := At(g, 2, p)];
    hide Movable;
  }

  lemma OneArchived(mid: Store, g: Geo, s: State, p: Payload)
    requires mid.hot == map[Key("a", 1) := At(g, 1, p), Key("b", 1) := At(g, 2, p), Key("b", 2) := At(g, 3, p)]
    requires mid.arch == map[]
    ensures var st := Housekept(mid, "b", g, 1, s, 2);
      && st.hot == map[Key("a", 1) := At(g, 1, p), Key("b", 2) := At(g, 3, p)]
      && st.arch == map[Key("b", 1) := At(g, 2, p)]
  {
    assert Movable(mid.hot, "b", 1, 2) == map[Key("b", 1) := At(g, 2, p)];
    hide Movable;
  }

  lemma OvertakenCommit(m: Model, st: Store, g: Geo, s: State, p: Payload, byGeo: bool)
    requires st.hot == map[Key("a", 3) := At(g, 3, p)]
    requires st.arch == map[Key("a", 1) := At(g, 1, p), Key("a", 2) := At(g, 2, p)]
    ensures var u := Committed(st, "a", 1, g, 3, 0, [p], s);
      && MaxSeq(st.hot, g) == 3
      && !KeyTaken(st.hot, "a", 1, g, 1, byGeo) && !SeqTaken(st.hot, g, 3, 1)
      && !LogInv(m, u)
      && Key("a", 2) in u.hot && Key("a", 2) in u.arch && u.hot[Key("a", 2)] != u.arch[Key("a", 2)]
  {
    hide LogInv, Upsert, Inserted;
    MaxSeqIs(st.hot, Key("a", 3));
    var u := Committed(st, "a", 1, g, 3, 0, [p], s);
    InsertsOne(st.hot, "a", 1, g, 3, p);
    if LogInv(m, u) {
      HotTop(m, u, "a");
    }
  }

  /** The second route, on a backend without advisory locks: the handle of a is not overtaken, but two events of b
      get in after MAX(seq) was read as 1, and the first of them is archived before the insert. The insert passes both
      keys and gives sequence 2 of the region again. */
  lemma StaleMaximumBreaksLog(g: Geo, s: State, p: Payload, byGeo: bool)
    ensures var m := Willing(s);
      var read := Run(m, EMPTY, [Append("a", g, 0, 0, [p])]);
      var st := Run(m, Do(m, read, Append("b", g, 0, 0, [p, p])), Housekeeping("b", g, 1, 2));
      var u := Committed(st, "a", 1, g, 1, 0, [p], s);
      && Top(read.hot, "a") == 1 && HomeGeo(read, "a", g) == g && MaxSeq(read.hot, g) == 1
      && Top(st.hot, "a") == 1 && ApplyAll(m, s, 1, 0, [p]) == Some(s)
      && !KeyTaken(st.hot, "a", 1, g, 1, byGeo) && !SeqTaken(st.hot, g, 1, 1)
      && !LogInv(m, u)
      && Key("a", 2) in All(u) && Key("b", 1) in All(u) && All(u)[Key("a", 2)] == All(u)[Key("b", 1)] == At(g, 2, p)
  {
    hide LogInv, Run, Do, Committed, Housekept, HomeGeo, Top, MaxSeq, KeyTaken, SeqTaken;
    var m := Willing(s);
    FirstEvent("a", g, s, p);
    var read := Run(m, EMPTY, [Append("a", g, 0, 0, [p])]);
    TwoMore(read, "a", "b", g, 0, s, p);
    var mid := Do(m, read, Append("b", g, 0, 0, [p, p]));
    Housekeeps(mid, "b", g, 1, s, 2);
    var st := Housekept(mid, "b", g, 1, s, 2);
    OneArchived(mid, g, s, p);
    WillingApplies(s, 1, 0, [p]);
    StaleCommit(m, st, g, s, p, byGeo);
  }

  lemma StaleCommit(m: Model, st: Store, g: Geo, s: State, p: Payload, byGeo: bool)
    requires st.hot == map[Key("a", 1) := At(g, 1, p), Key("b", 2) := At(g, 3, p)]
    requires st.arch == map[Key("b", 1) := At(g, 2, p)]
    ensures var u := Committed(st, "a", 1, g, 1, 0, [p], s);
      && Top(st.hot, "a") == 1
      && !KeyTaken(st.hot, "a", 1, g, 1, byGeo) && !SeqTaken(st.hot, g, 1, 1)
      && !LogInv(m, u)
      && Key("a", 2) in All(u) && Key("b", 1) in All(u) && All(u)[Key("a", 2)] == All(u)[Key("b", 1)] == At(g, 2, p)
  {
    hide LogInv, Upsert, Inserted;
    TopIs(st.hot, "a", 1);
    var u := Committed(st, "a", 1, g, 1, 0, [p], s);
    InsertsOne(st.hot, "a", 1, g, 1, p);
    assert All(u)[Key("a", 2)] == All(u)[Key("b", 1)] == At(g, 2, p);
    if LogInv(m, u) {
      assert UniqueSeqs(All(u)) by { LogParts(m, u); }
    }
  }
}

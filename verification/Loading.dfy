/** Load, Refresh, AtVersion and AtTime: newest snapshot plus the events after it, in two separate
    statements, against full replay of every event (aggregate.go:92-207, 414-483). */
module Loading {
  import opened Wrappers
  import opened EventStore
  import opened EventSteps
  import opened EventRuns
  import opened ArchiveRace

  // ---------------------------------------------------------------- the two queries

  /** SELECT .. WHERE aggregate_id = a AND aggregate_seq BETWEEN lo AND hi ORDER BY aggregate_seq. */
  function Select(t: Table, a: Id, lo: nat, hi: nat): seq<(nat, Event)>
    decreases hi + 1 - lo
  {
    if lo > hi then []
    else (if Key(a, lo) in t then [(lo, t[Key(a, lo)])] else []) + Select(t, a, lo + 1, hi)
  }

  /** esEventsFrom: the hot log alone, or hot and archive for time travel. */
  function Source(st: Store, upTo: int, time: Option<Time>): Table {
    if upTo > 0 || time.Some? then All(st) else st.hot
  }

  /** The newest snapshot of a, at most at version upTo when upTo > 0; 0 when there is none. */
  function NewestSnap(snaps: map<Key, State>, a: Id, upTo: int): nat {
    MaxNat(set v <- SnapVersions(snaps, a) | upTo <= 0 || v <= upTo)
  }

  ghost predicate Consecutive(rows: seq<(nat, Event)>, t: Table, a: Id, lo: nat) {
    forall j | 0 <= j < |rows| :: rows[j].0 == lo + j && Key(a, lo + j) in t && rows[j].1 == t[Key(a, lo + j)]
  }

  lemma {:induction false} SelectConsecutive(t: Table, u: Table, a: Id, lo: nat, hi: nat)
    requires lo <= hi + 1
    requires forall i | lo <= i <= hi :: Key(a, i) in t && Key(a, i) in u && t[Key(a, i)] == u[Key(a, i)]
    ensures |Select(t, a, lo, hi)| == hi + 1 - lo
    ensures Consecutive(Select(t, a, lo, hi), u, a, lo)
    decreases hi + 1 - lo
  {
    if lo <= hi {
      SelectConsecutive(t, u, a, lo + 1, hi);
      var rest := Select(t, a, lo + 1, hi);
      forall j | 0 <= j < |Select(t, a, lo, hi)|
        ensures Select(t, a, lo, hi)[j] == (lo + j, u[Key(a, lo + j)]) {
        if j > 0 {
          assert Select(t, a, lo, hi)[j] == rest[j - 1];
        }
      }
    }
  }

  lemma SnapshotCoversArchive(st: Store, a: Id, upTo: int)
    requires ArchiveOk(st) && upTo <= 0
    ensures ArchBelow(st, a, NewestSnap(st.snaps, a, upTo))
    ensures FewNewer(st.snaps, a, NewestSnap(st.snaps, a, upTo), 0)
  {
    hide ArchiveOk, ArchBelow, FewNewer;
    var vs := set v <- SnapVersions(st.snaps, a) | upTo <= 0 || v <= upTo;
    var n := NewestSnap(st.snaps, a, upTo);
    forall w: nat | Key(a, w) in st.snaps ensures w <= n {
      assert w in SnapVersions(st.snaps, a) && w in vs;
    }
    NewestCovers(st, a, n);
  }

  /** Load tolerates the archiver: any number of appends, archive runs and worker upserts between its
      two statements leave everything above its snapshot hot, if at most one snapshot is new. */
  lemma RaceLeavesRestHot(m: Model, st: Store, steps: seq<Step>, a: Id, upTo: int)
    requires LogInv(m, st) && NewSnaps(m, st, steps, a) <= 1 && upTo <= 0
    ensures var v, u := NewestSnap(st.snaps, a, upTo), Run(m, st, steps);
      forall i | v < i <= Top(All(u), a) :: Key(a, i) in u.hot && u.hot[Key(a, i)] == All(u)[Key(a, i)]
  {
    hide Run, LogOk, SnapsOk, ArchiveOk, NewestSnap, FewNewer, NewSnaps, Top;
    var v := NewestSnap(st.snaps, a, upTo);
    SnapshotCoversArchive(st, a, upTo);
    RunKeepsBelow(m, st, steps, a, v, 0);
    LogAfterRun(m, st, steps, a);
    var u := Run(m, st, steps);
    forall i | v < i <= Top(All(u), a) ensures Key(a, i) in u.hot && u.hot[Key(a, i)] == All(u)[Key(a, i)] {
      assert Key(a, i) in All(u);
      assert Key(a, i) !in u.arch;
    }
  }

  lemma SnapIsReplay(m: Model, st: Store, steps: seq<Step>, a: Id, upTo: int)
    requires LogInv(m, st)
    ensures var v, u := NewestSnap(st.snaps, a, upTo), Run(m, st, steps);
      && v <= Top(All(u), a) && (upTo > 0 ==> v <= upTo)
      && (v > 0 ==> Key(a, v) in st.snaps)
      && Replay(m, All(u), a, v) == Some(if v == 0 then m.init else st.snaps[Key(a, v)])
  {
    hide Run, LogOk, ArchiveOk, Grown;
    var v, u := NewestSnap(st.snaps, a, upTo), Run(m, st, steps);
    if v > 0 {
      assert v in SnapVersions(st.snaps, a);
      assert Key(a, v) in All(st);
      RunKeepsLog(m, st, steps);
      ExtendsReplay(m, All(st), All(u), a, v);
      assert v in Versions(All(u), a) by { assert Key(a, v) in All(u); }
    }
  }

  // ---------------------------------------------------------------- the code

  ghost predicate NoCheckpoints(steps: seq<Step>) {
    forall step <- steps :: !step.SetCheckpoint?
  }

  lemma {:induction false} CheckpointsStay(m: Model, st: Store, steps: seq<Step>)
    requires NoCheckpoints(steps)
    ensures Run(m, st, steps).cps == st.cps
    decreases steps
  {
    if steps != [] {
      assert steps[0] in steps && forall step <- steps[1..] :: step in steps;
      CheckpointsStay(m, Do(m, st, steps[0]), steps[1..]);
    }
  }

  /** The database as one process sees it: others commit between its statements. Only the holder of the worker lease
      writes projection checkpoints. locks: the backend has advisory locks; byGeo: it is partitioned, so that the
      primary key of the log ends in the region. */
  class DB {
    const m: Model
    const lease: bool
    const locks: bool
    const byGeo: bool
    var st: Store

    constructor (m: Model, lease: bool, locks: bool, byGeo: bool)
      ensures this.m == m && this.lease == lease && this.locks == locks && this.byGeo == byGeo
      ensures st == EMPTY && Valid()
    {
      this.m := m;
      this.lease := lease;
      this.locks := locks;
      this.byGeo := byGeo;
      st := EMPTY;
      new;
      EmptyOk(m);
    }

    ghost predicate Valid()
      reads this
    {
      LogInv(m, st)
    }

    /** Anything other instances commit meanwhile, storing at most one new snapshot of a. */
    method Others(a: Id) returns (steps: seq<Step>)
      requires Valid()
      modifies this
      ensures Valid() && st == Run(m, old(st), steps) && NewSnaps(m, old(st), steps, a) <= 1
      ensures Moved(m, old(st), st) && (lease ==> st.cps == old(st).cps)
    {
      steps := *;
      if NewSnaps(m, st, steps, a) > 1 {
        steps := [];
      }
      if lease && exists step <- steps :: step.SetCheckpoint? {
        steps := [];
      }
      hide LogInv, Grown, Extends, RowsOk, SnapsGrow;
      RunKeepsLog(m, st, steps);
      RunGrows(m, st, steps);
      if RowsOk(m, All(st), st.rows) {
        RunKeepsRows(m, st, steps);
      }
      if lease {
        CheckpointsStay(m, st, steps);
      }
      st := Run(m, st, steps);
    }
  }

  /** What foreign commits leave true, whatever they are. */
  ghost predicate Moved(m: Model, st: Store, u: Store) {
    && Extends(All(st), All(u))
    && Grown(st, u)
    && (RowsOk(m, All(st), st.rows) ==> RowsOk(m, All(u), u.rows))
    && st.arch.Keys <= u.arch.Keys && SnapsGrow(st.snaps, u.snaps)
  }

  /** How far a fold may go: the requested version, else the log top. */
  function Limit(top: nat, upTo: int): nat {
    if 0 < upTo < top then upTo else top
  }

  /** v is the length of the longest prefix of the first limit events with no event after time t. */
  ghost predicate LongestPrefix(t: Table, a: Id, limit: nat, time: Option<Time>, v: nat) {
    && v <= limit
    && (time.None? ==> v == limit)
    && (time.Some? ==> forall i | 1 <= i <= v :: Key(a, i) in t && t[Key(a, i)].time <= time.value)
    && (v < limit ==> Key(a, v + 1) in t && t[Key(a, v + 1)].time > time.value)
  }

  class Aggregate {
    const id: Id
    var version: nat
    var updatedAt: Option<Time>
    var self: State

    constructor (id: Id, zero: State)
      ensures this.id == id && version == 0 && self == zero && updatedAt == None
    {
      this.id := id;
      version := 0;
      updatedAt := None;
      self := zero;
    }

    /** The row loop of foldInto: apply each event, stop after the time limit or at an event Apply refuses. */
    method ApplyRows(m: Model, rows: seq<(nat, Event)>, upToTime: Option<Time>) returns (ok: bool)
      modifies this
      ensures var n := Within(rows, upToTime); var folded := FoldRows(m, old(self), rows[..n]);
        && (ok <==> folded.Some?)
        && (ok ==>
              && self == folded.value
              && version == (if n > 0 then rows[n - 1].0 else old(version))
              && updatedAt == if n > 0 then Some(rows[n - 1].1.time) else old(updatedAt))
    {
      ghost var n := Within(rows, upToTime);
      WithinLimit(rows, upToTime);
      var j := 0;
      assert rows[0..n] == rows[..n];
      while j < |rows|
        invariant 0 <= j <= n
        invariant FoldRows(m, self, rows[j..n]) == FoldRows(m, old(self), rows[..n])
        invariant version == if j > 0 then rows[j - 1].0 else old(version)
        invariant updatedAt == if j > 0 then Some(rows[j - 1].1.time) else old(updatedAt)
      {
        var (aseq, e) := rows[j];
        if upToTime.Some? && e.time > upToTime.value {
          break;
        }
        assert rows[j..n][0] == rows[j] && rows[j..n][1..] == rows[j + 1..n];
        var next := m.apply(self, aseq, e.time, e.body);
        if next.None? {
          return false;
        }
        version, updatedAt, self := aseq, Some(e.time), next.value;
        j := j + 1;
      }
      assert rows[j..n] == [];
      return true;
    }

    /** foldInto: the result is full replay at the moment of the second statement. With snapshots off and neither limit
        given it is the fold of the hot log alone, which is full replay where nothing of the aggregate is archived. */
    method FoldInto(db: DB, upTo: int, upToTime: Option<Time>, snapshots: bool) returns (ok: bool)
      requires db.Valid() && version == 0 && self == db.m.init && updatedAt == None
      modifies this, db
      ensures db.Valid() && Moved(db.m, old(db.st), db.st) && (db.lease ==> db.st.cps == old(db.st).cps)
      ensures Complete(db.st, id, upTo, upToTime, snapshots) ==>
                var all := All(db.st);
                && ok
                && LongestPrefix(all, id, Limit(Top(all, id), upTo), upToTime, version)
                && Replay(db.m, all, id, version) == Some(self)
                && (updatedAt.Some? ==> version > 0 && updatedAt.value == all[Key(id, version)].time)
                && (updatedAt == None
                    <==> version == if upToTime.None? && snapshots then NewestSnap(old(db.st.snaps), id, upTo) else 0)
      ensures !snapshots && upTo <= 0 && upToTime.None? ==>
                var folded := FoldRows(db.m, db.m.init, Select(db.st.hot, id, 1, Top(db.st.hot, id)));
                && (ok <==> folded.Some?)
                && (ok ==> self == folded.value && version == Top(db.st.hot, id))
    {
      hide LogInv, Run, Select, Top, NewestSnap, NewSnaps, Limit, All, Source, Moved, Replay, FoldRows, Within,
           Complete;
      var m := db.m;
      if upToTime.None? && snapshots {
        var snap := NewestSnap(db.st.snaps, id, upTo);
        if snap > 0 {
          NewestSnapStored(db.st.snaps, id, upTo);
          version, self := snap, db.st.snaps[Key(id, snap)];
        }
      }
      ghost var before, from, start := db.st, version, self;
      var steps := db.Others(id);
      var source := Source(db.st, upTo, upToTime);
      var hi := Limit(Top(source, id), upTo);
      var rows := Select(source, id, version + 1, hi);
      ok := ApplyRows(m, rows, upToTime);
      if Complete(db.st, id, upTo, upToTime, snapshots) {
        SecondRead(m, before, steps, id, upTo, upToTime, snapshots);
        FoldIsReplay(m, All(db.st), id, from, start, rows, upToTime);
      }
      if !snapshots && upTo <= 0 && upToTime.None? {
        HotRows(m, db.st, id, upTo, upToTime);
      }
    }
  }

  /** Whether foldInto reads every event that its start leaves out: it does, unless snapshots are off, no limit sends it
      to the archive, and an event of the aggregate is there. */
  ghost predicate Complete(st: Store, a: Id, upTo: int, time: Option<Time>, snapshots: bool) {
    snapshots || upTo > 0 || time.Some? || NoneArchived(st, a)
  }

  predicate NoneArchived(st: Store, a: Id) {
    forall k <- st.arch.Keys :: k.agg != a
  }

  /** How many of the rows come before the first one after the time limit. */
  function Within(rows: seq<(nat, Event)>, time: Option<Time>): (n: nat)
    ensures n <= |rows|
  {
    if rows == [] || (time.Some? && rows[0].1.time > time.value) then 0 else 1 + Within(rows[1..], time)
  }

  lemma {:induction false} WithinLimit(rows: seq<(nat, Event)>, time: Option<Time>)
    ensures var n := Within(rows, time);
      && (time.None? ==> n == |rows|)
      && (time.Some? ==> forall j | 0 <= j < n :: rows[j].1.time <= time.value)
      && (n < |rows| ==> time.Some? && rows[n].1.time > time.value)
  {
    if rows != [] {
      WithinLimit(rows[1..], time);
    }
  }

  function FoldRows(m: Model, s: State, rows: seq<(nat, Event)>): Option<State>
    decreases rows
  {
    if rows == [] then Some(s)
    else
      match m.apply(s, rows[0].0, rows[0].1.time, rows[0].1.body)
      case None => None
      case Some(next) => FoldRows(m, next, rows[1..])
  }

  lemma RowAt(rows: seq<(nat, Event)>, t: Table, a: Id, lo: nat, i: nat)
    requires Consecutive(rows, t, a, lo) && lo <= i < lo + |rows|
    ensures Key(a, i) in t && rows[i - lo] == (i, t[Key(a, i)])
  {
    assert rows[i - lo].0 == lo + (i - lo) && rows[i - lo].1 == t[Key(a, lo + (i - lo))];
  }

  lemma {:induction false} FoldConsecutive(m: Model, t: Table, a: Id, from: nat, s: State, rows: seq<(nat, Event)>)
    requires Consecutive(rows, t, a, from + 1) && Replay(m, t, a, from) == Some(s)
    requires forall i | 1 <= i <= from + |rows| :: Replay(m, t, a, i).Some?
    ensures FoldRows(m, s, rows) == Replay(m, t, a, from + |rows|)
    decreases rows
  {
    if rows != [] {
      RowAt(rows, t, a, from + 1, from + 1);
      assert Replay(m, t, a, from + 1).Some?;
      forall j | 0 <= j < |rows[1..]|
        ensures rows[1..][j].0 == from + 2 + j
        ensures Key(a, from + 2 + j) in t && rows[1..][j].1 == t[Key(a, from + 2 + j)] {
        RowAt(rows, t, a, from + 1, from + 2 + j);
      }
      FoldConsecutive(m, t, a, from + 1, Replay(m, t, a, from + 1).value, rows[1..]);
    }
  }

  /** Folding all events after a start, up to the time limit, is full replay of the prefix reached. */
  lemma FoldIsReplay(m: Model, t: Table, a: Id, from: nat, s: State, rows: seq<(nat, Event)>, time: Option<Time>)
    requires Consecutive(rows, t, a, from + 1) && Replay(m, t, a, from) == Some(s)
    requires forall i | 1 <= i <= from + |rows| :: Replay(m, t, a, i).Some?
    requires time.Some? ==> from == 0
    ensures var n := Within(rows, time);
      && FoldRows(m, s, rows[..n]) == Replay(m, t, a, from + n) && Replay(m, t, a, from + n).Some?
      && LongestPrefix(t, a, from + |rows|, time, from + n)
      && (n > 0 ==> rows[n - 1] == (from + n, t[Key(a, from + n)]))
  {
    hide Replay, FoldRows;
    var n := Within(rows, time);
    WithinLimit(rows, time);
    FoldConsecutive(m, t, a, from, s, rows[..n]);
    forall i | time.Some? && 1 <= i <= from + n ensures Key(a, i) in t && t[Key(a, i)].time <= time.value {
      RowAt(rows, t, a, 1, i);
    }
    if n < |rows| {
      RowAt(rows, t, a, from + 1, from + 1 + n);
    }
    if n > 0 {
      RowAt(rows, t, a, from + 1, from + n);
    }
  }

  lemma NewestSnapStored(snaps: map<Key, State>, a: Id, upTo: int)
    requires NewestSnap(snaps, a, upTo) > 0
    ensures Key(a, NewestSnap(snaps, a, upTo)) in snaps
  {
    assert NewestSnap(snaps, a, upTo) in SnapVersions(snaps, a);
  }

  lemma LogAfterRun(m: Model, st: Store, steps: seq<Step>, a: Id)
    requires LogInv(m, st)
    ensures var u := Run(m, st, steps);
      && Top(u.hot, a) == Top(All(u), a)
      && (forall i: nat :: Key(a, i) in All(u) <==> 1 <= i <= Top(All(u), a))
      && (forall i: nat :: Key(a, i) in All(u) ==> Replay(m, All(u), a, i).Some?)
  {
    RunKeepsLog(m, st, steps);
    var u := Run(m, st, steps);
    hide Run;
    assert Replayable(m, All(u));
    NewestIsHot(u, a);
  }

  /** What the second query returns: all events after the snapshot, in order, none missing. */
  lemma RowsRead(u: Store, a: Id, from: nat, whole: bool, upTo: int)
    requires Top(u.hot, a) == Top(All(u), a) && from <= Limit(Top(All(u), a), upTo)
    requires forall i: nat :: Key(a, i) in All(u) <==> 1 <= i <= Top(All(u), a)
    requires !whole ==> forall i | from < i <= Top(All(u), a) ::
               Key(a, i) in u.hot && u.hot[Key(a, i)] == All(u)[Key(a, i)]
    ensures var source := if whole then All(u) else u.hot;
            var hi := Limit(Top(source, a), upTo);
      && hi == Limit(Top(All(u), a), upTo)
      && Consecutive(Select(source, a, from + 1, hi), All(u), a, from + 1)
      && |Select(source, a, from + 1, hi)| == hi - from
  {
    SelectConsecutive(if whole then All(u) else u.hot, All(u), a, from + 1, Limit(Top(All(u), a), upTo));
  }

  lemma AllHot(m: Model, st: Store, steps: seq<Step>, a: Id)
    requires LogInv(m, st) && NoneArchived(Run(m, st, steps), a)
    ensures var u := Run(m, st, steps);
      forall i | 0 < i <= Top(All(u), a) :: Key(a, i) in u.hot && u.hot[Key(a, i)] == All(u)[Key(a, i)]
  {
    hide Run, LogInv, Top, Replay;
    LogAfterRun(m, st, steps, a);
    var u := Run(m, st, steps);
    forall i | 0 < i <= Top(All(u), a) ensures Key(a, i) in u.hot && u.hot[Key(a, i)] == All(u)[Key(a, i)] {
      assert Key(a, i) in All(u);
    }
  }

  lemma {:induction false} SelectCount(t: Table, a: Id, lo: nat, hi: nat)
    requires lo <= hi + 1
    ensures |Select(t, a, lo, hi)| <= hi + 1 - lo
    ensures |Select(t, a, lo, hi)| == hi + 1 - lo <==> forall i: nat | lo <= i <= hi :: Key(a, i) in t
    ensures lo <= hi && Key(a, hi) in t ==>
              Select(t, a, lo, hi) != [] && Select(t, a, lo, hi)[|Select(t, a, lo, hi)| - 1].0 == hi
    decreases hi + 1 - lo
  {
    if lo <= hi {
      SelectCount(t, a, lo + 1, hi);
    }
  }

  /** With snapshots off, the rows Load reads are all events of the aggregate exactly when none of them is archived:
      then its fold is full replay, else it starts the first hot event from the zero state. */
  lemma HotLogAloneIff(m: Model, st: Store, a: Id)
    requires LogInv(m, st)
    ensures var n := Top(All(st), a); var rows := Select(st.hot, a, 1, n);
      && (|rows| == n <==> NoneArchived(st, a))
      && (NoneArchived(st, a) ==>
            Consecutive(rows, All(st), a, 1) && FoldRows(m, m.init, rows) == Replay(m, All(st), a, n))
  {
    hide LogInv, Select, Replay, FoldRows, Top;
    HotTop(m, st, a);
    var n := Top(All(st), a);
    SelectCount(st.hot, a, 1, n);
    if NoneArchived(st, a) {
      forall i: nat | 1 <= i <= n ensures Key(a, i) in st.hot && st.hot[Key(a, i)] == All(st)[Key(a, i)] {
        assert Key(a, i) in All(st);
      }
      SelectConsecutive(st.hot, All(st), a, 1, n);
      ReplayZero(m, All(st), a);
      AllReplay(m, st, a);
      FoldConsecutive(m, All(st), a, 0, m.init, Select(st.hot, a, 1, n));
    } else {
      var k :| k in st.arch && k.agg == a;
      assert k == Key(a, k.aseq) && k in All(st) && k !in st.hot;
    }
  }

  lemma AllReplay(m: Model, st: Store, a: Id)
    requires LogInv(m, st)
    ensures forall i | 1 <= i <= Top(All(st), a) :: Replay(m, All(st), a, i).Some?
  {
    LogAfterRun(m, st, [], a);
  }

  /** The last row read from the hot log is the newest event. */
  lemma HotRows(m: Model, st: Store, a: Id, upTo: int, time: Option<Time>)
    requires LogInv(m, st) && upTo <= 0 && time.None?
    ensures var rows := Select(st.hot, a, 1, Top(st.hot, a));
      && Limit(Top(Source(st, upTo, time), a), upTo) == Top(st.hot, a) && Source(st, upTo, time) == st.hot
      && Within(rows, time) == |rows| && rows[..|rows|] == rows
      && (if Top(st.hot, a) == 0 then rows == [] else rows != [] && rows[|rows| - 1].0 == Top(st.hot, a))
  {
    hide LogInv, Top;
    HotTop(m, st, a);
    SelectCount(st.hot, a, 1, Top(st.hot, a));
    WithinLimit(Select(st.hot, a, 1, Top(st.hot, a)), time);
  }

  lemma ReplayZero(m: Model, t: Table, a: Id)
    ensures Replay(m, t, a, 0) == Some(m.init)
  {
  }

  lemma SecondRead(m: Model, st: Store, steps: seq<Step>, a: Id, upTo: int, time: Option<Time>, snapshots: bool)
    requires LogInv(m, st) && NewSnaps(m, st, steps, a) <= 1
    requires Complete(Run(m, st, steps), a, upTo, time, snapshots)
    ensures var from := if time.None? && snapshots then NewestSnap(st.snaps, a, upTo) else 0;
            var u := Run(m, st, steps);
            var hi := Limit(Top(Source(u, upTo, time), a), upTo);
            var rows := Select(Source(u, upTo, time), a, from + 1, hi);
      && hi == Limit(Top(All(u), a), upTo) && |rows| == hi - from
      && Consecutive(rows, All(u), a, from + 1)
      && (forall i | 1 <= i <= hi :: Key(a, i) in All(u) && Replay(m, All(u), a, i).Some?)
      && (from > 0 ==> Key(a, from) in st.snaps)
      && Replay(m, All(u), a, from) == Some(if from == 0 then m.init else st.snaps[Key(a, from)])
  {
    hide LogInv, Run, NewSnaps, NewestSnap, Replay, Top, Select, Consecutive, All;
    LogAfterRun(m, st, steps, a);
    SnapIsReplay(m, st, steps, a, upTo);
    ReplayZero(m, All(Run(m, st, steps)), a);
    var u := Run(m, st, steps);
    if upTo <= 0 && time.None? {
      if snapshots {
        RaceLeavesRestHot(m, st, steps, a, upTo);
      } else {
        AllHot(m, st, steps, a);
      }
    }
    RowsRead(u, a, if time.None? && snapshots then NewestSnap(st.snaps, a, upTo) else 0, upTo > 0 || time.Some?, upTo);
  }

  // ---------------------------------------------------------------- Load, Refresh, time travel

  /** An aggregate, ErrNotFound when nothing was folded, or the error of an Apply that refused an event. */
  datatype Answer = Found(agg: Aggregate) | NotFound | Refused

  method Rebuild(db: DB, id: Id, upTo: int, upToTime: Option<Time>, snapshots: bool) returns (r: Answer)
    requires db.Valid()
    modifies db
    ensures db.Valid()
    ensures Complete(db.st, id, upTo, upToTime, snapshots) ==>
              var all := All(db.st); var limit := Limit(Top(all, id), upTo);
              && !r.Refused?
              && (r.NotFound? <==> LongestPrefix(all, id, limit, upToTime, 0))
              && (r.Found? ==>
                    && fresh(r.agg) && r.agg.id == id
                    && LongestPrefix(all, id, limit, upToTime, r.agg.version)
                    && Replay(db.m, all, id, r.agg.version) == Some(r.agg.self))
    ensures !snapshots && upTo <= 0 && upToTime.None? ==>
              var folded := FoldRows(db.m, db.m.init, Select(db.st.hot, id, 1, Top(db.st.hot, id)));
              && (r.Refused? <==> folded.None?)
              && (r.Found? ==> r.agg.self == folded.value && r.agg.version == Top(db.st.hot, id))
  {
    var agg := new Aggregate(id, db.m.init);
    var ok := agg.FoldInto(db, upTo, upToTime, snapshots);
    hide LogInv, Replay, Limit, Top, NewestSnap, Extends, Complete, FoldRows, Select;
    if !ok {
      return Refused;
    }
    if agg.version == 0 {
      return NotFound;
    }
    if Complete(db.st, id, upTo, upToTime, snapshots) {
      PrefixUnique(All(db.st), id, Limit(Top(All(db.st), id), upTo), upToTime, agg.version);
    }
    return Found(agg);
  }

  lemma PrefixUnique(t: Table, a: Id, limit: nat, time: Option<Time>, v: nat)
    requires LongestPrefix(t, a, limit, time, v) && v > 0
    ensures !LongestPrefix(t, a, limit, time, 0)
  {
    if time.Some? {
      assert t[Key(a, 0 + 1)].time <= time.value;
    }
  }

  /** Load: the fold of the whole log, though it reads one snapshot and the hot log only. With snapshots off it is that
      only where nothing of the aggregate is archived (HotLogAloneIff), and else the fold of the hot events alone. */
  method Load(db: DB, id: Id, snapshots: bool) returns (r: Answer)
    requires db.Valid()
    modifies db
    ensures db.Valid()
    ensures snapshots || NoneArchived(db.st, id) ==>
              && (r.NotFound? <==> Top(All(db.st), id) == 0) && !r.Refused?
              && (r.Found? ==>
                    && fresh(r.agg) && r.agg.id == id && r.agg.version == Top(All(db.st), id)
                    && Replay(db.m, All(db.st), id, r.agg.version) == Some(r.agg.self))
    ensures !snapshots ==>
              var folded := FoldRows(db.m, db.m.init, Select(db.st.hot, id, 1, Top(db.st.hot, id)));
              && (r.Refused? <==> folded.None?)
              && (r.Found? ==> r.agg.self == folded.value && r.agg.version == Top(db.st.hot, id))
  {
    r := Rebuild(db, id, 0, None, snapshots);
  }

  /** AtVersion(v) for v >= 1: the fold of the first min(v, n) events; for v <= 0 it is Load. */
  method AtVersion(db: DB, id: Id, v: int, snapshots: bool) returns (r: Answer)
    requires db.Valid()
    modifies db
    ensures db.Valid()
    ensures v >= 1 || snapshots || NoneArchived(db.st, id) ==>
              && (r.NotFound? <==> Top(All(db.st), id) == 0) && !r.Refused?
              && (r.Found? ==>
                    && fresh(r.agg)
                    && r.agg.version == (if 1 <= v < Top(All(db.st), id) then v else Top(All(db.st), id))
                    && Replay(db.m, All(db.st), id, r.agg.version) == Some(r.agg.self))
  {
    r := Rebuild(db, id, v, None, snapshots);
  }

  /** AtTime(t): the fold of the longest prefix with no event after t. */
  method AtTime(db: DB, id: Id, t: Time, snapshots: bool) returns (r: Answer)
    requires db.Valid()
    modifies db
    ensures db.Valid()
    ensures var all := All(db.st);
      && (r.NotFound? <==> Top(all, id) == 0 || (Key(id, 1) in all && all[Key(id, 1)].time > t)) && !r.Refused?
      && (r.Found? ==>
            && fresh(r.agg)
            && LongestPrefix(all, id, Top(all, id), Some(t), r.agg.version)
            && Replay(db.m, all, id, r.agg.version) == Some(r.agg.self))
  {
    r := Rebuild(db, id, 0, Some(t), snapshots);
  }

  // ---------------------------------------------------------------- the bound is tight

  /** Exactly when one archive pass takes the event after v away from the hot log: when the second-youngest snapshot
      is newer than v, so when two snapshots newer than v exist, and the checkpoint read covers the event. */
  lemma ArchiverOvertakes(m: Model, st: Store, a: Id, v: nat, cp: nat)
    requires LogInv(m, st) && Key(a, v + 1) in st.hot && SecondYoungest(st.snaps, a).Some?
    ensures var b := SecondYoungest(st.snaps, a).value;
      Key(a, v + 1) !in Archived(BoundRead(st, a), a, b, cp).hot <==> b > v && st.hot[Key(a, v + 1)].gseq <= cp
  {
    HomeIsHot(m, st, a, v);
    hide SecondYoungest, LogInv, Top;
    var b := SecondYoungest(st.snaps, a).value;
    assert Key(a, b) in BoundRead(st, a).bounds;
  }

  lemma HomeIsHot(m: Model, st: Store, a: Id, v: nat)
    requires LogInv(m, st) && Key(a, v + 1) in st.hot
    ensures Key(a, Top(st.hot, a)) in st.hot && st.hot[Key(a, v + 1)].gseq >= 1
  {
    hide Replayable, Ordered, Pinned, UniqueSeqs;
    NewestIsHot(st, a);
    assert Key(a, v + 1) in All(st) && All(st)[Key(a, v + 1)] == st.hot[Key(a, v + 1)];
  }
}

/** Concurrent Append, statement by statement: read the log top, read MAX(seq), insert, apply in memory, commit under
    the unique keys, retry (aggregate.go:227-386), while workers snapshot, archive and project. Any number of
    processes interleave; the store they share goes through a run of atomic steps. */
module AppendRace {
  import opened Wrappers
  import opened EventStore
  import opened EventSteps
  import opened ArchiveRace
  import opened UniqueKeys
  import Atomic = EventRuns

  datatype Outcome = NotYet | Committed | VersionConflict | Failed

  /** An in-memory aggregate; stale after an error behind Apply, until it is loaded anew. */
  datatype Handle = Handle(agg: Id, version: nat, mem: State, stale: bool, last: Outcome)

  /** One call of Append: payloads, timestamp, region of the context, attempts so far. */
  datatype Call = Call(ctx: Geo, now: Time, ps: seq<Payload>, attempt: nat)

  datatype Pc =
    | Idle
    | Begun(c: Call)                          // transaction open, nothing read
    | TopRead(c: Call, geo: Geo)              // optimistic check passed, region fixed
    | SeqRead(c: Call, geo: Geo, top: nat)    // MAX(seq) of the region read
    | Staged(c: Call, geo: Geo, top: nat)     // rows inserted, not committed
    | Applied(c: Call, geo: Geo, top: nat)    // payloads applied in memory

  /** ref, taken and calm are history that no step reads: the store when the attempt read the log top, the aggregates
      with a new snapshot since, and whether none of them got a second one. */
  datatype Proc = Proc(h: Handle, pc: Pc, ref: Store, taken: set<Id>, calm: bool)

  datatype Commit = Commit(agg: Id, base: nat, count: nat)

  /** The store, the processes, the commits so far, and whether the primary key ends in the region. */
  datatype Sys = Sys(st: Store, procs: map<nat, Proc>, commits: seq<Commit>, byGeo: bool)

  // ---------------------------------------------------------------- steps

  datatype Step =
    | New(p: nat, a: Id)
    | Load(p: nat, a: Id)
    | Begin(p: nat, ctx: Geo, now: Time, ps: seq<Payload>)
    | ReadTop(p: nat)
    | ReadSeq(p: nat)
    | Insert(p: nat)
    | Apply(p: nat)
    | Finish(p: nat)
    | Disturb(p: nat, retryable: bool)   // a serialization failure, a lost connection, a crash
    | House(work: Atomic.Step)           // snapshot, bound, archive run, upsert or checkpoint of a worker

  /** The id is in use: New draws one that is not. */
  predicate Known(s: Sys, a: Id) {
    (exists k <- All(s.st).Keys :: k.agg == a) || (exists p <- s.procs.Keys :: s.procs[p].h.agg == a)
  }

  function SetProc(s: Sys, p: nat, h: Handle, pc: Pc): Sys {
    s.(procs := s.procs[p := if p in s.procs then s.procs[p].(h := h, pc := pc) else Proc(h, pc, s.st, {}, true)])
  }

  /** The retry loop: a collision or serialization failure before Apply starts over, at most eight times. */
  function Retried(s: Sys, p: nat, h: Handle, c: Call): Sys {
    if c.attempt < MAX_ATTEMPT then SetProc(s, p, h, Begun(c.(attempt := c.attempt + 1)))
    else SetProc(s, p, h.(last := Failed), Idle)
  }

  function Do(m: Model, s: Sys, step: Step): Sys {
    if step.House? then DoHouse(m, s, step.work)
    else if step.New? || step.Load? then DoOpen(m, s, step)
    else if step.p in s.procs then DoProc(m, s, step, s.procs[step.p])
    else s
  }

  function DoOpen(m: Model, s: Sys, step: Step): Sys
    requires step.New? || step.Load?
  {
    var n := Top(s.st.hot, step.a);
    if step.p in s.procs && !s.procs[step.p].pc.Idle? then s
    else if step.New? then
      if Known(s, step.a) then s else SetProc(s, step.p, Handle(step.a, 0, m.init, false, NotYet), Idle)
    else if n == 0 || Replay(m, All(s.st), step.a, n).None? then s
    else SetProc(s, step.p, Handle(step.a, n, Replay(m, All(s.st), step.a, n).value, false, NotYet), Idle)
  }

  function DoHouse(m: Model, s: Sys, work: Atomic.Step): Sys {
    if work.Append? then s
    else
      s.(st := Atomic.Do(m, s.st, work),
         procs := map p | p in s.procs :: Watching(s.st, work, s.procs[p]))
  }

  function Watching(st: Store, work: Atomic.Step, pr: Proc): Proc {
    pr.(taken := Took(st, work, None, pr.taken), calm := pr.calm && CalmStep(st, work, None, pr.taken))
  }

  function DoProc(m: Model, s: Sys, step: Step, pr: Proc): Sys
    requires !step.House? && !step.New? && !step.Load?
  {
    var h, pc := pr.h, pr.pc;
    match step
    case Begin(p, ctx, now, ps) =>
      if pc.Idle? && !h.stale && ps != [] then SetProc(s, p, h, Begun(Call(ctx, now, ps, 0))) else s
    case ReadTop(p) =>
      if !pc.Begun? then s
      else
        var cur := Top(s.st.hot, h.agg);
        if cur > h.version then SetProc(s, p, h.(last := VersionConflict), Idle)
        else s.(procs := s.procs[p := Proc(h, TopRead(pc.c, HomeGeo(s.st, h.agg, pc.c.ctx)), s.st, {}, true)])
    case ReadSeq(p) =>
      if pc.TopRead? then SetProc(s, p, h, SeqRead(pc.c, pc.geo, MaxSeq(s.st.hot, pc.geo))) else s
    case Insert(p) =>
      if !pc.SeqRead? then s
      else if Collides(s, h, pc) then SetProc(s, p, h.(last := VersionConflict), Idle)
      else if SeqTaken(s.st.hot, pc.geo, pc.top, |pc.c.ps|) then Retried(s, p, h, pc.c)
      else SetProc(s, p, h, Staged(pc.c, pc.geo, pc.top))
    case Apply(p) =>
      if !pc.Staged? then s
      else
        var applied := ApplyAll(m, h.mem, h.version, pc.c.now, pc.c.ps);
        if applied.None? then SetProc(s, p, h.(stale := true, last := Failed), Idle)
        else SetProc(s, p, h.(mem := applied.value), Applied(pc.c, pc.geo, pc.top))
    case Finish(p) =>
      if !pc.Applied? then s
      else if Collides(s, h, pc) then SetProc(s, p, h.(stale := true, last := VersionConflict), Idle)
      else if SeqTaken(s.st.hot, pc.geo, pc.top, |pc.c.ps|) then SetProc(s, p, h.(stale := true, last := Failed), Idle)
      else
        SetProc(s, p, AfterCommit(h, pc), Idle).(
          st := UniqueKeys.Committed(s.st, h.agg, h.version, pc.geo, pc.top, pc.c.now, pc.c.ps, h.mem),
          commits := s.commits + [Commit(h.agg, h.version, |pc.c.ps|)])
    case Disturb(p, retryable) =>
      if pc.Idle? then s
      else if pc.Applied? then SetProc(s, p, h.(stale := true, last := Failed), Idle)
      else if retryable then Retried(s, p, h, pc.c)
      else SetProc(s, p, h.(last := Failed), Idle)
  }

  /** The primary key of the log refuses the new rows. */
  predicate Collides(s: Sys, h: Handle, pc: Pc)
    requires SeqKnown(pc)
  {
    KeyTaken(s.st.hot, h.agg, h.version, pc.geo, |pc.c.ps|, s.byGeo)
  }

  predicate SeqKnown(pc: Pc) {
    pc.SeqRead? || pc.Staged? || pc.Applied?
  }

  predicate InFlight(pc: Pc) {
    pc.TopRead? || SeqKnown(pc)
  }

  function AfterCommit(h: Handle, pc: Pc): Handle
    requires pc.Applied?
  {
    h.(version := h.version + |pc.c.ps|, last := Committed)
  }

  /** Step Finish(p) commits now. */
  predicate Commits(s: Sys, p: nat) {
    && p in s.procs && s.procs[p].pc.Applied? && !Collides(s, s.procs[p].h, s.procs[p].pc)
    && !SeqTaken(s.st.hot, s.procs[p].pc.geo, s.procs[p].pc.top, |s.procs[p].pc.c.ps|)
  }

  /** The step gives no aggregate a second new snapshot within one running attempt. */
  predicate CalmFor(s: Sys, step: Step) {
    step.House? ==>
      forall p <- s.procs.Keys | InFlight(s.procs[p].pc) :: CalmStep(s.st, step.work, None, s.procs[p].taken)
  }

  /** If the step commits, no archived event is one that the new rows would collide with. */
  ghost predicate Clear(s: Sys, step: Step) {
    step.Finish? && Commits(s, step.p) ==> ClearCommit(s, s.procs[step.p].h, s.procs[step.p].pc)
  }

  ghost predicate ClearCommit(s: Sys, h: Handle, pc: Pc)
    requires SeqKnown(pc)
  {
    Unarchived(s.st.arch, h.agg, h.version, pc.geo, pc.top, |pc.c.ps|)
  }

  // ---------------------------------------------------------------- invariant

  /** What a process knows that stays true while others commit. */
  ghost predicate ProcOk(m: Model, log: Table, h: Handle, pc: Pc) {
    && (!pc.Idle? ==> !h.stale && pc.c.ps != [])
    && (!h.stale ==>
          && (h.version > 0 ==> Key(h.agg, h.version) in log)
          && Replay(m, log, h.agg, h.version).Some?
          && (if pc.Applied?
              then ApplyAll(m, Replay(m, log, h.agg, h.version).value, h.version, pc.c.now, pc.c.ps) == Some(h.mem)
              else Replay(m, log, h.agg, h.version).value == h.mem))
    && (InFlight(pc) && h.version > 0 ==> log[Key(h.agg, h.version)].geo == pc.geo)
    && (SeqKnown(pc) ==> forall s | 1 <= s <= pc.top :: Issued(log, pc.geo, s))
  }

  ghost predicate Below(t: Table, g: Geo, top: nat) {
    forall k <- t | t[k].geo == g :: t[k].gseq <= top
  }

  /** How far the archiver can have got since the attempt's first read. */
  ghost predicate WindowOk(m: Model, st: Store, pr: Proc) {
    InFlight(pr.pc) ==>
      && LogInv(m, pr.ref) && Extends(All(pr.ref), All(st)) && (pr.calm ==> Trails(pr.ref, st, None, pr.taken))
      && Top(pr.ref.hot, pr.h.agg) == pr.h.version
      && (SeqKnown(pr.pc) ==> Below(All(pr.ref), pr.pc.geo, pr.pc.top))
  }

  /** Nobody else has, and nothing is logged of, an aggregate that was created and not yet committed. */
  ghost predicate Unborn(s: Sys, p: nat)
    requires p in s.procs
  {
    !s.procs[p].h.stale && s.procs[p].h.version == 0 ==>
      && (forall k <- All(s.st) :: k.agg != s.procs[p].h.agg)
      && (forall q <- s.procs | q != p :: s.procs[q].h.agg != s.procs[p].h.agg)
  }

  /** Commits of one aggregate stack up: none starts below the end of an earlier one. */
  ghost predicate CommitsOk(log: Table, commits: seq<Commit>) {
    && (forall i | 0 <= i < |commits| :: commits[i].count > 0
          && Key(commits[i].agg, commits[i].base + commits[i].count) in log)
    && (forall i, j | 0 <= i < j < |commits| && commits[i].agg == commits[j].agg ::
          commits[i].base + commits[i].count <= commits[j].base)
  }

  ghost predicate Knows(m: Model, st: Store, pr: Proc) {
    ProcOk(m, All(st), pr.h, pr.pc) && WindowOk(m, st, pr)
  }

  ghost predicate Inv(m: Model, s: Sys) {
    && LogInv(m, s.st)
    && (forall p <- s.procs :: Knows(m, s.st, s.procs[p]) && Unborn(s, p))
    && CommitsOk(All(s.st), s.commits)
  }

  // ---------------------------------------------------------------- knowledge survives other steps

  lemma ProcOkStays(m: Model, t: Table, u: Table, h: Handle, pc: Pc)
    requires Extends(t, u) && ProcOk(m, t, h, pc)
    ensures ProcOk(m, u, h, pc)
  {
    if !h.stale {
      ExtendsReplay(m, t, u, h.agg, h.version);
    }
    if SeqKnown(pc) {
      forall s | 1 <= s <= pc.top ensures Issued(u, pc.geo, s) {
        IssuedStays(t, u, pc.geo, s);
      }
    }
    hide Contiguous, Replay;
  }

  lemma ExtendsTransitive(t: Table, u: Table, w: Table)
    requires Extends(t, u) && Extends(u, w)
    ensures Extends(t, w)
  {
    hide Contiguous;
  }

  lemma KnowsStays(m: Model, st: Store, u: Store, pr: Proc, taken: set<Id>, calm: bool)
    requires Knows(m, st, pr) && Extends(All(st), All(u)) && (calm ==> pr.calm)
    requires InFlight(pr.pc) && calm && Trails(pr.ref, st, None, pr.taken) ==> Trails(pr.ref, u, None, taken)
    ensures Knows(m, u, pr.(taken := taken, calm := calm))
  {
    hide ProcOk, Extends, LogInv, Below, Trails;
    ProcOkStays(m, All(st), All(u), pr.h, pr.pc);
    if InFlight(pr.pc) {
      ExtendsTransitive(All(pr.ref), All(st), All(u));
    }
  }

  // ---------------------------------------------------------------- the commit is one atomic step

  /** The Append step that a commit amounts to. */
  function CommitStep(h: Handle, pc: Pc): Atomic.Step
    requires pc.Applied?
  {
    Atomic.Append(h.agg, pc.geo, h.version, pc.c.now, pc.c.ps)
  }

  lemma NothingHidden(m: Model, st: Store, pr: Proc)
    requires LogInv(m, st) && WindowOk(m, st, pr) && SeqKnown(pr.pc) && pr.calm
    ensures Unarchived(st.arch, pr.h.agg, pr.h.version, pr.pc.geo, pr.pc.top, |pr.pc.c.ps|)
  {
    hide LogInv, Trails, Top, Extends;
    LaterIsHot(m, pr.ref, st, None, pr.taken);
    HotTop(m, pr.ref, pr.h.agg);
    forall j | j in st.arch && j.agg == pr.h.agg ensures j.aseq <= pr.h.version {
      assert j == Key(pr.h.agg, j.aseq) && j in All(pr.ref);
    }
  }

  lemma KeyIsEnough(m: Model, s: Sys, p: nat)
    requires LogInv(m, s.st) && Commits(s, p) && Unborn(s, p)
    requires ProcOk(m, All(s.st), s.procs[p].h, s.procs[p].pc)
    ensures var h, pc := s.procs[p].h, s.procs[p].pc;
      && !PkCollides(s.st.hot, h.agg, h.version, |pc.c.ps|)
      && Reads(All(s.st), h.agg, h.version, pc.geo, pc.top)
  {
    hide LogInv, PkCollides, GeoPkCollides, SeqTaken, Replay, ApplyAll, Issued;
    var h, pc := s.procs[p].h, s.procs[p].pc;
    if s.byGeo {
      HotTop(m, s.st, h.agg);
      LogParts(m, s.st);
      GeoColumnIsFree(s.st.hot, All(s.st), h.agg, h.version, pc.geo, |pc.c.ps|);
    }
  }

  function NewStore(s: Sys, h: Handle, pc: Pc): Store
    requires pc.Applied?
  {
    UniqueKeys.Committed(s.st, h.agg, h.version, pc.geo, pc.top, pc.c.now, pc.c.ps, h.mem)
  }

  lemma FinishStores(m: Model, s: Sys, p: nat)
    requires Commits(s, p)
    ensures var h, pc := s.procs[p].h, s.procs[p].pc; var u := Do(m, s, Finish(p));
      && u.st == NewStore(s, h, pc) && u.commits == s.commits + [Commit(h.agg, h.version, |pc.c.ps|)]
      && u.byGeo == s.byGeo
      && u.procs == s.procs[p := s.procs[p].(h := AfterCommit(h, pc), pc := Idle)]
  {
    hide KeyTaken, SeqTaken, UniqueKeys.Committed;
  }

  ghost predicate Atomically(m: Model, st: Store, u: Store, h: Handle, pc: Pc)
    requires pc.Applied?
  {
    && u == Atomic.Do(m, st, CommitStep(h, pc)) && u != st
    && LogInv(m, u) && Extends(All(st), All(u)) && Top(All(st), h.agg) == h.version
    && u.arch == st.arch && u.snaps == st.snaps && u.bounds == st.bounds
    && (forall k :: k in All(u) <==> k in All(st) || (k.agg == h.agg && h.version < k.aseq <= h.version + |pc.c.ps|))
    && Replay(m, All(u), h.agg, h.version + |pc.c.ps|) == Some(h.mem)
  }

  lemma CommitIsCurrent(m: Model, s: Sys, p: nat)
    requires LogInv(m, s.st) && Commits(s, p) && Knows(m, s.st, s.procs[p]) && Unborn(s, p) && Clear(s, Finish(p))
    ensures var h, pc := s.procs[p].h, s.procs[p].pc;
      && Top(s.st.hot, h.agg) == h.version && HomeGeo(s.st, h.agg, pc.geo) == pc.geo
      && MaxSeq(s.st.hot, pc.geo) == pc.top
      && Replay(m, All(s.st), h.agg, h.version).Some? && pc.c.ps != []
      && ApplyAll(m, Replay(m, All(s.st), h.agg, h.version).value, h.version, pc.c.now, pc.c.ps) == Some(h.mem)
  {
    hide LogInv, Replay, ApplyAll, Top, MaxSeq, PkCollides, SeqCollides, Reads, Unarchived, WindowOk, Unborn, HomeGeo,
         Collides, ProcOk, Issued;
    var h, pc := s.procs[p].h, s.procs[p].pc;
    KeyIsEnough(m, s, p);
    AppliedOk(m, All(s.st), h, pc);
    NothingCameBetween(m, s.st, h.agg, h.version, pc.geo, pc.top, |pc.c.ps|);
  }

  /** A commit that passes both keys is the atomic Append step at the log top. */
  lemma CommitIsAtomic(m: Model, s: Sys, p: nat)
    requires LogInv(m, s.st) && Commits(s, p) && Knows(m, s.st, s.procs[p]) && Unborn(s, p) && Clear(s, Finish(p))
    ensures Atomically(m, s.st, Do(m, s, Finish(p)).st, s.procs[p].h, s.procs[p].pc)
  {
    hide LogInv, Replay, ApplyAll, Top, MaxSeq, Knows, Unborn, HomeGeo, UniqueKeys.Committed, Extends, Do, Collides,
         SeqTaken,
         Appended;
    FinishStores(m, s, p);
    CommitIsCurrent(m, s, p);
    var h, pc := s.procs[p].h, s.procs[p].pc;
    CommitIsAppended(m, s.st, h.agg, h.version, Replay(m, All(s.st), h.agg, h.version).value, pc.geo, pc.top, pc.c.now,
                     pc.c.ps, h.mem);
  }

  lemma AppliedOk(m: Model, log: Table, h: Handle, pc: Pc)
    requires ProcOk(m, log, h, pc) && pc.Applied?
    ensures Replay(m, log, h.agg, h.version).Some? && pc.c.ps != [] && !h.stale
    ensures ApplyAll(m, Replay(m, log, h.agg, h.version).value, h.version, pc.c.now, pc.c.ps) == Some(h.mem)
  {
    hide Replay, ApplyAll;
  }

  // ---------------------------------------------------------------- every step keeps the invariant

  lemma TrailsSame(ref: Store, st: Store, u: Store, taken: set<Id>)
    requires Trails(ref, st, None, taken) && u.arch == st.arch && u.snaps == st.snaps && u.bounds == st.bounds
    ensures Trails(ref, u, None, taken)
  {
    hide Top;
    forall a ensures TrailsIn(ref, u, taken, a) {
      assert TrailsIn(ref, st, taken, a);
    }
  }

  lemma CommittedOk(m: Model, st: Store, pr: Proc)
    requires pr.pc.Applied? && !pr.h.stale
    requires Key(pr.h.agg, pr.h.version + |pr.pc.c.ps|) in All(st)
    requires Replay(m, All(st), pr.h.agg, pr.h.version + |pr.pc.c.ps|) == Some(pr.h.mem)
    ensures Knows(m, st, pr.(h := AfterCommit(pr.h, pr.pc), pc := Idle))
  {
    hide Replay;
  }

  lemma CommitsStack(s: Table, u: Table, commits: seq<Commit>, c: Commit)
    requires CommitsOk(s, commits) && Extends(s, u)
    requires Top(s, c.agg) == c.base && c.count > 0 && Key(c.agg, c.base + c.count) in u
    ensures CommitsOk(u, commits + [c])
  {
    TopOfContiguous(s, c.agg);
    var cs := commits + [c];
    forall i, j | 0 <= i < j < |cs| && cs[i].agg == cs[j].agg
      ensures cs[i].base + cs[i].count <= cs[j].base {
      if j == |commits| {
        assert Key(commits[i].agg, commits[i].base + commits[i].count) in s;
      }
    }
    hide Contiguous;
  }

  /** A committed handle's memory is the fold of its longer prefix. */
  lemma CommitKeepsInv(m: Model, s: Sys, p: nat)
    requires Inv(m, s) && Commits(s, p) && Clear(s, Finish(p))
    ensures var u := Do(m, s, Finish(p)); Inv(m, u) && Extends(All(s.st), All(u.st))
    ensures Atomically(m, s.st, Do(m, s, Finish(p)).st, s.procs[p].h, s.procs[p].pc)
  {
    hide LogInv, Replay, Top, Knows, Unborn, Extends, Do, Collides, SeqTaken, CommitsOk, UniqueKeys.Committed;
    CommitIsAtomic(m, s, p);
    FinishStores(m, s, p);
    CommitKeepsProcs(m, s, p);
    var u := Do(m, s, Finish(p));
    forall q | q in u.procs ensures Unborn(u, q) {
      CommitKeepsUnborn(m, s, p, q);
    }
    CommitsStack(All(s.st), All(u.st), s.commits, Commit(s.procs[p].h.agg, s.procs[p].h.version, |s.procs[p].pc.c.ps|))
      by { CommitCounts(m, s, p); }
  }

  lemma CommitCounts(m: Model, s: Sys, p: nat)
    requires p in s.procs && s.procs[p].pc.Applied? && Knows(m, s.st, s.procs[p])
    ensures |s.procs[p].pc.c.ps| > 0 && !s.procs[p].h.stale
  {
    hide Replay, WindowOk;
  }

  lemma CommitKeepsProcs(m: Model, s: Sys, p: nat)
    requires Inv(m, s) && Commits(s, p)
    requires Atomically(m, s.st, Do(m, s, Finish(p)).st, s.procs[p].h, s.procs[p].pc)
    ensures var u := Do(m, s, Finish(p)); forall q <- u.procs :: Knows(m, u.st, u.procs[q])
  {
    hide LogInv, Replay, Top, Knows, Unborn, Extends, Do, CommitsOk, UniqueKeys.Committed, Collides, SeqTaken, Trails;
    FinishStores(m, s, p);
    var u := Do(m, s, Finish(p));
    forall q | q in u.procs ensures Knows(m, u.st, u.procs[q]) {
      if q == p {
        CommitCounts(m, s, p);
        CommittedOk(m, u.st, s.procs[p]);
      } else {
        if Trails(s.procs[q].ref, s.st, None, s.procs[q].taken) {
          TrailsSame(s.procs[q].ref, s.st, u.st, s.procs[q].taken);
        }
        KnowsStays(m, s.st, u.st, s.procs[q], s.procs[q].taken, s.procs[q].calm);
      }
    }
  }

  lemma CommitKeepsUnborn(m: Model, s: Sys, p: nat, q: nat)
    requires Inv(m, s) && Commits(s, p) && q in s.procs
    requires Atomically(m, s.st, Do(m, s, Finish(p)).st, s.procs[p].h, s.procs[p].pc)
    ensures q in Do(m, s, Finish(p)).procs && Unborn(Do(m, s, Finish(p)), q)
  {
    hide LogInv, Replay, Top, Knows, Extends, Do, CommitsOk, UniqueKeys.Committed, Collides, SeqTaken;
    FinishStores(m, s, p);
    CommitCounts(m, s, p);
    assert Unborn(s, q);
  }

  lemma HouseKeepsInv(m: Model, s: Sys, work: Atomic.Step)
    requires Inv(m, s) && !work.Append?
    ensures var u := Do(m, s, House(work)); Inv(m, u) && Extends(All(s.st), All(u.st))
  {
    hide LogInv, Knows, Extends, Atomic.Do, CommitsOk, All, Took, CalmStep;
    Atomic.StepKeepsLog(m, s.st, work);
    Atomic.StepExtends(m, s.st, work);
    Atomic.HouseKeepsAll(m, s.st, work);
    var u := Do(m, s, House(work));
    forall q | q in u.procs ensures Knows(m, u.st, u.procs[q]) && Unborn(u, q) {
      var pr := s.procs[q];
      var calm := pr.calm && CalmStep(s.st, work, None, pr.taken);
      if calm && InFlight(pr.pc) && Trails(pr.ref, s.st, None, pr.taken) {
        StepStaysTrailing(m, pr.ref, s.st, work, None, pr.taken);
      }
      KnowsStays(m, s.st, u.st, pr, Took(s.st, work, None, pr.taken), calm);
      assert Unborn(s, q);
    }
  }

  // ---------------------------------------------------------------- steps of one process

  /** What a process may become while its handle stays the same one. */
  ghost predicate Follows(pr: Proc, next: Proc) {
    next.h.agg == pr.h.agg && next.h.version == pr.h.version && (pr.h.stale ==> next.h.stale)
  }

  lemma PutKeepsInv(m: Model, s: Sys, p: nat, next: Proc)
    requires Inv(m, s) && p in s.procs && Follows(s.procs[p], next) && Knows(m, s.st, next)
    ensures Inv(m, s.(procs := s.procs[p := next]))
  {
    hide LogInv, Knows, CommitsOk, All;
    var u := s.(procs := s.procs[p := next]);
    forall q | q in u.procs ensures Unborn(u, q) {
      assert Unborn(s, q) && Unborn(s, p);
    }
  }

  /** A read of the log top that finds no conflict finds the handle's own version. */
  lemma ReadTopOk(m: Model, st: Store, pr: Proc)
    requires LogInv(m, st) && Knows(m, st, pr) && pr.pc.Begun? && Top(st.hot, pr.h.agg) <= pr.h.version
    ensures Knows(m, st, Proc(pr.h, TopRead(pr.pc.c, HomeGeo(st, pr.h.agg, pr.pc.c.ctx)), st, {}, true))
  {
    hide LogInv, Top, Replay, Trails, Contiguous;
    HotTop(m, st, pr.h.agg);
    LogParts(m, st);
    StartsTrailing(m, st, None);
  }

  lemma ReadSeqOk(m: Model, st: Store, pr: Proc)
    requires LogInv(m, st) && Knows(m, st, pr) && pr.pc.TopRead?
    ensures Knows(m, st, pr.(pc := SeqRead(pr.pc.c, pr.pc.geo, MaxSeq(st.hot, pr.pc.geo))))
  {
    hide LogInv, Top, MaxSeq, Replay, Trails, Contiguous, Issued;
    RegionIssued(m, st, pr.pc.geo);
    forall k | k in All(pr.ref) && All(pr.ref)[k].geo == pr.pc.geo
      ensures All(pr.ref)[k].gseq <= MaxSeq(st.hot, pr.pc.geo) {
      assert Issued(All(st), pr.pc.geo, All(st)[k].gseq) by { IssuedHere(All(st), k); }
    }
  }

  /** The step leaves the store alone and changes at most the process, whose knowledge is right. */
  ghost predicate Quietly(m: Model, s: Sys, u: Sys, p: nat)
    requires p in s.procs
  {
    u == s || (p in u.procs && u == s.(procs := s.procs[p := u.procs[p]])
               && Follows(s.procs[p], u.procs[p]) && Knows(m, s.st, u.procs[p]))
  }

  lemma ReadStep(m: Model, s: Sys, step: Step)
    requires LogInv(m, s.st) && (step.ReadTop? || step.ReadSeq?) && step.p in s.procs
    requires Knows(m, s.st, s.procs[step.p])
    ensures Quietly(m, s, Do(m, s, step), step.p)
  {
    hide LogInv, Top, MaxSeq, Replay, ApplyAll, Trails, HomeGeo, Extends, Issued, Below, All;
    var pr := s.procs[step.p];
    if step.ReadTop? && pr.pc.Begun? && Top(s.st.hot, pr.h.agg) <= pr.h.version {
      ReadTopOk(m, s.st, pr);
    }
    if step.ReadSeq? && pr.pc.TopRead? {
      ReadSeqOk(m, s.st, pr);
    }
  }

  lemma BeginStep(m: Model, s: Sys, step: Step)
    requires step.Begin? && step.p in s.procs
    requires Knows(m, s.st, s.procs[step.p])
    ensures Quietly(m, s, Do(m, s, step), step.p)
  {
    hide LogInv, Top, Replay, ApplyAll, Trails, Extends, Issued, Below, All;
  }

  /** Before Apply a process may give up or start over; after it, its handle is stale. */
  lemma FallsBack(m: Model, st: Store, pr: Proc, next: Proc)
    requires Knows(m, st, pr) && next.h.agg == pr.h.agg && next.h.version == pr.h.version
    requires next.ref == pr.ref && next.taken == pr.taken && next.calm == pr.calm
    requires next.pc.Idle? || (next.pc.Begun? && !next.h.stale && !pr.pc.Idle? && next.pc.c.ps == pr.pc.c.ps)
    requires !next.h.stale ==> !pr.pc.Applied? && next.h.mem == pr.h.mem && !pr.h.stale
    ensures Knows(m, st, next)
  {
    hide Replay, ApplyAll, LogInv, Trails, Extends, Below, Issued, Top;
  }

  lemma StagedOk(m: Model, st: Store, pr: Proc)
    requires Knows(m, st, pr) && pr.pc.SeqRead?
    ensures Knows(m, st, pr.(pc := Staged(pr.pc.c, pr.pc.geo, pr.pc.top)))
  {
    hide Replay, ApplyAll, LogInv, Trails, Extends, Below, Issued, Top;
  }

  lemma BusyIsFresh(m: Model, st: Store, pr: Proc)
    requires Knows(m, st, pr) && !pr.pc.Idle?
    ensures !pr.h.stale
  {
    hide Replay, ApplyAll, WindowOk;
  }

  lemma InsertStep(m: Model, s: Sys, step: Step)
    requires step.Insert? && step.p in s.procs
    requires Knows(m, s.st, s.procs[step.p])
    ensures Quietly(m, s, Do(m, s, step), step.p)
  {
    hide Knows, Collides, SeqTaken;
    var pr := s.procs[step.p];
    if pr.pc.SeqRead? {
      BusyIsFresh(m, s.st, pr);
      var next := Do(m, s, step).procs[step.p];
      if next.pc.Staged? {
        StagedOk(m, s.st, pr);
      } else {
        FallsBack(m, s.st, pr, next);
      }
    }
  }

  lemma ApplyStep(m: Model, s: Sys, step: Step)
    requires step.Apply? && step.p in s.procs
    requires Knows(m, s.st, s.procs[step.p])
    ensures Quietly(m, s, Do(m, s, step), step.p)
  {
    hide LogInv, Top, Replay, ApplyAll, Trails, Extends, Issued, Below, All;
  }

  lemma EndStep(m: Model, s: Sys, step: Step)
    requires (step.Disturb? || (step.Finish? && !Commits(s, step.p))) && step.p in s.procs
    requires Knows(m, s.st, s.procs[step.p])
    ensures Quietly(m, s, Do(m, s, step), step.p)
  {
    hide Knows, Collides, SeqTaken, UniqueKeys.Committed;
    var pr := s.procs[step.p];
    if !pr.pc.Idle? {
      BusyIsFresh(m, s.st, pr);
      if step.Disturb? || pr.pc.Applied? {
        FallsBack(m, s.st, pr, Do(m, s, step).procs[step.p]);
      }
    }
  }

  /** Every step of a process that does not commit leaves the store alone and its own knowledge right. */
  lemma ProcStep(m: Model, s: Sys, step: Step)
    requires LogInv(m, s.st) && !step.House? && !step.New? && !step.Load? && step.p in s.procs
    requires Knows(m, s.st, s.procs[step.p]) && (step.Finish? ==> !Commits(s, step.p))
    ensures Quietly(m, s, Do(m, s, step), step.p)
  {
    hide LogInv, Knows, Do, Quietly, Commits;
    if step.ReadTop? || step.ReadSeq? {
      ReadStep(m, s, step);
    } else if step.Begin? {
      BeginStep(m, s, step);
    } else if step.Insert? {
      InsertStep(m, s, step);
    } else if step.Apply? {
      ApplyStep(m, s, step);
    } else {
      EndStep(m, s, step);
    }
  }

  lemma NewKeepsInv(m: Model, s: Sys, p: nat, a: Id)
    requires Inv(m, s) && !Known(s, a)
    ensures Inv(m, SetProc(s, p, Handle(a, 0, m.init, false, NotYet), Idle))
  {
    hide LogInv, CommitsOk, All;
    assert Replay(m, All(s.st), a, 0) == Some(m.init);
    hide Replay;
    var u := SetProc(s, p, Handle(a, 0, m.init, false, NotYet), Idle);
    forall q | q in u.procs ensures Knows(m, u.st, u.procs[q]) && Unborn(u, q) {
      assert q != p ==> Unborn(s, q) && Knows(m, s.st, s.procs[q]);
    }
  }

  lemma LoadKeepsInv(m: Model, s: Sys, p: nat, a: Id)
    requires Inv(m, s) && Top(s.st.hot, a) > 0 && Replay(m, All(s.st), a, Top(s.st.hot, a)).Some?
    ensures var n := Top(s.st.hot, a);
      Inv(m, SetProc(s, p, Handle(a, n, Replay(m, All(s.st), a, n).value, false, NotYet), Idle))
  {
    hide LogInv, CommitsOk, All, Replay, Top;
    HotTop(m, s.st, a);
    var n := Top(s.st.hot, a);
    var u := SetProc(s, p, Handle(a, n, Replay(m, All(s.st), a, n).value, false, NotYet), Idle);
    assert Key(a, n) in All(s.st);
    forall q | q in u.procs ensures Knows(m, u.st, u.procs[q]) && Unborn(u, q) {
      assert q != p ==> Unborn(s, q) && Knows(m, s.st, s.procs[q]);
    }
  }

  /** The atomic steps of the store that a step amounts to: none, a commit, or a worker's step. */
  function AtomicSteps(s: Sys, step: Step): seq<Atomic.Step> {
    if step.House? then if step.work.Append? then [] else [step.work]
    else if step.Finish? && Commits(s, step.p) then [CommitStep(s.procs[step.p].h, s.procs[step.p].pc)]
    else []
  }

  /** Every statement of every process keeps the invariant and amounts to at most one atomic step, unless it is a commit
      that an archived event should have refused. */
  lemma StepKeepsInv(m: Model, s: Sys, step: Step)
    requires Inv(m, s) && Clear(s, step)
    ensures Inv(m, Do(m, s, step)) && Extends(All(s.st), All(Do(m, s, step).st))
    ensures Do(m, s, step).st == Atomic.Run(m, s.st, AtomicSteps(s, step))
  {
    hide LogInv, Knows, Unborn, CommitsOk, Extends, Replay, Top, DoProc, Known, Commits, CommitStep, Atomic.Do, Clear,
         Follows, All;
    OwnExtends(m, s.st);
    if step.House? {
      if !step.work.Append? {
        HouseKeepsInv(m, s, step.work);
      }
    } else if step.New? {
      if !Known(s, step.a) {
        NewKeepsInv(m, s, step.p, step.a);
      }
    } else if step.Load? {
      if Top(s.st.hot, step.a) > 0 && Replay(m, All(s.st), step.a, Top(s.st.hot, step.a)).Some? {
        LoadKeepsInv(m, s, step.p, step.a);
      }
    } else if step.Finish? && Commits(s, step.p) {
      CommitKeepsInv(m, s, step.p);
    } else if step.p in s.procs {
      ProcStep(m, s, step);
      var u := Do(m, s, step);
      if u != s {
        PutKeepsInv(m, s, step.p, u.procs[step.p]);
      }
    }
  }

  lemma OwnExtends(m: Model, st: Store)
    requires LogInv(m, st)
    ensures Extends(All(st), All(st))
  {
    LogParts(m, st);
  }

  // ---------------------------------------------------------------- whole runs

  function Run(m: Model, s: Sys, steps: seq<Step>): Sys
    decreases steps
  {
    if steps == [] then s else Run(m, Do(m, s, steps[0]), steps[1..])
  }

  /** No aggregate gets two new snapshots within one running attempt. */
  predicate Calm(m: Model, s: Sys, steps: seq<Step>)
    decreases steps
  {
    steps != [] ==> CalmFor(s, steps[0]) && Calm(m, Do(m, s, steps[0]), steps[1..])
  }

  /** The atomic steps of the store that an interleaving amounts to, in the order of its commits. */
  function Linearized(m: Model, s: Sys, steps: seq<Step>): seq<Atomic.Step>
    decreases steps
  {
    if steps == [] then [] else AtomicSteps(s, steps[0]) + Linearized(m, Do(m, s, steps[0]), steps[1..])
  }

  function Start(byGeo: bool): Sys {
    Sys(EMPTY, map[], [], byGeo)
  }

  lemma StartOk(m: Model, byGeo: bool)
    ensures Inv(m, Start(byGeo))
  {
    Atomic.EmptyOk(m);
  }

  lemma {:induction false} RunAppends(m: Model, st: Store, xs: seq<Atomic.Step>, ys: seq<Atomic.Step>)
    ensures Atomic.Run(m, st, xs + ys) == Atomic.Run(m, Atomic.Run(m, st, xs), ys)
    decreases xs
  {
    hide Atomic.Do;
    if xs == [] {
      assert xs + ys == ys;
    } else {
      assert (xs + ys)[1..] == xs[1..] + ys;
      RunAppends(m, Atomic.Do(m, st, xs[0]), xs[1..], ys);
    }
  }

  ghost predicate AllClear(m: Model, s: Sys, steps: seq<Step>)
    decreases steps
  {
    steps != [] ==> Clear(s, steps[0]) && AllClear(m, Do(m, s, steps[0]), steps[1..])
  }

  /** The log is right after every step of the run. */
  ghost predicate KeepsLog(m: Model, s: Sys, steps: seq<Step>)
    decreases steps
  {
    steps != [] ==> LogInv(m, Do(m, s, steps[0]).st) && KeepsLog(m, Do(m, s, steps[0]), steps[1..])
  }

  /** However the statements of appends and workers interleave, the store has gone through a run of atomic steps: what
      holds after every such run (EventRuns) holds after every interleaving. */
  lemma {:induction false} Linearizes(m: Model, s: Sys, steps: seq<Step>)
    requires Inv(m, s) && AllClear(m, s, steps)
    ensures Inv(m, Run(m, s, steps))
    ensures Run(m, s, steps).st == Atomic.Run(m, s.st, Linearized(m, s, steps))
    decreases steps
  {
    hide Inv, Do, Clear, AtomicSteps, Atomic.Do;
    if steps != [] {
      StepKeepsInv(m, s, steps[0]);
      Linearizes(m, Do(m, s, steps[0]), steps[1..]);
      RunAppends(m, s.st, AtomicSteps(s, steps[0]), Linearized(m, Do(m, s, steps[0]), steps[1..]));
    }
  }

  /** A commit that is not clear breaks the log. */
  lemma UnclearBreaks(m: Model, s: Sys, step: Step)
    requires Inv(m, s) && !Clear(s, step)
    ensures !LogInv(m, Do(m, s, step).st)
  {
    hide LogInv, Replay, ApplyAll, WindowOk, PkCollides, SeqCollides, Reads, Unarchived, UniqueKeys.Committed, Do,
         Collides;
    var p := step.p;
    assert Knows(m, s.st, s.procs[p]) && Unborn(s, p);
    hide Unborn, ProcOk;
    var h, pc := s.procs[p].h, s.procs[p].pc;
    FinishStores(m, s, p);
    KeyIsEnough(m, s, p);
    AppliedOk(m, All(s.st), h, pc);
    CommitKeepsLogIff(m, s.st, h.agg, h.version, Replay(m, All(s.st), h.agg, h.version).value, pc.geo, pc.top, pc.c.now,
                      pc.c.ps, h.mem);
  }

  /** Exactly when an interleaving keeps the log right throughout: when no commit passes the keys while an archived
      event has one of its versions or sequences. */
  lemma {:induction false} KeepsLogIff(m: Model, s: Sys, steps: seq<Step>)
    requires Inv(m, s)
    ensures KeepsLog(m, s, steps) <==> AllClear(m, s, steps)
    decreases steps
  {
    hide LogInv, Do, Clear;
    if steps != [] {
      if Clear(s, steps[0]) {
        StepKeepsInv(m, s, steps[0]);
        KeepsLogIff(m, Do(m, s, steps[0]), steps[1..]);
      } else {
        UnclearBreaks(m, s, steps[0]);
      }
    }
  }

  ghost predicate AllCalm(s: Sys) {
    forall p <- s.procs :: InFlight(s.procs[p].pc) ==> s.procs[p].calm
  }

  lemma CalmStays(m: Model, s: Sys, step: Step)
    requires AllCalm(s) && CalmFor(s, step)
    ensures AllCalm(Do(m, s, step))
  {
    hide Top, MaxSeq, Replay, ApplyAll, HomeGeo, Collides, SeqTaken, UniqueKeys.Committed, Known, CalmStep, Took,
         Atomic.Do;
  }

  lemma CalmIsClear(m: Model, s: Sys, step: Step)
    requires Inv(m, s) && AllCalm(s)
    ensures Clear(s, step)
  {
    hide LogInv, ProcOk, WindowOk, Unborn, CommitsOk, Unarchived, Collides, SeqTaken;
    if step.Finish? && Commits(s, step.p) {
      assert Knows(m, s.st, s.procs[step.p]);
      NothingHidden(m, s.st, s.procs[step.p]);
    }
  }

  /** It is enough that no aggregate gets two new snapshots within one running attempt. */
  lemma {:induction false} CalmRunIsClear(m: Model, s: Sys, steps: seq<Step>)
    requires Inv(m, s) && AllCalm(s) && Calm(m, s, steps)
    ensures AllClear(m, s, steps)
    decreases steps
  {
    hide Inv, AllCalm, Do, CalmFor, Clear;
    if steps != [] {
      CalmIsClear(m, s, steps[0]);
      StepKeepsInv(m, s, steps[0]);
      CalmStays(m, s, steps[0]);
      CalmRunIsClear(m, Do(m, s, steps[0]), steps[1..]);
    }
  }

  /** An aggregate's committed events are exactly 1..n, no region sequence is given twice and none is left out, and the
      read model's row stands at the newest version. */
  lemma CommittedLogIsGapless(m: Model, byGeo: bool, steps: seq<Step>, a: Id, g: Geo)
    requires AllClear(m, Start(byGeo), steps)
    ensures var st := Run(m, Start(byGeo), steps).st;
      && (forall i: nat :: Key(a, i) in All(st) <==> 1 <= i <= Top(st.hot, a))
      && (forall s: nat :: Issued(All(st), g, s) <==> 1 <= s <= MaxSeq(st.hot, g))
      && UniqueSeqs(All(st))
      && (a in st.rows <==> Top(All(st), a) > 0) && (a in st.rows ==> st.rows[a].version == Top(All(st), a))
  {
    hide Inv, Run, Atomic.Run, UniqueSeqs, Top, MaxSeq, Issued;
    StartOk(m, byGeo);
    Linearizes(m, Start(byGeo), steps);
    var atomic := Linearized(m, Start(byGeo), steps);
    Atomic.HotLogIsEnough(m, atomic, a, g);
    Atomic.RowAtTop(m, atomic, a);
  }

  /** Of two appends of one aggregate that started from the same version at most one commits. */
  lemma OneWinnerPerVersion(m: Model, byGeo: bool, steps: seq<Step>, i: nat, j: nat)
    requires AllClear(m, Start(byGeo), steps)
    requires var cs := Run(m, Start(byGeo), steps).commits;
      i < j < |cs| && cs[i].agg == cs[j].agg
    ensures var cs := Run(m, Start(byGeo), steps).commits; cs[i].base < cs[j].base
  {
    hide Run, LogInv, Knows;
    StartOk(m, byGeo);
    Linearizes(m, Start(byGeo), steps);
  }

  /** A handle that is not stale never runs ahead of the log, and between appends its memory is exactly the
      fold of its version's events: no retry applied anything twice. */
  lemma HandlesAreFolds(m: Model, byGeo: bool, steps: seq<Step>, p: nat)
    requires AllClear(m, Start(byGeo), steps)
    requires var s := Run(m, Start(byGeo), steps); p in s.procs && !s.procs[p].h.stale
    ensures var s := Run(m, Start(byGeo), steps); var h := s.procs[p].h;
      && h.version <= Top(All(s.st), h.agg)
      && (!s.procs[p].pc.Applied? ==> Replay(m, All(s.st), h.agg, h.version) == Some(h.mem))
  {
    hide Run, LogInv, WindowOk, CommitsOk, Top, Replay;
    StartOk(m, byGeo);
    Linearizes(m, Start(byGeo), steps);
    var s := Run(m, Start(byGeo), steps);
    assert Knows(m, s.st, s.procs[p]);
    HotTop(m, s.st, s.procs[p].h.agg);
  }

  predicate Reports(s: Sys, u: Sys, p: nat) {
    && p in s.procs && p in u.procs
    && s.procs[p].h.last != VersionConflict && u.procs[p].h.last == VersionConflict
  }

  /** A version conflict is only reported when another append of the aggregate did get in: the log is
      beyond the handle's version. */
  lemma ConflictHasWinner(m: Model, s: Sys, step: Step)
    requires Inv(m, s) && !step.House? && !step.New? && !step.Load? && step.p in s.procs
    requires Reports(s, Do(m, s, step), step.p)
    ensures Top(All(s.st), s.procs[step.p].h.agg) > s.procs[step.p].h.version
  {
    hide LogInv, Knows, Unborn, CommitsOk, Do, SeqTaken, Top;
    var h, pc := s.procs[step.p].h, s.procs[step.p].pc;
    WhenConflict(m, s, step);
    HotTop(m, s.st, h.agg);
    if SeqKnown(pc) && Collides(s, h, pc) {
      var n: nat :| h.version < n && Key(h.agg, n) in s.st.hot;
      assert Key(h.agg, n) in All(s.st);
    }
  }

  lemma WhenConflict(m: Model, s: Sys, step: Step)
    requires !step.House? && !step.New? && !step.Load? && step.p in s.procs
    requires Reports(s, Do(m, s, step), step.p)
    ensures var h, pc := s.procs[step.p].h, s.procs[step.p].pc;
      (step.ReadTop? && Top(s.st.hot, h.agg) > h.version) || (SeqKnown(pc) && Collides(s, h, pc))
  {
    hide SeqTaken, Collides, ApplyAll, UniqueKeys.Committed, Top, MaxSeq, HomeGeo;
  }
}

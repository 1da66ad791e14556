/** How far the archiver can get between two statements of someone else: archiving beyond a version takes two
    snapshots beyond it (projection.go:599-691). */
module ArchiveRace {
  import opened Wrappers
  import opened EventStore
  import opened EventSteps
  import opened EventRuns

  // ---------------------------------------------------------------- one aggregate

  /** No archived event of a lies above version v, nor does any bound in use: the hot log keeps everything after v. */
  ghost predicate ArchBelow(st: Store, a: Id, v: nat) {
    && (forall k <- st.arch | k.agg == a :: k.aseq <= v)
    && (forall k <- st.bounds | k.agg == a :: k.aseq <= v)
  }

  /** How many snapshots of a the run stores under versions that were not stored before. */
  function NewSnaps(m: Model, st: Store, steps: seq<Step>, a: Id): nat
    decreases steps
  {
    if steps == [] then 0
    else
      (if NewSnap(st, steps[0], a) then 1 else 0) + NewSnaps(m, Do(m, st, steps[0]), steps[1..], a)
  }

  /** At most c snapshots of a are newer than v (c is 0 or 1). */
  ghost predicate FewNewer(snaps: map<Key, State>, a: Id, v: nat, c: nat) {
    && (c == 0 ==> forall w: nat | Key(a, w) in snaps :: w <= v)
    && (forall x, y | Key(a, x) in snaps && Key(a, y) in snaps && v < x && v < y :: x == y)
  }

  lemma BoundBelow(st: Store, a: Id, v: nat, c: nat)
    requires FewNewer(st.snaps, a, v, c) && SecondYoungest(st.snaps, a).Some?
    ensures SecondYoungest(st.snaps, a).value <= v
  {
    BoundBelowNewest(st.snaps, a);
    var w :| SecondYoungest(st.snaps, a).value < w && Key(a, w) in st.snaps;
  }

  predicate NewSnap(st: Store, step: Step, a: Id) {
    step.Snapshot? && step.a == a && Key(a, step.v) !in st.snaps
  }

  lemma StepKeepsBelow(m: Model, st: Store, step: Step, a: Id, v: nat, c: nat)
    requires ArchBelow(st, a, v) && FewNewer(st.snaps, a, v, c)
    ensures ArchBelow(Do(m, st, step), a, v)
  {
    hide Replay, Pruned, SecondYoungest;
    if step.ReadBound? && step.a == a && SecondYoungest(st.snaps, a).Some? {
      BoundBelow(st, a, v, c);
    }
  }

  lemma StepKeepsFew(m: Model, st: Store, step: Step, a: Id, v: nat, c: nat)
    requires FewNewer(st.snaps, a, v, c)
    ensures !NewSnap(st, step, a) ==> FewNewer(Do(m, st, step).snaps, a, v, c)
    ensures c == 0 ==> FewNewer(Do(m, st, step).snaps, a, v, 1)
  {
    hide Replay, SecondYoungest;
    if step.Archive? {
      hide Archived;
      ArchivedSnaps(st, step.a, step.bound, step.cp);
    }
  }

  lemma ArchivedSnaps(st: Store, a: Id, bound: nat, cp: nat)
    ensures Archived(st, a, bound, cp).snaps == st.snaps
  {
  }

  lemma {:induction false} RunKeepsBelow(m: Model, st: Store, steps: seq<Step>, a: Id, v: nat, c: nat)
    requires ArchBelow(st, a, v) && FewNewer(st.snaps, a, v, c)
    requires c + NewSnaps(m, st, steps, a) <= 1
    ensures ArchBelow(Run(m, st, steps), a, v)
    decreases steps
  {
    hide Do, ArchBelow, FewNewer;
    if steps != [] {
      StepKeepsBelow(m, st, steps[0], a, v, c);
      StepKeepsFew(m, st, steps[0], a, v, c);
      RunKeepsBelow(m, Do(m, st, steps[0]), steps[1..], a, v, if NewSnap(st, steps[0], a) then c + 1 else c);
    }
  }

  /** Where no snapshot is newer than v, nothing beyond v is archived. */
  lemma NewestCovers(st: Store, a: Id, v: nat)
    requires ArchiveOk(st) && forall w: nat | Key(a, w) in st.snaps :: w <= v
    ensures ArchBelow(st, a, v) && FewNewer(st.snaps, a, v, 0)
  {
    hide Covered;
    forall k | Covered(st.snaps, k) && k.agg == a ensures k.aseq <= v {
      CoveredBelow(st.snaps, k, v);
    }
  }

  lemma CoveredBelow(snaps: map<Key, State>, k: Key, n: nat)
    requires Covered(snaps, k) && forall w: nat | Key(k.agg, w) in snaps :: w <= n
    ensures k.aseq <= n
  {
    var w :| k.aseq < w && Key(k.agg, w) in snaps;
  }

  // ---------------------------------------------------------------- all aggregates

  /** The aggregates a reader's window depends on: one, or all of them. */
  predicate Watched(watch: Option<Id>, a: Id) {
    watch.None? || watch.value == a
  }

  /** The watched aggregates with a new snapshot, after one more step. */
  function Took(st: Store, step: Step, watch: Option<Id>, taken: set<Id>): set<Id> {
    if step.Snapshot? && NewSnap(st, step, step.a) && Watched(watch, step.a) then taken + {step.a} else taken
  }

  /** The step gives no watched aggregate a second new snapshot. */
  predicate CalmStep(st: Store, step: Step, watch: Option<Id>, taken: set<Id>) {
    step.Snapshot? && NewSnap(st, step, step.a) && Watched(watch, step.a) ==> step.a !in taken
  }

  function TakenBy(m: Model, st: Store, steps: seq<Step>, watch: Option<Id>, taken: set<Id>): set<Id>
    decreases steps
  {
    if steps == [] then taken
    else TakenBy(m, Do(m, st, steps[0]), steps[1..], watch, Took(st, steps[0], watch, taken))
  }

  predicate Calm(m: Model, st: Store, steps: seq<Step>, watch: Option<Id>, taken: set<Id>)
    decreases steps
  {
    steps != [] ==>
      && CalmStep(st, steps[0], watch, taken)
      && Calm(m, Do(m, st, steps[0]), steps[1..], watch, Took(st, steps[0], watch, taken))
  }

  /** The archiver is not beyond what the log was at ref, taken being the aggregates with a new snapshot since. */
  ghost predicate Trails(ref: Store, st: Store, watch: Option<Id>, taken: set<Id>) {
    forall a | Watched(watch, a) :: TrailsIn(ref, st, taken, a)
  }

  ghost predicate TrailsIn(ref: Store, st: Store, taken: set<Id>, a: Id) {
    var v := Top(ref.hot, a);
    ArchBelow(st, a, v) && FewNewer(st.snaps, a, v, if a in taken then 1 else 0)
  }

  lemma StartsTrailing(m: Model, st: Store, watch: Option<Id>)
    requires LogInv(m, st)
    ensures Trails(st, st, watch, {})
  {
    hide ArchiveOk, Top, ArchBelow, FewNewer;
    forall a | Watched(watch, a) ensures TrailsIn(st, st, {}, a) {
      HotTop(m, st, a);
      forall w: nat | Key(a, w) in st.snaps ensures w <= Top(st.hot, a) {
        assert Key(a, w) in All(st);
      }
      NewestCovers(st, a, Top(st.hot, a));
    }
  }

  lemma StepStaysTrailing(m: Model, ref: Store, st: Store, step: Step, watch: Option<Id>, taken: set<Id>)
    requires Trails(ref, st, watch, taken) && CalmStep(st, step, watch, taken)
    ensures Trails(ref, Do(m, st, step), watch, Took(st, step, watch, taken))
  {
    hide Top, Do, ArchBelow, FewNewer;
    forall a | Watched(watch, a) ensures TrailsIn(ref, Do(m, st, step), Took(st, step, watch, taken), a) {
      assert TrailsIn(ref, st, taken, a);
      StepKeepsBelow(m, st, step, a, Top(ref.hot, a), if a in taken then 1 else 0);
      StepKeepsFew(m, st, step, a, Top(ref.hot, a), if a in taken then 1 else 0);
    }
  }

  lemma {:induction false} RunStaysTrailing(m: Model, ref: Store, st: Store, steps: seq<Step>, watch: Option<Id>,
                                          taken: set<Id>)
    requires Trails(ref, st, watch, taken) && Calm(m, st, steps, watch, taken)
    ensures Trails(ref, Run(m, st, steps), watch, TakenBy(m, st, steps, watch, taken))
    decreases steps
  {
    hide Trails, Do, Took, CalmStep;
    if steps != [] {
      StepStaysTrailing(m, ref, st, steps[0], watch, taken);
      RunStaysTrailing(m, ref, Do(m, st, steps[0]), steps[1..], watch, Took(st, steps[0], watch, taken));
    }
  }

  /** While the archiver is not beyond ref, it hides no event of a watched aggregate that came after ref, and so no
      sequence given after it. */
  lemma LaterIsHot(m: Model, ref: Store, st: Store, watch: Option<Id>, taken: set<Id>)
    requires LogInv(m, ref) && LogInv(m, st) && Extends(All(ref), All(st)) && Trails(ref, st, watch, taken)
    ensures forall k <- st.arch | Watched(watch, k.agg) :: k in All(ref) && All(ref)[k] == st.arch[k]
  {
    hide LogOk, SnapsOk, Top, FewNewer, Contiguous;
    forall k | k in st.arch && Watched(watch, k.agg) ensures k in All(ref) && All(ref)[k] == st.arch[k] {
      assert TrailsIn(ref, st, taken, k.agg);
      assert k == Key(k.agg, k.aseq) && k in All(st);
      HotTop(m, ref, k.agg);
      HotTop(m, st, k.agg);
    }
  }
}

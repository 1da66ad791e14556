/** Several drainers of one dual-write queue: the worker's and that of finalization run under different leases
    (projection.go:147, migrator.go:470-610). Every entry of a drainer's batch is a job of its own: taken from the
    queue, its old row read, the new row written, the entry removed, with anything between. */
module DrainRace {
  import opened Wrappers
  import opened Keyset
  import opened Migrator

  /** A queue entry of the replaced table. */
  datatype Item = Item(id: nat, pk: Pk, op: Op)

  datatype Job =
    | Taken(item: Item)
    | Read(item: Item, row: Option<Row>)
    | Wrote(item: Item)

  /** The old table and the new one, the queue, its next id, the jobs under way, and whether the old table is gone. */
  datatype Sys = Sys(src: map<Pk, Row>, dst: map<Pk, NewRow>, queue: set<Item>, next: nat, jobs: map<nat, Job>,
                     dropped: bool)

  const START := Sys(map[], map[], {}, 0, map[], false)

  // ---------------------------------------------------------------- steps

  datatype Step =
    | Old(pk: Pk, row: Option<Row>)   // an old instance writes or deletes a row; its trigger queues the key
    | Take(p: nat, item: Item)
    | ReadOld(p: nat)
    | WriteNew(p: nat)
    | Dequeue(p: nat)
    | Crash(p: nat)
    | Drop                            // finalization found the queue empty

  function Do(T: Transform, s: Sys, step: Step): Sys {
    match step
    case Old(k, row) =>
      if s.dropped || (row.None? && k !in s.src) then s
      else
        s.(src := if row.Some? then s.src[k := row.value] else s.src - {k},
           queue := s.queue + {Item(s.next, k, if row.Some? then Upsert else Delete)}, next := s.next + 1)
    case Take(p, item) =>
      if p in s.jobs || item !in s.queue then s else s.(jobs := s.jobs[p := Taken(item)])
    case ReadOld(p) =>
      if p !in s.jobs || !s.jobs[p].Taken? then s
      else
        var x := s.jobs[p].item;
        if x.op.Delete? then s.(jobs := s.jobs[p := Read(x, None)])
        else if s.dropped then s.(jobs := s.jobs - {p})
        else s.(jobs := s.jobs[p := Read(x, RowOf(s.src, x.pk))])
    case WriteNew(p) =>
      if p !in s.jobs || !s.jobs[p].Read? then s
      else
        var x := s.jobs[p].item;
        (match Applied(T, s.dst, x.pk, x.op, s.jobs[p].row)
         case None => s.(jobs := s.jobs - {p})
         case Some(d) => s.(dst := d, jobs := s.jobs[p := Wrote(x)]))
    case Dequeue(p) =>
      if p !in s.jobs || !s.jobs[p].Wrote? then s
      else s.(queue := s.queue - {s.jobs[p].item}, jobs := s.jobs - {p})
    case Crash(p) => s.(jobs := s.jobs - {p})
    case Drop => if s.queue == {} then s.(dropped := true) else s
  }

  function Run(T: Transform, s: Sys, steps: seq<Step>): Sys
    decreases steps
  {
    if steps == [] then s else Run(T, Do(T, s, steps[0]), steps[1..])
  }

  predicate Active(s: Sys, p: nat) {
    p in s.jobs && !s.jobs[p].Taken?
  }

  /** The entry is still queued, is the first of its key, and no other drainer is at work on the key. */
  predicate OrderlyStep(s: Sys, step: Step) {
    step.ReadOld? && step.p in s.jobs && s.jobs[step.p].Taken? ==>
      var x := s.jobs[step.p].item;
      && x in s.queue && (forall y <- s.queue | y.pk == x.pk :: x.id <= y.id)
      && (forall q <- s.jobs.Keys | Active(s, q) :: s.jobs[q].item.pk != x.pk)
  }

  predicate Orderly(T: Transform, s: Sys, steps: seq<Step>)
    decreases steps
  {
    steps != [] ==> OrderlyStep(s, steps[0]) && Orderly(T, Do(T, s, steps[0]), steps[1..])
  }

  // ---------------------------------------------------------------- invariant

  /** The new row of k is the transformed old one; absent matches absent. */
  ghost predicate Matches(T: Transform, s: Sys, k: Pk) {
    if k in s.src then k in s.dst && T(s.src[k]) == Some(s.dst[k]) else k !in s.dst
  }

  ghost predicate Queued(s: Sys, k: Pk) {
    exists x :: x in s.queue && x.pk == k
  }

  ghost predicate Later(s: Sys, x: Item) {
    exists y :: y in s.queue && y.pk == x.pk && x.id < y.id
  }

  /** The row read for the entry is the one the old table has now. */
  predicate Current(s: Sys, x: Item, row: Option<Row>) {
    (if x.op.Delete? then None else row) == RowOf(s.src, x.pk)
  }

  /** The job's entry is queued, the first of its key, and nobody else is at work on the key. */
  ghost predicate Alone(s: Sys, p: nat, x: Item) {
    && x in s.queue && (forall y <- s.queue | y.pk == x.pk :: x.id <= y.id)
    && (forall q <- s.jobs | Active(s, q) && s.jobs[q].item.pk == x.pk :: q == p)
  }

  /** What the job holds is right, or a later change of its key is queued. */
  ghost predicate Knows(T: Transform, s: Sys, job: Job) {
    && (job.Read? ==> Current(s, job.item, job.row) || Later(s, job.item))
    && (job.Wrote? ==> Matches(T, s, job.item.pk) || Later(s, job.item))
  }

  ghost predicate JobOk(T: Transform, s: Sys, p: nat)
    requires p in s.jobs
  {
    Active(s, p) ==> Alone(s, p, s.jobs[p].item) && Knows(T, s, s.jobs[p])
  }

  /** The last queued change of a key tells whether the old table has it. */
  ghost predicate LastItemTells(s: Sys, x: Item) {
    Later(s, x) || (x.op.Upsert? <==> x.pk in s.src)
  }

  ghost predicate QueueOk(s: Sys) {
    && (forall x <- s.queue :: x.id < s.next)
    && (forall x, y | x in s.queue && y in s.queue && x.id == y.id :: x == y)
    && (forall x <- s.queue :: LastItemTells(s, x))
  }

  ghost predicate Inv(T: Transform, s: Sys) {
    && QueueOk(s)
    && (forall k: Pk :: Matches(T, s, k) || Queued(s, k))
    && (forall p <- s.jobs :: JobOk(T, s, p))
  }

  lemma StartOk(T: Transform)
    ensures Inv(T, START)
  {
  }

  // ---------------------------------------------------------------- orderly drainers

  lemma LaterStays(s: Sys, u: Sys, x: Item)
    requires Later(s, x) && s.queue <= u.queue
    ensures Later(u, x)
  {
  }

  /** Later changes are what the queue says, rows in step what the tables say. */
  lemma SameStore(T: Transform, s: Sys, u: Sys)
    requires u.src == s.src && u.queue == s.queue
    ensures forall x :: Later(u, x) <==> Later(s, x)
    ensures forall k: Pk :: Queued(u, k) <==> Queued(s, k)
    ensures u.next == s.next && QueueOk(s) ==> QueueOk(u)
    ensures u.dst == s.dst ==> forall k: Pk :: Matches(T, u, k) <==> Matches(T, s, k)
  {
    forall x ensures Later(u, x) <==> Later(s, x) {
      if Later(u, x) {
        LaterStays(u, s, x);
      }
      if Later(s, x) {
        LaterStays(s, u, x);
      }
    }
    if QueueOk(s) {
      assert forall x <- s.queue :: LastItemTells(s, x);
    }
  }

  lemma OldKeepsQueue(s: Sys, u: Sys, k: Pk, z: Item)
    requires QueueOk(s) && z.id == s.next && z.pk == k && u.queue == s.queue + {z} && u.next == s.next + 1
    requires z.op.Upsert? <==> k in u.src
    requires forall j: Pk | j != k :: j in u.src <==> j in s.src
    ensures QueueOk(u)
    ensures forall x <- s.queue | x.pk == k :: Later(u, x)
  {
    forall x | x in u.queue ensures LastItemTells(u, x) {
      if x != z && x.pk != k {
        assert LastItemTells(s, x);
        if Later(s, x) {
          LaterStays(s, u, x);
        }
      }
    }
  }

  lemma OldKeepsJob(T: Transform, s: Sys, u: Sys, k: Pk, z: Item, p: nat)
    requires p in s.jobs && JobOk(T, s, p) && u.jobs == s.jobs && u.dst == s.dst
    requires z.pk == k && u.queue == s.queue + {z} && forall y <- s.queue :: y.id < z.id
    requires forall j: Pk | j != k :: RowOf(u.src, j) == RowOf(s.src, j)
    requires forall x <- s.queue | x.pk == k :: Later(u, x)
    ensures JobOk(T, u, p)
  {
    hide Later;
    var job := s.jobs[p];
    if Active(s, p) && job.item.pk != k {
      if Later(s, job.item) {
        LaterStays(s, u, job.item);
      }
      assert RowOf(u.src, job.item.pk) == RowOf(s.src, job.item.pk);
    }
  }

  lemma OldKeepsInv(T: Transform, s: Sys, k: Pk, row: Option<Row>)
    requires Inv(T, s)
    ensures Inv(T, Do(T, s, Old(k, row)))
  {
    hide Later, JobOk, QueueOk;
    var u := Do(T, s, Old(k, row));
    if u != s {
      var z := Item(s.next, k, if row.Some? then Upsert else Delete);
      OldKeepsQueue(s, u, k, z);
      IdsBelow(s);
      forall j: Pk ensures Matches(T, u, j) || Queued(u, j) {
        assert j != k && !Matches(T, s, j) ==> Queued(s, j);
      }
      forall p | p in u.jobs ensures JobOk(T, u, p) {
        OldKeepsJob(T, s, u, k, z, p);
      }
    }
  }

  lemma IdsBelow(s: Sys)
    requires QueueOk(s)
    ensures forall y <- s.queue :: y.id < s.next
  {
  }

  /** A job may become any that knows what it holds. */
  lemma JobKeepsInv(T: Transform, s: Sys, p: nat, job: Job)
    requires Inv(T, s) && (job.Taken? || (Alone(s, p, job.item) && Knows(T, s, job)))
    ensures Inv(T, s.(jobs := s.jobs[p := job]))
  {
    hide Later, Matches, QueueOk;
    var u := s.(jobs := s.jobs[p := job]);
    SameStore(T, s, u);
    forall q | q in u.jobs ensures JobOk(T, u, q) {
      assert q in s.jobs ==> JobOk(T, s, q);
    }
  }

  lemma NoJobKeepsInv(T: Transform, s: Sys, gone: set<nat>, dropped: bool)
    requires Inv(T, s)
    ensures Inv(T, s.(jobs := s.jobs - gone, dropped := dropped))
  {
    hide Later, Matches, QueueOk;
    var u := s.(jobs := s.jobs - gone, dropped := dropped);
    SameStore(T, s, u);
    forall q | q in u.jobs ensures JobOk(T, u, q) {
      assert JobOk(T, s, q);
    }
  }

  lemma ReadKeepsInv(T: Transform, s: Sys, p: nat)
    requires Inv(T, s) && OrderlyStep(s, ReadOld(p))
    ensures Inv(T, Do(T, s, ReadOld(p)))
  {
    hide Inv, Later;
    var u := Do(T, s, ReadOld(p));
    if u != s {
      var x := s.jobs[p].item;
      if p in u.jobs {
        TakenTells(T, s, x);
        JobKeepsInv(T, s, p, u.jobs[p]);
      } else {
        NoJobKeepsInv(T, s, {p}, s.dropped);
      }
    }
  }

  lemma TakenTells(T: Transform, s: Sys, x: Item)
    requires Inv(T, s) && x in s.queue
    ensures Later(s, x) || (x.op.Upsert? <==> x.pk in s.src)
  {
    assert LastItemTells(s, x);
  }

  /** A write touches its own key only, and with a current row puts it in step. */
  lemma AppliedElsewhere(T: Transform, s: Sys, x: Item, row: Option<Row>)
    requires Applied(T, s.dst, x.pk, x.op, row).Some?
    ensures var u := s.(dst := Applied(T, s.dst, x.pk, x.op, row).value);
      && (forall k: Pk | k != x.pk :: Matches(T, u, k) <==> Matches(T, s, k))
      && (Current(s, x, row) ==> Matches(T, u, x.pk))
  {
  }

  lemma WriteKeepsInv(T: Transform, s: Sys, p: nat)
    requires Inv(T, s)
    ensures Inv(T, Do(T, s, WriteNew(p)))
  {
    hide Later, Matches, QueueOk, Alone;
    var u := Do(T, s, WriteNew(p));
    if u != s {
      var x, row := s.jobs[p].item, s.jobs[p].row;
      assert JobOk(T, s, p) && Active(s, p);
      if Applied(T, s.dst, x.pk, x.op, row).None? {
        NoJobKeepsInv(T, s, {p}, s.dropped);
      } else {
        AppliedElsewhere(T, s, x, row);
        SameStore(T, s, u);
        SameMatches(T, s.(dst := u.dst), u);
        AloneIsQueued(s, p, x);
        WriteKeepsOwed(T, s, u, x);
        forall q | q in u.jobs ensures JobOk(T, u, q) {
          assert JobOk(T, s, q);
          StaysAlone(s, u, p, q);
        }
      }
    }
  }

  lemma AloneIsQueued(s: Sys, p: nat, x: Item)
    requires Alone(s, p, x)
    ensures x in s.queue
  {
  }

  lemma SameMatches(T: Transform, s: Sys, u: Sys)
    requires u.src == s.src && u.dst == s.dst
    ensures forall k: Pk :: Matches(T, u, k) <==> Matches(T, s, k)
  {
  }

  lemma WriteKeepsOwed(T: Transform, s: Sys, u: Sys, x: Item)
    requires (forall k: Pk :: Matches(T, s, k) || Queued(s, k)) && u.queue == s.queue && x in s.queue
    requires forall k: Pk | k != x.pk :: Matches(T, u, k) <==> Matches(T, s, k)
    ensures forall k: Pk :: Matches(T, u, k) || Queued(u, k)
  {
    hide Matches;
    forall k: Pk ensures Matches(T, u, k) || Queued(u, k) {
      assert k != x.pk && !Matches(T, s, k) ==> Queued(s, k);
    }
  }

  /** Writing makes no job active: each stays alone, and works on another key than the writer. */
  lemma StaysAlone(s: Sys, u: Sys, p: nat, q: nat)
    requires p in s.jobs && s.jobs[p].Read? && u.jobs == s.jobs[p := Wrote(s.jobs[p].item)] && u.queue == s.queue
    requires q in s.jobs && Active(s, q) ==> Alone(s, q, s.jobs[q].item)
    ensures q in s.jobs && Active(s, q) ==> Alone(u, q, s.jobs[q].item)
    ensures q in s.jobs && Active(s, q) && q != p ==> s.jobs[q].item.pk != s.jobs[p].item.pk
  {
    assert Active(s, p);
    forall r | r in u.jobs && Active(u, r) ensures Active(s, r) && s.jobs[r].item == u.jobs[r].item {
    }
  }

  lemma DequeueKeepsQueue(s: Sys, u: Sys, x: Item)
    requires QueueOk(s) && u.queue == s.queue - {x} && u.src == s.src && u.next == s.next
    requires forall z <- s.queue | z.pk == x.pk :: x.id <= z.id
    ensures QueueOk(u)
    ensures forall y | y in u.queue && Later(s, y) :: Later(u, y)
    ensures Later(s, x) ==> Queued(u, x.pk)
  {
    forall y | y in u.queue && Later(s, y) ensures Later(u, y) {
      LaterWithout(s, u, x, y);
    }
    forall y | y in u.queue ensures LastItemTells(u, y) {
      assert LastItemTells(s, y);
    }
  }

  lemma DequeueKeepsInv(T: Transform, s: Sys, p: nat)
    requires Inv(T, s)
    ensures Inv(T, Do(T, s, Dequeue(p)))
  {
    hide Later, Matches, QueueOk;
    var u := Do(T, s, Dequeue(p));
    if u != s {
      var x := s.jobs[p].item;
      assert JobOk(T, s, p) && Active(s, p);
      DequeueKeepsQueue(s, u, x);
      SameMatches(T, s, u);
      forall k: Pk ensures Matches(T, u, k) || Queued(u, k) {
        if k != x.pk && !Matches(T, s, k) {
          var y :| y in s.queue && y.pk == k;
          assert y in u.queue;
        }
      }
      forall q | q in u.jobs ensures JobOk(T, u, q) {
        assert JobOk(T, s, q);
      }
    }
  }

  lemma LaterWithout(s: Sys, u: Sys, x: Item, y: Item)
    requires Later(s, y) && u.queue == s.queue - {x} && y in u.queue
    requires forall z <- s.queue | z.pk == x.pk :: x.id <= z.id
    ensures Later(u, y)
  {
    var z :| z in s.queue && z.pk == y.pk && y.id < z.id;
    assert z != x;
  }

  lemma StepKeepsInv(T: Transform, s: Sys, step: Step)
    requires Inv(T, s) && OrderlyStep(s, step)
    ensures Inv(T, Do(T, s, step))
  {
    hide Inv, OrderlyStep;
    match step
    case Old(k, row) => hide Do; OldKeepsInv(T, s, k, row);
    case Take(p, item) => JobKeepsInv(T, s, p, Taken(item));
    case ReadOld(p) => hide Do; ReadKeepsInv(T, s, p);
    case WriteNew(p) => hide Do; WriteKeepsInv(T, s, p);
    case Dequeue(p) => hide Do; DequeueKeepsInv(T, s, p);
    case Crash(p) => NoJobKeepsInv(T, s, {p}, s.dropped);
    case Drop => NoJobKeepsInv(T, s, {}, true); assert s.jobs - {} == s.jobs;
  }

  /** Any number of drainers, crashes, and old instances writing between any two statements: as long as a drainer
      starts on an entry only while it is queued, the first of its key, and alone on the key, an empty queue means that
      the new table is the transformed old one, before the drop and after it. */
  lemma {:induction false} OrderlyConverges(T: Transform, s: Sys, steps: seq<Step>)
    requires Inv(T, s) && Orderly(T, s, steps)
    ensures var u := Run(T, s, steps); Inv(T, u) && (u.queue == {} ==> Mapped(T, u.src, u.dst))
    decreases steps
  {
    hide Inv, Do, OrderlyStep;
    if steps == [] {
      EmptyIsMapped(T, s);
    } else {
      StepKeepsInv(T, s, steps[0]);
      OrderlyConverges(T, Do(T, s, steps[0]), steps[1..]);
    }
  }

  lemma EmptyIsMapped(T: Transform, s: Sys)
    requires Inv(T, s)
    ensures s.queue == {} ==> Mapped(T, s.src, s.dst)
  {
    if s.queue == {} {
      forall k: Pk ensures Matches(T, s, k) {
        assert !Queued(s, k);
      }
      forall k: Pk ensures k in s.src <==> k in s.dst {
        assert Matches(T, s, k);
      }
      forall k | k in s.src ensures T(s.src[k]) == Some(s.dst[k]) {
        assert Matches(T, s, k);
      }
    }
  }

  // ---------------------------------------------------------------- a drainer that stalled

  /** The new table is right when a stalled drainer writes at last: it stays right exactly when the row it had read
      gives the new row that the old table's present one gives, and a delete when the old table has no such row. */
  lemma LateWriteIff(T: Transform, s: Sys, p: nat)
    requires Mapped(T, s.src, s.dst) && p in s.jobs && s.jobs[p].Read?
    requires var x := s.jobs[p].item; Applied(T, s.dst, x.pk, x.op, s.jobs[p].row).Some?
    ensures var x, row := s.jobs[p].item, s.jobs[p].row; var u := Do(T, s, WriteNew(p));
      && (Mapped(T, u.src, u.dst) <==>
            if x.op.Delete? || row.None? then x.pk !in s.src
            else x.pk in s.src && T(row.value) == T(s.src[x.pk]))
  {
    var x, row := s.jobs[p].item, s.jobs[p].row;
    var u := Do(T, s, WriteNew(p));
    if x.pk in s.src {
      assert T(s.src[x.pk]) == Some(s.dst[x.pk]);
    }
    assert x.pk in u.dst <==> !(x.op.Delete? || row.None?);
  }

  /** Drainer 1 takes, reads, writes and dequeues one entry. */
  function Drain(item: Item): seq<Step> {
    [Take(1, item), ReadOld(1), WriteNew(1), Dequeue(1)]
  }

  lemma RunJoin(T: Transform, s: Sys, xs: seq<Step>, ys: seq<Step>)
    ensures Run(T, s, xs + ys) == Run(T, Run(T, s, xs), ys)
    decreases xs
  {
    hide Do;
    if xs == [] {
      assert xs + ys == ys;
    } else {
      assert (xs + ys)[1..] == xs[1..] + ys;
      RunJoin(T, Do(T, s, xs[0]), xs[1..], ys);
    }
  }

  /** A drainer alone on an upsert: afterwards the key is in step and the entry gone. */
  lemma DrainedOne(T: Transform, s: Sys, item: Item)
    requires item in s.queue && 1 !in s.jobs && !s.dropped && item.op.Upsert?
    requires item.pk in s.src && T(s.src[item.pk]).Some?
    ensures Run(T, s, Drain(item))
         == s.(dst := s.dst[item.pk := T(s.src[item.pk]).value], queue := s.queue - {item})
  {
    var row := s.src[item.pk];
    var s1 := s.(jobs := s.jobs[1 := Taken(item)]);
    var s2 := s.(jobs := s.jobs[1 := Read(item, Some(row))]);
    var d := s.dst[item.pk := T(row).value];
    var s3 := s.(dst := d, jobs := s.jobs[1 := Wrote(item)]);
    var s4 := s.(dst := d, queue := s.queue - {item});
    assert s.jobs[1 := Taken(item)][1 := Read(item, Some(row))] == s.jobs[1 := Read(item, Some(row))];
    assert s.jobs[1 := Read(item, Some(row))][1 := Wrote(item)] == s.jobs[1 := Wrote(item)];
    assert s.jobs[1 := Wrote(item)] - {1} == s.jobs;
    assert Do(T, s, Take(1, item)) == s1 && Do(T, s1, ReadOld(1)) == s2;
    assert Do(T, s2, WriteNew(1)) == s3 && Do(T, s3, Dequeue(1)) == s4;
    hide Do;
    RunFour(T, s, Drain(item));
  }

  lemma RunFour(T: Transform, s: Sys, steps: seq<Step>)
    requires |steps| == 4
    ensures Run(T, s, steps) == Do(T, Do(T, Do(T, Do(T, s, steps[0]), steps[1]), steps[2]), steps[3])
  {
    hide Do;
    var a := Do(T, s, steps[0]);
    var b := Do(T, a, steps[1]);
    var c := Do(T, b, steps[2]);
    assert Run(T, s, steps) == Run(T, a, steps[1..]) == Run(T, b, steps[1..][1..]) == Run(T, c, steps[1..][1..][1..]);
    assert Run(T, Do(T, c, steps[3]), []) == Do(T, c, steps[3]);
  }

  /** A run that loses a write: the worker, drainer 0, stalls between reading the old row and writing the new one. An
      old instance writes the row again, finalization drains both entries, is right, and drops the old table. Then
      the worker goes on, and nothing is left that would ever correct what it writes. */
  lemma StalledDrainerOverwrites(T: Transform, was: Row, now: Row)
    requires T(was).Some? && T(now).Some? && T(was) != T(now)
    ensures var first, second := Item(0, 1, Upsert), Item(1, 1, Upsert);
      var stalled := Run(T, START, [Old(1, Some(was)), Take(0, first), ReadOld(0), Old(1, Some(now))]);
      var final := Do(T, Run(T, stalled, Drain(first) + Drain(second)), Drop);
      var end := Do(T, final, WriteNew(0));
      && final.dropped && final.queue == {} && Mapped(T, final.src, final.dst)
      && end.queue == {} && !Mapped(T, end.src, end.dst)
      && end.src == map[1 := now] && end.dst == map[1 := T(was).value]
  {
    hide Run;
    var first, second := Item(0, 1, Upsert), Item(1, 1, Upsert);
    var steps := [Old(1, Some(was)), Take(0, first), ReadOld(0), Old(1, Some(now))];
    RunFour(T, START, steps);
    var stalled := Run(T, START, steps);
    assert stalled == Sys(map[1 := now], map[], {first, second}, 2, map[0 := Read(first, Some(was))], false);
    RunJoin(T, stalled, Drain(first), Drain(second));
    DrainedOne(T, stalled, first);
    var mid := Run(T, stalled, Drain(first));
    DrainedOne(T, mid, second);
  }

  /** Another one: the worker took a delete and stalls before it runs; the row is inserted anew, finalization drains the
      delete and the insert and drops the old table; then the worker deletes the new row. */
  lemma StalledDeleteLosesRow(T: Transform, row: Row)
    requires T(row).Some?
    ensures var gone, back := Item(1, 1, Delete), Item(2, 1, Upsert);
      var s := START.(src := map[1 := row], dst := map[1 := T(row).value], next := 1);
      var stalled := Run(T, s, [Old(1, None), Take(0, gone), ReadOld(0), Old(1, Some(row))]);
      var final := Do(T, Run(T, stalled, Drain(gone) + Drain(back)), Drop);
      var end := Do(T, final, WriteNew(0));
      && Inv(T, s) && final.dropped && final.queue == {} && Mapped(T, final.src, final.dst)
      && end.queue == {} && end.src == map[1 := row] && end.dst == map[]
  {
    hide Run;
    var gone, back := Item(1, 1, Delete), Item(2, 1, Upsert);
    var s := START.(src := map[1 := row], dst := map[1 := T(row).value], next := 1);
    var steps := [Old(1, None), Take(0, gone), ReadOld(0), Old(1, Some(row))];
    RunFour(T, s, steps);
    var stalled := Run(T, s, steps);
    assert s.src - {1} == map[];
    assert stalled == Sys(map[1 := row], map[1 := T(row).value], {gone, back}, 3, map[0 := Read(gone, None)], false);
    RunJoin(T, stalled, Drain(gone), Drain(back));
    var mid := stalled.(dst := map[], queue := {back});
    assert Run(T, stalled, Drain(gone)) == mid by {
      RunFour(T, stalled, Drain(gone));
      DrainedDelete(T, stalled, gone);
    }
    DrainedOne(T, mid, back);
  }

  lemma DrainedDelete(T: Transform, s: Sys, item: Item)
    requires item in s.queue && 1 !in s.jobs && item.op.Delete?
    ensures var steps := Drain(item);
      Do(T, Do(T, Do(T, Do(T, s, steps[0]), steps[1]), steps[2]), steps[3])
        == s.(dst := s.dst - {item.pk}, queue := s.queue - {item})
  {
    var s1 := s.(jobs := s.jobs[1 := Taken(item)]);
    var s2 := s.(jobs := s.jobs[1 := Read(item, None)]);
    var s3 := s.(dst := s.dst - {item.pk}, jobs := s.jobs[1 := Wrote(item)]);
    assert s.jobs[1 := Taken(item)][1 := Read(item, None)] == s.jobs[1 := Read(item, None)];
    assert s.jobs[1 := Read(item, None)][1 := Wrote(item)] == s.jobs[1 := Wrote(item)];
    assert s.jobs[1 := Wrote(item)] - {1} == s.jobs;
    assert Do(T, s, Take(1, item)) == s1 && Do(T, s1, ReadOld(1)) == s2 && Do(T, s2, WriteNew(1)) == s3;
  }
}

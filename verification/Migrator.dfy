/** The online migration of one replaced table: triggers queue what old instances write, a checkpointed
    backfill copies old rows to new ones, a drain replays the queue, FinalizeMigration drops the old
    table (migrator.go). Old instances write between any two statements; a crash may follow any. */
module Migrator {
  import opened Keyset
  import opened Wrappers

  type Row(==, !new)
  type NewRow(==, !new)

  /** The alt-to-new transformation, which keeps the id and may fail on a row. */
  type Transform = Row -> Option<NewRow>

  datatype Op = Upsert | Delete

  /** One trigger entry; own tells the replaced table from tables of another generation. */
  datatype Entry = Entry(own: bool, pk: Pk, op: Op)

  datatype Tables = Tables(src: map<Pk, Row>, dst: map<Pk, NewRow>, queue: seq<Entry>,
                           triggers: bool, last: nat, done: bool)

  // ---------------------------------------------------------------- what old instances do

  datatype Write = Put(pk: Pk, row: Row) | Remove(pk: Pk) | Other(entry: Entry)

  /** One committed statement of an old instance, with the entry its trigger queues. */
  function Written(s: Tables, w: Write): Tables {
    match w
    case Put(pk, row) =>
      s.(src := s.src[pk := row], queue := if s.triggers then s.queue + [Entry(true, pk, Upsert)] else s.queue)
    case Remove(pk) =>
      if pk !in s.src then s
      else s.(src := s.src - {pk}, queue := if s.triggers then s.queue + [Entry(true, pk, Delete)] else s.queue)
    case Other(e) =>
      if e.own then s else s.(queue := s.queue + [e])
  }

  function AllWritten(s: Tables, ws: seq<Write>): Tables
    decreases ws
  {
    if ws == [] then s else AllWritten(Written(s, ws[0]), ws[1..])
  }

  // ---------------------------------------------------------------- the invariant

  ghost predicate Pending(q: seq<Entry>, k: Pk) {
    exists i :: 0 <= i < |q| && q[i].own && q[i].pk == k
  }

  /** The new row of k is the transformed old row; absent matches absent. */
  ghost predicate Match(T: Transform, s: Tables, k: Pk) {
    if k in s.src then k in s.dst && T(s.src[k]) == Some(s.dst[k]) else k !in s.dst
  }

  predicate Passed(s: Tables, k: Pk) {
    s.done || k <= s.last
  }

  /** The last queued change of a key tells whether the old table has it. */
  ghost predicate LastTells(q: seq<Entry>, src: map<Pk, Row>) {
    forall i | 0 <= i < |q| && q[i].own && !Pending(q[i + 1..], q[i].pk) ::
      q[i].op.Upsert? <==> q[i].pk in src
  }

  ghost predicate Inv(T: Transform, s: Tables) {
    && (forall k: Pk | Passed(s, k) && !Pending(s.queue, k) :: Match(T, s, k))
    && (forall k: Pk | !Passed(s, k) :: k !in s.dst)
    && LastTells(s.queue, s.src)
    && (!s.triggers ==> s.last == 0 && !s.done && forall e <- s.queue :: !e.own)
    && s.last <= KEYS
  }

  /** The result of a finished migration: exactly the transformation mapped over the old table. */
  ghost predicate Mapped(T: Transform, src: map<Pk, Row>, dst: map<Pk, NewRow>) {
    dst.Keys == src.Keys && forall k <- src :: T(src[k]) == Some(dst[k])
  }

  // ---------------------------------------------------------------- queue lemmas

  lemma PendingAppend(q: seq<Entry>, e: Entry, k: Pk)
    ensures Pending(q + [e], k) <==> Pending(q, k) || (e.own && e.pk == k)
  {
    if Pending(q, k) {
      var i :| 0 <= i < |q| && q[i].own && q[i].pk == k;
      assert (q + [e])[i] == q[i];
    }
    if e.own && e.pk == k {
      assert (q + [e])[|q|] == e;
    }
  }

  lemma PendingConcat(q: seq<Entry>, r: seq<Entry>, k: Pk)
    ensures Pending(q + r, k) <==> Pending(q, k) || Pending(r, k)
  {
    if Pending(q, k) {
      var i :| 0 <= i < |q| && q[i].own && q[i].pk == k;
      assert (q + r)[i] == q[i];
    }
    if Pending(r, k) {
      var i :| 0 <= i < |r| && r[i].own && r[i].pk == k;
      assert (q + r)[|q| + i] == r[i];
    }
  }

  lemma LastTellsAppend(q: seq<Entry>, src: map<Pk, Row>, e: Entry, src': map<Pk, Row>)
    requires LastTells(q, src)
    requires e.own ==> (e.op.Upsert? <==> e.pk in src')
    requires forall k: Pk :: !(e.own && k == e.pk) ==> (k in src <==> k in src')
    ensures LastTells(q + [e], src')
  {
    forall i | 0 <= i < |q + [e]| && (q + [e])[i].own && !Pending((q + [e])[i + 1..], (q + [e])[i].pk)
      ensures (q + [e])[i].op.Upsert? <==> (q + [e])[i].pk in src' {
      if i < |q| {
        assert (q + [e])[i + 1..] == q[i + 1..] + [e];
        PendingAppend(q[i + 1..], e, q[i].pk);
      }
    }
  }

  lemma WriteKeepsInv(T: Transform, s: Tables, w: Write)
    requires Inv(T, s)
    ensures Inv(T, Written(s, w))
  {
    var u := Written(s, w);
    if u != s && u.queue != s.queue {
      var e := u.queue[|s.queue|];
      assert u.queue == s.queue + [e];
      LastTellsAppend(s.queue, s.src, e, u.src);
      forall k: Pk ensures Pending(u.queue, k) <==> Pending(s.queue, k) || (e.own && e.pk == k) {
        PendingAppend(s.queue, e, k);
      }
    }
  }

  /** What any number of foreign writes may have done: every key they touched is queued behind. */
  ghost predicate Foreign(s: Tables, u: Tables) {
    && u.dst == s.dst && u.last == s.last && u.done == s.done && u.triggers == s.triggers
    && |s.queue| <= |u.queue| && u.queue[..|s.queue|] == s.queue
    && forall k: Pk :: Same(s.src, u.src, k) || Pending(u.queue[|s.queue|..], k)
  }

  ghost predicate Same(src: map<Pk, Row>, src': map<Pk, Row>, k: Pk) {
    if k in src then k in src' && src'[k] == src[k] else k !in src'
  }

  lemma QueueTail(q: seq<Entry>, r: seq<Entry>, e: Entry)
    requires |q| <= |r| && r[..|q|] == q
    ensures (r + [e])[..|q|] == q && (r + [e])[|q|..] == r[|q|..] + [e]
  {
  }

  lemma WriteIsForeign(s: Tables, u: Tables, w: Write)
    requires s.triggers && Foreign(s, u)
    ensures Foreign(s, Written(u, w))
  {
    hide Pending, Same, Written;
    var x := Written(u, w);
    WriteFields(u, w);
    if x.queue != u.queue {
      var e := x.queue[|u.queue|];
      QueueTail(s.queue, u.queue, e);
      forall k: Pk ensures Same(s.src, x.src, k) || Pending(x.queue[|s.queue|..], k) {
        PendingAppend(u.queue[|s.queue|..], e, k);
        SameTransitive(s.src, u.src, x.src, k);
      }
    }
  }

  /** What one write changes: nothing, or the row of the key it queues. */
  lemma WriteFields(u: Tables, w: Write)
    requires u.triggers
    ensures var x := Written(u, w);
      && x.dst == u.dst && x.last == u.last && x.done == u.done && x.triggers
      && (x == u || (|x.queue| == |u.queue| + 1 && x.queue == u.queue + [x.queue[|u.queue|]]
           && forall k: Pk :: Same(u.src, x.src, k) || (x.queue[|u.queue|].own && x.queue[|u.queue|].pk == k)))
  {
  }

  lemma SameTransitive(a: map<Pk, Row>, b: map<Pk, Row>, c: map<Pk, Row>, k: Pk)
    ensures Same(a, b, k) && Same(b, c, k) ==> Same(a, c, k)
  {
  }

  lemma {:induction false} WritesKeepInv(T: Transform, s: Tables, u: Tables, ws: seq<Write>)
    requires Inv(T, u) && s.triggers && Foreign(s, u)
    ensures Inv(T, AllWritten(u, ws)) && Foreign(s, AllWritten(u, ws))
    ensures ws == [] ==> AllWritten(u, ws) == u
    ensures |AllWritten(u, ws).queue| <= |u.queue| + |ws|
    decreases ws
  {
    hide Inv, Foreign;
    if ws != [] {
      WriteKeepsInv(T, u, ws[0]);
      WriteIsForeign(s, u, ws[0]);
      assert Written(u, ws[0]).triggers by { ForeignTriggers(s, u); }
      WritesKeepInv(T, s, Written(u, ws[0]), ws[1..]);
    }
  }

  lemma {:induction false} WritesKeepOnlyInv(T: Transform, s: Tables, ws: seq<Write>)
    requires Inv(T, s)
    ensures var u := AllWritten(s, ws); Inv(T, u) && u.triggers == s.triggers && u.done == s.done
    ensures ws == [] ==> AllWritten(s, ws) == s
    decreases ws
  {
    hide Inv;
    if ws != [] {
      WriteKeepsInv(T, s, ws[0]);
      WritesKeepOnlyInv(T, Written(s, ws[0]), ws[1..]);
    }
  }

  lemma ForeignTriggers(s: Tables, u: Tables)
    requires Foreign(s, u)
    ensures u.triggers == s.triggers
  {
  }

  lemma ForeignReflexive(s: Tables)
    ensures Foreign(s, s)
  {
  }

  lemma ForeignTransitive(s: Tables, u: Tables, w: Tables)
    requires Foreign(s, u) && Foreign(u, w)
    ensures Foreign(s, w)
  {
    hide Pending, Same;
    var n := |s.queue|;
    TailOfTail(s.queue, u.queue, w.queue);
    forall k: Pk ensures Same(s.src, w.src, k) || Pending(w.queue[n..], k) {
      PendingConcat(u.queue[n..], w.queue[|u.queue|..], k);
      SameTransitive(s.src, u.src, w.src, k);
    }
  }

  lemma TailOfTail(p: seq<Entry>, q: seq<Entry>, r: seq<Entry>)
    requires |p| <= |q| <= |r| && q[..|p|] == p && r[..|q|] == q
    ensures r[..|p|] == p && r[|p|..] == q[|p|..] + r[|q|..]
  {
    assert r == q + r[|q|..];
  }

  // ---------------------------------------------------------------- backfill

  /** transformAndUpsert over a batch; the first failing row fails the transaction. */
  function Copied(T: Transform, dst: map<Pk, NewRow>, batch: seq<(Pk, Row)>): Option<map<Pk, NewRow>>
    decreases batch
  {
    if batch == [] then Some(dst)
    else
      match T(batch[0].1)
      case None => None
      case Some(v) => Copied(T, dst[batch[0].0 := v], batch[1..])
  }

  /** The transformation fails on no row. */
  ghost predicate Total(T: Transform) {
    forall row: Row :: T(row).Some?
  }

  lemma {:induction false} CopyFails(T: Transform, dst: map<Pk, NewRow>, batch: seq<(Pk, Row)>)
    requires Copied(T, dst, batch).None?
    ensures !Total(T)
    decreases batch
  {
    if T(batch[0].1).Some? {
      CopyFails(T, dst[batch[0].0 := T(batch[0].1).value], batch[1..]);
    }
  }

  lemma ApplyFails(T: Transform, dst: map<Pk, NewRow>, k: Pk, op: Op, row: Option<Row>)
    requires Applied(T, dst, k, op, row).None?
    ensures !Total(T)
  {
  }

  lemma {:induction false} CopiedRows(T: Transform, src: map<Pk, Row>, dst: map<Pk, NewRow>, batch: seq<(Pk, Row)>)
    requires forall i | 0 <= i < |batch| :: batch[i].0 in src && src[batch[i].0] == batch[i].1
    requires Copied(T, dst, batch).Some?
    ensures var u := Copied(T, dst, batch).value;
      && (forall k: Pk | InBatch(batch, k) :: k in src && k in u && T(src[k]) == Some(u[k]))
      && (forall k: Pk | !InBatch(batch, k) :: (k in u <==> k in dst) && (k in dst ==> u[k] == dst[k]))
    decreases batch
  {
    if batch != [] {
      var k0 := batch[0].0;
      CopiedRows(T, src, dst[k0 := T(batch[0].1).value], batch[1..]);
      assert batch == [batch[0]] + batch[1..];
      forall k: Pk ensures InBatch(batch, k) <==> k == k0 || InBatch(batch[1..], k) {
        InBatchCons(batch[0], batch[1..], k);
      }
    }
  }

  /** A key without queued change is as it was when the foreign writes began. */
  lemma Untouched(s: Tables, u: Tables, k: Pk)
    requires Foreign(s, u) && !Pending(u.queue, k)
    ensures Same(s.src, u.src, k) && !Pending(s.queue, k)
  {
    assert u.queue == s.queue + u.queue[|s.queue|..];
    PendingConcat(s.queue, u.queue[|s.queue|..], k);
  }

  /** The backfill transaction: rows read earlier, old instances writing since. A key of the batch's stretch is
      copied as read, or absent as read, or has a change queued. */
  lemma CopyKeepsInv(T: Transform, r: Tables, s: Tables, n: nat)
    requires Inv(T, r) && Inv(T, s) && Foreign(r, s) && s.triggers && !s.done
    requires var b := Batch(r.src, r.last, n); b != [] && Copied(T, s.dst, b).Some?
    ensures var b := Batch(r.src, r.last, n);
      Inv(T, s.(dst := Copied(T, s.dst, b).value, last := b[|b| - 1].0))
  {
    hide Batch, Copied, InBatch, Pending, LastTells;
    var b := Batch(r.src, r.last, n);
    var u := s.(dst := Copied(T, s.dst, b).value, last := b[|b| - 1].0);
    BatchIsStretch(r.src, r.last, n);
    CopiedRows(T, r.src, s.dst, b);
    forall k: Pk | Passed(u, k) && !Pending(u.queue, k) ensures Match(T, u, k) {
      Untouched(r, s, k);
      assert k <= s.last ==> Match(T, s, k);
      assert k > s.last ==> k !in s.dst;
    }
  }

  /** An empty batch finishes the backfill: rows inserted beyond the cursor since are queued. */
  lemma FinishKeepsInv(T: Transform, r: Tables, s: Tables)
    requires Inv(T, r) && Inv(T, s) && Foreign(r, s) && s.triggers
    requires forall k <- r.src :: k <= r.last
    ensures Inv(T, s.(done := true))
  {
    var u := s.(done := true);
    forall k: Pk | Passed(u, k) && !Pending(u.queue, k) ensures Match(T, u, k) {
      Untouched(r, s, k);
      assert !s.done && k > s.last ==> k !in s.dst;
    }
  }

  // ---------------------------------------------------------------- drain

  /** What applying one queued change to a key writes, given the old row read (or its absence). */
  function Applied(T: Transform, dst: map<Pk, NewRow>, k: Pk, op: Op, row: Option<Row>): Option<map<Pk, NewRow>> {
    if op.Delete? || row.None? then Some(dst - {k})
    else
      match T(row.value)
      case None => None
      case Some(v) => Some(dst[k := v])
  }

  function RowOf(src: map<Pk, Row>, k: Pk): Option<Row> {
    if k in src then Some(src[k]) else None
  }

  function Without(q: seq<Entry>, p: nat): seq<Entry>
    requires p < |q|
  {
    q[..p] + q[p + 1..]
  }

  lemma PendingWithout(q: seq<Entry>, p: nat, k: Pk)
    requires p < |q|
    ensures Pending(q, k) <==> Pending(Without(q, p), k) || (q[p].own && q[p].pk == k)
  {
    assert q == q[..p] + [q[p]] + q[p + 1..];
    PendingConcat(q[..p] + [q[p]], q[p + 1..], k);
    PendingAppend(q[..p], q[p], k);
    PendingConcat(q[..p], q[p + 1..], k);
  }

  /** Nothing before position p belongs to the replaced table. */
  ghost predicate NoOwnBefore(q: seq<Entry>, p: nat) {
    p <= |q| && forall i | 0 <= i < p :: !q[i].own
  }

  lemma LastTellsWithout(q: seq<Entry>, src: map<Pk, Row>, p: nat)
    requires LastTells(q, src) && p < |q| && NoOwnBefore(q, p)
    ensures LastTells(Without(q, p), src)
  {
    var w := Without(q, p);
    forall i | 0 <= i < |w| && w[i].own && !Pending(w[i + 1..], w[i].pk)
      ensures w[i].op.Upsert? <==> w[i].pk in src {
      assert i >= p && w[i] == q[i + 1] && w[i + 1..] == q[i + 2..];
    }
  }

  /** Dequeuing the first own entry is safe once its key is in step or has a later change queued. */
  lemma DequeueKeepsInv(T: Transform, s: Tables, p: nat)
    requires Inv(T, s) && s.done && p < |s.queue| && s.queue[p].own && NoOwnBefore(s.queue, p)
    requires Pending(Without(s.queue, p), s.queue[p].pk) || Match(T, s, s.queue[p].pk)
    ensures Inv(T, s.(queue := Without(s.queue, p)))
  {
    var u := s.(queue := Without(s.queue, p));
    LastTellsWithout(s.queue, s.src, p);
    forall k: Pk | !Pending(u.queue, k) ensures Match(T, u, k) {
      PendingWithout(s.queue, p, k);
      assert Passed(s, k);
      assert Match(T, s, k);
    }
  }

  /** Writing the new row of a key that still has a queued change keeps the invariant. */
  lemma ApplyKeepsInv(T: Transform, s: Tables, k: Pk, op: Op, row: Option<Row>)
    requires Inv(T, s) && s.done && Pending(s.queue, k) && Applied(T, s.dst, k, op, row).Some?
    ensures Inv(T, s.(dst := Applied(T, s.dst, k, op, row).value))
  {
    var u := s.(dst := Applied(T, s.dst, k, op, row).value);
    forall j: Pk | !Pending(u.queue, j) ensures Match(T, u, j) {
      assert j != k && Passed(s, j) && Match(T, s, j);
    }
  }

  /** After the write of an applied entry and any foreign writes since its read: the key is in step,
      or one of those writes queued a later change. */
  lemma InStepOrQueued(T: Transform, r: Tables, s: Tables, p: nat)
    requires Inv(T, s) && p < |r.queue| && r.queue[p].own
    requires Foreign(r.(dst := s.dst), s) && s.queue[p] == r.queue[p]
    requires var e := r.queue[p];
      Applied(T, s.dst, e.pk, e.op, RowOf(r.src, e.pk)) == Some(s.dst)
    ensures Pending(Without(s.queue, p), s.queue[p].pk) || Match(T, s, s.queue[p].pk)
  {
    var e := s.queue[p];
    var n := |r.queue|;
    if !Pending(Without(s.queue, p), e.pk) {
      assert Without(s.queue, p) == s.queue[..p] + s.queue[p + 1..];
      PendingConcat(s.queue[..p], s.queue[p + 1..], e.pk);
      assert s.queue[p + 1..] == s.queue[p + 1..n] + s.queue[n..];
      PendingConcat(s.queue[p + 1..n], s.queue[n..], e.pk);
      assert Same(r.src, s.src, e.pk);
      if e.op.Delete? {
        assert LastTells(s.queue, s.src);
        assert e.pk !in s.src;
      }
      assert e.pk in s.dst ==> s.dst[e.pk] == s.dst[e.pk];
      AppliedTwice(T, s.dst, e.pk, e.op, RowOf(r.src, e.pk));
    }
  }

  lemma AppliedTwice(T: Transform, dst: map<Pk, NewRow>, k: Pk, op: Op, row: Option<Row>)
    requires Applied(T, dst, k, op, row) == Some(dst)
    ensures op.Delete? || row.None? ==> k !in dst
    ensures op.Upsert? && row.Some? ==> k in dst && T(row.value) == Some(dst[k])
  {
  }

  // ---------------------------------------------------------------- drain without foreign writes

  const DRAIN_BATCH := 200

  /** The reference: walk the queue in order, apply own entries, keep the others, and stop for good behind
      the budget-th kept one. */
  function Drained(T: Transform, src: map<Pk, Row>, dst: map<Pk, NewRow>, q: seq<Entry>, budget: nat)
    : (map<Pk, NewRow>, seq<Entry>)
    decreases q
  {
    if q == [] || budget == 0 then (dst, q)
    else if q[0].own then
      match Applied(T, dst, q[0].pk, q[0].op, RowOf(src, q[0].pk))
      case None => (dst, q)
      case Some(d) => Drained(T, src, d, q[1..], budget)
    else
      var r := Drained(T, src, dst, q[1..], budget - 1);
      (r.0, [q[0]] + r.1)
  }

  /** Applying the first own entry, if fewer than budget others precede it, is one step of the walk. */
  lemma {:induction false} DrainedStep(T: Transform, src: map<Pk, Row>, dst: map<Pk, NewRow>, q: seq<Entry>,
                                       p: nat, budget: nat)
    requires p < |q| && q[p].own && NoOwnBefore(q, p) && p < budget
    requires Applied(T, dst, q[p].pk, q[p].op, RowOf(src, q[p].pk)).Some?
    ensures Drained(T, src, dst, q, budget)
         == Drained(T, src, Applied(T, dst, q[p].pk, q[p].op, RowOf(src, q[p].pk)).value, Without(q, p), budget)
    decreases p
  {
    var d := Applied(T, dst, q[p].pk, q[p].op, RowOf(src, q[p].pk)).value;
    if p == 0 {
      assert Without(q, 0) == q[1..];
    } else {
      var tail := q[1..];
      assert tail[p - 1] == q[p];
      DrainedStep(T, src, dst, tail, p - 1, budget - 1);
      assert Without(q, p)[0] == q[0] && Without(q, p)[1..] == Without(tail, p - 1);
    }
  }

  lemma {:induction false} DrainedDone(T: Transform, src: map<Pk, Row>, dst: map<Pk, NewRow>, q: seq<Entry>,
                                       budget: nat)
    requires NoOwnBefore(q, if |q| < budget then |q| else budget)
    ensures Drained(T, src, dst, q, budget) == (dst, q)
    decreases q
  {
    if q != [] && budget > 0 {
      DrainedDone(T, src, dst, q[1..], budget - 1);
      assert [q[0]] + q[1..] == q;
    }
  }

  /** How many entries of other generations a queue holds. */
  function Others(q: seq<Entry>): nat {
    if q == [] then 0 else (if q[0].own then 0 else 1) + Others(q[1..])
  }

  /** DELETE FROM the queue WHERE tbl is the dropped table. */
  function OthersOnly(q: seq<Entry>): (r: seq<Entry>)
    ensures forall e <- r :: !e.own && e in q
  {
    if q == [] then [] else (if q[0].own then [] else [q[0]]) + OthersOnly(q[1..])
  }

  /** The condition a caller can check before finalizing: no own entry has budget others before it. */
  ghost predicate NoneStuck(q: seq<Entry>, budget: nat) {
    forall i | 0 <= i < |q| && q[i].own :: Others(q[..i]) < budget
  }

  lemma NoneStuckTail(q: seq<Entry>, budget: nat)
    requires q != [] && budget > 0
    ensures NoneStuck(q, budget) <==> NoneStuck(q[1..], if q[0].own then budget else budget - 1)
  {
    var tail := q[1..];
    var b := if q[0].own then budget else budget - 1;
    forall i | 0 < i <= |tail| ensures Others(q[..i]) < budget <==> Others(tail[..i - 1]) < b {
      assert q[..i][1..] == tail[..i - 1];
    }
    assert Others(q[..0]) == 0;
    if NoneStuck(q, budget) {
      forall i | 0 <= i < |tail| && tail[i].own ensures Others(tail[..i]) < b {
        assert q[i + 1].own && Others(q[..i + 1]) < budget;
      }
    }
    if NoneStuck(tail, b) {
      forall i | 0 <= i < |q| && q[i].own ensures Others(q[..i]) < budget {
        assert i > 0 ==> tail[i - 1].own;
      }
    }
  }

  lemma {:induction false} NoneStuckWithout(q: seq<Entry>, p: nat, budget: nat)
    requires p < |q| && q[p].own && NoOwnBefore(q, p) && p < budget
    ensures NoneStuck(q, budget) <==> NoneStuck(Without(q, p), budget)
    decreases p
  {
    NoneStuckTail(q, budget);
    if p == 0 {
      assert Without(q, 0) == q[1..];
    } else {
      var w := Without(q, p);
      assert w[0] == q[0] && w[1..] == Without(q[1..], p - 1);
      NoneStuckTail(w, budget);
      NoneStuckWithout(q[1..], p - 1, budget - 1);
    }
  }

  /** When the first budget entries belong to others, none is stuck exactly when no entry is own. */
  lemma {:induction false} HeadIsAll(q: seq<Entry>, budget: nat)
    requires NoOwnBefore(q, if |q| < budget then |q| else budget)
    ensures NoneStuck(q, budget) <==> forall e <- q :: !e.own
    decreases q
  {
    if q == [] {
    } else if budget == 0 {
      if i :| 0 <= i < |q| && q[i].own {
        assert q[i] in q && Others(q[..i]) >= 0;
      }
    } else {
      NoneStuckTail(q, budget);
      HeadIsAll(q[1..], budget - 1);
      assert forall e :: e in q <==> e == q[0] || e in q[1..];
    }
  }

  /** The drain leaves no own entry behind if and only if none is stuck. */
  lemma {:induction false} DrainsAllIffNoneStuck(T: Transform, src: map<Pk, Row>, dst: map<Pk, NewRow>,
                                                 q: seq<Entry>, budget: nat)
    requires forall k <- src :: T(src[k]).Some?
    ensures (forall e <- Drained(T, src, dst, q, budget).1 :: !e.own) <==> NoneStuck(q, budget)
    decreases q
  {
    if q == [] {
    } else if budget == 0 {
      if i :| 0 <= i < |q| && q[i].own {
        assert q[i] in q && Others(q[..i]) >= 0;
      }
    } else if q[0].own {
      NoneStuckTail(q, budget);
      var d := Applied(T, dst, q[0].pk, q[0].op, RowOf(src, q[0].pk)).value;
      DrainsAllIffNoneStuck(T, src, d, q[1..], budget);
    } else {
      NoneStuckTail(q, budget);
      DrainsAllIffNoneStuck(T, src, dst, q[1..], budget - 1);
      var r := Drained(T, src, dst, q[1..], budget - 1).1;
      assert forall e :: e in [q[0]] + r <==> e == q[0] || e in r;
    }
  }

  lemma NoOwnIsMapped(T: Transform, s: Tables)
    requires Inv(T, s) && s.done && forall e <- s.queue :: !e.own
    ensures Mapped(T, s.src, s.dst)
  {
    forall k: Pk ensures Match(T, s, k) {
      assert !Pending(s.queue, k) && Passed(s, k);
    }
    forall k: Pk ensures k in s.src <==> k in s.dst {
      assert Match(T, s, k);
    }
    forall k | k in s.src ensures T(s.src[k]) == Some(s.dst[k]) {
      assert Match(T, s, k);
    }
  }

  /** A queue whose head is a full batch of another generation hides the row an old instance inserted
      last: the drain reports success and the new table lacks the row. */
  lemma StuckEntryLosesRow(T: Transform, row: Row)
    requires T(row).Some?
    ensures var q := seq(DRAIN_BATCH, _ => Entry(false, 1, Upsert)) + [Entry(true, 1, Upsert)];
            var s := Tables(map[1 := row], map[], q, true, 0, true);
      Inv(T, s) && Drained(T, s.src, s.dst, q, DRAIN_BATCH) == (s.dst, q) && !Mapped(T, s.src, s.dst)
  {
    var q := seq(DRAIN_BATCH, _ => Entry(false, 1, Upsert)) + [Entry(true, 1, Upsert)];
    var s := Tables(map[1 := row], map[], q, true, 0, true);
    assert q[DRAIN_BATCH].own && q[DRAIN_BATCH].pk == 1;
    assert Pending(q, 1);
    DrainedDone(T, s.src, s.dst, q, DRAIN_BATCH);
  }

  /** Why the drain must wait for the backfill: a delete drained between the backfill's read and its
      write leaves a row in the new table that no queue entry will ever remove. */
  lemma EarlyDrainResurrects(T: Transform, row: Row)
    requires T(row).Some?
    ensures var s0 := Tables(map[1 := row], map[], [], true, 0, false);
            var s1 := Written(s0, Remove(1));
            var d := Drained(T, s1.src, s1.dst, s1.queue, DRAIN_BATCH);
            var copied := Copied(T, d.0, Batch(s0.src, 0, 1));
            var s2 := s1.(dst := map[1 := T(row).value], queue := d.1, last := 1);
      && Inv(T, s0) && Inv(T, s1) && copied == Some(s2.dst)
      && s2.queue == [] && 1 !in s2.src && 1 in s2.dst && !Inv(T, s2)
  {
    var s0 := Tables(map[1 := row], map[], [], true, 0, false);
    var s1 := Written(s0, Remove(1));
    WriteKeepsInv(T, s0, Remove(1));
    assert s1.queue == [Entry(true, 1, Delete)] && s1.queue[1..] == [];
    var d := Drained(T, s1.src, s1.dst, s1.queue, DRAIN_BATCH);
    assert d == Drained(T, s1.src, map[], [], DRAIN_BATCH);
    assert (set k <- s0.src.Keys | k > 0) == {1};
    assert Batch(s0.src, 0, 1) == [(1, row)];
    var s2 := s1.(dst := map[1 := T(row).value], queue := d.1, last := 1);
    assert Copied(T, d.0, [(1, row)]) == Copied(T, d.0[1 := T(row).value], []);
    assert !Pending(s2.queue, 1) && !Match(T, s2, 1) && Passed(s2, 1);
  }

  // ---------------------------------------------------------------- phases

  datatype Phase = Idle | Expanding | Backfill | DualWrite | Finalizing

  /** The row of ormpp_schema_state; target 0 is "no migration under way". */
  datatype Schema = Schema(current: nat, target: nat, phase: Phase)

  /** Whether the pending versions of a migration include the step that replaces the table. */
  predicate Due(step: nat, current: nat, target: nat) {
    current < step <= target
  }

  /** The backfill is over from dual-write on, and every write is queued from backfill on. */
  ghost predicate PhaseOk(step: nat, s: Tables, st: Schema) {
    Due(step, st.current, st.target) ==>
      && (st.phase.DualWrite? || st.phase.Finalizing? ==> s.done)
      && (st.phase.Backfill? || st.phase.DualWrite? || st.phase.Finalizing? ==> s.triggers)
  }

  datatype Outcome = Success | Stopped | ErrMigrationPending

  class Migration {
    const T: Transform
    const batchSize: nat
    /** The version whose step replaces the table. */
    const step: nat
    /** No crash falls into the run. */
    const noCrash: bool
    var db: Tables
    var oldTable: bool
    var st: Schema
    /** Whether this process knows the transformation of the replaced table. */
    var active: bool
    /** How many more writes the old instances will issue; any number. */
    var quota: nat

    constructor (T: Transform, batchSize: nat, step: nat, noCrash: bool, src: map<Pk, Row>, others: seq<Entry>,
                 current: nat, quota: nat)
      requires batchSize > 0 && forall e <- others :: !e.own
      ensures this.T == T && this.step == step && this.noCrash == noCrash && Valid()
      ensures st == Schema(current, 0, Idle) && db.src == src && oldTable
    {
      this.T, this.batchSize, this.step, this.noCrash := T, batchSize, step, noCrash;
      db := Tables(src, map[], others, false, 0, false);
      oldTable := true;
      st := Schema(current, 0, Idle);
      active, this.quota := false, quota;
    }

    predicate IsDue()
      reads this`st
    {
      Due(step, st.current, st.target)
    }

    ghost predicate Valid()
      reads this
    {
      && TablesOk() && (oldTable ==> PhaseOk(step, db, st))
      && (!oldTable && IsDue() ==> st.phase.Expanding? || st.phase.Finalizing?)
      && (st.phase.DualWrite? && active ==> IsDue() && oldTable)
    }

    /** The same before the triggers are there: writes leave no trace yet, and nothing has been read. */
    method EarlyPause() returns (crash: bool)
      requires Inv(T, db)
      modifies this`db, this`quota
      ensures Inv(T, db) && db.triggers == old(db).triggers && db.done == old(db).done
      ensures old(quota) == 0 ==> quota == 0 && db == old(db)
      ensures noCrash ==> !crash
    {
      var ws: seq<Write> := *;
      if |ws| > quota {
        ws := [];
      }
      WritesKeepOnlyInv(T, db, ws);
      db, quota := AllWritten(db, ws), quota - |ws|;
      crash := *;
      crash := crash && !noCrash;
    }

    /** Between two statements: any writes of old instances, then perhaps a crash. */
    method Pause() returns (crash: bool)
      requires Inv(T, db) && db.triggers
      modifies this`db, this`quota
      ensures Inv(T, db) && Foreign(old(db), db)
      ensures |db.queue| + quota <= old(|db.queue| + quota)
      ensures old(quota) == 0 ==> quota == 0 && db == old(db)
      ensures noCrash ==> !crash
    {
      var ws: seq<Write> := *;
      if |ws| > quota {
        ws := [];
      }
      ForeignReflexive(db);
      WritesKeepInv(T, db, db, ws);
      db, quota := AllWritten(db, ws), quota - |ws|;
      crash := *;
      crash := crash && !noCrash;
    }

    /** backfillReplace; called again after a crash it resumes behind the stored cursor. */
    method BackfillReplace() returns (ok: bool)
      requires Inv(T, db) && db.triggers && batchSize > 0
      modifies this`db, this`quota
      ensures Inv(T, db) && db.triggers
      ensures ok ==> db.done
      ensures noCrash && Total(T) ==> ok
      ensures old(quota) == 0 ==> quota == 0 && db.src == old(db.src) && db.queue == old(db.queue)
    {
      hide Inv, Foreign, Batch, InBatch, Copied, Total;
      if db.done {
        return true;
      }
      var last := db.last;
      ghost var read := db;
      LastBounded(T, db);
      while true
        invariant Inv(T, db) && db.triggers && !db.done && last == db.last <= KEYS
        invariant old(quota) == 0 ==> quota == 0 && db.src == old(db.src) && db.queue == old(db.queue)
        decreases KEYS - last
      {
        read := db;
        var batch := Batch(db.src, last, batchSize);
        BatchIsStretch(db.src, last, batchSize);
        var crash := Pause();
        ForeignFields(read, db);
        if crash {
          return false;
        }
        if batch == [] {
          break;
        }
        var copied := Copied(T, db.dst, batch);
        if copied.None? {
          CopyFails(T, db.dst, batch);
          return false;
        }
        CopyKeepsInv(T, read, db, batchSize);
        last := batch[|batch| - 1].0;
        db := db.(dst := copied.value, last := last);
        ghost var written := db;
        crash := Pause();
        ForeignFields(written, db);
        if crash {
          return false;
        }
      }
      FinishKeepsInv(T, read, db);
      db := db.(done := true);
      return true;
    }

    /** applyQueued and the DELETE of its queue row, for the first own entry. */
    method ApplyQueued(p: nat) returns (ok: bool)
      requires Inv(T, db) && db.triggers && db.done
      requires p < |db.queue| && db.queue[p].own && NoOwnBefore(db.queue, p)
      modifies this`db, this`quota
      ensures Inv(T, db) && db.triggers && db.done
      ensures |db.queue| + quota <= old(|db.queue| + quota)
      ensures ok ==>
                && |db.queue| + quota < old(|db.queue| + quota)
                && |db.queue| + 1 >= old(|db.queue|)
                && db.queue[..old(|db.queue|) - 1] == Without(old(db.queue), p)
      ensures old(quota) == 0 ==> db.src == old(db.src)
      ensures noCrash && Total(T) ==> ok
      ensures ok && old(quota) == 0 ==>
                var e := old(db.queue)[p];
                && quota == 0 && db.src == old(db.src) && db.queue == Without(old(db.queue), p)
                && Some(db.dst) == Applied(T, old(db.dst), e.pk, e.op, RowOf(db.src, e.pk))
    {
      hide Inv, Foreign, Applied, Pending, Without, RowOf;
      ghost var read := db;
      var e := db.queue[p];
      var row := RowOf(db.src, e.pk);
      var crash := Pause();
      ForeignHead(read, db);
      if crash {
        return false;
      }
      var applied := Applied(T, db.dst, e.pk, e.op, row);
      if applied.None? {
        ApplyFails(T, db.dst, e.pk, e.op, row);
        return false;
      }
      StillPending(db.queue, p);
      ApplyKeepsInv(T, db, e.pk, e.op, row);
      ApplyIsForeign(read, db, applied.value);
      db := db.(dst := applied.value);
      ghost var written := db;
      crash := Pause();
      ForeignHead(written, db);
      ForeignTransitive(read.(dst := written.dst), written, db);
      if crash {
        return false;
      }
      assert Applied(T, db.dst, e.pk, e.op, row) == Some(db.dst) by { AppliedIdempotent(T, read.dst, e.pk, e.op, row); }
      InStepOrQueued(T, read, db, p);
      DequeueKeepsInv(T, db, p);
      WithoutInLonger(read.queue, db.queue, p);
      db := db.(queue := Without(db.queue, p));
      return true;
    }

    /** One batch of drainDualWrite: the first n entries as read, own ones applied and removed; p counts the
        others, which stay at the head of the queue. */
    method DrainBatch(n: nat) returns (ok: bool, p: nat)
      requires Inv(T, db) && db.triggers && db.done && n <= |db.queue| && n <= DRAIN_BATCH
      modifies this`db, this`quota
      ensures Inv(T, db) && db.triggers && db.done
      ensures old(quota) == 0 ==> db.src == old(db.src)
      ensures ok ==>
                && p <= n && p <= |db.queue| && NoOwnBefore(db.queue, p)
                && |db.queue| + quota + (n - p) <= old(|db.queue| + quota)
      ensures ok && old(quota) == 0 ==> quota == 0 && Calm(old(db), db)
      ensures noCrash && Total(T) ==> ok
    {
      hide Inv, Foreign, Applied, Pending, Drained, NoneStuck, NoOwnBefore, Calm, Without, Unread;
      var batch := db.queue[..n];
      var i := 0;
      p := 0;
      NoOwnAtStart(db.queue);
      AllUnread(db.queue, n);
      if old(quota) == 0 {
        CalmStart(db);
      }
      while i < n
        invariant p <= i <= n
        invariant Inv(T, db) && db.triggers && db.done && NoOwnBefore(db.queue, p)
        invariant |batch| == n && Unread(db.queue, p, batch, i) && p <= |db.queue|
        invariant |db.queue| + quota + (i - p) <= old(|db.queue| + quota)
        invariant old(quota) == 0 ==> quota == 0 && Calm(old(db), db)
      {
        NextUnread(db.queue, p, batch, i);
        ghost var before := db;
        if batch[i].own {
          var ok1 := ApplyQueued(p);
          if !ok1 {
            if old(quota) == 0 {
              CalmSource(old(db), before);
            }
            return false, p;
          }
          if old(quota) == 0 {
            CalmSource(old(db), before);
            CalmStep(old(db), before, db, p);
          }
          QueueShift(before.queue, db.queue, p, batch, i);
        } else {
          NoOwnNext(db.queue, p);
          p := p + 1;
        }
        i := i + 1;
      }
      if old(quota) == 0 {
        CalmSource(old(db), db);
      }
      ok := true;
    }

    /** drainDualWrite. Without foreign writes it is exactly the walk Drained. */
    method DrainDualWrite() returns (ok: bool)
      requires Inv(T, db) && db.triggers && db.done
      modifies this`db, this`quota
      ensures Inv(T, db) && db.triggers && db.done
      ensures ok && active && old(quota) == 0 ==>
                && quota == 0 && db.src == old(db.src)
                && Drained(T, db.src, old(db.dst), old(db.queue), DRAIN_BATCH) == (db.dst, db.queue)
                && (NoneStuck(old(db.queue), DRAIN_BATCH) <==> forall e <- db.queue :: !e.own)
      ensures !active ==> ok && db == old(db)
      ensures noCrash && Total(T) ==> ok
      ensures old(quota) == 0 ==> db.src == old(db.src)
    {
      hide Inv, Foreign, Applied, Pending, Drained, NoneStuck, NoOwnBefore, Calm;
      if !active {
        return true;
      }
      if old(quota) == 0 {
        CalmStart(db);
      }
      while true
        invariant Inv(T, db) && db.triggers && db.done
        invariant old(quota) == 0 ==> quota == 0 && db.src == old(db.src) && Calm(old(db), db)
        decreases |db.queue| + quota
      {
        ghost var read := db;
        var n := if |db.queue| < DRAIN_BATCH then |db.queue| else DRAIN_BATCH;
        var crash := Pause();
        if crash {
          return false;
        }
        ForeignHead(read, db);
        if n == 0 {
          if old(quota) == 0 {
            NoOwnAtStart(db.queue);
            CalmEnd(old(db), db);
          }
          return true;
        }
        ghost var mid := db;
        var done, p := DrainBatch(n);
        if !done {
          return false;
        }
        if old(quota) == 0 {
          CalmSource(mid, db);
          CalmTransitive(old(db), mid, db);
        }
        if p == n {
          if old(quota) == 0 {
            CalmEnd(old(db), db);
          }
          return true;
        }
      }
    }

    lemma CalmStart(now: Tables)
      ensures Calm(now, now)
    {
    }

    lemma CalmSource(start: Tables, now: Tables)
      requires Calm(start, now)
      ensures now.src == start.src
    {
    }

    lemma CalmTransitive(start: Tables, mid: Tables, now: Tables)
      requires Calm(start, mid) && Calm(mid, now)
      ensures Calm(start, now)
    {
      hide Drained, NoneStuck;
    }

    lemma CalmStep(start: Tables, before: Tables, now: Tables, p: nat)
      requires Calm(start, before) && now.src == before.src
      requires p < |before.queue| && before.queue[p].own && NoOwnBefore(before.queue, p) && p < DRAIN_BATCH
      requires var e := before.queue[p];
        Some(now.dst) == Applied(T, before.dst, e.pk, e.op, RowOf(before.src, e.pk))
      requires now.queue == Without(before.queue, p)
      ensures Calm(start, now)
    {
      hide Drained, NoneStuck, NoOwnBefore, Applied, Without;
      DrainedStep(T, before.src, before.dst, before.queue, p, DRAIN_BATCH);
      NoneStuckWithout(before.queue, p, DRAIN_BATCH);
    }

    /** The head belongs to others: nothing is left to drain. */
    lemma CalmEnd(start: Tables, now: Tables)
      requires Calm(start, now)
      requires NoOwnBefore(now.queue, if |now.queue| < DRAIN_BATCH then |now.queue| else DRAIN_BATCH)
      ensures Drained(T, now.src, start.dst, start.queue, DRAIN_BATCH) == (now.dst, now.queue)
      ensures NoneStuck(start.queue, DRAIN_BATCH) <==> forall e <- now.queue :: !e.own
    {
      hide Drained, NoneStuck, NoOwnBefore;
      DrainedDone(T, now.src, now.dst, now.queue, DRAIN_BATCH);
      HeadIsAll(now.queue, DRAIN_BATCH);
    }

    /** The old rows are those of the start, and what is left to drain leads where it led at the start. */
    ghost predicate Calm(start: Tables, now: Tables) {
      && now.src == start.src
      && Drained(T, now.src, now.dst, now.queue, DRAIN_BATCH)
         == Drained(T, start.src, start.dst, start.queue, DRAIN_BATCH)
      && (NoneStuck(now.queue, DRAIN_BATCH) <==> NoneStuck(start.queue, DRAIN_BATCH))
    }

    /** runUpgrade under the migration lease: expand (triggers before anything is read), backfill, dual-write.
        Stopped stands for a crash or an error; calling again resumes. Without a crash and a failing row it succeeds
        exactly when no trigger has to be put on a table that is already dropped. */
    method RunUpgrade(target: nat) returns (r: Outcome)
      requires Valid() && target > 0
      modifies this
      ensures Valid() && oldTable == old(oldTable) && st.current == old(st).current
      ensures old(quota) == 0 ==> quota == 0 && db.src == old(db.src)
      ensures r != ErrMigrationPending
      ensures noCrash && Total(T) ==>
                (r == Success <==> old(st).current >= target || !Due(step, old(st).current, target) || oldTable)
      ensures r == Success ==>
                || (old(st).current >= target && st == old(st))
                || (st.target == target && (st.phase.DualWrite? || st.phase.Finalizing?) && active == IsDue())
      ensures !oldTable && Due(step, old(st).current, target) ==>
                r == Stopped && db == old(db) && IsDue() && (st.phase.Expanding? || st.phase.Finalizing?)
      ensures old(st).phase.Finalizing? && old(st).target == target ==> st == old(st)
    {
      hide Inv, Foreign, Total;
      active := Due(step, st.current, target);
      if st.current >= target {
        return Success;
      }
      if st.phase.Idle? || st.target != target {
        st := st.(target := target, phase := Expanding);
      }
      var ok := ExpandPhase();
      if !ok {
        return Stopped;
      }
      if st.phase.Expanding? {
        st := st.(phase := Backfill);
        var crash := Rest();
        if crash {
          return Stopped;
        }
      }
      if st.phase.Backfill? {
        r := BackfillPhase();
        return;
      }
      return Success;
    }

    /** Whether the tables are as a migration may find them. */
    ghost predicate TablesOk()
      reads this
    {
      batchSize > 0 && if oldTable then Inv(T, db) else db.src == map[]
    }

    /** The triggers of the pending steps; on a table that is gone CREATE TRIGGER fails. */
    method ExpandPhase() returns (ok: bool)
      requires TablesOk()
      modifies this`db, this`quota, this`active
      ensures TablesOk() && db.done == old(db).done && (old(db).triggers ==> db.triggers)
      ensures old(quota) == 0 ==> quota == 0 && db.src == old(db.src)
      ensures !oldTable ==> db == old(db) && (ok ==> !old(active))
      ensures noCrash ==> (ok <==> !old(active) || oldTable)
      ensures ok ==> active == old(active) && (active ==> oldTable && db.triggers)
      ensures !ok ==> !active
    {
      hide Inv;
      if active {
        var crash := false;
        if oldTable {
          crash := EarlyPause();
        }
        if crash || !oldTable {
          active := false;
          return false;
        }
        if !db.triggers {
          TriggersKeepInv(T, db);
          db := db.(triggers := true);
        }
      }
      var crash := Rest();
      return !crash;
    }

    /** The backfill of the pending steps, then dual-write. */
    method BackfillPhase() returns (r: Outcome)
      requires Valid() && st.phase.Backfill? && active == IsDue() && (active ==> oldTable)
      modifies this`db, this`quota, this`st, this`active
      ensures Valid() && (old(quota) == 0 ==> quota == 0 && db.src == old(db.src))
      ensures noCrash && Total(T) ==> r == Success
      ensures r == Success ==> st == old(st).(phase := DualWrite) && active == old(active)
      ensures r == Success || (r == Stopped && st == old(st))
    {
      hide Inv, Foreign, Total;
      if active {
        var ok := BackfillReplace();
        if !ok {
          active := false;
          return Stopped;
        }
      }
      var crash := Rest();
      if crash {
        return Stopped;
      }
      st := st.(phase := DualWrite);
      return Success;
    }

    /** Between two statements of runUpgrade once its triggers are there; a crash takes the process's memory. */
    method Rest() returns (crash: bool)
      requires TablesOk()
      modifies this`db, this`quota, this`active
      ensures TablesOk() && (!oldTable ==> db == old(db))
      ensures db.triggers == old(db).triggers && db.done == old(db).done
      ensures old(quota) == 0 ==> quota == 0 && db == old(db)
      ensures noCrash ==> !crash
      ensures active == (old(active) && !crash)
    {
      crash := *;
      crash := crash && !noCrash;
      if oldTable {
        crash := EarlyPause();
      }
      active := active && !crash;
    }

    method Crash() returns (crash: bool)
      ensures noCrash ==> !crash
    {
      crash := *;
      crash := crash && !noCrash;
    }

    /** FinalizeMigration(version) by an instance of that version. olderAlive is the heartbeat check: when it
        finds no older instance, old instances write no more. A crash may follow any statement. Whenever the old table
        is gone, the new one is exactly the transformation of what it held, if no queue entry was stuck; otherwise the
        old rows are all there. */
    method FinalizeMigration(version: nat, olderAlive: bool) returns (r: Outcome)
      requires Valid() && version > 0 && (!olderAlive ==> quota == 0)
      modifies this
      ensures Valid()
      ensures r == ErrMigrationPending <==>
                && old(st) != Schema(version, 0, Idle)
                && (old(st).target != version || !old(st).phase.DualWrite? || olderAlive)
      ensures r == ErrMigrationPending || old(st) == Schema(version, 0, Idle) ==>
                st == old(st) && db == old(db) && oldTable == old(oldTable) && quota == old(quota)
      ensures noCrash && Total(T) ==> r != Stopped
      ensures r == Success ==> st == Schema(version, 0, Idle)
      ensures r == Stopped ==>
                st == old(st) || st == old(st).(phase := Finalizing) || st == Schema(version, 0, Idle)
      ensures if oldTable == old(oldTable) then db.src == old(db.src)
              else
                && !oldTable && old(active) && (st.phase.Finalizing? || st == Schema(version, 0, Idle))
                && (NoneStuck(old(db.queue), DRAIN_BATCH) ==> Mapped(T, old(db.src), db.dst))
      ensures r == Success && old(st) != st && old(active) ==> !oldTable && forall e <- db.queue :: !e.own
    {
      hide Inv, Foreign, Drained, NoneStuck, Mapped;
      if st == Schema(version, 0, Idle) {
        return Success;
      }
      if st.target != version || !st.phase.DualWrite? {
        return ErrMigrationPending;
      }
      if olderAlive {
        return ErrMigrationPending;
      }
      var crash := Crash();
      if crash {
        return Stopped;
      }
      st := st.(phase := Finalizing);
      crash := Crash();
      if crash {
        return Stopped;
      }
      if active {
        var ok := DrainDualWrite();
        if !ok {
          return Stopped;
        }
        if NoneStuck(old(db.queue), DRAIN_BATCH) {
          NoOwnIsMapped(T, db);
        }
        crash := Crash();
        if crash {
          return Stopped;
        }
        active := false;
        db := db.(src := map[]);
        oldTable := false;
        crash := Crash();
        if crash {
          return Stopped;
        }
        db := db.(queue := OthersOnly(db.queue));
      }
      crash := Crash();
      if crash {
        return Stopped;
      }
      st := Schema(version, 0, Idle);
      crash := Crash();
      return if crash then Stopped else Success; // the history entry follows the state
    }

    /** Once the old table is dropped and the state not yet idle, no later runUpgrade to the step's version or beyond
        and no FinalizeMigration of one ever succeeds. */
    method StrandedForGood(calls: seq<(bool, nat)>) returns (results: seq<Outcome>)
      requires Valid() && !oldTable && IsDue() && quota == 0 && forall c <- calls :: c.1 >= step
      modifies this
      ensures |results| == |calls| && forall r <- results :: r != Success
      ensures db == old(db) && st.current == old(st).current && st.target >= step
    {
      hide Inv;
      results := [];
      var i := 0;
      while i < |calls|
        invariant 0 <= i <= |calls| && |results| == i && forall r <- results :: r != Success
        invariant Valid() && !oldTable && IsDue() && quota == 0 && db == old(db) && st.current == old(st).current
      {
        assert calls[i] in calls;
        var r;
        if calls[i].0 {
          r := RunUpgrade(calls[i].1);
        } else {
          r := FinalizeMigration(calls[i].1, false);
        }
        results := results + [r];
        i := i + 1;
      }
    }
  }

  lemma LastBounded(T: Transform, s: Tables)
    requires Inv(T, s)
    ensures s.last <= KEYS
  {
  }

  lemma ForeignFields(s: Tables, u: Tables)
    requires Foreign(s, u)
    ensures u.dst == s.dst && u.last == s.last && u.done == s.done && u.triggers == s.triggers
  {
  }

  lemma ForeignHead(s: Tables, u: Tables)
    requires Foreign(s, u)
    ensures u.dst == s.dst && u.last == s.last && u.done == s.done && u.triggers == s.triggers
    ensures |s.queue| <= |u.queue| && u.queue[..|s.queue|] == s.queue
    ensures forall i | 0 <= i < |s.queue| :: u.queue[i] == s.queue[i]
  {
    assert forall i | 0 <= i < |s.queue| :: u.queue[i] == u.queue[..|s.queue|][i];
  }

  lemma WithoutInLonger(q: seq<Entry>, r: seq<Entry>, p: nat)
    requires p < |q| <= |r| && r[..|q|] == q
    ensures |Without(r, p)| == |r| - 1 && Without(r, p)[..|q| - 1] == Without(q, p)
  {
    assert r == q + r[|q|..];
  }

  lemma StillPending(q: seq<Entry>, p: nat)
    requires p < |q| && q[p].own
    ensures Pending(q, q[p].pk)
  {
  }

  lemma ApplyIsForeign(s: Tables, u: Tables, dst: map<Pk, NewRow>)
    requires Foreign(s, u)
    ensures Foreign(s.(dst := dst), u.(dst := dst))
  {
  }

  lemma AppliedIdempotent(T: Transform, dst: map<Pk, NewRow>, k: Pk, op: Op, row: Option<Row>)
    requires Applied(T, dst, k, op, row).Some?
    ensures Applied(T, Applied(T, dst, k, op, row).value, k, op, row) == Applied(T, dst, k, op, row)
  {
    var d: map<Pk, NewRow> := Applied(T, dst, k, op, row).value;
    var gone: set<Pk> := {k};
    assert k !in d ==> d - gone == d;
    assert k in d ==> d[k := d[k]] == d;
  }

  lemma NoOwnAtStart(q: seq<Entry>)
    ensures NoOwnBefore(q, 0)
  {
  }

  lemma NoOwnNext(q: seq<Entry>, p: nat)
    requires p < |q| && NoOwnBefore(q, p) && !q[p].own
    ensures NoOwnBefore(q, p + 1)
  {
  }

  /** The entries of the batch from i on stand in the queue from p on. */
  ghost predicate Unread(q: seq<Entry>, p: nat, batch: seq<Entry>, i: nat) {
    i <= |batch| && p + (|batch| - i) <= |q| && forall j | i <= j < |batch| :: q[p + j - i] == batch[j]
  }

  lemma AllUnread(q: seq<Entry>, n: nat)
    requires n <= |q|
    ensures Unread(q, 0, q[..n], 0)
  {
  }

  lemma NextUnread(q: seq<Entry>, p: nat, batch: seq<Entry>, i: nat)
    requires Unread(q, p, batch, i) && i < |batch|
    ensures p < |q| && q[p] == batch[i] && Unread(q, p + 1, batch, i + 1)
  {
    assert q[p + i - i] == batch[i];
    forall j | i + 1 <= j < |batch| ensures q[p + 1 + j - (i + 1)] == batch[j] {
      assert q[p + j - i] == batch[j];
    }
  }

  lemma QueueShift(q: seq<Entry>, r: seq<Entry>, p: nat, batch: seq<Entry>, i: nat)
    requires Unread(q, p, batch, i) && i < |batch| && p < |q| && |r| + 1 >= |q| && r[..|q| - 1] == Without(q, p)
    ensures Unread(r, p, batch, i + 1) && p <= |r|
    ensures NoOwnBefore(q, p) ==> NoOwnBefore(r, p)
  {
    assert forall k | 0 <= k < |q| - 1 :: r[k] == r[..|q| - 1][k] == Without(q, p)[k];
    forall j | i + 1 <= j < |batch| ensures r[p + j - (i + 1)] == batch[j] {
      assert q[p + j - i] == batch[j];
      assert r[..|q| - 1][p + j - (i + 1)] == Without(q, p)[p + j - (i + 1)];
    }
  }

  lemma TriggersKeepInv(T: Transform, s: Tables)
    requires Inv(T, s)
    ensures Inv(T, s.(triggers := true))
  {
  }
}

/** Walking a table in key order, batch by batch: WHERE pk > last ORDER BY pk LIMIT n (migrator.go:275-320). */
module Keyset {
  /** Primary keys are ids in text order; 0 is the empty text, "nothing copied yet". */
  const KEYS := 0x1_0000_0000_0000_0000_0000_0000_0000_0000
  type Pk = k: nat | 0 < k <= KEYS witness 1

  lemma LeastOf(s: set<Pk>) returns (k: Pk)
    requires s != {}
    ensures k in s && forall j <- s :: k <= j
  {
    k :| k in s;
    if s != {k} {
      var j := LeastOf(s - {k});
      assert forall i <- s :: i == k || i in s - {k};
      k := if j < k then j else k;
    }
  }

  predicate IsLeast(s: set<Pk>, k: Pk) {
    k in s && forall j <- s :: k <= j
  }

  lemma LeastExists(s: set<Pk>)
    requires s != {}
    ensures exists k :: IsLeast(s, k)
  {
    var k := LeastOf(s);
    assert IsLeast(s, k);
  }

  function Least(s: set<Pk>): (k: Pk)
    requires s != {}
    ensures IsLeast(s, k)
  {
    LeastExists(s);
    var k: Pk :| k in s && IsLeast(s, k);
    k
  }

  function Above<V>(src: map<Pk, V>, last: nat): (s: set<Pk>)
    ensures forall k :: k in s <==> k in src && k > last
  {
    set k <- src.Keys | k > last
  }

  /** SELECT .. WHERE pk > last ORDER BY pk LIMIT n. */
  function Batch<V>(src: map<Pk, V>, last: nat, n: nat): seq<(Pk, V)>
    decreases n
  {
    if n == 0 || Above(src, last) == {} then []
    else
      var k := Least(Above(src, last));
      [(k, src[k])] + Batch(src, k, n - 1)
  }

  ghost predicate InBatch<V>(batch: seq<(Pk, V)>, k: Pk) {
    exists i :: 0 <= i < |batch| && batch[i].0 == k
  }

  lemma InBatchCons<V>(head: (Pk, V), rest: seq<(Pk, V)>, k: Pk)
    ensures InBatch([head] + rest, k) <==> head.0 == k || InBatch(rest, k)
  {
    var b := [head] + rest;
    if InBatch(rest, k) {
      var i :| 0 <= i < |rest| && rest[i].0 == k;
      assert b[i + 1].0 == k;
    }
    if InBatch(b, k) {
      var i :| 0 <= i < |b| && b[i].0 == k;
      assert i > 0 ==> rest[i - 1].0 == k;
    }
    assert b[0] == head;
  }

  /** A batch is the complete stretch of the table from the cursor to its own last key. */
  lemma {:induction false} BatchIsStretch<V>(src: map<Pk, V>, last: nat, n: nat)
    ensures var b := Batch(src, last, n);
      && (b == [] <==> n == 0 || forall k <- src :: k <= last)
      && (forall i | 0 <= i < |b| :: last < b[i].0 && b[i].0 in src && src[b[i].0] == b[i].1)
      && (b != [] ==> forall k: Pk :: InBatch(b, k) <==> k in src && last < k <= b[|b| - 1].0)
    decreases n
  {
    hide Least, Above, InBatch;
    var b := Batch(src, last, n);
    var above := Above(src, last);
    assert above == {} <==> forall k <- src :: k <= last by {
      assert forall k <- src :: k > last ==> k in above;
    }
    if b != [] {
      var k := b[0].0;
      var rest := Batch(src, k, n - 1);
      BatchIsStretch(src, k, n - 1);
      assert b == [(k, src[k])] + rest;
      assert IsLeast(above, k);
      StretchFrom(src, last, k, rest);
    }
  }

  /** One key more at the front of a stretch. */
  lemma StretchFrom<V>(src: map<Pk, V>, last: nat, k: Pk, rest: seq<(Pk, V)>)
    requires IsLeast(Above(src, last), k)
    requires rest != [] ==> forall j: Pk :: InBatch(rest, j) <==> j in src && k < j <= rest[|rest| - 1].0
    requires forall i | 0 <= i < |rest| :: k < rest[i].0
    ensures var b := [(k, src[k])] + rest;
      forall j: Pk :: InBatch(b, j) <==> j in src && last < j <= b[|b| - 1].0
  {
    hide InBatch;
    var b := [(k, src[k])] + rest;
    assert rest != [] ==> b[|b| - 1] == rest[|rest| - 1];
    forall j: Pk ensures InBatch(b, j) <==> j in src && last < j <= b[|b| - 1].0 {
      InBatchCons(b[0], rest, j);
      NotInEmpty<V>(j);
      assert j in src && j > last ==> j in Above(src, last) && k <= j;
    }
  }

  lemma NotInEmpty<V>(k: Pk)
    ensures !InBatch<V>([], k)
  {
  }
}

/** Delete with the engine's own ondelete semantics, for tables that no native foreign key can point to:
    restrict, cascade and set-null over the model graph (repo.go:476-608, registry.go:444-471). */
module OnDelete {
  type ModelName = string
  type Id = string
  type Data(==, !new)

  datatype Action = Restrict | Cascade | SetNull

  datatype RefField = RefField(column: string, to: ModelName, on: Action)

  datatype Key = Key(m: ModelName, id: Id)

  /** A row; a reference column that is NULL is absent from refs. */
  datatype Row = Row(refs: map<string, Id>, data: Data)

  type Table = map<Key, Row>

  /** Reference fields per model, and the reverse lists resolve() fills, one entry per field. */
  datatype Schema = Schema(fields: map<ModelName, seq<RefField>>, referencedBy: map<ModelName, seq<ModelName>>)

  function Fields(s: Schema, m: ModelName): seq<RefField> {
    if m in s.fields then s.fields[m] else []
  }

  function ReferencedBy(s: Schema, m: ModelName): seq<ModelName> {
    if m in s.referencedBy then s.referencedBy[m] else []
  }

  /** What resolve() guarantees: the reverse lists name exactly the referencing models; columns are distinct. */
  ghost predicate Resolved(s: Schema) {
    && (forall m, from :: from in ReferencedBy(s, m) <==> exists f :: f in Fields(s, from) && f.to == m)
    && (forall m, f, g | f in Fields(s, m) && g in Fields(s, m) && f.column == g.column :: f == g)
  }

  /** Row k of t references key r through field f. */
  ghost predicate Points(s: Schema, t: Table, k: Key, f: RefField, r: Key) {
    k in t && f in Fields(s, k.m) && f.column in t[k].refs && r == Key(f.to, t[k].refs[f.column])
  }

  ghost predicate Closed(s: Schema, t: Table, d: set<Key>) {
    forall k, f, r | Points(s, t, k, f, r) && f.on.Cascade? && r in d :: k in d
  }

  /** r was removed on account of x: it lies in every cascade-closed set around x. */
  ghost predicate Needed(s: Schema, t: Table, x: set<Key>, r: set<Key>) {
    forall d: set<Key> | x <= d && Closed(s, t, d) :: r <= d
  }

  /** The surviving row: same data, and only set-null references into gone are missing. */
  ghost predicate Trimmed(s: Schema, k: Key, was: Row, now: Row, gone: set<Key>) {
    && now.data == was.data
    && (forall c <- now.refs :: c in was.refs && now.refs[c] == was.refs[c])
    && (forall c <- was.refs :: c in now.refs
          || exists f :: f in Fields(s, k.m) && f.column == c && f.on.SetNull? && Key(f.to, was.refs[c]) in gone)
  }

  /** The state of a run that started in b around the keys x and has removed r so far. */
  ghost predicate Progress(s: Schema, b: Table, t: Table, x: set<Key>, r: set<Key>) {
    && r <= b.Keys && t.Keys == b.Keys - r
    && (forall k <- t :: Trimmed(s, k, b[k], t[k], x + r))
    && Needed(s, b, x, r)
    && (forall k, f, d | Points(s, t, k, f, d) :: d !in r)
  }

  /** Field f of model from no longer points to the ids of model m, unless it is a restricting one. */
  ghost predicate Handled(t: Table, from: ModelName, f: RefField, ids: set<Id>) {
    f.on.Restrict? || forall k <- t | k.m == from && f.column in t[k].refs :: t[k].refs[f.column] !in ids
  }

  /** Every chain of rows that cascade on r, one on the other, has at most n rows: below r the rows form no cycle. */
  ghost predicate Shallow(s: Schema, t: Table, r: Key, n: nat)
    decreases n
  {
    forall k, f | Points(s, t, k, f, r) && f.on.Cascade? :: n > 0 && Shallow(s, t, k, n - 1)
  }

  ghost predicate AllShallow(s: Schema, t: Table, x: set<Key>, n: nat) {
    forall k <- x :: Shallow(s, t, k, n)
  }

  function KeysOf(m: ModelName, ids: set<Id>): set<Key> {
    set id <- ids :: Key(m, id)
  }

  /** A restricting reference points to a row that would have to go with x. */
  ghost predicate Blocked(s: Schema, t: Table, x: set<Key>) {
    exists k, f, r :: Points(s, t, k, f, r) && f.on.Restrict? && Needed(s, t, x, {r})
  }

  // ---------------------------------------------------------------- single statements

  /** UPDATE from SET column = NULL WHERE column IN (ids). */
  function Nulled(t: Table, from: ModelName, column: string, ids: set<Id>): Table {
    map k | k in t ::
      if k.m == from && column in t[k].refs && t[k].refs[column] in ids
      then t[k].(refs := t[k].refs - {column}) else t[k]
  }

  /** SELECT pk FROM from WHERE column IN (ids). */
  function Children(t: Table, from: ModelName, column: string, ids: set<Id>): set<Id> {
    set k <- t.Keys | k.m == from && column in t[k].refs && t[k].refs[column] in ids :: k.id
  }

  /** Some row restricts the deletion of a row of m with one of these ids. */
  ghost predicate Restricted(s: Schema, t: Table, m: ModelName, ids: set<Id>) {
    exists k, f, r :: Points(s, t, k, f, r) && f.on.Restrict? && r.m == m && r.id in ids
  }

  lemma NulledStep(s: Schema, b: Table, t: Table, x: set<Key>, r: set<Key>, m: ModelName, ids: set<Id>,
                   from: ModelName, f: RefField)
    requires Resolved(s) && Progress(s, b, t, x, r) && x == KeysOf(m, ids)
    requires f in Fields(s, from) && f.to == m && f.on.SetNull?
    ensures Progress(s, b, Nulled(t, from, f.column, ids), x, r)
    ensures Handled(Nulled(t, from, f.column, ids), from, f, ids)
  {
    var u := Nulled(t, from, f.column, ids);
    forall k | k in u ensures Trimmed(s, k, b[k], u[k], x + r) {
      assert Trimmed(s, k, b[k], t[k], x + r);
      if u[k] != t[k] {
        assert Key(f.to, b[k].refs[f.column]) in x;
      }
    }
    forall k, g, d | Points(s, u, k, g, d) ensures d !in r {
      assert Points(s, t, k, g, d);
    }
  }

  lemma ClosedInSmaller(s: Schema, b: Table, t: Table, x: set<Key>, r: set<Key>, d: set<Key>)
    requires Progress(s, b, t, x, r) && Closed(s, b, d)
    ensures Closed(s, t, d)
  {
    forall k, f, q | Points(s, t, k, f, q) && f.on.Cascade? && q in d ensures k in d {
      assert Trimmed(s, k, b[k], t[k], x + r);
      assert Points(s, b, k, f, q);
    }
  }

  lemma ChildrenNeeded(s: Schema, b: Table, t: Table, x: set<Key>, r: set<Key>, m: ModelName, ids: set<Id>,
                       from: ModelName, f: RefField)
    requires Progress(s, b, t, x, r) && x == KeysOf(m, ids)
    requires f in Fields(s, from) && f.to == m && f.on.Cascade?
    ensures var c := KeysOf(from, Children(t, from, f.column, ids));
      c <= t.Keys && Needed(s, b, x, c)
  {
    var c := KeysOf(from, Children(t, from, f.column, ids));
    forall k | k in c ensures k in t && f.column in t[k].refs && t[k].refs[f.column] in ids {
      var j :| j in t && j.m == from && f.column in t[j].refs && t[j].refs[f.column] in ids && j.id == k.id;
      assert j == k;
    }
    forall d: set<Key> | x <= d && Closed(s, b, d) ensures c <= d {
      forall k | k in c ensures k in d {
        assert Trimmed(s, k, b[k], t[k], x + r);
        assert Points(s, b, k, f, Key(m, t[k].refs[f.column]));
      }
    }
  }

  lemma TrimmedTwice(s: Schema, k: Key, a: Row, b: Row, c: Row, g: set<Key>, h: set<Key>, all: set<Key>)
    requires Trimmed(s, k, a, b, g) && Trimmed(s, k, b, c, h) && g <= all && h <= all
    ensures Trimmed(s, k, a, c, all)
  {
    forall col | col in a.refs && col !in c.refs
      ensures exists f :: f in Fields(s, k.m) && f.column == col && f.on.SetNull? && Key(f.to, a.refs[col]) in all {
      if col in b.refs {
        var f :| f in Fields(s, k.m) && f.column == col && f.on.SetNull? && Key(f.to, b.refs[col]) in h;
        assert Key(f.to, a.refs[col]) in all;
      } else {
        var f :| f in Fields(s, k.m) && f.column == col && f.on.SetNull? && Key(f.to, a.refs[col]) in g;
        assert Key(f.to, a.refs[col]) in all;
      }
    }
  }

  /** One cascading field: the children's own dependants are gone (q), now the children go. */
  lemma CascadeStep(s: Schema, b: Table, t: Table, x: set<Key>, r: set<Key>, m: ModelName, ids: set<Id>,
                    from: ModelName, f: RefField, u: Table, q: set<Key>)
    requires Progress(s, b, t, x, r) && x == KeysOf(m, ids)
    requires f in Fields(s, from) && f.to == m && f.on.Cascade?
    requires var kids := Children(t, from, f.column, ids);
      && Progress(s, t, u, KeysOf(from, kids), q) && !Restricted(s, t, from, kids)
      && (forall h, g | g in Fields(s, h) && g.to == from :: Handled(u, h, g, kids))
    ensures var c := KeysOf(from, Children(t, from, f.column, ids));
      Progress(s, b, u - c, x, r + q + c)
  {
    var kids := Children(t, from, f.column, ids);
    var c := KeysOf(from, kids);
    var v, gone := u - c, r + q + c;
    ChildrenNeeded(s, b, t, x, r, m, ids, from, f);
    assert v.Keys == b.Keys - gone;
    CascadeTrims(s, b, t, u, x, r, c, q, v, gone);
    forall d: set<Key> | x <= d && Closed(s, b, d) ensures gone <= d {
      ClosedInSmaller(s, b, t, x, r, d);
      assert c <= d && q <= d;
    }
    forall k, g, d | Points(s, v, k, g, d) ensures d !in gone {
      assert Points(s, u, k, g, d);
      assert Trimmed(s, k, t[k], u[k], c + q);
      assert Points(s, t, k, g, d);
      hide Progress, Trimmed, Needed;
      NotIntoChildren(s, t, u, k, g, d, from, kids);
    }
  }

  /** What still points to a child would restrict it, and nothing does. */
  lemma NotIntoChildren(s: Schema, t: Table, u: Table, k: Key, g: RefField, d: Key, from: ModelName, kids: set<Id>)
    requires Points(s, u, k, g, d) && Points(s, t, k, g, d) && !Restricted(s, t, from, kids)
    requires g.to == from ==> Handled(u, k.m, g, kids)
    ensures d !in KeysOf(from, kids)
  {
    assert g.on.Restrict? && d.m == from && d.id in kids ==> Restricted(s, t, from, kids);
  }

  lemma CascadeTrims(s: Schema, b: Table, t: Table, u: Table, x: set<Key>, r: set<Key>, c: set<Key>, q: set<Key>,
                     v: Table, gone: set<Key>)
    requires Progress(s, b, t, x, r) && Progress(s, t, u, c, q) && v == u - c && gone == r + q + c
    ensures forall k <- v :: Trimmed(s, k, b[k], v[k], x + gone)
  {
    forall k | k in v ensures Trimmed(s, k, b[k], v[k], x + gone) {
      TrimmedTwice(s, k, b[k], t[k], u[k], x + r, c + q, x + gone);
    }
  }

  lemma HandledStays(s: Schema, b: Table, t: Table, x: set<Key>, r: set<Key>, h: ModelName, g: RefField, ids: set<Id>)
    requires Handled(b, h, g, ids) && t.Keys <= b.Keys
    requires forall k <- t :: Trimmed(s, k, b[k], t[k], x + r)
    ensures Handled(t, h, g, ids)
  {
  }

  /** What is needed for the children in the present table was needed from the start. */
  lemma NeededFromStart(s: Schema, b: Table, t: Table, x: set<Key>, r: set<Key>, c: set<Key>, q: set<Key>)
    requires Progress(s, b, t, x, r) && Needed(s, b, x, c) && Needed(s, t, c, q)
    ensures Needed(s, b, x, q)
  {
    forall d: set<Key> | x <= d && Closed(s, b, d) ensures q <= d {
      ClosedInSmaller(s, b, t, x, r, d);
    }
  }

  lemma PointsFromStart(s: Schema, b: Table, t: Table, x: set<Key>, r: set<Key>, k: Key, f: RefField, d: Key)
    requires Progress(s, b, t, x, r) && Points(s, t, k, f, d)
    ensures Points(s, b, k, f, d)
  {
    assert Trimmed(s, k, b[k], t[k], x + r);
  }

  lemma BlockedBy(s: Schema, t: Table, x: set<Key>, k: Key, f: RefField, r: Key)
    requires Points(s, t, k, f, r) && f.on.Restrict? && Needed(s, t, x, {r})
    ensures Blocked(s, t, x)
  {
  }

  /** A cascade blocked below the children is blocked. */
  lemma BlockedFromStart(s: Schema, b: Table, t: Table, x: set<Key>, r: set<Key>, c: set<Key>)
    requires Progress(s, b, t, x, r) && Needed(s, b, x, c) && Blocked(s, t, c)
    ensures Blocked(s, b, x)
  {
    hide Progress, Points, Needed;
    var k, f, d :| Points(s, t, k, f, d) && f.on.Restrict? && Needed(s, t, c, {d});
    PointsFromStart(s, b, t, x, r, k, f, d);
    NeededFromStart(s, b, t, x, r, c, {d});
    BlockedBy(s, b, x, k, f, d);
  }

  lemma RestrictedIsBlocked(s: Schema, t: Table, m: ModelName, ids: set<Id>)
    requires Restricted(s, t, m, ids)
    ensures Blocked(s, t, KeysOf(m, ids))
  {
    hide Points;
    var k, f, r :| Points(s, t, k, f, r) && f.on.Restrict? && r.m == m && r.id in ids;
    assert r == Key(m, r.id) && r in KeysOf(m, ids);
    BlockedBy(s, t, KeysOf(m, ids), k, f, r);
  }

  lemma BlockedInLarger(s: Schema, t: Table, root: Key)
    requires Blocked(s, t - {root}, {root})
    ensures Blocked(s, t, {root})
  {
    var b := t - {root};
    var k, f, r :| Points(s, b, k, f, r) && f.on.Restrict? && Needed(s, b, {root}, {r});
    assert Points(s, t, k, f, r);
    forall d: set<Key> | {root} <= d && Closed(s, t, d) ensures {r} <= d {
      forall j, g, e | Points(s, b, j, g, e) && g.on.Cascade? && e in d ensures j in d {
        assert Points(s, t, j, g, e);
      }
      assert Closed(s, b, d);
    }
    BlockedBy(s, t, {root}, k, f, r);
  }

  lemma ProgressStart(s: Schema, b: Table, x: set<Key>)
    ensures Progress(s, b, b, x, {})
  {
  }

  // ---------------------------------------------------------------- the engine

  /** TooDeep: the recursion went deeper than the call stack allows, and the process died. */
  datatype Outcome = Deleted | ErrNotFound | ErrReferenceInUse | TooDeep

  // ---------------------------------------------------------------- the recursion in the order of declarations

  /** The fields that point to m, in the order the recursion meets them. */
  function Edges(s: Schema, m: ModelName): seq<(ModelName, RefField)> {
    UserEdges(s, m, ReferencedBy(s, m))
  }

  function UserEdges(s: Schema, m: ModelName, users: seq<ModelName>): seq<(ModelName, RefField)> {
    if users == [] then [] else FieldEdges(m, users[0], Fields(s, users[0])) + UserEdges(s, m, users[1..])
  }

  function FieldEdges(m: ModelName, from: ModelName, fs: seq<RefField>): seq<(ModelName, RefField)> {
    if fs == [] then []
    else (if fs[0].to == m then [(from, fs[0])] else []) + FieldEdges(m, from, fs[1..])
  }

  datatype Reached = Now(t: Table) | Refused | Exhausted

  /** The reference: field by field, a cascade first goes down and then deletes what still points to the ids; it is
      refused where a restricting reference to a child is there at that very moment. */
  ghost function Emulated(s: Schema, t: Table, m: ModelName, ids: set<Id>, es: seq<(ModelName, RefField)>, depth: nat)
    : Reached
    decreases depth, |es|
  {
    if es == [] then Now(t)
    else
      var (from, f) := es[0];
      match f.on
      case Restrict => Emulated(s, t, m, ids, es[1..], depth)
      case SetNull => Emulated(s, Nulled(t, from, f.column, ids), m, ids, es[1..], depth)
      case Cascade =>
        var kids := Children(t, from, f.column, ids);
        if kids == {} then Emulated(s, t, m, ids, es[1..], depth)
        else if Restricted(s, t, from, kids) then Refused
        else if depth == 0 then Exhausted
        else
          match Emulated(s, t, from, kids, Edges(s, from), depth - 1)
          case Now(u) => Emulated(s, u - KeysOf(from, Children(u, from, f.column, ids)), m, ids, es[1..], depth)
          case Refused => Refused
          case Exhausted => Exhausted
  }

  /** What Delete answers, and the table it leaves. */
  ghost function Answer(s: Schema, t: Table, m: ModelName, id: Id, depth: nat): (Outcome, Table) {
    if Restricted(s, t, m, {id}) then (ErrReferenceInUse, t)
    else if Key(m, id) !in t then (ErrNotFound, t)
    else
      match Emulated(s, t - {Key(m, id)}, m, {id}, Edges(s, m), depth)
      case Now(u) => (Deleted, u)
      case Refused => (ErrReferenceInUse, t)
      case Exhausted => (TooDeep, t)
  }

  ghost function ReachedBy(r: Outcome, t: Table): Reached {
    if r == Deleted then Now(t) else if r == TooDeep then Exhausted else Refused
  }

  /** After the first edge of es the rest of them follows, or the run is over. */
  ghost predicate Continues(s: Schema, t: Table, m: ModelName, ids: set<Id>, es: seq<(ModelName, RefField)>, depth: nat,
                            r: Outcome, u: Table, rest: seq<(ModelName, RefField)>) {
    Emulated(s, t, m, ids, es, depth)
      == if r == Deleted then Emulated(s, u, m, ids, rest, depth) else ReachedBy(r, u)
  }

  /** d is the least set that contains root and, with a row, every row that cascades on it. */
  ghost predicate LeastClosed(s: Schema, t: Table, root: Key, d: set<Key>) {
    && root in d && d <= t.Keys && Closed(s, t, d)
    && forall e: set<Key> | root in e && Closed(s, t, e) :: d <= e
  }

  /** A column of row k that must become NULL: a set-null reference into d. */
  ghost predicate MustNull(s: Schema, t: Table, k: Key, c: string, d: set<Key>) {
    exists f, r :: Points(s, t, k, f, r) && f.column == c && f.on.SetNull? && r in d
  }

  ghost predicate Survives(s: Schema, t: Table, k: Key, was: Row, now: Row, d: set<Key>) {
    && now.data == was.data
    && (forall c :: c in now.refs <==> c in was.refs && !MustNull(s, t, k, c, d))
    && (forall c <- now.refs :: c in was.refs && now.refs[c] == was.refs[c])
  }

  /** Every non-null reference resolves. */
  ghost predicate Whole(s: Schema, t: Table) {
    forall k, f, r | Points(s, t, k, f, r) :: r in t
  }

  /** What a successful delete does, all of it. */
  ghost predicate DeletesExactly(s: Schema, t: Table, u: Table, root: Key) {
    exists d: set<Key> ::
      && LeastClosed(s, t, root, d)
      && u.Keys == t.Keys - d
      && (forall k <- u :: Survives(s, t, k, t[k], u[k], d))
      && (forall k, f, r | Points(s, t, k, f, r) && f.on.Restrict? && r in d :: k in d)
      && (Whole(s, t) ==> Whole(s, u))
  }

  /** All reference fields that point to m, of whatever model. */
  ghost predicate AllHandled(s: Schema, t: Table, m: ModelName, ids: set<Id>) {
    forall h, g | g in Fields(s, h) && g.to == m :: Handled(t, h, g, ids)
  }

  class Engine {
    const s: Schema
    var db: Table

    constructor (s: Schema, db: Table)
      ensures this.s == s && this.db == db
    {
      this.s, this.db := s, db;
    }

    /** The restrict check one level down: does any row restrict the deletion of these rows? */
    method RestrictHit(m: ModelName, ids: set<Id>) returns (hit: bool)
      requires Resolved(s)
      ensures hit <==> Restricted(s, db, m, ids)
    {
      var users := ReferencedBy(s, m);
      var i := 0;
      while i < |users|
        invariant 0 <= i <= |users|
        invariant forall j | 0 <= j < i :: forall f | f in Fields(s, users[j]) && f.to == m && f.on.Restrict? ::
            Children(db, users[j], f.column, ids) == {}
      {
        var fs := Fields(s, users[i]);
        var n := 0;
        while n < |fs|
          invariant 0 <= n <= |fs|
          invariant forall j | 0 <= j < n && fs[j].to == m && fs[j].on.Restrict? ::
              Children(db, users[i], fs[j].column, ids) == {}
        {
          if fs[n].to == m && fs[n].on.Restrict? {
            var rows := Children(db, users[i], fs[n].column, ids);
            if rows != {} {
              RestrictFound(s, db, m, ids, users[i], fs[n]);
              return true;
            }
          }
          n := n + 1;
        }
        i := i + 1;
      }
      NoRestrict(s, db, m, ids);
      return false;
    }

    /** emulateOnDelete(m, ids), given that the rows (m, ids) go or are gone, with room for so many nested calls. On
        success it has removed the least set around them and nulled what must be nulled. */
    method EmulateOnDelete(m: ModelName, ids: set<Id>, depth: nat)
      returns (r: Outcome, ghost gone: set<Key>, ghost n: nat)
      requires Resolved(s)
      modifies this
      ensures r != ErrNotFound
      ensures r == Deleted ==>
                && Progress(s, old(db), db, KeysOf(m, ids), gone) && AllShallow(s, old(db), gone, n)
                && AllHandled(s, db, m, ids)
      ensures r == ErrReferenceInUse ==> Blocked(s, old(db), KeysOf(m, ids))
      ensures AllShallow(s, old(db), KeysOf(m, ids), depth) ==> r != TooDeep
      ensures Emulated(s, old(db), m, ids, Edges(s, m), depth) == ReachedBy(r, db)
      decreases depth, 2
    {
      hide Progress, Handled, Blocked, AllShallow, Resolved, KeysOf, Emulated, UserEdges;
      ghost var b, x := db, KeysOf(m, ids);
      gone, n := {}, 0;
      ProgressStart(s, b, x);
      NoneShallow(s, b);
      var users := ReferencedBy(s, m);
      var i := 0;
      assert users[0..] == users;
      while i < |users|
        invariant 0 <= i <= |users|
        invariant Emulated(s, b, m, ids, Edges(s, m), depth)
               == Emulated(s, db, m, ids, UserEdges(s, m, users[i..]), depth)
        invariant Progress(s, b, db, x, gone) && AllShallow(s, b, gone, n)
        invariant forall j, g | 0 <= j < i && g in Fields(s, users[j]) && g.to == m :: Handled(db, users[j], g, ids)
      {
        UserEdgesNext(s, m, users, i);
        r, gone, n := EmulateModel(m, ids, users[i], depth, b, gone, n, UserEdges(s, m, users[i + 1..]));
        if r != Deleted {
          return;
        }
        i := i + 1;
      }
      r := Deleted;
      assert users[i..] == [];
      NoUsers(s, m);
      NoEdges(s, db, m, ids, depth);
      forall h, g | g in Fields(s, h) && g.to == m ensures Handled(db, h, g, ids) {
        IsUser(s, m, h, g);
      }
    }

    /** All reference fields to m of one referencing model. */
    method EmulateModel(m: ModelName, ids: set<Id>, from: ModelName, depth: nat, ghost b: Table, ghost before: set<Key>,
                        ghost low: nat, ghost rest: seq<(ModelName, RefField)>)
      returns (r: Outcome, ghost gone: set<Key>, ghost n: nat)
      requires Resolved(s)
      requires Progress(s, b, db, KeysOf(m, ids), before) && AllShallow(s, b, before, low)
      modifies this
      ensures r != ErrNotFound
      ensures r == Deleted ==>
                && Progress(s, b, db, KeysOf(m, ids), gone) && AllShallow(s, b, gone, n)
                && (forall g | g in Fields(s, from) && g.to == m :: Handled(db, from, g, ids))
                && (forall h, g | Handled(old(db), h, g, ids) :: Handled(db, h, g, ids))
      ensures r == ErrReferenceInUse ==> Blocked(s, b, KeysOf(m, ids))
      ensures AllShallow(s, b, KeysOf(m, ids), depth) ==> r != TooDeep
      ensures Continues(s, old(db), m, ids, FieldEdges(m, from, Fields(s, from)) + rest, depth, r, db, rest)
      decreases depth, 1
    {
      hide Progress, Handled, Resolved, Blocked, AllShallow, Emulated;
      gone, n := before, low;
      var fs := Fields(s, from);
      var i := 0;
      assert fs[0..] == fs;
      while i < |fs|
        invariant 0 <= i <= |fs|
        invariant Emulated(s, old(db), m, ids, FieldEdges(m, from, fs) + rest, depth)
               == Emulated(s, db, m, ids, FieldEdges(m, from, fs[i..]) + rest, depth)
        invariant Progress(s, b, db, KeysOf(m, ids), gone) && AllShallow(s, b, gone, n)
        invariant forall j | 0 <= j < i && fs[j].to == m :: Handled(db, from, fs[j], ids)
        invariant forall h, g | Handled(old(db), h, g, ids) :: Handled(db, h, g, ids)
      {
        FieldEdgesNext(m, from, fs, i, rest);
        if fs[i].to == m {
          r, gone, n := EmulateField(m, ids, from, fs[i], depth, b, gone, n, FieldEdges(m, from, fs[i + 1..]) + rest);
          if r != Deleted {
            return;
          }
        }
        i := i + 1;
      }
      assert FieldEdges(m, from, fs[i..]) + rest == rest;
      r := Deleted;
    }

    /** One reference field of one referencing model. The rows that go are looked up anew after the recursion, which may
        have removed some of them already. */
    method EmulateField(m: ModelName, ids: set<Id>, from: ModelName, f: RefField, depth: nat,
                        ghost b: Table, ghost before: set<Key>, ghost low: nat,
                        ghost rest: seq<(ModelName, RefField)>)
      returns (r: Outcome, ghost gone: set<Key>, ghost n: nat)
      requires Resolved(s) && f in Fields(s, from) && f.to == m
      requires Progress(s, b, db, KeysOf(m, ids), before) && AllShallow(s, b, before, low)
      modifies this
      ensures r != ErrNotFound
      ensures r == Deleted ==>
                && Progress(s, b, db, KeysOf(m, ids), gone) && AllShallow(s, b, gone, n)
                && Handled(db, from, f, ids)
                && (forall h, g | Handled(old(db), h, g, ids) :: Handled(db, h, g, ids))
      ensures r == ErrReferenceInUse ==> Blocked(s, b, KeysOf(m, ids))
      ensures AllShallow(s, b, KeysOf(m, ids), depth) ==> r != TooDeep
      ensures Continues(s, old(db), m, ids, [(from, f)] + rest, depth, r, db, rest)
      decreases depth, 0
    {
      hide Progress, Needed, Trimmed, Restricted, Blocked, AllShallow, Emulated, Edges;
      gone, n := before, low;
      EdgeStep(s, db, m, ids, from, f, rest, depth);
      match f.on
      case Restrict =>
        r := Deleted;
      case SetNull =>
        NulledStep(s, b, db, KeysOf(m, ids), before, m, ids, from, f);
        db := Nulled(db, from, f.column, ids);
        r := Deleted;
      case Cascade =>
        var children := Children(db, from, f.column, ids);
        if children == {} {
          NoChildren(db, from, f, ids);
          r := Deleted;
          return;
        }
        ghost var t := db;
        ChildrenNeeded(s, b, t, KeysOf(m, ids), before, m, ids, from, f);
        var hit := RestrictHit(from, children);
        if hit {
          RestrictedIsBlocked(s, t, from, children);
          BlockedFromStart(s, b, t, KeysOf(m, ids), before, KeysOf(from, children));
          r := ErrReferenceInUse;
          return;
        }
        if AllShallow(s, b, KeysOf(m, ids), depth) {
          ChildrenShallow(s, b, t, KeysOf(m, ids), before, m, ids, from, f, depth);
        }
        if depth == 0 {
          r := TooDeep;
          return;
        }
        ghost var q: set<Key>, k: nat;
        r, q, k := EmulateOnDelete(from, children, depth - 1);
        if r != Deleted {
          if r == ErrReferenceInUse {
            BlockedFromStart(s, b, t, KeysOf(m, ids), before, KeysOf(from, children));
          }
          return;
        }
        CascadeStep(s, b, t, KeysOf(m, ids), before, m, ids, from, f, db, q);
        CascadeSinks(s, b, t, KeysOf(m, ids), before, from, children, db, q, low, k);
        gone, n := before + q + KeysOf(from, children), low + k + 2;
        var rows := Children(db, from, f.column, ids);
        ChildrenLeft(s, t, db, KeysOf(from, children), q, from, f, ids);
        CascadeHandled(s, t, db, KeysOf(from, children), q, from, f, ids);
        db := db - KeysOf(from, rows);
    }

    /** Some cascading or set-null field points to m. */
    predicate NeedsEmulation(m: ModelName)
    {
      exists i :: 0 <= i < |ReferencedBy(s, m)| &&
        exists f <- Fields(s, ReferencedBy(s, m)[i]) :: f.to == m && !f.on.Restrict?
    }

    /** Delete, in one transaction: on any error the table is as before. A row that is there is deleted when no
        restricting reference points to a row that goes with it, and never when one of a surviving row does. With enough
        depth the recursion ends on every table whose cascades form no cycle below the row, and on no other does it
        ever delete. */
    method Delete(m: ModelName, id: Id, depth: nat) returns (r: Outcome)
      requires Resolved(s)
      modifies this
      ensures r != Deleted ==> db == old(db)
      ensures r == Deleted ==> DeletesExactly(s, old(db), db, Key(m, id))
      ensures r == ErrNotFound ==> Key(m, id) !in old(db)
      ensures Restricted(s, old(db), m, {id}) ==> r == ErrReferenceInUse
      ensures r == ErrReferenceInUse ==> Blocked(s, old(db), {Key(m, id)})
      ensures Shallow(s, old(db) - {Key(m, id)}, Key(m, id), depth) ==> r != TooDeep
      ensures r == Deleted ==> exists n :: Shallow(s, old(db) - {Key(m, id)}, Key(m, id), n)
      ensures (r, db) == Answer(s, old(db), m, id, depth)
    {
      ghost var before := db;
      var hit := RestrictHit(m, {id});
      assert KeysOf(m, {id}) == {Key(m, id)};
      if hit {
        RestrictedIsBlocked(s, db, m, {id});
        return ErrReferenceInUse;
      }
      if Key(m, id) !in db {
        return ErrNotFound;
      }
      var saved := db;
      db := db - {Key(m, id)};
      ghost var b := db;
      ghost var gone: set<Key>, n: nat := {}, 0;
      if NeedsEmulation(m) {
        r, gone, n := EmulateOnDelete(m, {id}, depth);
        if r != Deleted {
          if r == ErrReferenceInUse {
            BlockedInLarger(s, before, Key(m, id));
          }
          db := saved;
          return;
        }
      } else {
        ProgressStart(s, b, KeysOf(m, {id}));
        assert AllHandled(s, db, m, {id});
        assert OnlyRestricting(Edges(s, m)) by { UsersRestrict(s, m, ReferencedBy(s, m)); }
        NothingEmulated(s, db, m, {id}, Edges(s, m), depth);
      }
      hide Restricted, Progress, AllHandled, DeletesExactly, Blocked;
      LeastDeletion(s, before, b, db, m, id, gone);
      HandledShallow(s, b, db, m, {id}, KeysOf(m, {id}), gone, n);
      return Deleted;
    }
  }

  lemma UserEdgesNext(s: Schema, m: ModelName, users: seq<ModelName>, i: nat)
    requires i < |users|
    ensures UserEdges(s, m, users[i..])
         == FieldEdges(m, users[i], Fields(s, users[i])) + UserEdges(s, m, users[i + 1..])
  {
    assert users[i..][0] == users[i] && users[i..][1..] == users[i + 1..];
  }

  lemma FieldEdgesNext(m: ModelName, from: ModelName, fs: seq<RefField>, i: nat, rest: seq<(ModelName, RefField)>)
    requires i < |fs|
    ensures var more := FieldEdges(m, from, fs[i + 1..]) + rest;
      FieldEdges(m, from, fs[i..]) + rest == (if fs[i].to == m then [(from, fs[i])] + more else more)
  {
    assert fs[i..][0] == fs[i] && fs[i..][1..] == fs[i + 1..];
  }

  lemma NoneShallow(s: Schema, t: Table)
    ensures AllShallow(s, t, {}, 0)
  {
  }

  lemma NoUsers(s: Schema, m: ModelName)
    ensures UserEdges(s, m, []) == []
  {
  }

  lemma NoEdges(s: Schema, t: Table, m: ModelName, ids: set<Id>, depth: nat)
    ensures Emulated(s, t, m, ids, [], depth) == Now(t)
  {
  }

  /** One edge of the reference. */
  lemma EdgeStep(s: Schema, t: Table, m: ModelName, ids: set<Id>, from: ModelName, f: RefField,
                 rest: seq<(ModelName, RefField)>, depth: nat)
    ensures var all := Emulated(s, t, m, ids, [(from, f)] + rest, depth);
            var kids := Children(t, from, f.column, ids);
      && (f.on.Restrict? ==> all == Emulated(s, t, m, ids, rest, depth))
      && (f.on.SetNull? ==> all == Emulated(s, Nulled(t, from, f.column, ids), m, ids, rest, depth))
      && (f.on.Cascade? ==>
            if kids == {} then all == Emulated(s, t, m, ids, rest, depth)
            else if Restricted(s, t, from, kids) then all == Refused
            else if depth == 0 then all == Exhausted
            else
              var below := Emulated(s, t, from, kids, Edges(s, from), depth - 1);
              if below.Now? then
                all == Emulated(s, below.t - KeysOf(from, Children(below.t, from, f.column, ids)), m, ids, rest, depth)
              else all == below)
  {
    hide Restricted, Edges;
    var es := [(from, f)] + rest;
    assert es[0] == (from, f) && es[1..] == rest;
  }

  ghost predicate OnlyRestricting(es: seq<(ModelName, RefField)>) {
    forall e <- es :: e.1.on.Restrict?
  }

  lemma {:induction false} FieldsRestrict(m: ModelName, from: ModelName, fs: seq<RefField>)
    requires forall f <- fs | f.to == m :: f.on.Restrict?
    ensures OnlyRestricting(FieldEdges(m, from, fs))
  {
    if fs != [] {
      assert fs[0] in fs && forall f <- fs[1..] :: f in fs;
      FieldsRestrict(m, from, fs[1..]);
    }
  }

  lemma {:induction false} UsersRestrict(s: Schema, m: ModelName, users: seq<ModelName>)
    requires forall u <- users :: forall f <- Fields(s, u) | f.to == m :: f.on.Restrict?
    ensures OnlyRestricting(UserEdges(s, m, users))
  {
    if users != [] {
      assert users[0] in users && forall u <- users[1..] :: u in users;
      FieldsRestrict(m, users[0], Fields(s, users[0]));
      UsersRestrict(s, m, users[1..]);
    }
  }

  lemma {:induction false} NothingEmulated(s: Schema, t: Table, m: ModelName, ids: set<Id>,
                                           es: seq<(ModelName, RefField)>, depth: nat)
    requires OnlyRestricting(es)
    ensures Emulated(s, t, m, ids, es, depth) == Now(t)
    decreases es
  {
    if es != [] {
      assert es[0] in es && forall e <- es[1..] :: e in es;
      assert es[0].1.on.Restrict?;
      NothingEmulated(s, t, m, ids, es[1..], depth);
    }
  }

  lemma IsUser(s: Schema, m: ModelName, h: ModelName, g: RefField)
    requires Resolved(s) && g in Fields(s, h) && g.to == m
    ensures h in ReferencedBy(s, m)
  {
  }

  lemma RestrictFound(s: Schema, t: Table, m: ModelName, ids: set<Id>, h: ModelName, g: RefField)
    requires g in Fields(s, h) && g.to == m && g.on.Restrict? && Children(t, h, g.column, ids) != {}
    ensures Restricted(s, t, m, ids)
  {
    var id :| id in Children(t, h, g.column, ids);
    var k :| k in t && k.m == h && g.column in t[k].refs && t[k].refs[g.column] in ids && k.id == id;
    assert Points(s, t, k, g, Key(m, t[k].refs[g.column]));
  }

  lemma NoRestrict(s: Schema, t: Table, m: ModelName, ids: set<Id>)
    requires Resolved(s)
    requires forall h, g | h in ReferencedBy(s, m) && g in Fields(s, h) && g.to == m && g.on.Restrict? ::
               Children(t, h, g.column, ids) == {}
    ensures !Restricted(s, t, m, ids)
  {
    forall k, f, r | Points(s, t, k, f, r) && f.on.Restrict? && r.m == m ensures r.id !in ids {
      assert k.m in ReferencedBy(s, m);
      assert r.id in ids ==> k.id in Children(t, k.m, f.column, ids);
    }
  }

  lemma NoChildren(t: Table, from: ModelName, f: RefField, ids: set<Id>)
    requires Children(t, from, f.column, ids) == {}
    ensures Handled(t, from, f, ids)
  {
    forall k | k in t && k.m == from && f.column in t[k].refs ensures t[k].refs[f.column] !in ids {
      assert t[k].refs[f.column] in ids ==> k.id in Children(t, from, f.column, ids);
    }
  }

  /** A column that cascades is never nulled: rows still there still point where they did. */
  lemma CascadeStays(s: Schema, b: Table, u: Table, x: set<Key>, r: set<Key>, k: Key, f: RefField, d: Key)
    requires Resolved(s) && Progress(s, b, u, x, r) && Points(s, b, k, f, d) && f.on.Cascade? && k in u
    ensures Points(s, u, k, f, d)
  {
    assert Trimmed(s, k, b[k], u[k], x + r);
  }

  lemma ChildrenLeft(s: Schema, t: Table, u: Table, c: set<Key>, q: set<Key>, from: ModelName, f: RefField,
                     ids: set<Id>)
    requires Resolved(s) && f in Fields(s, from) && f.on.Cascade?
    requires Progress(s, t, u, c, q) && c == KeysOf(from, Children(t, from, f.column, ids))
    ensures u - KeysOf(from, Children(u, from, f.column, ids)) == u - c
  {
    var left := KeysOf(from, Children(u, from, f.column, ids));
    forall k | k in u ensures k in left <==> k in c {
      assert Trimmed(s, k, t[k], u[k], c + q);
      if k in c {
        var j :| j in t && j.m == from && f.column in t[j].refs && t[j].refs[f.column] in ids && j.id == k.id;
        assert j == k;
        CascadeStays(s, t, u, c, q, k, f, Key(f.to, t[k].refs[f.column]));
        assert k.id in Children(u, from, f.column, ids);
      }
      if k in left {
        var j :| j in u && j.m == from && f.column in u[j].refs && u[j].refs[f.column] in ids && j.id == k.id;
        assert j == k && k.id in Children(t, from, f.column, ids);
      }
    }
  }

  // ---------------------------------------------------------------- how deep the cascade goes

  lemma {:induction false} ShallowInSmaller(s: Schema, b: Table, t: Table, x: set<Key>, r: set<Key>, k: Key, n: nat)
    requires Progress(s, b, t, x, r) && Shallow(s, b, k, n)
    ensures Shallow(s, t, k, n)
    decreases n
  {
    hide Progress;
    forall j, f | Points(s, t, j, f, k) && f.on.Cascade? ensures n > 0 && Shallow(s, t, j, n - 1) {
      PointsFromStart(s, b, t, x, r, j, f, k);
      ShallowInSmaller(s, b, t, x, r, j, n - 1);
    }
  }

  lemma {:induction false} ShallowMore(s: Schema, t: Table, k: Key, n: nat, more: nat)
    requires Shallow(s, t, k, n) && n <= more
    ensures Shallow(s, t, k, more)
    decreases n
  {
    forall j, f | Points(s, t, j, f, k) && f.on.Cascade? ensures more > 0 && Shallow(s, t, j, more - 1) {
      ShallowMore(s, t, j, n - 1, more - 1);
    }
  }

  lemma ChildrenShallow(s: Schema, b: Table, t: Table, x: set<Key>, r: set<Key>, m: ModelName, ids: set<Id>,
                        from: ModelName, f: RefField, n: nat)
    requires Progress(s, b, t, x, r) && x == KeysOf(m, ids) && AllShallow(s, b, x, n)
    requires f in Fields(s, from) && f.to == m && f.on.Cascade? && Children(t, from, f.column, ids) != {}
    ensures n > 0 && AllShallow(s, t, KeysOf(from, Children(t, from, f.column, ids)), n - 1)
  {
    hide Progress;
    var c := KeysOf(from, Children(t, from, f.column, ids));
    forall k | k in c ensures n > 0 && Shallow(s, t, k, n - 1) {
      var j :| j in t && j.m == from && f.column in t[j].refs && t[j].refs[f.column] in ids && j.id == k.id;
      var d := Key(m, t[k].refs[f.column]);
      assert j == k && Points(s, t, k, f, d) && d in x;
      ShallowInSmaller(s, b, t, x, r, d, n);
    }
    var id :| id in Children(t, from, f.column, ids);
    assert Key(from, id) in c;
  }

  /** Chains that end in rows removed earlier are short, so those that were short without these rows are short. */
  lemma {:induction false} ShallowInLarger(s: Schema, b: Table, t: Table, x: set<Key>, r: set<Key>, k: Key, n: nat,
                                           low: nat)
    requires Resolved(s) && Progress(s, b, t, x, r) && AllShallow(s, b, r, low) && Shallow(s, t, k, n)
    ensures Shallow(s, b, k, n + low + 1)
    decreases n
  {
    forall j, f | Points(s, b, j, f, k) && f.on.Cascade? ensures Shallow(s, b, j, n + low) {
      if j in r {
        ShallowMore(s, b, j, low, n + low);
      } else {
        CascadeStays(s, b, t, x, r, j, f, k);
        ShallowInLarger(s, b, t, x, r, j, n - 1, low);
      }
    }
  }

  /** Where nothing points to the rows x any more, everything that cascaded on them is gone. */
  lemma HandledShallow(s: Schema, b: Table, u: Table, m: ModelName, ids: set<Id>, x: set<Key>, gone: set<Key>, n: nat)
    requires Resolved(s) && x == KeysOf(m, ids) && Progress(s, b, u, x, gone)
    requires AllHandled(s, u, m, ids) && AllShallow(s, b, gone, n)
    ensures AllShallow(s, b, x, n + 1)
  {
    forall d | d in x ensures Shallow(s, b, d, n + 1) {
      forall j, f | Points(s, b, j, f, d) && f.on.Cascade? ensures Shallow(s, b, j, n) {
        if j in u {
          CascadeStays(s, b, u, x, gone, j, f, d);
          assert Handled(u, j.m, f, ids);
        }
      }
    }
  }

  lemma CascadeSinks(s: Schema, b: Table, t: Table, x: set<Key>, r: set<Key>, from: ModelName, kids: set<Id>, u: Table,
                     q: set<Key>, low: nat, n: nat)
    requires Resolved(s) && Progress(s, b, t, x, r) && AllShallow(s, b, r, low)
    requires Progress(s, t, u, KeysOf(from, kids), q) && AllShallow(s, t, q, n) && AllHandled(s, u, from, kids)
    ensures AllShallow(s, b, r + q + KeysOf(from, kids), low + n + 2)
  {
    hide Progress, Shallow, AllHandled;
    var c := KeysOf(from, kids);
    HandledShallow(s, t, u, from, kids, c, q, n);
    forall k | k in r + q + c ensures Shallow(s, b, k, low + n + 2) {
      if k in c {
        ShallowInLarger(s, b, t, x, r, k, n + 1, low);
      } else if k in q {
        ShallowInLarger(s, b, t, x, r, k, n, low);
        ShallowMore(s, b, k, n + low + 1, low + n + 2);
      } else {
        ShallowMore(s, b, k, low, low + n + 2);
      }
    }
  }

  lemma CascadeHandled(s: Schema, t: Table, u: Table, c: set<Key>, q: set<Key>, from: ModelName, f: RefField,
                       ids: set<Id>)
    requires Progress(s, t, u, c, q) && c == KeysOf(from, Children(t, from, f.column, ids))
    ensures Handled(u - c, from, f, ids)
    ensures forall h, g | Handled(t, h, g, ids) :: Handled(u - c, h, g, ids)
  {
    forall k | k in u && k !in c && k.m == from && f.column in u[k].refs ensures u[k].refs[f.column] !in ids {
      assert Trimmed(s, k, t[k], u[k], c + q);
      assert u[k].refs[f.column] in ids ==> k.id in Children(t, from, f.column, ids) && k == Key(from, k.id);
    }
    forall h, g | Handled(t, h, g, ids) ensures Handled(u - c, h, g, ids) {
      forall k | k in u - c ensures Trimmed(s, k, t[k], (u - c)[k], c + q) {
      }
      HandledStays(s, t, u - c, c, q, h, g, ids);
    }
  }

  /** No surviving row points to a deleted one. */
  lemma NothingDangles(s: Schema, b: Table, u: Table, m: ModelName, id: Id, gone: set<Key>)
    requires Progress(s, b, u, KeysOf(m, {id}), gone) && AllHandled(s, u, m, {id})
    requires !Restricted(s, b, m, {id})
    ensures forall k, f, r | Points(s, u, k, f, r) :: r !in gone && r != Key(m, id)
  {
    var x := KeysOf(m, {id});
    forall k, f, r | Points(s, u, k, f, r) ensures r !in gone && r != Key(m, id) {
      assert Trimmed(s, k, b[k], u[k], x + gone);
      assert Points(s, b, k, f, r);
      if f.to == m {
        assert Handled(u, k.m, f, {id});
      }
      assert f.on.Restrict? && r == Key(m, id) ==> Restricted(s, b, m, {id});
    }
  }

  lemma RestrictedInSmaller(s: Schema, t: Table, root: Key, m: ModelName, ids: set<Id>)
    requires !Restricted(s, t, m, ids)
    ensures !Restricted(s, t - {root}, m, ids)
  {
    forall k, f, r | Points(s, t - {root}, k, f, r) && f.on.Restrict? && r.m == m ensures r.id !in ids {
      assert Points(s, t, k, f, r);
      assert r.id in ids ==> Restricted(s, t, m, ids);
    }
  }

  lemma LeastOfProgress(s: Schema, t: Table, u: Table, root: Key, gone: set<Key>)
    requires Resolved(s) && root in t
    requires Progress(s, t - {root}, u, {root}, gone)
    requires forall k, f, r | Points(s, u, k, f, r) :: r !in gone && r != root
    ensures LeastClosed(s, t, root, gone + {root})
  {
    var b, d := t - {root}, gone + {root};
    forall k, f, r | Points(s, t, k, f, r) && f.on.Cascade? && r in d ensures k in d {
      if k in u {
        assert Trimmed(s, k, b[k], u[k], {root} + gone);
        assert f.column in u[k].refs;
        assert Points(s, u, k, f, r);
      }
    }
    forall e: set<Key> | root in e && Closed(s, t, e) ensures d <= e {
      assert Closed(s, b, e) by {
        forall k, f, r | Points(s, b, k, f, r) && f.on.Cascade? && r in e ensures k in e {
          assert Points(s, t, k, f, r);
        }
      }
    }
  }

  lemma RowsSurvive(s: Schema, t: Table, u: Table, root: Key, gone: set<Key>)
    requires Resolved(s) && Progress(s, t - {root}, u, {root}, gone)
    requires forall k, f, r | Points(s, u, k, f, r) :: r !in gone && r != root
    ensures forall k <- u :: k in t && Survives(s, t, k, t[k], u[k], gone + {root})
  {
    var d := gone + {root};
    forall k | k in u ensures k in t && Survives(s, t, k, t[k], u[k], d) {
      assert Trimmed(s, k, (t - {root})[k], u[k], {root} + gone);
      forall c ensures c in u[k].refs <==> c in t[k].refs && !MustNull(s, t, k, c, d) {
        if c in t[k].refs && c !in u[k].refs {
          var f :| f in Fields(s, k.m) && f.column == c && f.on.SetNull? && Key(f.to, t[k].refs[c]) in {root} + gone;
          assert Points(s, t, k, f, Key(f.to, t[k].refs[c]));
        }
        if c in u[k].refs {
          forall f, r | Points(s, t, k, f, r) && f.column == c ensures r !in d {
            assert Points(s, u, k, f, r);
          }
        }
      }
    }
  }

  lemma LeastDeletion(s: Schema, t: Table, b: Table, u: Table, m: ModelName, id: Id, gone: set<Key>)
    requires Resolved(s) && Key(m, id) in t && b == t - {Key(m, id)}
    requires Progress(s, b, u, KeysOf(m, {id}), gone) && AllHandled(s, u, m, {id})
    requires !Restricted(s, t, m, {id})
    ensures DeletesExactly(s, t, u, Key(m, id))
  {
    hide Progress, AllHandled, Restricted, LeastClosed, Survives;
    var root := Key(m, id);
    assert KeysOf(m, {id}) == {root};
    RestrictedInSmaller(s, t, root, m, {id});
    NothingDangles(s, b, u, m, id, gone);
    LeastOfProgress(s, t, u, root, gone);
    RowsSurvive(s, t, u, root, gone);
    var d := gone + {root};
    assert u.Keys == t.Keys - d by { KeysLeft(s, b, u, {root}, gone); }
    NoSurvivorRestricts(s, t, u, d);
    WholeStays(s, t, u, d);
  }

  lemma KeysLeft(s: Schema, b: Table, u: Table, x: set<Key>, gone: set<Key>)
    requires Progress(s, b, u, x, gone)
    ensures u.Keys == b.Keys - gone
  {
  }

  lemma NoSurvivorRestricts(s: Schema, t: Table, u: Table, d: set<Key>)
    requires Resolved(s) && u.Keys == t.Keys - d && forall k <- u :: Survives(s, t, k, t[k], u[k], d)
    requires forall k, f, r | Points(s, u, k, f, r) :: r !in d
    ensures forall k, f, r | Points(s, t, k, f, r) && f.on.Restrict? && r in d :: k in d
  {
    forall k, f, r | Points(s, t, k, f, r) && f.on.Restrict? && r in d ensures k in d {
      if k in u {
        assert Survives(s, t, k, t[k], u[k], d);
        assert !MustNull(s, t, k, f.column, d);
        assert Points(s, u, k, f, r);
      }
    }
  }

  lemma WholeStays(s: Schema, t: Table, u: Table, d: set<Key>)
    requires u.Keys == t.Keys - d && forall k <- u :: Survives(s, t, k, t[k], u[k], d)
    requires forall k, f, r | Points(s, u, k, f, r) :: r !in d
    ensures Whole(s, t) ==> Whole(s, u)
  {
    hide MustNull;
    if Whole(s, t) {
      forall k, f, r | Points(s, u, k, f, r) ensures r in u {
        assert Survives(s, t, k, t[k], u[k], d);
        assert Points(s, t, k, f, r);
      }
    }
  }

  // ---------------------------------------------------------------- where the recursion ends

  /** Where every row below r ranks below the rows it cascades on, chains end: the least depth is r's rank at most. */
  lemma {:induction false} RankedIsShallow(s: Schema, t: Table, below: set<Key>, rank: Key -> nat, r: Key)
    requires r in below
    requires forall k, f, d | Points(s, t, k, f, d) && f.on.Cascade? && d in below :: k in below && rank(k) < rank(d)
    ensures Shallow(s, t, r, rank(r))
    decreases rank(r)
  {
    forall k, f | Points(s, t, k, f, r) && f.on.Cascade? ensures rank(r) > 0 && Shallow(s, t, k, rank(r) - 1) {
      RankedIsShallow(s, t, below, rank, k);
      ShallowMore(s, t, k, rank(k), rank(r) - 1);
    }
  }

  /** A model that references itself twice. */
  const PARENT := RefField("parent", "node", Cascade)
  const OTHER := RefField("other", "node", Cascade)
  const NODES := Schema(map["node" := [PARENT, OTHER]], map["node" := ["node", "node"]])

  function Node(id: Id): Key {
    Key("node", id)
  }

  /** c and d hang below the root, and each on the other. */
  function Loop(data: Data): Table {
    map[Node("root") := Row(map[], data),
        Node("c") := Row(map["parent" := "root", "other" := "d"], data),
        Node("d") := Row(map["parent" := "c"], data)]
  }

  lemma {:induction false} LoopIsDeep(data: Data, n: nat)
    ensures var t := Loop(data) - {Node("root")};
      !Shallow(NODES, t, Node("root"), n) && !Shallow(NODES, t, Node("c"), n) && !Shallow(NODES, t, Node("d"), n)
  {
    var t := Loop(data) - {Node("root")};
    assert Fields(NODES, "node") == [PARENT, OTHER];
    assert Points(NODES, t, Node("c"), PARENT, Node("root"));
    assert Points(NODES, t, Node("d"), PARENT, Node("c"));
    assert Points(NODES, t, Node("c"), OTHER, Node("d"));
    if n > 0 {
      LoopIsDeep(data, n - 1);
    }
  }

  lemma NodesResolved()
    ensures Resolved(NODES)
  {
    assert forall m :: Fields(NODES, m) == if m == "node" then [PARENT, OTHER] else [];
    assert PARENT in Fields(NODES, "node");
  }

  /** An input on which the recursion of Delete never ends, however deep the stack: c and d are each other's children
      and no row goes before the recursion is back. */
  method DeleteLoops(data: Data, depth: nat) returns (r: Outcome)
    ensures r == TooDeep
  {
    NodesResolved();
    var e := new Engine(NODES, Loop(data));
    r := e.Delete("node", "root", depth);
    hide Shallow, Resolved, DeletesExactly;
    forall n: nat ensures !Shallow(NODES, Loop(data) - {Node("root")}, Node("root"), n) {
      LoopIsDeep(data, n);
    }
    NothingBlocks(Loop(data), {Node("root")});
  }

  lemma NothingBlocks(t: Table, x: set<Key>)
    ensures !Blocked(NODES, t, x)
  {
    assert forall m :: Fields(NODES, m) == if m == "node" then [PARENT, OTHER] else [];
    hide Needed;
  }

  // ---------------------------------------------------------------- where the declarations decide

  /** Two dependants of a root that cascade, one of which restricts the other. */
  const A_ROOT := RefField("root", "root", Cascade)
  const B_ROOT := RefField("root", "root", Cascade)
  const B_A := RefField("a", "a", Restrict)

  function Dependants(order: seq<ModelName>): Schema {
    Schema(map["a" := [A_ROOT], "b" := [B_ROOT, B_A]], map["root" := order, "a" := ["b"]])
  }

  const ROOT := Key("root", "r")
  const A_KEY := Key("a", "x")
  const B_KEY := Key("b", "y")

  function Family(data: Data): Table {
    map[ROOT := Row(map[], data), A_KEY := Row(map["root" := "r"], data),
        B_KEY := Row(map["root" := "r", "a" := "x"], data)]
  }

  lemma FamilyEdges(order: seq<ModelName>)
    requires order == ["a", "b"] || order == ["b", "a"]
    ensures var s := Dependants(order);
      && Edges(s, "root")
           == (if order[0] == "a" then [("a", A_ROOT), ("b", B_ROOT)] else [("b", B_ROOT), ("a", A_ROOT)])
      && Edges(s, "a") == [("b", B_A)] && Edges(s, "b") == []
  {
    hide FieldEdges;
    var s := Dependants(order);
    forall m: ModelName
      ensures FieldEdges(m, "a", [A_ROOT]) == if m == "root" then [("a", A_ROOT)] else []
      ensures FieldEdges(m, "b", [B_ROOT, B_A])
           == if m == "root" then [("b", B_ROOT)] else if m == "a" then [("b", B_A)] else [] {
      FieldEdgesOf(m, "a", [A_ROOT]);
      FieldEdgesOf(m, "b", [B_ROOT, B_A]);
    }
    UserEdgesOf(s, "root", order);
    UserEdgesOf(s, "a", ["b"]);
  }

  lemma FieldEdgesOf(m: ModelName, from: ModelName, fs: seq<RefField>)
    requires 1 <= |fs| <= 2
    ensures FieldEdges(m, from, fs)
         == (if fs[0].to == m then [(from, fs[0])] else [])
            + if |fs| == 2 && fs[1].to == m then [(from, fs[1])] else []
  {
    assert fs[1..] == if |fs| == 2 then [fs[1]] else [];
    assert |fs| == 2 ==> fs[1..][1..] == [];
  }

  lemma UserEdgesOf(s: Schema, m: ModelName, users: seq<ModelName>)
    requires 1 <= |users| <= 2
    ensures UserEdges(s, m, users)
         == FieldEdges(m, users[0], Fields(s, users[0]))
            + if |users| == 2 then FieldEdges(m, users[1], Fields(s, users[1])) else []
  {
    hide FieldEdges;
    assert users[1..] == if |users| == 2 then [users[1]] else [];
    assert |users| == 2 ==> users[1..][1..] == [];
  }

  /** The same rows under the same fields: with b registered before a the root is deleted with both, with a before b the
      delete is refused, for a is met while b still restricts it. */
  lemma OrderDecides(data: Data, depth: nat)
    requires depth > 0
    ensures Answer(Dependants(["a", "b"]), Family(data), "root", "r", depth).0 == ErrReferenceInUse
    ensures Answer(Dependants(["b", "a"]), Family(data), "root", "r", depth) == (Deleted, map[])
  {
    AFirst(data, depth);
    BFirst(data, depth);
    FamilyFree(data, ["a", "b"]);
    FamilyFree(data, ["b", "a"]);
    hide Emulated, Restricted, Edges;
  }

  /** Nothing restricts the root or b, and only b restricts a. */
  lemma FamilyFree(data: Data, order: seq<ModelName>)
    ensures var s, t := Dependants(order), Family(data);
      && !Restricted(s, t, "root", {"r"}) && !Restricted(s, t - {ROOT}, "b", {"y"})
      && Restricted(s, t - {ROOT}, "a", {"x"}) && !Restricted(s, t - {ROOT} - {B_KEY}, "a", {"x"})
  {
    var s, t := Dependants(order), Family(data);
    assert Points(s, t - {ROOT}, B_KEY, B_A, A_KEY);
    assert forall k, f, r | Points(s, t, k, f, r) :: f == A_ROOT || f == B_ROOT || f == B_A;
    assert forall k, f, r | Points(s, t - {ROOT}, k, f, r) :: Points(s, t, k, f, r);
  }

  lemma FamilyKids(data: Data)
    ensures var t := Family(data) - {ROOT};
      && Children(t, "a", "root", {"r"}) == {"x"} && Children(t, "b", "root", {"r"}) == {"y"}
      && Children(t - {B_KEY}, "a", "root", {"r"}) == {"x"}
      && KeysOf("a", {"x"}) == {A_KEY} && KeysOf("b", {"y"}) == {B_KEY}
  {
    var t := Family(data) - {ROOT};
    assert t[A_KEY].refs["root"] == "r" && t[B_KEY].refs["root"] == "r";
    forall id ensures id in Children(t, "a", "root", {"r"}) <==> id == "x" {
      assert id == "x" ==> A_KEY in t;
    }
    forall id ensures id in Children(t, "b", "root", {"r"}) <==> id == "y" {
      assert id == "y" ==> B_KEY in t;
    }
    forall id ensures id in Children(t - {B_KEY}, "a", "root", {"r"}) <==> id == "x" {
      assert id == "x" ==> A_KEY in t - {B_KEY};
    }
  }

  lemma AFirst(data: Data, depth: nat)
    ensures var s := Dependants(["a", "b"]);
      Emulated(s, Family(data) - {ROOT}, "root", {"r"}, Edges(s, "root"), depth) == Refused
  {
    hide Emulated, Restricted, Children, KeysOf, Edges;
    var s, t := Dependants(["a", "b"]), Family(data) - {ROOT};
    FamilyEdges(["a", "b"]);
    FamilyKids(data);
    FamilyFree(data, ["a", "b"]);
    EdgeStep(s, t, "root", {"r"}, "a", A_ROOT, [("b", B_ROOT)], depth);
    assert Edges(s, "root") == [("a", A_ROOT)] + [("b", B_ROOT)];
  }

  lemma BFirst(data: Data, depth: nat)
    requires depth > 0
    ensures var s := Dependants(["b", "a"]);
      Emulated(s, Family(data) - {ROOT}, "root", {"r"}, Edges(s, "root"), depth) == Now(map[])
  {
    hide Emulated, Restricted, Children, KeysOf, Edges;
    var s, t := Dependants(["b", "a"]), Family(data) - {ROOT};
    var u := t - {B_KEY};
    var none: seq<(ModelName, RefField)> := [];
    FamilyEdges(["b", "a"]);
    FamilyKids(data);
    FamilyFree(data, ["b", "a"]);
    NoEdges(s, t, "b", {"y"}, depth - 1);
    EdgeStep(s, t, "root", {"r"}, "b", B_ROOT, [("a", A_ROOT)], depth);
    EdgeStep(s, u, "a", {"x"}, "b", B_A, none, depth - 1);
    NoEdges(s, u, "a", {"x"}, depth - 1);
    EdgeStep(s, u, "root", {"r"}, "a", A_ROOT, none, depth);
    NoEdges(s, u - {A_KEY}, "root", {"r"}, depth);
    assert [("a", A_ROOT)] + none == [("a", A_ROOT)] && [("b", B_A)] + none == [("b", B_A)];
    assert Edges(s, "root") == [("b", B_ROOT)] + [("a", A_ROOT)];
    assert u - {A_KEY} == map[];
  }
}

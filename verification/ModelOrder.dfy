/** The topological order of the models: depth-first search over their references, and the deletion
    order derived from it (registry.go:576-607, import.go:514-533). */
module ModelOrder {

  type ModelName = string

  /** Models in registration order, and per model the targets of its reference fields. */
  datatype Registry = Registry(ordered: seq<ModelName>, refs: map<ModelName, seq<ModelName>>)

  function Targets(r: Registry, m: ModelName): seq<ModelName> {
    if m in r.refs then r.refs[m] else []
  }

  /** resolve() only sets references to registered models; names are registered once. */
  ghost predicate Resolved(r: Registry) {
    && (forall m, t | t in Targets(r, m) :: t in r.ordered)
    && (forall i, j | 0 <= i < j < |r.ordered| :: r.ordered[i] != r.ordered[j])
  }

  /** m references t, itself aside. */
  ghost predicate Edge(r: Registry, m: ModelName, t: ModelName) {
    t in Targets(r, m) && t != m
  }

  ghost predicate Chain(r: Registry, c: seq<ModelName>) {
    forall i | 0 <= i < |c| - 1 :: Edge(r, c[i], c[i + 1])
  }

  ghost predicate Cycle(r: Registry, c: seq<ModelName>) {
    |c| >= 2 && Chain(r, c) && c[0] == c[|c| - 1]
  }

  ghost predicate Distinct(s: seq<ModelName>) {
    forall i, j | 0 <= i < j < |s| :: s[i] != s[j]
  }

  /** Every model of the list comes after the models it references. */
  ghost predicate TargetsFirst(r: Registry, out: seq<ModelName>) {
    forall i, t | 0 <= i < |out| && Edge(r, out[i], t) :: t in out[..i]
  }

  /** A finished sort: each registered model once, targets first. */
  ghost predicate Sorted(r: Registry, out: seq<ModelName>) {
    && Distinct(out)
    && (forall m :: m in out <==> m in r.ordered)
    && TargetsFirst(r, out)
  }

  datatype Mark = Open | Done

  /** What holds between visits: out lists the finished models, path the open ones. */
  ghost predicate Between(r: Registry, state: map<ModelName, Mark>, out: seq<ModelName>, path: seq<ModelName>) {
    && Resolved(r)
    && (forall m <- state :: m in r.ordered)
    && (forall m :: m in out <==> m in state && state[m].Done?)
    && (forall m :: m in path <==> m in state && state[m].Open?)
    && Chain(r, path)
    && Distinct(out) && TargetsFirst(r, out)
  }

  lemma OpenStep(r: Registry, state: map<ModelName, Mark>, out: seq<ModelName>, path: seq<ModelName>, m: ModelName)
    requires Between(r, state, out, path) && m in r.ordered && m !in state
    requires path != [] ==> Edge(r, path[|path| - 1], m)
    ensures Between(r, state[m := Open], out, path + [m])
  {
    ExtendChain(r, path, m);
    hide Chain, Distinct, TargetsFirst, Resolved;
  }

  lemma DoneStep(r: Registry, state: map<ModelName, Mark>, out: seq<ModelName>, path: seq<ModelName>, m: ModelName)
    requires Between(r, state, out, path + [m]) && m !in path
    requires forall t | Edge(r, m, t) :: t in out
    ensures Between(r, state[m := Done], out + [m], path)
  {
    assert m in path + [m];
    Finish(r, out, m);
    assert Chain(r, path) by {
      assert forall i | 0 <= i < |path| :: (path + [m])[i] == path[i];
    }
    hide Chain, TargetsFirst, Resolved;
  }

  lemma BackStep(r: Registry, state: map<ModelName, Mark>, out: seq<ModelName>, path: seq<ModelName>, m: ModelName)
    requires Between(r, state, out, path) && m in state && state[m].Open?
    requires path != [] ==> Edge(r, path[|path| - 1], m)
    ensures exists c :: Cycle(r, c)
  {
    assert m in path;
    var i :| 0 <= i < |path| && path[i] == m;
    BackEdge(r, path, i, m);
  }

  lemma MarksTell(r: Registry, state: map<ModelName, Mark>, out: seq<ModelName>, path: seq<ModelName>, m: ModelName)
    requires Between(r, state, out, path)
    ensures m in out <==> m in state && state[m].Done?
    ensures m in path <==> m in state && state[m].Open?
    ensures forall t | t in Targets(r, m) :: t in r.ordered
  {
  }

  /** The models without a mark. */
  ghost function White(r: Registry, state: map<ModelName, Mark>): set<ModelName> {
    (set m <- r.ordered) - state.Keys
  }

  lemma WhiteShrinks(r: Registry, s: map<ModelName, Mark>, u: map<ModelName, Mark>, m: ModelName)
    requires m in r.ordered && m !in s && m in u && s.Keys <= u.Keys
    ensures |White(r, u)| < |White(r, s)|
  {
    assert m in White(r, s) && White(r, u) < White(r, s);
    SmallerSet(White(r, u), White(r, s));
  }

  class Sorter {
    const r: Registry
    var state: map<ModelName, Mark>
    var out: seq<ModelName>

    constructor (r: Registry)
      ensures this.r == r && state == map[] && out == []
    {
      this.r, state, out := r, map[], [];
    }

    ghost predicate Valid(path: seq<ModelName>)
      reads this
    {
      Between(r, state, out, path)
    }

    /** One visit; path is the chain of open models that leads here. */
    method Visit(m: ModelName, ghost path: seq<ModelName>) returns (ok: bool)
      requires Valid(path) && m in r.ordered
      requires path != [] ==> Edge(r, path[|path| - 1], m)
      modifies this
      ensures ok ==> Valid(path) && m in state && state[m].Done?
      ensures ok ==> old(state).Keys <= state.Keys && old(out) <= out
      ensures !ok ==> exists c :: Cycle(r, c)
      decreases |White(r, state)|
    {
      hide Between, Cycle, Chain, Distinct, TargetsFirst, White;
      if m in state && state[m].Open? {
        BackStep(r, state, out, path, m);
        return false;
      }
      if m in state {
        return true;
      }
      MarksTell(r, state, out, path, m);
      OpenStep(r, state, out, path, m);
      state := state[m := Open];
      ghost var deeper := path + [m];
      var ts := Targets(r, m);
      var i := 0;
      while i < |ts|
        invariant 0 <= i <= |ts|
        invariant Valid(deeper)
        invariant old(state).Keys + {m} <= state.Keys && old(out) <= out
        invariant forall j | 0 <= j < i && ts[j] != m :: ts[j] in out
      {
        if ts[i] != m {
          MarksTell(r, state, out, deeper, m);
          WhiteShrinks(r, old(state), state, m);
          ok := Visit(ts[i], deeper);
          if !ok {
            return;
          }
          MarksTell(r, state, out, deeper, ts[i]);
        }
        i := i + 1;
      }
      DoneStep(r, state, out, path, m);
      state := state[m := Done];
      out := out + [m];
      return true;
    }

    /** sortedByDeps: a topological order of all models, or an error exactly when the references
        form a cycle. */
    method SortedByDeps() returns (ok: bool)
      requires Resolved(r) && state == map[] && out == []
      modifies this
      ensures ok ==> Sorted(r, out)
      ensures ok <==> !exists c :: Cycle(r, c)
    {
      var i := 0;
      while i < |r.ordered|
        invariant 0 <= i <= |r.ordered|
        invariant Valid([])
        invariant forall j | 0 <= j < i :: r.ordered[j] in out
      {
        ok := Visit(r.ordered[i], []);
        if !ok {
          return;
        }
        i := i + 1;
      }
      forall c ensures !Cycle(r, c) {
        NoCycleInOrder(r, out, c);
      }
      return true;
    }
  }

  lemma SmallerSet(a: set<ModelName>, b: set<ModelName>)
    requires a < b
    ensures |a| < |b|
  {
    var x :| x in b && x !in a;
    if a == {} {
      assert x in b;
    } else {
      var y :| y in a;
      SmallerSet(a - {y}, b - {y});
    }
  }

  lemma ExtendChain(r: Registry, path: seq<ModelName>, m: ModelName)
    requires Chain(r, path) && (path != [] ==> Edge(r, path[|path| - 1], m))
    ensures Chain(r, path + [m])
  {
  }

  lemma BackEdge(r: Registry, path: seq<ModelName>, i: nat, m: ModelName)
    requires i < |path| && path[i] == m && Chain(r, path) && Edge(r, path[|path| - 1], m)
    ensures Cycle(r, path[i..] + [m])
  {
  }

  lemma Finish(r: Registry, out: seq<ModelName>, m: ModelName)
    requires Distinct(out) && TargetsFirst(r, out)
    requires forall t | Edge(r, m, t) :: t in out
    ensures TargetsFirst(r, out + [m])
  {
    var u := out + [m];
    forall i, t | 0 <= i < |u| && Edge(r, u[i], t) ensures t in u[..i] {
      if i < |out| {
        assert u[..i] == out[..i];
      } else {
        assert u[..i] == out;
      }
    }
  }

  /** Along a chain positions only go down, so no chain returns to where it began. */
  lemma {:induction false} ChainGoesDown(r: Registry, out: seq<ModelName>, c: seq<ModelName>, p: nat)
    requires Distinct(out) && TargetsFirst(r, out)
    requires c != [] && Chain(r, c) && p < |out| && out[p] == c[0]
    ensures |c| > 1 ==> c[|c| - 1] in out[..p]
    decreases c
  {
    if |c| > 1 {
      assert Edge(r, c[0], c[1]);
      var q :| 0 <= q < p && out[..p][q] == c[1];
      assert Chain(r, c[1..]) by { assert forall i | 0 <= i < |c[1..]| :: c[1..][i] == c[i + 1]; }
      ChainGoesDown(r, out, c[1..], q);
      assert out[..q] == out[..p][..q];
    }
  }

  lemma NoCycleInOrder(r: Registry, out: seq<ModelName>, c: seq<ModelName>)
    requires Resolved(r) && Sorted(r, out)
    ensures !Cycle(r, c)
  {
    if Cycle(r, c) {
      assert Edge(r, c[|c| - 2], c[|c| - 1]);
      assert c[0] in r.ordered;
      var p :| 0 <= p < |out| && out[p] == c[0];
      ChainGoesDown(r, out, c, p);
    }
  }

  /** tenantTables walks the order backwards: a model's rows go before the rows it references. */
  function Reversed(s: seq<ModelName>): (t: seq<ModelName>)
    ensures |t| == |s| && forall i | 0 <= i < |s| :: t[i] == s[|s| - 1 - i]
  {
    if s == [] then [] else Reversed(s[1..]) + [s[0]]
  }

  lemma DependantsGoFirst(r: Registry, out: seq<ModelName>, i: nat, j: nat)
    requires Sorted(r, out) && i < |out| && j < |out|
    requires Edge(r, Reversed(out)[i], Reversed(out)[j])
    ensures i < j
  {
    var n := |out|;
    assert out[n - 1 - j] in out[..n - 1 - i];
  }
}

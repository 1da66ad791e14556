/** The query builder: a tree of conditions becomes WHERE text and positional arguments (query.go). */
module QueryBuilder {
  import opened Wrappers
  import opened SqlText
  import opened SqlReader

  datatype Cond =
    | Cmp(field: string, op: SqlText.Cmp, value: Value)
    | Like(field: string, pattern: Value)
    | In(field: string, values: seq<Value>)
    | IsNull(field: string)
    | NotNull(field: string)
    | All(children: seq<Cond>)
    | Any(children: seq<Cond>)
    | Neg(child: Cond)

  /** A model field; lookup fields are encrypted fields with a hash column beside them. */
  datatype Field = Field(column: string, encrypted: bool, lookup: bool, frozen: bool)

  /** hash fails on what is no text, and gives NULL for text that is empty after normalising. */
  datatype Model = Model(fields: map<string, Field>, hash: Value -> Option<Value>, encrypt: Value -> Option<Value>)

  type Sql = Option<(seq<Word>, seq<Value>)>

  function LookupColumn(f: Field): string {
    f.column + "_lookup"
  }

  // ---------------------------------------------------------------- compilation

  function CondSQL(m: Model, c: Cond): Sql
    decreases c, 0
  {
    match c
    case All(cs) => if cs == [] then Some(([TRUE], [])) else Wrapped(Joined(m, cs, AND))
    case Any(cs) => if cs == [] then Some(([TRUE], [])) else Wrapped(Joined(m, cs, OR))
    case Neg(c1) =>
      (match CondSQL(m, c1)
       case None => None
       case Some((ws, args)) => Some(([NOT, LPAR] + ws + [RPAR], args)))
    case _ =>
      if c.field !in m.fields then None
      else if m.fields[c.field].lookup then LookupCondSQL(m, m.fields[c.field], c)
      else if m.fields[c.field].encrypted then None
      else PlainCondSQL(m.fields[c.field], c)
  }

  predicate Leaf(c: Cond) {
    c.Cmp? || c.Like? || c.In? || c.IsNull? || c.NotNull?
  }

  function PlainCondSQL(f: Field, c: Cond): Sql
    requires Leaf(c)
  {
    match c
    case Cmp(_, op, v) => Some(([Col(f.column), Op(op), HOLE], [v]))
    case Like(_, v) => Some(([Col(f.column), LIKE, HOLE], [v]))
    case In(_, vs) => if vs == [] then Some(([FALSE], [])) else Some((InWords(f.column, |vs|), vs))
    case IsNull(_) => Some(([Col(f.column), ISNULL], []))
    case NotNull(_) => Some(([Col(f.column), NOTNULL], []))
  }

  function Wrapped(s: Sql): Sql {
    match s
    case None => None
    case Some((ws, args)) => Some(([LPAR] + ws + [RPAR], args))
  }

  /** Compile the children and join them. */
  function Joined(m: Model, cs: seq<Cond>, join: Word): Sql
    requires cs != []
    decreases cs, 1
  {
    match CondSQL(m, cs[0])
    case None => None
    case Some((ws, args)) =>
      if |cs| == 1 then Some((ws, args))
      else
        match Joined(m, cs[1..], join)
        case None => None
        case Some((ws', args')) => Some((ws + [join] + ws', args + args'))
  }

  function InWords(col: string, n: nat): seq<Word>
    requires n > 0
  {
    [Col(col), IN, LPAR] + Holes(n) + [RPAR]
  }

  function Holes(n: nat): seq<Word>
    requires n > 0
  {
    if n == 1 then [HOLE] else [HOLE, COMMA] + Holes(n - 1)
  }

  /** The hashes of the values, NULLs apart; None when a value cannot be hashed. */
  function Hashed(m: Model, vs: seq<Value>): Option<(seq<Value>, bool)> {
    if vs == [] then Some(([], false))
    else
      match (m.hash(vs[0]), Hashed(m, vs[1..]))
      case (Some(h), Some((hs, hasNull))) => if h.None? then Some((hs, true)) else Some(([h] + hs, hasNull))
      case _ => None
  }

  function LookupCondSQL(m: Model, f: Field, c: Cond): Sql
    requires Leaf(c)
  {
    var col := LookupColumn(f);
    match c
    case Cmp(_, op, v) =>
      if op != EQ && op != NE then None
      else (
        match m.hash(v)
        case None => None
        case Some(h) =>
          if h.None? then Some(([Col(col), if op == EQ then ISNULL else NOTNULL], []))
          else Some(([Col(col), Op(op), HOLE], [h]))
      )
    case In(_, vs) =>
      if vs == [] then Some(([FALSE], []))
      else (
        match Hashed(m, vs)
        case None => None
        case Some((hs, hasNull)) =>
          if !hasNull then (if hs == [] then Some(([], [])) else Some((InWords(col, |hs|), hs)))
          else if hs == [] then Some(([Col(col), ISNULL], []))
          else Some(([LPAR] + InWords(col, |hs|) + [OR, Col(col), ISNULL, RPAR], hs))
      )
    case IsNull(_) => Some(([Col(col), ISNULL], []))
    case NotNull(_) => Some(([Col(col), NOTNULL], []))
    case Like(_, _) => None
  }

  // ---------------------------------------------------------------- meaning

  /** Comparison with a field: with the column, or for a lookup field with the hash, where text that is
      empty after normalising stands for NULL. */
  function FieldCmp(m: Model, db: Db, f: Field, op: SqlText.Cmp, v: Value, row: Row): Truth {
    if !f.lookup then CmpT(db, op, row(f.column), v)
    else
      match m.hash(v)
      case Some(None) => if op == EQ then Of(row(LookupColumn(f)).None?) else Of(row(LookupColumn(f)).Some?)
      case Some(Some(h)) => CmpT(db, op, row(LookupColumn(f)), Some(h))
      case None => Unknown
  }

  function FieldNull(f: Field, row: Row): Truth {
    Of(row(if f.lookup then LookupColumn(f) else f.column).None?)
  }

  /** The meaning of a condition on a row. An empty conjunction holds; so, in this builder, does an
      empty disjunction. */
  function Meaning(m: Model, db: Db, c: Cond, row: Row): Truth
    decreases c, 0
  {
    match c
    case All(cs) => AllOf(m, db, cs, row)
    case Any(cs) => if cs == [] then Yes else AnyOf(m, db, cs, row)
    case Neg(c1) => NotT(Meaning(m, db, c1, row))
    case _ =>
      if c.field !in m.fields then Unknown else LeafMeaning(m, db, m.fields[c.field], c, row)
  }

  function LeafMeaning(m: Model, db: Db, f: Field, c: Cond, row: Row): Truth
    requires Leaf(c)
  {
    match c
    case Cmp(_, op, v) => FieldCmp(m, db, f, op, v, row)
    case Like(_, v) => LikeT(db, row(f.column), v)
    case In(_, vs) => OneOf(m, db, f, vs, row)
    case IsNull(_) => FieldNull(f, row)
    case NotNull(_) => NotT(FieldNull(f, row))
  }

  function AllOf(m: Model, db: Db, cs: seq<Cond>, row: Row): Truth
    decreases cs, 1
  {
    if cs == [] then Yes else AndT(Meaning(m, db, cs[0], row), AllOf(m, db, cs[1..], row))
  }

  /** Logical disjunction; of nothing it is No. */
  function AnyOf(m: Model, db: Db, cs: seq<Cond>, row: Row): Truth
    decreases cs, 1
  {
    if cs == [] then No else OrT(Meaning(m, db, cs[0], row), AnyOf(m, db, cs[1..], row))
  }

  function OneOf(m: Model, db: Db, f: Field, vs: seq<Value>, row: Row): Truth {
    if vs == [] then No else OrT(FieldCmp(m, db, f, EQ, vs[0], row), OneOf(m, db, f, vs[1..], row))
  }

  // ---------------------------------------------------------------- statements

  const TENANT_EQ: seq<Word> := [Tenant, Op(EQ), HOLE]

  /** The WHERE condition of a query: the tenant first, then every condition; empty without either. */
  function Where(m: Model, tenant: Option<Val>, cs: seq<Cond>): Sql {
    if cs == [] then Some(if tenant.None? then ([], []) else (TENANT_EQ, [tenant]))
    else
      match Joined(m, cs, AND)
      case None => None
      case Some((ws, args)) =>
        if tenant.None? then Some((ws, args)) else Some((TENANT_EQ + [AND] + ws, [tenant] + args))
  }

  function WhereMeaning(m: Model, db: Db, tenant: Option<Val>, cs: seq<Cond>, row: Row): Truth {
    AndT(if tenant.None? then Yes else CmpT(db, EQ, row("tenant_id"), tenant), AllOf(m, db, cs, row))
  }

  datatype Assignment = Assignment(field: string, value: Value)

  /** What a SET list writes: per assignment its column, for a lookup field also the hash column. */
  function Assigned(m: Model, sets: seq<Assignment>): Option<seq<(string, Value)>> {
    if sets == [] then Some([])
    else
      match (AssignedOne(m, sets[0]), Assigned(m, sets[1..]))
      case (Some(a), Some(b)) => Some(a + b)
      case _ => None
  }

  function AssignedOne(m: Model, s: Assignment): Option<seq<(string, Value)>> {
    if s.field !in m.fields || m.fields[s.field].frozen then None
    else
      var f := m.fields[s.field];
      if !f.encrypted then Some([(f.column, s.value)])
      else
        match (m.encrypt(s.value), m.hash(s.value))
        case (None, _) => None
        case (Some(v), h) =>
          if !f.lookup then Some([(f.column, v)])
          else if h.None? then None
          else Some([(f.column, v), (LookupColumn(f), h.value)])
  }

  function AssignWords(ps: seq<(string, Value)>): seq<Word> {
    if ps == [] then []
    else if |ps| == 1 then [Col(ps[0].0), Op(EQ), HOLE]
    else [Col(ps[0].0), Op(EQ), HOLE, COMMA] + AssignWords(ps[1..])
  }

  function ValuesOf(ps: seq<(string, Value)>): seq<Value> {
    if ps == [] then [] else [ps[0].1] + ValuesOf(ps[1..])
  }

  /** The builder: conditions accumulate, Build and UpdateSet turn them into text and arguments. */
  class Query {
    const m: Model
    /** None for a TenantFree model. */
    const tenanted: bool
    const tenant: Option<Val>
    var conds: seq<Cond>

    constructor (m: Model, tenanted: bool, tenant: Option<Val>)
      ensures this.m == m && this.tenanted == tenanted && this.tenant == tenant && conds == []
    {
      this.m, this.tenanted, this.tenant, conds := m, tenanted, tenant, [];
    }

    method AddWhere(c: Cond)
      modifies this
      ensures conds == old(conds) + [c]
    {
      conds := conds + [c];
    }

    function Scope(): Option<Val> {
      if tenanted then tenant else None
    }

    method Build() returns (r: Sql)
      ensures r == if tenanted && tenant.None? then None else Where(m, Scope(), conds)
    {
      if tenanted && tenant.None? {
        return None;
      }
      var words: seq<Word>, args: seq<Value> := [], [];
      if tenanted {
        words, args := TENANT_EQ, [tenant];
      }
      var i := 0;
      while i < |conds|
        invariant 0 <= i <= |conds|
        invariant Where(m, Scope(), conds[..i]) == Some((words, args))
        invariant words == [] <==> !tenanted && i == 0
      {
        var part := CondSQL(m, conds[i]);
        assert conds[..i + 1] == conds[..i] + [conds[i]];
        WhereSnoc(m, Scope(), conds[..i], conds[i]);
        if part.None? {
          WhereFails(m, Scope(), conds, i);
          return None;
        }
        words := (if words == [] then [] else words + [AND]) + part.value.0;
        args := args + part.value.1;
        i := i + 1;
      }
      assert conds[..i] == conds;
      r := Some((words, args));
    }

    /** UpdateSet: the text behind UPDATE .. SET, and the arguments, assignments first. */
    method UpdateSet(sets: seq<Assignment>) returns (r: Sql)
      ensures r == if tenanted && tenant.None? then None else UpdateSQL(m, Scope(), conds, sets)
    {
      if sets == [] {
        return None;
      }
      var built := Build();
      if built.None? {
        return None;
      }
      var assigns: seq<(string, Value)> := [];
      var i := 0;
      while i < |sets|
        invariant 0 <= i <= |sets|
        invariant Assigned(m, sets[..i]) == Some(assigns)
      {
        var one := AssignedOne(m, sets[i]);
        assert sets[..i + 1] == sets[..i] + [sets[i]];
        AssignedSnoc(m, sets[..i], sets[i]);
        if one.None? {
          AssignedFails(m, sets, i);
          return None;
        }
        assigns := assigns + one.value;
        i := i + 1;
      }
      assert sets[..i] == sets;
      var (ws, args) := built.value;
      r := Some((AssignWords(assigns) + (if ws == [] then [] else [WHERE] + ws), ValuesOf(assigns) + args));
    }
  }

  function UpdateSQL(m: Model, tenant: Option<Val>, cs: seq<Cond>, sets: seq<Assignment>): Sql {
    if sets == [] then None
    else
      match (Where(m, tenant, cs), Assigned(m, sets))
      case (Some((ws, args)), Some(ps)) =>
        Some((AssignWords(ps) + (if ws == [] then [] else [WHERE] + ws), ValuesOf(ps) + args))
      case _ => None
  }

  lemma {:induction false} AssignedSnoc(m: Model, sets: seq<Assignment>, s: Assignment)
    requires Assigned(m, sets).Some?
    ensures Assigned(m, sets + [s])
         == match AssignedOne(m, s) case None => None case Some(a) => Some(Assigned(m, sets).value + a)
    decreases sets
  {
    if sets == [] {
      assert sets + [s] == [s] && [s][1..] == [];
      assert AssignedOne(m, s).Some? ==> AssignedOne(m, s).value + [] == [] + AssignedOne(m, s).value;
    } else {
      assert (sets + [s])[1..] == sets[1..] + [s];
      AssignedSnoc(m, sets[1..], s);
      if AssignedOne(m, s).Some? {
        var a, b, c := AssignedOne(m, sets[0]).value, Assigned(m, sets[1..]).value, AssignedOne(m, s).value;
        assert a + (b + c) == (a + b) + c;
      }
    }
  }

  lemma {:induction false} AssignedFails(m: Model, sets: seq<Assignment>, i: nat)
    requires i < |sets| && AssignedOne(m, sets[i]).None?
    ensures Assigned(m, sets).None?
    decreases sets
  {
    if i > 0 {
      AssignedFails(m, sets[1..], i - 1);
    }
  }

  lemma {:induction false} JoinedSnoc(m: Model, cs: seq<Cond>, c: Cond, join: Word)
    requires cs != [] && Joined(m, cs, join).Some?
    ensures Joined(m, cs + [c], join)
         == match CondSQL(m, c)
            case None => None
            case Some((ws, args)) =>
              Some((Joined(m, cs, join).value.0 + [join] + ws, Joined(m, cs, join).value.1 + args))
    decreases cs
  {
    hide CondSQL, Joined;
    assert (cs + [c])[1..] == cs[1..] + [c];
    JoinedFirst(m, cs, join);
    JoinedFirst(m, cs + [c], join);
    if |cs| > 1 {
      JoinedSnoc(m, cs[1..], c, join);
      if CondSQL(m, c).Some? {
        var (w0, a0) := CondSQL(m, cs[0]).value;
        var (w1, a1) := Joined(m, cs[1..], join).value;
        var (w2, a2) := CondSQL(m, c).value;
        assert w0 + [join] + (w1 + [join] + w2) == (w0 + [join] + w1) + [join] + w2;
        assert a0 + (a1 + a2) == (a0 + a1) + a2;
      }
    } else {
      assert (cs + [c])[1..] == [c];
      JoinedFirst(m, [c], join);
    }
  }

  lemma JoinedFirst(m: Model, cs: seq<Cond>, join: Word)
    requires cs != []
    ensures |cs| == 1 ==> Joined(m, cs, join) == CondSQL(m, cs[0])
    ensures |cs| > 1 ==>
              Joined(m, cs, join)
              == match (CondSQL(m, cs[0]), Joined(m, cs[1..], join))
                 case (Some((w, a)), Some((w', a'))) => Some((w + [join] + w', a + a'))
                 case _ => None
  {
    hide CondSQL;
  }

  lemma WhereSnoc(m: Model, tenant: Option<Val>, cs: seq<Cond>, c: Cond)
    requires Where(m, tenant, cs).Some?
    ensures Where(m, tenant, cs + [c])
         == match CondSQL(m, c)
            case None => None
            case Some((ws, args)) =>
              var w := Where(m, tenant, cs).value;
              Some(((if w.0 == [] && cs == [] then [] else w.0 + [AND]) + ws, w.1 + args))
  {
    if cs == [] {
      assert cs + [c] == [c] && [c][1..] == [];
      if CondSQL(m, c).Some? {
        var (ws, args) := CondSQL(m, c).value;
        var noWords: seq<Word>, noArgs: seq<Value> := [], [];
        assert noWords + ws == ws && noArgs + args == args;
      }
    } else {
      JoinedSnoc(m, cs, c, AND);
      if CondSQL(m, c).Some? {
        var (w1, a1) := Joined(m, cs, AND).value;
        var (w2, a2) := CondSQL(m, c).value;
        assert TENANT_EQ + [AND] + (w1 + [AND] + w2) == (TENANT_EQ + [AND] + w1) + [AND] + w2;
        assert [tenant] + (a1 + a2) == ([tenant] + a1) + a2;
      }
    }
  }

  lemma {:induction false} JoinedFails(m: Model, cs: seq<Cond>, i: nat)
    requires i < |cs| && CondSQL(m, cs[i]).None?
    ensures Joined(m, cs, AND).None?
    decreases cs
  {
    if i > 0 {
      JoinedFails(m, cs[1..], i - 1);
    }
  }

  lemma WhereFails(m: Model, tenant: Option<Val>, cs: seq<Cond>, i: nat)
    requires i < |cs| && CondSQL(m, cs[i]).None?
    ensures Where(m, tenant, cs).None?
  {
    JoinedFails(m, cs, i);
  }
}

/** Compiling keeps meaning: whatever tree, the text read back with its arguments in order evaluates
    to the meaning of the tree. */
module QueryProof {
  import opened Wrappers
  import opened SqlText
  import opened SqlReader
  import opened QueryBuilder

  // ---------------------------------------------------------------- numbering

  function HoleCount(ws: seq<Word>): nat {
    if ws == [] then 0 else (if ws[0].HOLE? then 1 else 0) + HoleCount(ws[1..])
  }

  lemma {:induction false} NumberedConcat(a: seq<Word>, b: seq<Word>, n: nat)
    ensures Numbered(a + b, n) == Numbered(a, n) + Numbered(b, n + HoleCount(a))
    ensures HoleCount(a + b) == HoleCount(a) + HoleCount(b)
  {
    hide Numbered, HoleCount;
    if a == [] {
      assert a + b == b;
      NumberedNothing(n);
    } else {
      assert (a + b)[0] == a[0] && (a + b)[1..] == a[1..] + b;
      var w, n' := if a[0].HOLE? then Arg(n) else a[0], if a[0].HOLE? then n + 1 else n;
      NumberedConcat(a[1..], b, n');
      NumberedHead(a, n);
      NumberedHead(a + b, n);
      Associate([w], Numbered(a[1..], n'), Numbered(b, n' + HoleCount(a[1..])));
    }
  }

  lemma NumberedNothing(n: nat)
    ensures Numbered([], n) == [] && HoleCount([]) == 0
  {
  }

  lemma NumberedHead(ws: seq<Word>, n: nat)
    requires ws != []
    ensures Numbered(ws, n) == (if ws[0].HOLE? then [Arg(n)] else [ws[0]])
                               + Numbered(ws[1..], if ws[0].HOLE? then n + 1 else n)
    ensures HoleCount(ws) == (if ws[0].HOLE? then 1 else 0) + HoleCount(ws[1..])
  {
  }

  lemma Associate(a: seq<Word>, b: seq<Word>, c: seq<Word>)
    ensures a + (b + c) == a + b + c
  {
  }

  lemma NumberedOne(w: Word, n: nat)
    ensures Numbered([w], n) == [if w.HOLE? then Arg(n) else w]
    ensures HoleCount([w]) == if w.HOLE? then 1 else 0
  {
    assert [w][1..] == [];
  }

  lemma {:induction false} NumberedFixed(ws: seq<Word>, n: nat)
    requires HOLE !in ws
    ensures Numbered(ws, n) == ws && HoleCount(ws) == 0
    decreases ws
  {
    if ws != [] {
      assert ws[0] in ws && ws == [ws[0]] + ws[1..];
      NumberedFixed(ws[1..], n);
    }
  }

  /** n, n+1, .., the argument numbers of a list of k holes. */
  function Upto(n: nat, k: nat): seq<nat>
    decreases k
  {
    if k == 0 then [] else [n] + Upto(n + 1, k - 1)
  }

  lemma {:induction false} HolesRead(k: nat, n: nat, rest: seq<Word>)
    requires k > 0
    ensures HoleCount(Holes(k)) == k
    ensures ParseArgs(Numbered(Holes(k), n) + [RPAR] + rest) == Some((Upto(n, k), rest))
  {
    hide Numbered, HoleCount;
    if k == 1 {
      NumberedOne(HOLE, n);
      var ws := [Arg(n)] + [RPAR] + rest;
      assert ws[2..] == rest;
      assert Upto(n, 1) == [n];
    } else {
      var h := [HOLE, COMMA];
      NumberedConcat(h, Holes(k - 1), n);
      HoleComma(n);
      HolesRead(k - 1, n + 1, rest);
      var tail := Numbered(Holes(k - 1), n + 1) + [RPAR] + rest;
      var ws := Numbered(Holes(k), n) + [RPAR] + rest;
      assert ws == [Arg(n), COMMA] + tail;
      assert ws[2..] == tail;
    }
  }

  lemma HoleComma(n: nat)
    ensures Numbered([HOLE, COMMA], n) == [Arg(n), COMMA] && HoleCount([HOLE, COMMA]) == 1
  {
    hide Numbered, HoleCount;
    NumberedConcat([HOLE], [COMMA], n);
    NumberedOne(HOLE, n);
    NumberedOne(COMMA, n + 1);
    assert [HOLE, COMMA] == [HOLE] + [COMMA];
  }

  /** args sits in all as the stretch that starts at argument number n. */
  ghost predicate Holds(all: seq<Value>, n: nat, args: seq<Value>) {
    n >= 1 && n - 1 + |args| <= |all| && all[n - 1..n - 1 + |args|] == args
  }

  lemma HoldsParts(all: seq<Value>, n: nat, a: seq<Value>, b: seq<Value>)
    requires Holds(all, n, a + b)
    ensures Holds(all, n, a) && Holds(all, n + |a|, b)
  {
    var m := n - 1;
    assert all[m..m + |a|] == all[m..m + |a + b|][..|a|];
    assert all[m + |a|..m + |a + b|] == all[m..m + |a + b|][|a|..];
  }

  lemma HoldsOne(all: seq<Value>, n: nat, v: Value)
    requires Holds(all, n, [v])
    ensures ArgAt(all, n) == v
  {
    assert all[n - 1] == all[n - 1..n][0];
  }

  lemma {:induction false} HoldsUpto(all: seq<Value>, n: nat, vs: seq<Value>)
    requires Holds(all, n, vs)
    ensures ArgsAt(all, Upto(n, |vs|)) == vs
    decreases vs
  {
    if vs != [] {
      assert vs == [vs[0]] + vs[1..];
      HoldsParts(all, n, [vs[0]], vs[1..]);
      HoldsOne(all, n, vs[0]);
      HoldsUpto(all, n + 1, vs[1..]);
      assert Upto(n, |vs|)[1..] == Upto(n + 1, |vs| - 1);
    }
  }

  // ---------------------------------------------------------------- one phrase

  /** The phrase reads as e, whatever follows, and e means the same as c on every row. */
  ghost predicate Reads(m: Model, db: Db, c: Cond, ws: seq<Word>, n: nat, all: seq<Value>, rest: seq<Word>, e: Expr) {
    && ParseNot(Numbered(ws, n) + rest) == Some((e, rest))
    && forall row: Row :: Eval(db, e, row, all) == Meaning(m, db, c, row)
  }

  lemma PlainReads(m: Model, db: Db, c: Cond, n: nat, all: seq<Value>, rest: seq<Word>) returns (e: Expr)
    requires Leaf(c) && c.field in m.fields && !m.fields[c.field].lookup
    requires Holds(all, n, PlainCondSQL(m.fields[c.field], c).value.1)
    ensures Reads(m, db, c, PlainCondSQL(m.fields[c.field], c).value.0, n, all, rest, e)
    ensures HoleCount(PlainCondSQL(m.fields[c.field], c).value.0) == |PlainCondSQL(m.fields[c.field], c).value.1|
  {
    var col := m.fields[c.field].column;
    match c
    case Cmp(_, op, v) =>
      TestReads(col, Op(op), n, rest);
      HoldsOne(all, n, v);
      e := Compare(col, op, n);
    case Like(_, v) =>
      TestReads(col, LIKE, n, rest);
      HoldsOne(all, n, v);
      e := LikeArg(col, n);
    case In(_, vs) =>
      if vs == [] {
        FalseReads(n, rest);
        e := Const(false);
      } else {
        InReads(col, |vs|, n, rest);
        HoldsUpto(all, n, vs);
        e := InArgs(col, Upto(n, |vs|));
        forall row: Row ensures InT(db, row(col), vs) == OneOf(m, db, m.fields[c.field], vs, row) {
          PlainOneOf(m, db, m.fields[c.field], vs, row);
        }
      }
    case IsNull(_) =>
      NullReads(col, ISNULL, n, rest);
      e := Null(col);
    case NotNull(_) =>
      NullReads(col, NOTNULL, n, rest);
      e := SqlReader.Not(Null(col));
  }

  /** `"col" op ?` and `"col" LIKE ?`. */
  lemma TestReads(col: string, w: Word, n: nat, rest: seq<Word>)
    requires w.Op? || w.LIKE?
    ensures HoleCount([Col(col), w, HOLE]) == 1
    ensures ParseNot(Numbered([Col(col), w, HOLE], n) + rest)
         == Some((if w.Op? then Compare(col, w.op, n) else LikeArg(col, n), rest))
  {
    var ws := [Col(col), w, HOLE];
    assert ws == [Col(col), w] + [HOLE];
    NumberedFixed([Col(col), w], n);
    NumberedOne(HOLE, n);
    NumberedConcat([Col(col), w], [HOLE], n);
    assert Numbered(ws, n) == [Col(col), w, Arg(n)];
    var t := [Col(col), w, Arg(n)] + rest;
    assert t[1..] == [w, Arg(n)] + rest && t[1..][2..] == rest;
  }

  /** `"col" IS NULL` and `"col" IS NOT NULL`. */
  lemma NullReads(col: string, w: Word, n: nat, rest: seq<Word>)
    requires w.ISNULL? || w.NOTNULL?
    ensures HoleCount([Col(col), w]) == 0
    ensures ParseNot(Numbered([Col(col), w], n) + rest)
         == Some((if w.ISNULL? then Null(col) else SqlReader.Not(Null(col)), rest))
  {
    var ws := [Col(col), w];
    NumberedFixed(ws, n);
    var t := ws + rest;
    assert t[1..] == [w] + rest && t[1..][1..] == rest;
  }

  /** `"col" IN (?, .., ?)`. */
  lemma InReads(col: string, k: nat, n: nat, rest: seq<Word>)
    requires k > 0
    ensures HoleCount(InWords(col, k)) == k
    ensures ParseNot(Numbered(InWords(col, k), n) + rest) == Some((InArgs(col, Upto(n, k)), rest))
  {
    hide Numbered, HoleCount, Holes, ParseArgs, Upto;
    HolesRead(k, n, rest);
    var head := [Col(col), IN, LPAR];
    NumberedFixed(head, n);
    NumberedConcat(head, Holes(k), n);
    NumberedConcat(head + Holes(k), [RPAR], n);
    NumberedOne(RPAR, n + k);
    var t := Numbered(InWords(col, k), n) + rest;
    var tail := Numbered(Holes(k), n) + [RPAR] + rest;
    assert t == head + tail;
    assert t[1..] == [IN, LPAR] + tail && t[1..][2..] == tail;
  }

  lemma FalseReads(n: nat, rest: seq<Word>)
    ensures HoleCount([FALSE]) == 0
    ensures ParseNot(Numbered([FALSE], n) + rest) == Some((Const(false), rest))
  {
    NumberedOne(FALSE, n);
    assert ([FALSE] + rest)[1..] == rest;
  }

  lemma {:induction false} PlainOneOf(m: Model, db: Db, f: Field, vs: seq<Value>, row: Row)
    requires !f.lookup
    ensures OneOf(m, db, f, vs, row) == InT(db, row(f.column), vs)
    decreases vs
  {
    if vs != [] {
      PlainOneOf(m, db, f, vs[1..], row);
    }
  }

  /** Splitting the NULLs off a list of hashes does not change which rows match. */
  lemma {:induction false} LookupOneOf(m: Model, db: Db, f: Field, vs: seq<Value>, row: Row)
    requires f.lookup && Hashed(m, vs).Some?
    ensures var lk, h := row(LookupColumn(f)), Hashed(m, vs).value;
      OneOf(m, db, f, vs, row) == OrT(InT(db, lk, h.0), if h.1 then Of(lk.None?) else No)
    decreases vs
  {
    if vs != [] {
      LookupOneOf(m, db, f, vs[1..], row);
      var hs := Hashed(m, vs[1..]).value.0;
      assert m.hash(vs[0]).value.Some? ==> ([m.hash(vs[0]).value] + hs)[1..] == hs;
    }
  }

  lemma {:induction false} HashedCount(m: Model, vs: seq<Value>)
    requires Hashed(m, vs).Some? && vs != []
    ensures Hashed(m, vs).value.1 || Hashed(m, vs).value.0 != []
  {
  }

  lemma LookupReads(m: Model, db: Db, c: Cond, n: nat, all: seq<Value>, rest: seq<Word>) returns (e: Expr)
    requires Leaf(c) && c.field in m.fields && m.fields[c.field].lookup
    requires var s := LookupCondSQL(m, m.fields[c.field], c); s.Some? && Holds(all, n, s.value.1)
    ensures var s := LookupCondSQL(m, m.fields[c.field], c).value;
      Reads(m, db, c, s.0, n, all, rest, e) && HoleCount(s.0) == |s.1|
  {
    var f := m.fields[c.field];
    var col := LookupColumn(f);
    match c
    case Cmp(_, op, v) =>
      var h := m.hash(v).value;
      if h.None? {
        NullReads(col, if op == EQ then ISNULL else NOTNULL, n, rest);
        e := if op == EQ then Null(col) else SqlReader.Not(Null(col));
      } else {
        TestReads(col, Op(op), n, rest);
        HoldsOne(all, n, h);
        e := Compare(col, op, n);
      }
    case In(_, vs) =>
      if vs == [] {
        FalseReads(n, rest);
        e := Const(false);
      } else {
        e := LookupInReads(m, db, f, vs, n, all, rest);
      }
    case IsNull(_) =>
      NullReads(col, ISNULL, n, rest);
      e := Null(col);
    case NotNull(_) =>
      NullReads(col, NOTNULL, n, rest);
      e := SqlReader.Not(Null(col));
  }

  lemma LookupInReads(m: Model, db: Db, f: Field, vs: seq<Value>, n: nat, all: seq<Value>, rest: seq<Word>)
    returns (e: Expr)
    requires f.lookup && vs != [] && Hashed(m, vs).Some?
    requires Holds(all, n, Hashed(m, vs).value.0)
    ensures var s := LookupCondSQL(m, f, In("", vs)).value;
      && ParseNot(Numbered(s.0, n) + rest) == Some((e, rest))
      && (forall row: Row :: Eval(db, e, row, all) == OneOf(m, db, f, vs, row))
      && HoleCount(s.0) == |s.1|
  {
    var (hs, hasNull) := Hashed(m, vs).value;
    var col := LookupColumn(f);
    HashedCount(m, vs);
    HoldsUpto(all, n, hs);
    var ins := InArgs(col, Upto(n, |hs|));
    if hs == [] {
      NullReads(col, ISNULL, n, rest);
      e := Null(col);
    } else if !hasNull {
      InReads(col, |hs|, n, rest);
      e := ins;
    } else {
      InOrNullReads(col, |hs|, n, rest);
      e := SqlReader.Or(ins, Null(col));
    }
    forall row: Row ensures Eval(db, e, row, all) == OneOf(m, db, f, vs, row) {
      LookupOneOf(m, db, f, vs, row);
    }
  }

  /** `("col" IN (?, .., ?) OR "col" IS NULL)`. */
  lemma InOrNullReads(col: string, k: nat, n: nat, rest: seq<Word>)
    requires k > 0
    ensures var ws := [LPAR] + InWords(col, k) + [OR, Col(col), ISNULL, RPAR];
      && HoleCount(ws) == k
      && ParseNot(Numbered(ws, n) + rest) == Some((SqlReader.Or(InArgs(col, Upto(n, k)), Null(col)), rest))
  {
    hide ParseNot, ParseOr, ParseAnd, Numbered, HoleCount, InWords, Upto;
    var ins, nul := InWords(col, k), [Col(col), ISNULL];
    var ws := [LPAR] + ins + [OR, Col(col), ISNULL, RPAR];
    assert ws == [LPAR] + (ins + [OR] + nul) + [RPAR];
    NullReads(col, ISNULL, n + k, [RPAR] + rest);
    PhraseAlone(Numbered(nul, n + k) + ([RPAR] + rest), Null(col), [RPAR] + rest);
    var tail := Numbered(nul, n + k) + ([RPAR] + rest);
    InReads(col, k, n, [OR] + tail);
    JoinedWords(ins, OR, nul, n, [RPAR] + rest);
    var e := SqlReader.Or(InArgs(col, Upto(n, k)), Null(col));
    JoinStep(Numbered(ins, n), OR, tail, InArgs(col, Upto(n, k)), Null(col), [RPAR] + rest);
    WrappedReads(ins + [OR] + nul, n, e, rest);
  }

  // ---------------------------------------------------------------- whole trees

  /** The text of any condition is one phrase that reads as the condition means. */
  lemma {:induction false} CondReads(m: Model, db: Db, c: Cond, n: nat, all: seq<Value>, rest: seq<Word>)
    returns (e: Expr)
    requires CondSQL(m, c).Some? && Holds(all, n, CondSQL(m, c).value.1)
    ensures Reads(m, db, c, CondSQL(m, c).value.0, n, all, rest, e)
    ensures HoleCount(CondSQL(m, c).value.0) == |CondSQL(m, c).value.1|
    decreases c, 0
  {
    match c
    case All(cs) =>
      if cs == [] {
        TrueReads(n, rest);
        e := Const(true);
      } else {
        var (ws, args) := Joined(m, cs, AND).value;
        e := JoinedReads(m, db, cs, AND, n, all, [RPAR] + rest);
        WrappedReads(ws, n, e, rest);
      }
    case Any(cs) =>
      if cs == [] {
        TrueReads(n, rest);
        e := Const(true);
      } else {
        var (ws, args) := Joined(m, cs, OR).value;
        e := JoinedReads(m, db, cs, OR, n, all, [RPAR] + rest);
        WrappedReads(ws, n, e, rest);
      }
    case Neg(c1) =>
      var (ws, args) := CondSQL(m, c1).value;
      var e1 := CondReads(m, db, c1, n, all, [RPAR] + rest);
      NegReads(ws, n, e1, rest);
      e := SqlReader.Not(e1);
    case _ =>
      if m.fields[c.field].lookup {
        e := LookupReads(m, db, c, n, all, rest);
      } else {
        e := PlainReads(m, db, c, n, all, rest);
      }
  }

  lemma TrueReads(n: nat, rest: seq<Word>)
    ensures HoleCount([TRUE]) == 0
    ensures ParseNot(Numbered([TRUE], n) + rest) == Some((Const(true), rest))
  {
    NumberedOne(TRUE, n);
    assert ([TRUE] + rest)[1..] == rest;
  }

  lemma WrappedReads(ws: seq<Word>, n: nat, e: Expr, rest: seq<Word>)
    requires ParseOr(Numbered(ws, n) + ([RPAR] + rest)) == Some((e, [RPAR] + rest))
    ensures HoleCount([LPAR] + ws + [RPAR]) == HoleCount(ws)
    ensures ParseNot(Numbered([LPAR] + ws + [RPAR], n) + rest) == Some((e, rest))
  {
    hide Numbered, HoleCount, ParseOr;
    NumberedOne(LPAR, n);
    NumberedConcat([LPAR], ws, n);
    NumberedConcat([LPAR] + ws, [RPAR], n);
    NumberedOne(RPAR, n + HoleCount(ws));
    var body := Numbered(ws, n) + ([RPAR] + rest);
    assert Numbered([LPAR] + ws + [RPAR], n) + rest == [LPAR] + body;
    assert ([LPAR] + body)[1..] == body && ([RPAR] + rest)[1..] == rest;
  }

  lemma NegReads(ws: seq<Word>, n: nat, e: Expr, rest: seq<Word>)
    requires ParseNot(Numbered(ws, n) + ([RPAR] + rest)) == Some((e, [RPAR] + rest))
    ensures HoleCount([NOT, LPAR] + ws + [RPAR]) == HoleCount(ws)
    ensures ParseNot(Numbered([NOT, LPAR] + ws + [RPAR], n) + rest) == Some((SqlReader.Not(e), rest))
  {
    hide Numbered, HoleCount, ParseNot, ParseOr;
    PhraseAlone(Numbered(ws, n) + ([RPAR] + rest), e, [RPAR] + rest);
    WrappedReads(ws, n, e, rest);
    var w := [LPAR] + ws + [RPAR];
    assert [NOT, LPAR] + ws + [RPAR] == [NOT] + w;
    NumberedOne(NOT, n);
    NumberedConcat([NOT], w, n);
    var t := Numbered(w, n) + rest;
    assert Numbered([NOT] + w, n) + rest == [NOT] + t;
    NotReads(t, e, rest);
  }

  lemma NotReads(t: seq<Word>, e: Expr, rest: seq<Word>)
    requires ParseNot(t) == Some((e, rest))
    ensures ParseNot([NOT] + t) == Some((SqlReader.Not(e), rest))
  {
    assert ([NOT] + t)[1..] == t;
  }

  lemma MeaningOfOne(m: Model, db: Db, cs: seq<Cond>, row: Row)
    requires |cs| == 1
    ensures AllOf(m, db, cs, row) == Meaning(m, db, cs[0], row) == AnyOf(m, db, cs, row)
  {
    hide Meaning;
    assert cs[1..] == [];
  }

  lemma MeaningOfMore(m: Model, db: Db, cs: seq<Cond>, row: Row, e0: Expr, e': Expr, all: seq<Value>)
    requires cs != [] && Eval(db, e0, row, all) == Meaning(m, db, cs[0], row)
    ensures Eval(db, e', row, all) == AllOf(m, db, cs[1..], row) ==>
              Eval(db, SqlReader.And(e0, e'), row, all) == AllOf(m, db, cs, row)
    ensures Eval(db, e', row, all) == AnyOf(m, db, cs[1..], row) ==>
              Eval(db, SqlReader.Or(e0, e'), row, all) == AnyOf(m, db, cs, row)
  {
    hide Meaning;
  }

  /** A joined list reads at the level of its joining word, if no tighter or equal word follows. */
  lemma {:induction false} JoinedReads(m: Model, db: Db, cs: seq<Cond>, join: Word, n: nat, all: seq<Value>,
                                       rest: seq<Word>)
    returns (e: Expr)
    requires cs != [] && (join.AND? || join.OR?)
    requires Joined(m, cs, join).Some? && Holds(all, n, Joined(m, cs, join).value.1)
    requires rest == [] || (!rest[0].AND? && !rest[0].OR?)
    ensures var ws := Joined(m, cs, join).value.0;
      && ParseOr(Numbered(ws, n) + rest) == Some((e, rest))
      && (join.AND? ==> ParseAnd(Numbered(ws, n) + rest) == Some((e, rest)))
      && HoleCount(ws) == |Joined(m, cs, join).value.1|
    ensures forall row: Row :: Eval(db, e, row, all)
              == if join.AND? then AllOf(m, db, cs, row) else AnyOf(m, db, cs, row)
    decreases cs, 1
  {
    hide ParseOr, ParseAnd, ParseNot, CondSQL, Numbered, HoleCount, Meaning, Holds, Eval, AllOf, AnyOf;
    assert cs[0] in cs;
    var (ws, args) := CondSQL(m, cs[0]).value;
    if |cs| == 1 {
      e := CondReads(m, db, cs[0], n, all, rest);
      PhraseAlone(Numbered(ws, n) + rest, e, rest);
      forall row: Row ensures AllOf(m, db, cs, row) == Meaning(m, db, cs[0], row) == AnyOf(m, db, cs, row) {
        MeaningOfOne(m, db, cs, row);
      }
    } else {
      var (ws', args') := Joined(m, cs[1..], join).value;
      HoldsParts(all, n, args, args');
      var e' := JoinedReads(m, db, cs[1..], join, n + |args|, all, rest);
      var tail := Numbered(ws', n + |args|) + rest;
      var e0 := CondReads(m, db, cs[0], n, all, [join] + tail);
      JoinedWords(ws, join, ws', n, rest);
      JoinStep(Numbered(ws, n), join, tail, e0, e', rest);
      e := if join.AND? then SqlReader.And(e0, e') else SqlReader.Or(e0, e');
      forall row: Row
        ensures Eval(db, e, row, all) == if join.AND? then AllOf(m, db, cs, row) else AnyOf(m, db, cs, row) {
        MeaningOfMore(m, db, cs, row, e0, e', all);
      }
    }
  }

  lemma JoinedWords(ws: seq<Word>, join: Word, ws': seq<Word>, n: nat, rest: seq<Word>)
    requires join.AND? || join.OR?
    ensures Numbered(ws + [join] + ws', n) + rest
         == Numbered(ws, n) + ([join] + (Numbered(ws', n + HoleCount(ws)) + rest))
    ensures HoleCount(ws + [join] + ws') == HoleCount(ws) + HoleCount(ws')
  {
    hide Numbered, HoleCount;
    NumberedConcat(ws, [join], n);
    NumberedOne(join, n + HoleCount(ws));
    NumberedConcat(ws + [join], ws', n);
    Regroup(Numbered(ws, n), [join], Numbered(ws', n + HoleCount(ws)), rest);
  }

  lemma Regroup(a: seq<Word>, b: seq<Word>, c: seq<Word>, d: seq<Word>)
    ensures a + b + c + d == a + (b + (c + d))
  {
  }

  lemma PhraseAlone(xs: seq<Word>, e: Expr, rest: seq<Word>)
    requires ParseNot(xs) == Some((e, rest)) && (rest == [] || (!rest[0].AND? && !rest[0].OR?))
    ensures ParseAnd(xs) == Some((e, rest)) && ParseOr(xs) == Some((e, rest))
  {
    hide ParseNot;
  }

  lemma JoinStep(xs: seq<Word>, join: Word, tail: seq<Word>, e0: Expr, e': Expr, rest: seq<Word>)
    requires join.AND? || join.OR?
    requires rest == [] || (!rest[0].AND? && !rest[0].OR?)
    requires ParseNot(xs + ([join] + tail)) == Some((e0, [join] + tail))
    requires ParseOr(tail) == Some((e', rest))
    requires join.AND? ==> ParseAnd(tail) == Some((e', rest))
    ensures var e := if join.AND? then SqlReader.And(e0, e') else SqlReader.Or(e0, e');
      && ParseOr(xs + ([join] + tail)) == Some((e, rest))
      && (join.AND? ==> ParseAnd(xs + ([join] + tail)) == Some((e, rest)))
  {
    assert ([join] + tail)[1..] == tail;
    hide ParseNot;
  }

  // ---------------------------------------------------------------- WHERE and UPDATE

  /** The whole WHERE condition, its arguments anywhere in the statement's argument list. */
  lemma WhereReads(m: Model, db: Db, tenant: Option<Val>, cs: seq<Cond>, n: nat, all: seq<Value>) returns (e: Expr)
    requires Where(m, tenant, cs).Some? && Where(m, tenant, cs).value.0 != []
    requires Holds(all, n, Where(m, tenant, cs).value.1)
    ensures ReadCondition(Numbered(Where(m, tenant, cs).value.0, n)) == Some(e)
    ensures forall row: Row :: Eval(db, e, row, all) == WhereMeaning(m, db, tenant, cs, row)
    ensures HoleCount(Where(m, tenant, cs).value.0) == |Where(m, tenant, cs).value.1|
  {
    hide Numbered, HoleCount, ParseNot, ParseOr, ParseAnd, Holds;
    var (ws, args) := Where(m, tenant, cs).value;
    var none: seq<Word> := [];
    var own := Compare("tenant_id", EQ, n);
    if cs == [] {
      TenantReads(n, none);
      HoldsOne(all, n, tenant);
      PhraseAlone(Numbered(TENANT_EQ, n) + none, own, none);
      assert Numbered(TENANT_EQ, n) + none == Numbered(TENANT_EQ, n);
      e := own;
    } else if tenant.None? {
      e := JoinedReads(m, db, cs, AND, n, all, none);
      assert Numbered(ws, n) + none == Numbered(ws, n);
    } else {
      var (js, jargs) := Joined(m, cs, AND).value;
      HoldsParts(all, n, [tenant], jargs);
      HoldsOne(all, n, tenant);
      var e' := JoinedReads(m, db, cs, AND, n + 1, all, none);
      var tail := Numbered(js, n + 1) + none;
      TenantReads(n, [AND] + tail);
      JoinedWords(TENANT_EQ, AND, js, n, none);
      JoinStep(Numbered(TENANT_EQ, n), AND, tail, own, e', none);
      assert Numbered(ws, n) + none == Numbered(ws, n);
      e := SqlReader.And(own, e');
    }
  }

  lemma TenantReads(n: nat, rest: seq<Word>)
    ensures HoleCount(TENANT_EQ) == 1
    ensures ParseNot(Numbered(TENANT_EQ, n) + rest) == Some((Compare("tenant_id", EQ, n), rest))
  {
    assert TENANT_EQ == [Tenant, Op(EQ)] + [HOLE];
    NumberedFixed([Tenant, Op(EQ)], n);
    NumberedOne(HOLE, n);
    NumberedConcat([Tenant, Op(EQ)], [HOLE], n);
    var t := [Tenant, Op(EQ), Arg(n)] + rest;
    assert Numbered(TENANT_EQ, n) + rest == t;
    assert t[1..] == [Op(EQ), Arg(n)] + rest && t[1..][2..] == rest;
  }

  /** Query compilation keeps meaning: the text, with ? or rebound to $1, $2, .., evaluates on every row to
      tenant AND c1 AND .. AND cn, arguments bound in order. */
  lemma QueryKeepsMeaning(m: Model, db: Db, tenant: Option<Val>, cs: seq<Cond>) returns (e: Expr)
    requires Where(m, tenant, cs).Some? && Where(m, tenant, cs).value.0 != [] && PlainModel(m)
    ensures var (ws, args) := Where(m, tenant, cs).value;
      && HoleCount(ws) == |args|
      && ReadCondition(Numbered(ws, 1)) == Some(e)
      && ReadText(Rebound(Render(ws), 0, false)) == Some(e)
      && forall row: Row :: Eval(db, e, row, args) == WhereMeaning(m, db, tenant, cs, row)
  {
    var (ws, args) := Where(m, tenant, cs).value;
    assert args[0..|args|] == args;
    e := WhereReads(m, db, tenant, cs, 1, args);
    WhereWords(m, tenant, cs);
    hide Where, Numbered, Render, Rebound, ReadCondition, Eval, WhereMeaning;
    RebindReads(ws);
  }

  lemma RebindReads(ws: seq<Word>)
    requires Tidy(ws)
    ensures Lex(Rebound(Render(ws), 0, false)) == Some(Numbered(ws, 1))
  {
    hide Render, Rebound, Numbered, Lex, Closed, PlainWords;
    RebindNumbers(ws, 0);
    NumberedWords(ws, 1);
    LexRender(Numbered(ws, 1));
  }

  // ---------------------------------------------------------------- the words are well separated

  predicate PlainModel(m: Model) {
    forall k <- m.fields :: Plain(m.fields[k].column)
  }

  /** After a hole comes a closing word or nothing. */
  predicate Closed(ws: seq<Word>) {
    forall i | 0 <= i < |ws| - 1 && ws[i].HOLE? ::
      ws[i + 1].RPAR? || ws[i + 1].COMMA? || ws[i + 1].AND? || ws[i + 1].OR? || ws[i + 1].WHERE?
  }

  predicate Tidy(ws: seq<Word>) {
    Closed(ws) && PlainWords(ws) && forall w <- ws :: !w.Arg?
  }

  lemma TidyConcat(a: seq<Word>, w: Word, b: seq<Word>)
    requires Tidy(a) && Tidy(b) && (w.RPAR? || w.COMMA? || w.AND? || w.OR? || w.WHERE?)
    ensures Tidy(a + [w] + b)
  {
    var ws := a + [w] + b;
    forall i | 0 <= i < |ws| - 1 && ws[i].HOLE?
      ensures ws[i + 1].RPAR? || ws[i + 1].COMMA? || ws[i + 1].AND? || ws[i + 1].OR? || ws[i + 1].WHERE? {
      if i > |a| {
        assert ws[i] == b[i - |a| - 1] && ws[i + 1] == b[i - |a|];
      }
    }
  }

  lemma TidyPrefix(p: seq<Word>, a: seq<Word>)
    requires Tidy(a) && PlainWords(p) && forall w <- p :: !w.HOLE? && !w.Arg?
    ensures Tidy(p + a)
  {
    var ws := p + a;
    assert forall j | 0 <= j < |p| :: p[j] in p && ws[j] == p[j];
    forall i | 0 <= i < |ws| - 1 && ws[i].HOLE?
      ensures ws[i + 1].RPAR? || ws[i + 1].COMMA? || ws[i + 1].AND? || ws[i + 1].OR? || ws[i + 1].WHERE? {
      assert i >= |p|;
      assert ws[i] == a[i - |p|] && ws[i + 1] == a[i + 1 - |p|];
    }
  }

  lemma {:induction false} NumberedWords(ws: seq<Word>, n: nat)
    requires Tidy(ws)
    ensures PlainWords(Numbered(ws, n)) && ArgsApart(Numbered(ws, n))
    ensures |Numbered(ws, n)| == |ws|
    ensures forall i | 0 <= i < |ws| :: if ws[i].HOLE? then Numbered(ws, n)[i].Arg? else Numbered(ws, n)[i] == ws[i]
    decreases ws
  {
    NumberedAt(ws, n);
    var u := Numbered(ws, n);
    forall w | w in u ensures w.Col? ==> Plain(w.name) {
      var i :| 0 <= i < |u| && u[i] == w;
      assert ws[i] in ws;
    }
    forall i | 0 <= i < |u| - 1 && u[i].Arg? ensures !u[i + 1].TRUE? && !u[i + 1].FALSE? {
      assert ws[i] in ws && ws[i].HOLE?;
    }
  }

  lemma {:induction false} NumberedAt(ws: seq<Word>, n: nat)
    ensures |Numbered(ws, n)| == |ws|
    ensures forall i | 0 <= i < |ws| :: if ws[i].HOLE? then Numbered(ws, n)[i].Arg? else Numbered(ws, n)[i] == ws[i]
    decreases ws
  {
    if ws != [] {
      var n' := if ws[0].HOLE? then n + 1 else n;
      NumberedAt(ws[1..], n');
      forall i | 0 < i < |ws|
        ensures if ws[i].HOLE? then Numbered(ws, n)[i].Arg? else Numbered(ws, n)[i] == ws[i] {
        assert ws[i] == ws[1..][i - 1] && Numbered(ws, n)[i] == Numbered(ws[1..], n')[i - 1];
      }
    }
  }

  lemma {:induction false} HolesTidy(k: nat)
    requires k > 0
    ensures Tidy(Holes(k))
  {
    if k > 1 {
      HolesTidy(k - 1);
      TidyConcat([HOLE], COMMA, Holes(k - 1));
      assert Holes(k) == [HOLE] + [COMMA] + Holes(k - 1);
    }
  }

  lemma InTidy(col: string, k: nat)
    requires k > 0 && Plain(col)
    ensures Tidy(InWords(col, k))
  {
    HolesTidy(k);
    TidyPrefix([Col(col), IN, LPAR], Holes(k));
    TidyConcat([Col(col), IN, LPAR] + Holes(k), RPAR, []);
    assert InWords(col, k) == [Col(col), IN, LPAR] + Holes(k) + [RPAR] + [];
  }

  lemma LookupIsPlain(f: Field)
    requires Plain(f.column)
    ensures Plain(LookupColumn(f))
  {
  }

  lemma LeafTidy(m: Model, f: Field, c: Cond)
    requires Leaf(c) && Plain(f.column)
    ensures Tidy(PlainCondSQL(f, c).value.0)
    ensures LookupCondSQL(m, f, c).Some? ==> Tidy(LookupCondSQL(m, f, c).value.0)
  {
    LookupIsPlain(f);
    var col := LookupColumn(f);
    hide Plain, LookupColumn, Hashed, InWords;
    if c.In? && c.values != [] {
      InTidy(f.column, |c.values|);
      if Hashed(m, c.values).Some? && Hashed(m, c.values).value.0 != [] {
        var k := |Hashed(m, c.values).value.0|;
        InTidy(col, k);
        InOrNullTidy(col, k);
      }
    }
  }

  lemma InOrNullTidy(col: string, k: nat)
    requires k > 0 && Plain(col)
    ensures Tidy([LPAR] + InWords(col, k) + [OR, Col(col), ISNULL, RPAR])
  {
    InTidy(col, k);
    TidyPrefix([LPAR], InWords(col, k));
    TidyConcat([LPAR] + InWords(col, k), OR, [Col(col), ISNULL, RPAR]);
    assert [LPAR] + InWords(col, k) + [OR, Col(col), ISNULL, RPAR]
        == [LPAR] + InWords(col, k) + [OR] + [Col(col), ISNULL, RPAR];
  }

  lemma WrappedTidy(p: seq<Word>, ws: seq<Word>)
    requires Tidy(ws) && (p == [LPAR] || p == [NOT, LPAR])
    ensures Tidy(p + ws + [RPAR])
  {
    TidyPrefix(p, ws);
    TidyConcat(p + ws, RPAR, []);
    assert p + ws + [RPAR] == p + ws + [RPAR] + [];
  }

  lemma {:induction false} CondTidy(m: Model, c: Cond)
    requires PlainModel(m) && CondSQL(m, c).Some?
    ensures Tidy(CondSQL(m, c).value.0)
    decreases c, 0
  {
    match c
    case All(cs) =>
      if cs != [] {
        JoinedTidy(m, cs, AND);
        WrappedTidy([LPAR], Joined(m, cs, AND).value.0);
      }
    case Any(cs) =>
      if cs != [] {
        JoinedTidy(m, cs, OR);
        WrappedTidy([LPAR], Joined(m, cs, OR).value.0);
      }
    case Neg(c1) =>
      CondTidy(m, c1);
      WrappedTidy([NOT, LPAR], CondSQL(m, c1).value.0);
    case _ => LeafTidy(m, m.fields[c.field], c);
  }

  lemma {:induction false} JoinedTidy(m: Model, cs: seq<Cond>, join: Word)
    requires PlainModel(m) && cs != [] && (join.AND? || join.OR?) && Joined(m, cs, join).Some?
    ensures Tidy(Joined(m, cs, join).value.0)
    decreases cs, 1
  {
    CondTidy(m, cs[0]);
    if |cs| > 1 {
      JoinedTidy(m, cs[1..], join);
      TidyConcat(CondSQL(m, cs[0]).value.0, join, Joined(m, cs[1..], join).value.0);
    }
  }

  lemma WhereWords(m: Model, tenant: Option<Val>, cs: seq<Cond>)
    requires PlainModel(m) && Where(m, tenant, cs).Some?
    ensures Tidy(Where(m, tenant, cs).value.0)
  {
    assert Tidy(TENANT_EQ);
    if cs != [] {
      JoinedTidy(m, cs, AND);
      TidyConcat(TENANT_EQ, AND, Joined(m, cs, AND).value.0);
    }
  }

  // ---------------------------------------------------------------- UPDATE

  /** The column and the argument number of each assignment. */
  function Targets(ps: seq<(string, Value)>, n: nat): seq<(string, nat)>
    decreases ps
  {
    if ps == [] then [] else [(ps[0].0, n)] + Targets(ps[1..], n + 1)
  }

  lemma {:induction false} AssignsRead(ps: seq<(string, Value)>, n: nat, rest: seq<Word>)
    requires ps != [] && (rest == [] || rest[0].WHERE?)
    ensures HoleCount(AssignWords(ps)) == |ps|
    ensures ReadAssigns(Numbered(AssignWords(ps), n) + rest) == Some((Targets(ps, n), rest))
    decreases ps
  {
    hide Numbered, HoleCount, ReadAssigns;
    AssignWord(ps[0].0, n);
    if |ps| == 1 {
      assert Targets(ps, n) == [(ps[0].0, n)];
      LastAssign(ps[0].0, n, rest);
    } else {
      AssignsRead(ps[1..], n + 1, rest);
      var tail := Numbered(AssignWords(ps[1..]), n + 1) + rest;
      AssignMore(ps[0].0, AssignWords(ps[1..]), n);
      assert Numbered(AssignWords(ps), n) + rest == [Col(ps[0].0), Op(EQ), Arg(n), COMMA] + tail;
      NextAssign(ps[0].0, n, tail);
    }
  }

  lemma LastAssign(col: string, n: nat, rest: seq<Word>)
    requires rest == [] || rest[0].WHERE?
    ensures ReadAssigns([Col(col), Op(EQ), Arg(n)] + rest) == Some(([(col, n)], rest))
  {
    var t := [Col(col), Op(EQ), Arg(n)] + rest;
    assert t[3..] == rest;
    assert |t| > 3 ==> t[3] == rest[0];
  }

  lemma NextAssign(col: string, n: nat, tail: seq<Word>)
    requires ReadAssigns(tail).Some?
    ensures ReadAssigns([Col(col), Op(EQ), Arg(n), COMMA] + tail)
         == Some(([(col, n)] + ReadAssigns(tail).value.0, ReadAssigns(tail).value.1))
  {
    assert ([Col(col), Op(EQ), Arg(n), COMMA] + tail)[4..] == tail;
  }

  lemma AssignWord(col: string, n: nat)
    ensures var one := [Col(col), Op(EQ), HOLE];
      Numbered(one, n) == [Col(col), Op(EQ), Arg(n)] && HoleCount(one) == 1
  {
    hide Numbered, HoleCount;
    assert [Col(col), Op(EQ), HOLE] == [Col(col), Op(EQ)] + [HOLE];
    NumberedFixed([Col(col), Op(EQ)], n);
    NumberedOne(HOLE, n);
    NumberedConcat([Col(col), Op(EQ)], [HOLE], n);
  }

  lemma AssignMore(col: string, more: seq<Word>, n: nat)
    ensures var ws := [Col(col), Op(EQ), HOLE, COMMA] + more;
      && Numbered(ws, n) == [Col(col), Op(EQ), Arg(n), COMMA] + Numbered(more, n + 1)
      && HoleCount(ws) == 1 + HoleCount(more)
  {
    hide Numbered, HoleCount;
    var one := [Col(col), Op(EQ), HOLE];
    AssignWord(col, n);
    NumberedOne(COMMA, n + 1);
    NumberedConcat(one, [COMMA], n);
    NumberedConcat(one + [COMMA], more, n);
    assert [Col(col), Op(EQ), HOLE, COMMA] + more == one + [COMMA] + more;
  }

  /** Every target's argument is the value assigned to it. */
  ghost predicate Bound(ts: seq<(string, nat)>, ps: seq<(string, Value)>, all: seq<Value>) {
    |ts| == |ps| && forall j | 0 <= j < |ps| :: ts[j].0 == ps[j].0 && ArgAt(all, ts[j].1) == ps[j].1
  }

  lemma {:induction false} TargetsBound(ps: seq<(string, Value)>, n: nat, all: seq<Value>)
    requires Holds(all, n, ValuesOf(ps))
    ensures Bound(Targets(ps, n), ps, all) && |ValuesOf(ps)| == |ps|
    decreases ps
  {
    if ps != [] {
      HoldsParts(all, n, [ps[0].1], ValuesOf(ps[1..]));
      HoldsOne(all, n, ps[0].1);
      TargetsBound(ps[1..], n + 1, all);
    }
  }

  predicate PlainColumns(ps: seq<(string, Value)>) {
    forall p <- ps :: Plain(p.0)
  }

  lemma {:induction false} AssignedPlain(m: Model, sets: seq<Assignment>)
    requires PlainModel(m) && Assigned(m, sets).Some?
    ensures PlainColumns(Assigned(m, sets).value)
    decreases sets
  {
    hide Plain;
    if sets != [] {
      AssignedPlain(m, sets[1..]);
      LookupIsPlain(m.fields[sets[0].field]);
    }
  }

  lemma {:induction false} AssignTidy(ps: seq<(string, Value)>)
    requires PlainColumns(ps)
    ensures Tidy(AssignWords(ps))
    decreases ps
  {
    hide Plain;
    if ps != [] {
      AssignTidy(ps[1..]);
      var one := [Col(ps[0].0), Op(EQ), HOLE];
      assert Plain(ps[0].0);
      TidyPrefix([Col(ps[0].0), Op(EQ)], [HOLE]);
      assert [Col(ps[0].0), Op(EQ)] + [HOLE] == one;
      if |ps| > 1 {
        TidyConcat(one, COMMA, AssignWords(ps[1..]));
        assert [Col(ps[0].0), Op(EQ), HOLE, COMMA] + AssignWords(ps[1..]) == one + [COMMA] + AssignWords(ps[1..]);
      }
    }
  }

  lemma UpdateTidy(m: Model, tenant: Option<Val>, cs: seq<Cond>, sets: seq<Assignment>)
    requires PlainModel(m) && UpdateSQL(m, tenant, cs, sets).Some?
    ensures Tidy(UpdateSQL(m, tenant, cs, sets).value.0)
  {
    hide PlainModel, Where, Assigned, Tidy, AssignWords;
    var ps, ws := Assigned(m, sets).value, Where(m, tenant, cs).value.0;
    AssignedPlain(m, sets);
    AssignTidy(ps);
    WhereWords(m, tenant, cs);
    if ws == [] {
      assert AssignWords(ps) + ws == AssignWords(ps);
    } else {
      TidyConcat(AssignWords(ps), WHERE, ws);
      assert AssignWords(ps) + ([WHERE] + ws) == AssignWords(ps) + [WHERE] + ws;
    }
  }

  /** A set-based update: each assigned column gets its value, on the rows the condition means. With plain column names
      the text says so too, with ? or rebound to $1, $2, ... */
  lemma UpdateKeepsMeaning(m: Model, db: Db, tenant: Option<Val>, cs: seq<Cond>, sets: seq<Assignment>)
    returns (ts: seq<(string, nat)>, e: Expr)
    requires UpdateSQL(m, tenant, cs, sets).Some?
    ensures var (ws, args) := UpdateSQL(m, tenant, cs, sets).value;
      && ReadUpdate(Numbered(ws, 1)) == Some((ts, e))
      && (PlainModel(m) ==> ReadUpdateText(Rebound(Render(ws), 0, false)) == Some((ts, e)))
      && HoleCount(ws) == |args|
      && Bound(ts, Assigned(m, sets).value, args)
      && forall row: Row :: Eval(db, e, row, args) == WhereMeaning(m, db, tenant, cs, row)
  {
    ts, e := UpdateReads(m, db, tenant, cs, sets);
    hide *;
    if PlainModel(m) {
      UpdateTidy(m, tenant, cs, sets);
      RebindReads(UpdateSQL(m, tenant, cs, sets).value.0);
    }
    TextOfUpdate(Rebound(Render(UpdateSQL(m, tenant, cs, sets).value.0), 0, false));
  }

  lemma TextOfUpdate(text: string)
    ensures ReadUpdateText(text) == match Lex(text) case None => None case Some(ws) => ReadUpdate(ws)
  {
  }

  lemma AssignedSome(m: Model, sets: seq<Assignment>)
    requires sets != [] && Assigned(m, sets).Some?
    ensures Assigned(m, sets).value != []
  {
  }

  lemma UpdateReads(m: Model, db: Db, tenant: Option<Val>, cs: seq<Cond>, sets: seq<Assignment>)
    returns (ts: seq<(string, nat)>, e: Expr)
    requires UpdateSQL(m, tenant, cs, sets).Some?
    ensures var (ws, args) := UpdateSQL(m, tenant, cs, sets).value;
      && ReadUpdate(Numbered(ws, 1)) == Some((ts, e))
      && HoleCount(ws) == |args|
      && Bound(ts, Assigned(m, sets).value, args)
      && forall row: Row :: Eval(db, e, row, args) == WhereMeaning(m, db, tenant, cs, row)
  {
    hide Numbered, HoleCount, ReadAssigns, ReadCondition, AssignWords, Assigned, Targets, Bound, Eval, WhereMeaning;
    AssignedSome(m, sets);
    var ps := Assigned(m, sets).value;
    var (ws, wargs) := Where(m, tenant, cs).value;
    var args := ValuesOf(ps) + wargs;
    assert args[0..|args|] == args;
    HoldsParts(args, 1, ValuesOf(ps), wargs);
    TargetsBound(ps, 1, args);
    ts := Targets(ps, 1);
    var none: seq<Word> := [];
    if ws == [] {
      AssignsRead(ps, 1, none);
      assert AssignWords(ps) + none == AssignWords(ps);
      assert Numbered(AssignWords(ps), 1) + none == Numbered(AssignWords(ps), 1);
      EmptyWhere(m, tenant, cs);
      e := Const(true);
      forall row: Row ensures Eval(db, e, row, args) == WhereMeaning(m, db, tenant, cs, row) {
        NoCondition(m, db, row, args);
      }
    } else {
      e := WhereReads(m, db, tenant, cs, |ps| + 1, args);
      var cond := Numbered(ws, |ps| + 1);
      AssignsRead(ps, 1, [WHERE] + cond);
      UpdateWords(AssignWords(ps), ws, 1);
      assert ([WHERE] + cond)[1..] == cond;
    }
  }

  lemma NoCondition(m: Model, db: Db, row: Row, args: seq<Value>)
    ensures Eval(db, Const(true), row, args) == WhereMeaning(m, db, None, [], row)
  {
  }

  lemma EmptyWhere(m: Model, tenant: Option<Val>, cs: seq<Cond>)
    requires Where(m, tenant, cs).Some? && Where(m, tenant, cs).value.0 == []
    ensures cs == [] && tenant.None?
  {
    if cs != [] {
      assert Joined(m, cs, AND).value.0 == [];
      JoinedNotEmpty(m, cs);
    }
  }

  lemma {:induction false} JoinedNotEmpty(m: Model, cs: seq<Cond>)
    requires cs != [] && Joined(m, cs, AND).Some?
    ensures Joined(m, cs, AND).value.0 != []
  {
    CondNotEmpty(m, cs[0]);
  }

  lemma CondNotEmpty(m: Model, c: Cond)
    requires CondSQL(m, c).Some?
    ensures CondSQL(m, c).value.0 != []
  {
    if c.In? && c.values != [] && c.field in m.fields && m.fields[c.field].lookup {
      HashedCount(m, c.values);
    }
  }

  lemma UpdateWords(a: seq<Word>, ws: seq<Word>, n: nat)
    ensures Numbered(a + ([WHERE] + ws), n) == Numbered(a, n) + ([WHERE] + Numbered(ws, n + HoleCount(a)))
    ensures HoleCount(a + ([WHERE] + ws)) == HoleCount(a) + HoleCount(ws)
  {
    NumberedConcat([WHERE], ws, n + HoleCount(a));
    NumberedOne(WHERE, n + HoleCount(a));
    NumberedConcat(a, [WHERE] + ws, n);
  }

  // ---------------------------------------------------------------- lists and their elements

  /** On every row a list condition means what the disjunction of its equalities means exactly when it has
      values: In() matches nothing, Or() matches everything. */
  lemma InIsAnyEq(m: Model, db: Db, field: string, vs: seq<Value>, row: Row)
    requires field in m.fields
    ensures Meaning(m, db, In(field, vs), row) == Meaning(m, db, Any(Eqs(field, vs)), row) <==> vs != []
  {
    if vs != [] {
      OneOfIsAnyOf(m, db, field, vs, row);
    }
  }

  function Eqs(field: string, vs: seq<Value>): (cs: seq<Cond>)
    ensures |cs| == |vs|
  {
    if vs == [] then [] else [QueryBuilder.Cmp(field, EQ, vs[0])] + Eqs(field, vs[1..])
  }

  lemma {:induction false} OneOfIsAnyOf(m: Model, db: Db, field: string, vs: seq<Value>, row: Row)
    requires field in m.fields
    ensures OneOf(m, db, m.fields[field], vs, row) == AnyOf(m, db, Eqs(field, vs), row)
    decreases vs
  {
    if vs != [] {
      OneOfIsAnyOf(m, db, field, vs[1..], row);
      assert Eqs(field, vs)[1..] == Eqs(field, vs[1..]);
    }
  }

  /** Where the builder departs from logic: the text of an Or, read back, is the disjunction of its children on every
      row exactly when it has any. The text of an empty Or is true of every row. */
  lemma OrIsDisjunction(m: Model, db: Db, cs: seq<Cond>) returns (e: Expr)
    requires CondSQL(m, Any(cs)).Some?
    ensures var (ws, args) := CondSQL(m, Any(cs)).value;
      && ReadCondition(Numbered(ws, 1)) == Some(e)
      && (PlainModel(m) ==> ReadText(Rebound(Render(ws), 0, false)) == Some(e))
      && forall row: Row ::
           && (Eval(db, e, row, args) == AnyOf(m, db, cs, row) <==> cs != [])
           && (cs == [] ==> Eval(db, e, row, args) == Yes)
  {
    hide Numbered, Render, Rebound, Eval, Lex;
    var (ws, args) := CondSQL(m, Any(cs)).value;
    assert args[0..|args|] == args;
    var none: seq<Word> := [];
    assert Numbered(ws, 1) + none == Numbered(ws, 1);
    e := CondReads(m, db, Any(cs), 1, args, none);
    PhraseAlone(Numbered(ws, 1), e, none);
    if PlainModel(m) {
      CondTidy(m, Any(cs));
      RebindReads(ws);
    }
  }

  // ---------------------------------------------------------------- which conditions compile

  /** What a condition may ask of its field: a known field, nothing of a plainly encrypted one, and of a lookup
      field only equality with values that hash. */
  predicate Supported(m: Model, c: Cond)
    decreases c
  {
    match c
    case All(cs) => forall d <- cs :: Supported(m, d)
    case Any(cs) => forall d <- cs :: Supported(m, d)
    case Neg(d) => Supported(m, d)
    case _ =>
      c.field in m.fields && LeafSupported(m, m.fields[c.field], c)
  }

  predicate LeafSupported(m: Model, f: Field, c: Cond)
    requires Leaf(c)
  {
    if f.lookup then
      match c
      case Cmp(_, op, v) => (op == EQ || op == NE) && m.hash(v).Some?
      case In(_, vs) => forall v <- vs :: m.hash(v).Some?
      case Like(_, _) => false
      case _ => true
    else !f.encrypted
  }

  lemma {:induction false} HashedIff(m: Model, vs: seq<Value>)
    ensures Hashed(m, vs).Some? <==> forall v <- vs :: m.hash(v).Some?
    decreases vs
  {
    if vs != [] {
      HashedIff(m, vs[1..]);
      assert forall v :: v in vs <==> v == vs[0] || v in vs[1..];
    }
  }

  /** Compilation succeeds exactly on supported conditions. */
  lemma {:induction false} CompilesIffSupported(m: Model, c: Cond)
    ensures CondSQL(m, c).Some? <==> Supported(m, c)
    decreases c, 0
  {
    if c.All? {
      if c.children != [] {
        JoinedIffSupported(m, c.children, AND);
      }
    } else if c.Any? {
      if c.children != [] {
        JoinedIffSupported(m, c.children, OR);
      }
    } else if c.Neg? {
      CompilesIffSupported(m, c.child);
    } else if c.field in m.fields {
      LeafCompilesIff(m, m.fields[c.field], c);
      hide LookupCondSQL, LeafSupported;
    }
  }

  lemma LeafCompilesIff(m: Model, f: Field, c: Cond)
    requires Leaf(c)
    ensures (if f.lookup then LookupCondSQL(m, f, c).Some? else !f.encrypted) <==> LeafSupported(m, f, c)
  {
    if c.In? {
      HashedIff(m, c.values);
      hide InWords, Hashed;
    }
  }

  lemma {:induction false} JoinedIffSupported(m: Model, cs: seq<Cond>, join: Word)
    requires cs != []
    ensures Joined(m, cs, join).Some? <==> forall d <- cs :: Supported(m, d)
    decreases cs, 1
  {
    CompilesIffSupported(m, cs[0]);
    hide CondSQL, Supported;
    if |cs| > 1 {
      JoinedIffSupported(m, cs[1..], join);
    }
    assert forall d :: d in cs <==> d == cs[0] || d in cs[1..];
  }
}

/** How a database reads a WHERE text: NOT binds tighter than AND, AND tighter than OR; conditions
    evaluate in three-valued logic. This is the reference the query builder is measured against. */
module SqlReader {
  import opened Wrappers
  import opened SqlText

  type Val(==, !new)

  /** A column value or argument; None is NULL. */
  type Value = Option<Val>

  /** What the database decides about two non-null values. */
  datatype Db = Db(cmp: (Cmp, Val, Val) -> bool, like: (Val, Val) -> bool)

  type Row = string -> Value

  // ---------------------------------------------------------------- three-valued logic

  datatype Truth = Yes | No | Unknown

  function Of(b: bool): Truth {
    if b then Yes else No
  }

  function NotT(a: Truth): Truth {
    match a
    case Yes => No
    case No => Yes
    case Unknown => Unknown
  }

  function AndT(a: Truth, b: Truth): Truth {
    if a.No? || b.No? then No else if a.Yes? && b.Yes? then Yes else Unknown
  }

  function OrT(a: Truth, b: Truth): Truth {
    if a.Yes? || b.Yes? then Yes else if a.No? && b.No? then No else Unknown
  }

  function CmpT(db: Db, op: Cmp, a: Value, b: Value): Truth {
    if a.None? || b.None? then Unknown else Of(db.cmp(op, a.value, b.value))
  }

  function LikeT(db: Db, a: Value, b: Value): Truth {
    if a.None? || b.None? then Unknown else Of(db.like(a.value, b.value))
  }

  /** x IN (v1, .., vn) is x = v1 OR .. OR x = vn. */
  function InT(db: Db, a: Value, vs: seq<Value>): Truth {
    if vs == [] then No else OrT(CmpT(db, EQ, a, vs[0]), InT(db, a, vs[1..]))
  }

  // ---------------------------------------------------------------- expressions

  datatype Expr =
    | Const(b: bool)
    | Compare(col: string, op: Cmp, arg: nat)
    | LikeArg(col: string, arg: nat)
    | InArgs(col: string, args: seq<nat>)
    | Null(col: string)
    | And(l: Expr, r: Expr)
    | Or(l: Expr, r: Expr)
    | Not(e: Expr)

  /** Argument n of a statement, counted from 1. */
  function ArgAt(args: seq<Value>, n: nat): Value {
    if 1 <= n <= |args| then args[n - 1] else None
  }

  function ArgsAt(args: seq<Value>, ns: seq<nat>): seq<Value> {
    if ns == [] then [] else [ArgAt(args, ns[0])] + ArgsAt(args, ns[1..])
  }

  function Eval(db: Db, e: Expr, row: Row, args: seq<Value>): Truth {
    match e
    case Const(b) => Of(b)
    case Compare(col, op, n) => CmpT(db, op, row(col), ArgAt(args, n))
    case LikeArg(col, n) => LikeT(db, row(col), ArgAt(args, n))
    case InArgs(col, ns) => InT(db, row(col), ArgsAt(args, ns))
    case Null(col) => Of(row(col).None?)
    case And(l, r) => AndT(Eval(db, l, row, args), Eval(db, r, row, args))
    case Or(l, r) => OrT(Eval(db, l, row, args), Eval(db, r, row, args))
    case Not(e1) => NotT(Eval(db, e1, row, args))
  }

  // ---------------------------------------------------------------- the grammar

  type Parsed = Option<(Expr, seq<Word>)>

  function ParseOr(ws: seq<Word>): (p: Parsed)
    ensures p.Some? ==> |p.value.1| < |ws|
    decreases |ws|, 2
  {
    match ParseAnd(ws)
    case None => None
    case Some((l, rest)) =>
      if rest == [] || !rest[0].OR? then Some((l, rest))
      else
        match ParseOr(rest[1..])
        case None => None
        case Some((r, rest')) => Some((Or(l, r), rest'))
  }

  function ParseAnd(ws: seq<Word>): (p: Parsed)
    ensures p.Some? ==> |p.value.1| < |ws|
    decreases |ws|, 1
  {
    match ParseNot(ws)
    case None => None
    case Some((l, rest)) =>
      if rest == [] || !rest[0].AND? then Some((l, rest))
      else
        match ParseAnd(rest[1..])
        case None => None
        case Some((r, rest')) => Some((And(l, r), rest'))
  }

  function ParseNot(ws: seq<Word>): (p: Parsed)
    ensures p.Some? ==> |p.value.1| < |ws|
    decreases |ws|, 0
  {
    if ws == [] then None
    else
      match ws[0]
      case NOT =>
        (match ParseNot(ws[1..])
         case None => None
         case Some((e, rest)) => Some((Not(e), rest)))
      case LPAR =>
        (match ParseOr(ws[1..])
         case None => None
         case Some((e, rest)) => if rest == [] || !rest[0].RPAR? then None else Some((e, rest[1..])))
      case TRUE => Some((Const(true), ws[1..]))
      case FALSE => Some((Const(false), ws[1..]))
      case Col(name) => ParseTest(name, ws[1..])
      case Tenant => ParseTest("tenant_id", ws[1..])
      case _ => None
  }

  /** What follows a column: a comparison, LIKE, IN (..), IS NULL or IS NOT NULL. */
  function ParseTest(col: string, ws: seq<Word>): (p: Parsed)
    ensures p.Some? ==> |p.value.1| < |ws|
  {
    if ws == [] then None
    else
      match ws[0]
      case ISNULL => Some((Null(col), ws[1..]))
      case NOTNULL => Some((Not(Null(col)), ws[1..]))
      case Op(op) => if |ws| < 2 || !ws[1].Arg? then None else Some((Compare(col, op, ws[1].n), ws[2..]))
      case LIKE => if |ws| < 2 || !ws[1].Arg? then None else Some((LikeArg(col, ws[1].n), ws[2..]))
      case IN =>
        if |ws| < 2 || !ws[1].LPAR? then None
        else (
          match ParseArgs(ws[2..])
          case None => None
          case Some((ns, rest)) => Some((InArgs(col, ns), rest))
        )
      case _ => None
  }

  function ParseArgs(ws: seq<Word>): (p: Option<(seq<nat>, seq<Word>)>)
    ensures p.Some? ==> |p.value.1| < |ws|
  {
    if |ws| < 2 || !ws[0].Arg? then None
    else if ws[1].RPAR? then Some(([ws[0].n], ws[2..]))
    else if !ws[1].COMMA? then None
    else
      match ParseArgs(ws[2..])
      case None => None
      case Some((ns, rest)) => Some(([ws[0].n] + ns, rest))
  }

  /** A whole WHERE condition: everything must be read. */
  function ReadCondition(ws: seq<Word>): Option<Expr> {
    match ParseOr(ws)
    case None => None
    case Some((e, rest)) => if rest == [] then Some(e) else None
  }

  /** From characters: find the words, then read them. */
  function ReadText(text: string): Option<Expr> {
    match Lex(text)
    case None => None
    case Some(ws) => ReadCondition(ws)
  }

  // ---------------------------------------------------------------- UPDATE

  /** The SET list: columns with their argument numbers, and what follows. */
  function ReadAssigns(ws: seq<Word>): Option<(seq<(string, nat)>, seq<Word>)> {
    if |ws| < 3 || !ws[0].Col? || ws[1] != Op(EQ) || !ws[2].Arg? then None
    else if |ws| == 3 || !ws[3].COMMA? then Some(([(ws[0].name, ws[2].n)], ws[3..]))
    else
      match ReadAssigns(ws[4..])
      case None => None
      case Some((ps, rest)) => Some(([(ws[0].name, ws[2].n)] + ps, rest))
  }

  /** A whole update: assignments, then WHERE and a condition, or no condition at all. */
  function ReadUpdate(ws: seq<Word>): Option<(seq<(string, nat)>, Expr)> {
    match ReadAssigns(ws)
    case None => None
    case Some((ps, rest)) =>
      if rest == [] then Some((ps, Const(true)))
      else if !rest[0].WHERE? then None
      else
        match ReadCondition(rest[1..])
        case None => None
        case Some(e) => Some((ps, e))
  }

  function ReadUpdateText(text: string): Option<(seq<(string, nat)>, Expr)> {
    match Lex(text)
    case None => None
    case Some(ws) => ReadUpdate(ws)
  }
}

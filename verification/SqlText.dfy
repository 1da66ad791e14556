/** SQL text as the query builder writes it: a sequence of words with fixed spelling, how a reader finds the
    words again, and the rebinding of ? to $1, $2, .. (query.go, driver.go:132-160). */
module SqlText {
  import opened Decimal
  import opened Wrappers

  datatype Cmp = EQ | NE | GT | GE | LT | LE

  datatype Word =
    | Col(name: string)    // "name", quoted
    | Tenant               // tenant_id, written without quotes
    | Op(op: Cmp)
    | LIKE | IN | ISNULL | NOTNULL | AND | OR | NOT
    | LPAR | RPAR | COMMA | WHERE
    | HOLE                 // ?
    | Arg(n: nat)          // $n
    | TRUE | FALSE         // 1 = 1, 1 = 0

  function CmpText(op: Cmp): string {
    match op
    case EQ => " = "
    case NE => " <> "
    case GT => " > "
    case GE => " >= "
    case LT => " < "
    case LE => " <= "
  }

  /** The exact characters of a word. */
  function Spell(w: Word): string {
    match w
    case Col(name) => "\"" + name + "\""
    case Tenant => "tenant_id"
    case Op(op) => CmpText(op)
    case LIKE => " LIKE "
    case IN => " IN "
    case ISNULL => " IS NULL"
    case NOTNULL => " IS NOT NULL"
    case AND => " AND "
    case OR => " OR "
    case NOT => "NOT "
    case LPAR => "("
    case RPAR => ")"
    case COMMA => ", "
    case WHERE => " WHERE "
    case HOLE => "?"
    case Arg(n) => "$" + Digits(n)
    case TRUE => "1 = 1"
    case FALSE => "1 = 0"
  }

  function Render(ws: seq<Word>): string {
    if ws == [] then "" else Spell(ws[0]) + Render(ws[1..])
  }

  // ---------------------------------------------------------------- reading words back

  /** The length of the leading run of digits. */
  function DigitRun(s: string): (k: nat)
    ensures k <= |s| && forall c <- s[..k] :: IsDigit(c)
  {
    if s == "" || !IsDigit(s[0]) then 0
    else
      var k := DigitRun(s[1..]);
      assert s[..k + 1] == [s[0]] + s[1..][..k];
      k + 1
  }

  lemma {:induction false} DigitRunOf(d: string, rest: string)
    requires forall c <- d :: IsDigit(c)
    requires rest == "" || !IsDigit(rest[0])
    ensures DigitRun(d + rest) == |d|
  {
    if d == "" {
      assert d + rest == rest;
    } else {
      assert (d + rest)[0] == d[0] && d[0] in d && (d + rest)[1..] == d[1..] + rest;
      DigitRunOf(d[1..], rest);
    }
  }

  /** Names as snakeCase makes them: nothing a quote, a hole or an escape could be mistaken for. */
  predicate Plain(name: string) {
    '\"' !in name && '\'' !in name && '?' !in name
  }

  predicate PlainWords(ws: seq<Word>) {
    forall w <- ws :: w.Col? ==> Plain(w.name)
  }

  function IndexOf(s: string, c: char): (i: nat)
    ensures i <= |s| && (i < |s| ==> s[i] == c) && c !in s[..i]
  {
    if s == "" || s[0] == c then 0
    else
      var i := IndexOf(s[1..], c);
      assert s[..i + 1] == [s[0]] + s[1..][..i];
      i + 1
  }

  /** The only word without name or number that a text can begin with, told by a few characters. */
  function Guess(s: string): Option<Word>
    requires s != ""
  {
    match s[0]
    case 't' => Some(Tenant)
    case 'N' => Some(NOT)
    case '(' => Some(LPAR)
    case ')' => Some(RPAR)
    case ',' => Some(COMMA)
    case '?' => Some(HOLE)
    case '1' => if |s| < 5 then None else if s[4] == '1' then Some(TRUE) else Some(FALSE)
    case ' ' =>
      if |s| < 3 then None
      else (
        match s[1]
        case '=' => Some(Op(EQ))
        case '<' => if s[2] == '>' then Some(Op(NE)) else if s[2] == '=' then Some(Op(LE)) else Some(Op(LT))
        case '>' => if s[2] == '=' then Some(Op(GE)) else Some(Op(GT))
        case 'L' => Some(LIKE)
        case 'W' => Some(WHERE)
        case 'A' => Some(AND)
        case 'O' => Some(OR)
        case 'I' =>
          if s[2] == 'N' then Some(IN)
          else if |s| < 6 then None
          else if s[5] == 'O' then Some(NOTNULL) else Some(ISNULL)
        case _ => None
      )
    case _ => None
  }

  /** The word a text begins with, and the text behind it. */
  function Next(s: string): (r: Option<(Word, string)>)
    ensures r.Some? ==> |r.value.1| < |s|
  {
    if s == "" then None
    else if s[0] == '\"' then
      var i := IndexOf(s[1..], '\"');
      if i == |s| - 1 then None else Some((Col(s[1..i + 1]), s[i + 2..]))
    else if s[0] == '$' then
      var k := DigitRun(s[1..]);
      if k == 0 then None else Some((Arg(NumberOf(s[1..][..k])), s[k + 1..]))
    else
      var w := Guess(s);
      if w.None? || w.value.Col? || w.value.Arg? || !(Spell(w.value) <= s) then None
      else Some((w.value, s[|Spell(w.value)|..]))
  }

  function Lex(s: string): Option<seq<Word>>
    decreases |s|
  {
    if s == "" then Some([])
    else
      match Next(s)
      case None => None
      case Some((w, rest)) =>
        match Lex(rest)
        case None => None
        case Some(ws) => Some([w] + ws)
  }

  /** What may follow a numbered argument: anything but another digit. */
  ghost predicate Follows(w: Word, rest: string) {
    w.Arg? ==> rest == "" || !IsDigit(rest[0])
  }

  predicate Spaced(w: Word) {
    w.Op? || w.LIKE? || w.IN? || w.ISNULL? || w.NOTNULL? || w.AND? || w.OR? || w.WHERE?
  }

  lemma GuessSpaced(w: Word, rest: string)
    requires Spaced(w)
    ensures Guess(Spell(w) + rest) == Some(w) && (Spell(w) + rest)[0] == ' '
  {
    var s := Spell(w) + rest;
    assert s[0] == Spell(w)[0] && s[1] == Spell(w)[1] && s[2] == Spell(w)[2];
    assert w.ISNULL? || w.NOTNULL? ==> s[5] == Spell(w)[5];
  }

  lemma GuessBare(w: Word, rest: string)
    requires !Spaced(w) && !w.Col? && !w.Arg?
    ensures var s := Spell(w) + rest; Guess(s) == Some(w) && s[0] != '\"' && s[0] != '$'
  {
    var s := Spell(w) + rest;
    assert s[0] == Spell(w)[0];
    assert w.TRUE? || w.FALSE? ==> s[4] == Spell(w)[4];
  }

  lemma NextFixed(w: Word, rest: string)
    requires !w.Col? && !w.Arg?
    ensures Next(Spell(w) + rest) == Some((w, rest))
  {
    var s := Spell(w) + rest;
    assert s[|Spell(w)|..] == rest && s != "";
    if Spaced(w) {
      GuessSpaced(w, rest);
    } else {
      GuessBare(w, rest);
    }
    hide Guess, Spell;
  }

  lemma NextCol(name: string, rest: string)
    requires Plain(name)
    ensures Next(Spell(Col(name)) + rest) == Some((Col(name), rest))
  {
    var s := Spell(Col(name)) + rest;
    var t := name + "\"" + rest;
    assert s == "\"" + t && s[1..] == t;
    IndexAfter(name, '\"', rest);
    assert s[1..|name| + 1] == name && s[|name| + 2..] == rest;
  }

  lemma {:induction false} IndexAfter(name: string, c: char, rest: string)
    requires c !in name
    ensures IndexOf(name + [c] + rest, c) == |name|
  {
    var s := name + [c] + rest;
    if name != "" {
      assert s[0] == name[0] && s[1..] == name[1..] + [c] + rest;
      IndexAfter(name[1..], c, rest);
    }
  }

  lemma NextArg(n: nat, rest: string)
    requires rest == "" || !IsDigit(rest[0])
    ensures Next(Spell(Arg(n)) + rest) == Some((Arg(n), rest))
  {
    var s := Spell(Arg(n)) + rest;
    DigitsRead(n);
    hide Digits, NumberOf, DigitRun, Guess, IndexOf;
    assert s[1..] == Digits(n) + rest;
    DigitRunOf(Digits(n), rest);
    assert s[1..][..|Digits(n)|] == Digits(n) && s[|Digits(n)| + 1..] == rest;
  }

  /** No numbered argument runs into a word that starts with a digit. */
  predicate ArgsApart(ws: seq<Word>) {
    forall i | 0 <= i < |ws| - 1 && ws[i].Arg? :: !ws[i + 1].TRUE? && !ws[i + 1].FALSE?
  }

  lemma FirstChar(w: Word)
    ensures Spell(w) != ""
    ensures IsDigit(Spell(w)[0]) <==> w.TRUE? || w.FALSE?
  {
    match w
    case Op(op) => match op { case _ => }
    case _ =>
  }

  /** Reading the rendered text finds exactly the words it was rendered from. */
  lemma {:induction false} LexRender(ws: seq<Word>)
    requires PlainWords(ws) && ArgsApart(ws)
    ensures Lex(Render(ws)) == Some(ws)
    decreases ws
  {
    if ws != [] {
      var w, rest := ws[0], Render(ws[1..]);
      assert PlainWords(ws[1..]) by { assert forall v <- ws[1..] :: v in ws; }
      assert ArgsApart(ws[1..]) by { assert forall i | 0 <= i < |ws[1..]| :: ws[1..][i] == ws[i + 1]; }
      LexRender(ws[1..]);
      assert w in ws;
      assert Follows(w, rest) by { RenderFollows(ws); }
      NextSpelled(w, rest);
      hide Next, Spell, PlainWords, ArgsApart;
      assert ws == [w] + ws[1..];
      assert Spell(w) + rest != "" by { FirstChar(w); }
    }
  }

  lemma RenderFollows(ws: seq<Word>)
    requires ws != [] && ArgsApart(ws)
    ensures Follows(ws[0], Render(ws[1..]))
  {
    if |ws| > 1 {
      FirstChar(ws[1]);
      hide Spell;
      assert Render(ws[1..]) == Spell(ws[1]) + Render(ws[1..][1..]);
    }
  }

  lemma NextSpelled(w: Word, rest: string)
    requires (w.Col? ==> Plain(w.name)) && Follows(w, rest)
    ensures Next(Spell(w) + rest) == Some((w, rest))
  {
    match w
    case Col(name) => NextCol(name, rest);
    case Arg(n) => NextArg(n, rest);
    case _ => NextFixed(w, rest);
  }

  // ---------------------------------------------------------------- rebinding

  /** The reference for rebindDollar from one position: n holes seen, inside or outside a literal. */
  function Rebound(s: string, n: nat, inQuote: bool): string {
    if s == "" then ""
    else if s[0] == '\'' then [s[0]] + Rebound(s[1..], n, !inQuote)
    else if s[0] == '?' && !inQuote then "$" + Digits(n + 1) + Rebound(s[1..], n + 1, inQuote)
    else [s[0]] + Rebound(s[1..], n, inQuote)
  }

  method RebindDollar(query: string) returns (b: string)
    ensures b == Rebound(query, 0, false)
  {
    b := "";
    var n, inQuote := 0, false;
    var i := 0;
    assert query[0..] == query;
    hide Rebound, Digits;
    while i < |query|
      invariant 0 <= i <= |query|
      invariant b + Rebound(query[i..], n, inQuote) == Rebound(query, 0, false)
    {
      var c := query[i];
      ReboundStep(query, i, b, n, inQuote);
      if c == '\'' {
        inQuote := !inQuote;
        b := b + [c];
      } else if c == '?' && !inQuote {
        n := n + 1;
        b := b + ("$" + Digits(n));
      } else {
        b := b + [c];
      }
      i := i + 1;
    }
    assert query[i..] == "" && b + "" == b;
    ReboundEnd(n, inQuote);
  }

  lemma ReboundEnd(n: nat, inQuote: bool)
    ensures Rebound("", n, inQuote) == ""
  {
  }

  /** What one character adds to the text built so far. */
  lemma ReboundStep(s: string, i: nat, b: string, n: nat, inQuote: bool)
    requires i < |s|
    ensures var hole := s[i] == '?' && !inQuote;
      && b + Rebound(s[i..], n, inQuote)
         == (b + (if hole then "$" + Digits(n + 1) else [s[i]]))
            + Rebound(s[i + 1..], if hole then n + 1 else n, if s[i] == '\'' then !inQuote else inQuote)
  {
    assert s[i..][0] == s[i] && s[i..][1..] == s[i + 1..];
    hide Digits;
  }

  /** Number the holes left to right, starting at n. */
  function Numbered(ws: seq<Word>, n: nat): seq<Word> {
    if ws == [] then []
    else if ws[0].HOLE? then [Arg(n)] + Numbered(ws[1..], n + 1)
    else [ws[0]] + Numbered(ws[1..], n)
  }

  lemma {:induction false} ReboundPlain(t: string, rest: string, n: nat)
    requires '\'' !in t && '?' !in t
    ensures Rebound(t + rest, n, false) == t + Rebound(rest, n, false)
  {
    if t == "" {
      assert t + rest == rest;
    } else {
      assert (t + rest)[0] == t[0] && t[0] in t && (t + rest)[1..] == t[1..] + rest;
      ReboundPlain(t[1..], rest, n);
      assert t == [t[0]] + t[1..];
    }
  }

  lemma SpellIsPlain(w: Word)
    requires (w.Col? ==> Plain(w.name)) && !w.HOLE?
    ensures '\'' !in Spell(w) && '?' !in Spell(w)
  {
    hide Spell, Plain;
    match w
    case Col(name) => ColIsPlain(name);
    case Arg(n) => ArgIsPlain(n);
    case Op(op) => CmpIsPlain(op);
    case _ => FixedIsPlain(w);
  }

  lemma ColIsPlain(name: string)
    requires Plain(name)
    ensures '\'' !in Spell(Col(name)) && '?' !in Spell(Col(name))
  {
  }

  lemma ArgIsPlain(n: nat)
    ensures '\'' !in Spell(Arg(n)) && '?' !in Spell(Arg(n))
  {
    hide Digits, NumberOf;
    DigitsRead(n);
  }

  lemma FixedIsPlain(w: Word)
    requires !w.Arg? && !w.Op? && !w.Col? && !w.HOLE?
    ensures '\'' !in Spell(w) && '?' !in Spell(w)
  {
    hide CmpText, Digits;
  }

  lemma CmpIsPlain(op: Cmp)
    ensures '\'' !in Spell(Op(op)) && '?' !in Spell(Op(op))
  {
  }

  /** Rebinding the text numbers exactly its holes, left to right. */
  lemma {:induction false} RebindNumbers(ws: seq<Word>, n: nat)
    requires PlainWords(ws)
    ensures Rebound(Render(ws), n, false) == Render(Numbered(ws, n + 1))
    decreases ws
  {
    if ws != [] {
      var w, rest := ws[0], Render(ws[1..]);
      assert PlainWords(ws[1..]) by { assert forall v <- ws[1..] :: v in ws; }
      assert w in ws;
      if w.HOLE? {
        RebindNumbers(ws[1..], n + 1);
        assert (Spell(w) + rest)[1..] == rest;
        var t := Numbered(ws[1..], n + 2);
        assert ([Arg(n + 1)] + t)[1..] == t;
      } else {
        RebindNumbers(ws[1..], n);
        SpellIsPlain(w);
        ReboundPlain(Spell(w), rest, n);
        var t := Numbered(ws[1..], n + 1);
        assert ([w] + t)[1..] == t;
      }
    }
  }
}

/** The full type name of an event, prefix.name.vN, and back (event.go:116-134). */
module EventTypes {
  import opened Decimal
  import opened Wrappers

  const MAX_INT := 0x7fff_ffff_ffff_ffff

  function FullType(prefix: string, name: string, v: nat): string {
    prefix + "." + name + ".v" + Digits(v)
  }

  /** strconv.Atoi: an optional sign and at least one digit, within int range. */
  function Atoi(s: string): Option<int> {
    var signed := s != "" && (s[0] == '-' || s[0] == '+');
    var digits := if signed then s[1..] else s;
    if digits == "" || exists c <- digits :: !IsDigit(c) then None
    else
      var n := NumberOf(digits);
      var i: int := if signed && s[0] == '-' then 0 - n else n;
      if -MAX_INT - 1 <= i <= MAX_INT then Some(i) else None
  }

  /** The last place where ".v" begins, -1 if there is none. */
  function LastMark(s: string): (i: int)
    ensures -1 <= i <= |s| - 2 || i == -1
    ensures i >= 0 ==> s[i] == '.' && s[i + 1] == 'v'
  {
    if |s| < 2 then -1
    else if s[|s| - 2] == '.' && s[|s| - 1] == 'v' then |s| - 2
    else LastMark(s[..|s| - 1])
  }

  function ParseType(prefix: string, full: string): Option<(string, nat)> {
    if !(prefix + "." <= full) then None else NameAndVersion(full[|prefix| + 1..])
  }

  function NameAndVersion(rest: string): Option<(string, nat)> {
    var i := LastMark(rest);
    if i < 0 then None
    else
      match Atoi(rest[i + 2..])
      case None => None
      case Some(n) => if n < 1 then None else Some((rest[..i], n))
  }

  lemma {:induction false} MarkBeforeDigits(s: string, d: string)
    requires forall c <- d :: IsDigit(c)
    ensures LastMark(s + ".v" + d) == |s|
    decreases d
  {
    var t := s + ".v" + d;
    if d == "" {
      assert t[|t| - 2] == '.' && t[|t| - 1] == 'v';
    } else {
      var e := d[..|d| - 1];
      assert t[..|t| - 1] == s + ".v" + e;
      assert t[|t| - 1] == d[|d| - 1] && d[|d| - 1] in d && IsDigit(t[|t| - 1]);
      MarkBeforeDigits(s, e);
    }
  }

  lemma AtoiDigits(v: nat)
    requires v <= MAX_INT
    ensures Atoi(Digits(v)) == Some(v as int)
  {
    DigitsRead(v);
    var d := Digits(v);
    hide Digits, NumberOf;
    assert d[0] in d && IsDigit(d[0]);
  }

  lemma NameAndVersionOf(name: string, v: nat)
    requires 1 <= v <= MAX_INT
    ensures NameAndVersion(name + ".v" + Digits(v)) == Some((name, v))
  {
    var d := Digits(v);
    DigitsRead(v);
    AtoiDigits(v);
    MarkBeforeDigits(name, d);
    hide Digits, NumberOf, LastMark, Atoi, IsDigit;
    CutHead(name + ".v", d);
    CutTail(name, ".v", d);
  }

  /** Whatever the event is called, also with ".v" inside its name, its full type parses back. */
  lemma ParseFullType(prefix: string, name: string, v: nat)
    requires 1 <= v <= MAX_INT
    ensures ParseType(prefix, FullType(prefix, name, v)) == Some((name, v))
  {
    NameAndVersionOf(name, v);
    Regroup(prefix, name, Digits(v));
    hide Digits, NameAndVersion;
    CutHead(prefix + ".", name + ".v" + Digits(v));
  }

  lemma CutHead(head: string, rest: string)
    ensures head <= head + rest && (head + rest)[|head|..] == rest
  {
  }

  lemma Regroup(prefix: string, name: string, d: string)
    ensures prefix + "." + name + ".v" + d == (prefix + ".") + (name + ".v" + d)
  {
  }

  lemma CutTail(a: string, b: string, c: string)
    ensures (a + b + c)[..|a|] == a
  {
  }

  /** Different declared events never share a full type. */
  lemma FullTypeInjective(prefix: string, name: string, v: nat, name': string, v': nat)
    requires 1 <= v <= MAX_INT && 1 <= v' <= MAX_INT
    requires FullType(prefix, name, v) == FullType(prefix, name', v')
    ensures name == name' && v == v'
  {
    ParseFullType(prefix, name, v);
    ParseFullType(prefix, name', v');
  }
}

/** Decimal text of natural numbers, as strconv and appendInt write it. */
module Decimal {
  function Digit(d: nat): char
    requires d < 10
  {
    '0' + d as char
  }

  /** appendInt: the decimal digits of n. */
  function Digits(n: nat): string {
    (if n >= 10 then Digits(n / 10) else "") + [Digit(n % 10)]
  }

  predicate IsDigit(c: char) {
    '0' <= c <= '9'
  }

  function NumberOf(s: string): nat
    requires forall c <- s :: IsDigit(c)
  {
    if s == "" then 0
    else
      assert s[|s| - 1] in s && IsDigit(s[|s| - 1]);
      NumberOf(s[..|s| - 1]) * 10 + (s[|s| - 1] as nat - '0' as nat)
  }

  /** Decimal text reads back as the number it was written from. */
  lemma {:induction false} DigitsRead(n: nat)
    ensures Digits(n) != "" && forall c <- Digits(n) :: IsDigit(c)
    ensures NumberOf(Digits(n)) == n
  {
    var s := Digits(n);
    var lead := if n >= 10 then Digits(n / 10) else "";
    assert s == lead + [Digit(n % 10)];
    if n >= 10 {
      DigitsRead(n / 10);
    }
    assert s[..|s| - 1] == lead;
    assert forall c <- s :: c in lead || c == Digit(n % 10);
  }
}

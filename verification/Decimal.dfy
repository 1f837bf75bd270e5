/** Unsigned integers printed in decimal and parsed back. */
module Decimal {
  import opened Wrappers

  const U32_MAX: nat := 0xFFFF_FFFF
  const U64_MAX: nat := 0xFFFF_FFFF_FFFF_FFFF

  function Digit(d: nat): (c: char)
    requires d < 10
    ensures '0' <= c <= '9' && c as int - '0' as int == d
  {
    ('0' as int + d) as char
  }

  function Print(n: nat): string {
    if n < 10 then [Digit(n)] else Print(n / 10) + [Digit(n % 10)]
  }

  predicate AllDigits(s: string) {
    forall i :: 0 <= i < |s| ==> '0' <= s[i] <= '9'
  }

  function Value(s: string): nat
    requires AllDigits(s)
  {
    if s == [] then 0 else 10 * Value(s[..|s| - 1]) + (s[|s| - 1] as int - '0' as int)
  }

  /** Parsing into an unsigned integer type: one leading plus sign and leading zeros are accepted. */
  function Parse(s: string, max: nat): Option<nat> {
    var digits := if s != [] && s[0] == '+' then s[1..] else s;
    if digits != [] && AllDigits(digits) && Value(digits) <= max then Some(Value(digits)) else None
  }

  lemma {:induction false} PrintedValue(n: nat)
    ensures Print(n) != [] && AllDigits(Print(n)) && Value(Print(n)) == n
  {
    if n >= 10 {
      PrintedValue(n / 10);
      assert Print(n)[..|Print(n)| - 1] == Print(n / 10);
    }
  }

  lemma PrintParses(n: nat, max: nat)
    requires n <= max
    ensures Parse(Print(n), max) == Some(n)
  {
    PrintedValue(n);
  }

  lemma PrintIsInjective(a: nat, b: nat)
    requires Print(a) == Print(b)
    ensures a == b
  {
    PrintedValue(a);
    PrintedValue(b);
  }

  /** Printed numbers hold nothing but digits. */
  lemma PrintHasNo(n: nat, c: char)
    requires c < '0' || '9' < c
    ensures c !in Print(n)
  {
    PrintedValue(n);
  }

  /** Text before the first separator is determined by the whole. */
  lemma SameUpToSeparator(a: string, x: string, b: string, y: string, separator: char)
    requires separator !in a && separator !in b
    requires a + [separator] + x == b + [separator] + y
    ensures a == b && x == y
  {
    SeparatorInLonger(a, x, b, y, separator);
    SeparatorInLonger(b, y, a, x, separator);
    var left, right := a + [separator] + x, b + [separator] + y;
    assert left[..|a|] == a && right[..|a|] == b;
    assert left[|a| + 1..] == x && right[|a| + 1..] == y;
  }

  lemma SeparatorInLonger(a: string, x: string, b: string, y: string, separator: char)
    requires a + [separator] + x == b + [separator] + y
    ensures |a| < |b| ==> separator in b
  {
    if |a| < |b| {
      assert (a + [separator] + x)[|a|] == separator;
      assert (b + [separator] + y)[|a|] == b[|a|];
    }
  }
}

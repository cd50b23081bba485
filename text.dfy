/** Generated text: occurrence of a fragment in a line, and the decimal
    rendering raw_ostream uses for the child count. */
module Text {

  /** `v` occurs somewhere in `line`. */
  ghost predicate Occurs(v: string, line: string)
  {
    exists before, after :: line == before + v + after
  }

  lemma OccursAtEnd(before: string, v: string)
    ensures Occurs(v, before + v)
  {
    assert before + v == before + v + [];
  }

  lemma OccursExtend(v: string, line: string, more: string)
    requires Occurs(v, line)
    ensures Occurs(v, line + more)
  {
    var before, after :| line == before + v + after;
    assert line + more == before + v + (after + more);
  }

  /** A fragment occurs in a line written as some text, the fragment, and
      one, three or five more pieces, concatenated left to right. */
  lemma OccursBefore1(before: string, v: string, x: string)
    ensures Occurs(v, before + v + x)
  {
    OccursAtEnd(before, v);
    OccursExtend(v, before + v, x);
  }

  lemma OccursBefore3(before: string, v: string, x: string, y: string, z: string)
    ensures Occurs(v, before + v + x + y + z)
  {
    OccursBefore1(before, v, x);
    OccursExtend(v, before + v + x, y);
    OccursExtend(v, before + v + x + y, z);
  }

  lemma OccursBefore5(before: string, v: string, x: string, y: string, z: string, u: string, w: string)
    ensures Occurs(v, before + v + x + y + z + u + w)
  {
    OccursBefore3(before, v, x, y, z);
    OccursExtend(v, before + v + x + y + z, u);
    OccursExtend(v, before + v + x + y + z + u, w);
  }

  predicate IsDigits(s: string)
  {
    forall i :: 0 <= i < |s| ==> '0' <= s[i] <= '9'
  }

  function Digit(d: nat): (c: char)
    requires d < 10
    ensures '0' <= c <= '9' && (c - '0') as int == d
  {
    ('0' as int + d) as char
  }

  /** Decimal notation of a natural number, without leading zeros. */
  function DecimalString(n: nat): (s: string)
    ensures |s| > 0 && IsDigits(s)
    ensures s[0] == '0' ==> n == 0
  {
    if n < 10 then [Digit(n)] else DecimalString(n / 10) + [Digit(n % 10)]
  }

  /** The number a string of decimal digits denotes. */
  function DecimalValue(s: string): nat
    requires IsDigits(s)
  {
    if s == [] then 0
    else DecimalValue(s[..|s| - 1]) * 10 + (s[|s| - 1] - '0') as int
  }

  /** Reading back the printed count gives the count. */
  lemma {:induction false} DecimalRoundTrip(n: nat)
    ensures DecimalValue(DecimalString(n)) == n
  {
    if n >= 10 {
      DecimalRoundTrip(n / 10);
      var s := DecimalString(n);
      assert s[..|s| - 1] == DecimalString(n / 10);
    }
  }

  /** Two different counts are never printed alike. */
  lemma DecimalStringInjective(m: nat, n: nat)
    requires DecimalString(m) == DecimalString(n)
    ensures m == n
  {
    DecimalRoundTrip(m);
    DecimalRoundTrip(n);
  }
}

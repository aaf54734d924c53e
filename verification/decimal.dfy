/**
  Decimal text of a non-negative integer, as an f-string renders it: the
  digits with no sign and no leading zeros. Used for the vertex count in the
  PLY header.
 */
module Decimal {

  predicate IsDigit(c: char)
  {
    '0' <= c <= '9'
  }

  predicate AllDigits(s: string)
  {
    forall i :: 0 <= i < |s| ==> IsDigit(s[i])
  }

  /** Non-empty, all digits, and no leading zero unless the number is 0. */
  predicate Canonical(s: string)
  {
    |s| >= 1 && AllDigits(s) && (|s| > 1 ==> s[0] != '0')
  }

  function DigitChar(d: nat): (c: char)
    requires d < 10
    ensures IsDigit(c)
  {
    ('0' as int + d) as char
  }

  function DigitValue(c: char): (d: nat)
    requires IsDigit(c)
    ensures d < 10
  {
    c as int - '0' as int
  }

  /** The decimal text of n. */
  function Show(n: nat): (s: string)
    ensures Canonical(s)
    ensures n < 10 <==> |s| == 1
    decreases n
  {
    if n < 10 then [DigitChar(n)] else Show(n / 10) + [DigitChar(n % 10)]
  }

  /** The number a string of digits denotes. */
  function Parse(s: string): nat
    requires AllDigits(s)
    decreases |s|
  {
    if |s| == 0 then 0 else Parse(s[..|s| - 1]) * 10 + DigitValue(s[|s| - 1])
  }

  /** Reading back the text of n gives n. */
  lemma {:induction false} ParseShow(n: nat)
    ensures Parse(Show(n)) == n
    decreases n
  {
    if n >= 10 {
      ParseShow(n / 10);
      var s := Show(n);
      assert s[..|s| - 1] == Show(n / 10);
    }
  }

  /** A digit string that does not start with 0 denotes a positive number. */
  lemma {:induction false} LeadingDigitPositive(s: string)
    requires |s| >= 1 && AllDigits(s) && s[0] != '0'
    ensures Parse(s) > 0
    decreases |s|
  {
    if |s| > 1 {
      LeadingDigitPositive(s[..|s| - 1]);
    }
  }

  lemma AppendDigit(p: nat, d: nat)
    requires d < 10
    ensures (p * 10 + d) / 10 == p && (p * 10 + d) % 10 == d
  {
  }

  /** Every canonical digit string is the text of the number it denotes. */
  lemma {:induction false} ShowParse(s: string)
    requires Canonical(s)
    ensures Show(Parse(s)) == s
    decreases |s|
  {
    var last := s[|s| - 1];
    assert DigitChar(DigitValue(last)) == last;
    if |s| > 1 {
      var init := s[..|s| - 1];
      LeadingDigitPositive(init);
      ShowParse(init);
      var p, d := Parse(init), DigitValue(last);
      var n := Parse(s);
      assert n == p * 10 + d;
      AppendDigit(p, d);
      assert n >= 10;
      assert Show(n) == Show(p) + [DigitChar(d)];
      assert s == init + [last];
    }
  }
}

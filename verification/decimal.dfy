/** Decimal rendering of record ids, as a template literal `${id}` writes a
    non-negative integer into a URL, and the parse that reads it back. */
module Decimal {

  predicate IsDigit(c: char) {
    '0' <= c <= '9'
  }

  predicate AllDigits(s: string) {
    forall i :: 0 <= i < |s| ==> IsDigit(s[i])
  }

  function DigitChar(d: nat): (c: char)
    requires d < 10
    ensures IsDigit(c) && c as int - '0' as int == d
  {
    ('0' as int + d) as char
  }

  /** The shortest decimal numeral of `n`, which is what a template
      literal writes for a non-negative integer id below 2^53 (JavaScript
      switches to exponent form from 10^21 on, and loses exactness above
      2^53, so larger ids are outside this model). */
  function Show(n: nat): (s: string)
    ensures |s| >= 1 && AllDigits(s)
    ensures |s| > 1 ==> s[0] != '0'
  {
    if n < 10 then [DigitChar(n)] else Show(n / 10) + [DigitChar(n % 10)]
  }

  /** Reads a string of decimal digits back as a number. */
  function Parse(s: string): nat
    requires AllDigits(s)
  {
    if s == [] then 0
    else Parse(s[..|s| - 1]) * 10 + (s[|s| - 1] as int - '0' as int)
  }

  /** Parsing a rendered id gives the id back. */
  lemma {:induction false} ParseShow(n: nat)
    ensures Parse(Show(n)) == n
  {
    if n >= 10 {
      var s := Show(n);
      assert s[..|s| - 1] == Show(n / 10);
      ParseShow(n / 10);
    }
  }

  /** Distinct ids render to distinct strings. */
  lemma ShowInjective(a: nat, b: nat)
    ensures Show(a) == Show(b) ==> a == b
  {
    ParseShow(a);
    ParseShow(b);
  }

  /** A fixed prefix followed by a rendered id determines the id. */
  lemma PrefixedShowInjective(prefix: string, a: nat, b: nat)
    ensures prefix + Show(a) == prefix + Show(b) ==> a == b
  {
    if prefix + Show(a) == prefix + Show(b) {
      assert Show(a) == (prefix + Show(a))[|prefix|..];
      assert Show(b) == (prefix + Show(b))[|prefix|..];
      ShowInjective(a, b);
    }
  }
}

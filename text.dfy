/** Text helpers shared by the term-code and token logic: lower-casing and the decimal
    rendering of a year that a Python f-string performs. */
module Text {

  /** `str.lower` restricted to ASCII: every comparison in this model is against an
      all-ASCII lower-case word, for which ASCII lowering decides the same equalities. */
  function LowerChar(c: char): char
  {
    if 'A' <= c <= 'Z' then (c as int - 'A' as int + 'a' as int) as char else c
  }

  function Lower(s: string): string
  {
    seq(|s|, i requires 0 <= i < |s| => LowerChar(s[i]))
  }

  lemma LowerIdempotent(s: string)
    ensures Lower(Lower(s)) == Lower(s)
  {
  }

  predicate IsDigit(c: char)
  {
    '0' <= c <= '9'
  }

  predicate AllDigits(s: string)
  {
    forall i :: 0 <= i < |s| ==> IsDigit(s[i])
  }

  function DigitChar(d: nat): (c: char)
    requires d < 10
    ensures IsDigit(c)
  {
    ('0' as int + d) as char
  }

  function DigitValue(c: char): (d: nat)
    requires IsDigit(c)
    ensures d < 10 && DigitChar(d) == c
  {
    c as int - '0' as int
  }

  /** `f"{n}"` for a non-negative integer: its decimal digits, without leading zeros. */
  function Decimal(n: nat): (r: string)
    ensures |r| >= 1 && AllDigits(r)
    ensures r[0] == '0' ==> n == 0
    decreases n
  {
    if n < 10 then [DigitChar(n)] else Decimal(n / 10) + [DigitChar(n % 10)]
  }

  /** Reads a string of decimal digits back as a number; the inverse of `Decimal`. */
  function ParseDecimal(s: string): nat
    requires AllDigits(s)
  {
    if s == [] then 0 else ParseDecimal(s[..|s| - 1]) * 10 + DigitValue(s[|s| - 1])
  }

  lemma {:induction false} ParseDecimalOfDecimal(n: nat)
    ensures ParseDecimal(Decimal(n)) == n
    decreases n
  {
    if n >= 10 {
      var r := Decimal(n);
      assert r[..|r| - 1] == Decimal(n / 10);
      ParseDecimalOfDecimal(n / 10);
    }
  }

  lemma DecimalInjective(a: nat, b: nat)
    ensures Decimal(a) == Decimal(b) <==> a == b
  {
    if Decimal(a) == Decimal(b) {
      ParseDecimalOfDecimal(a);
      ParseDecimalOfDecimal(b);
    }
  }

  /** A term code is a year's decimal digits followed by a two-character season code;
      both parts can be read back from the code. */
  lemma TermCodeParts(year: nat, suffix: string)
    requires |suffix| == 2
    ensures var code := Decimal(year) + suffix;
      && |code| >= 3
      && code[|code| - 2..] == suffix
      && AllDigits(code[..|code| - 2])
      && ParseDecimal(code[..|code| - 2]) == year
  {
    var code := Decimal(year) + suffix;
    assert code[..|code| - 2] == Decimal(year);
    assert code[|code| - 2..] == suffix;
    ParseDecimalOfDecimal(year);
  }

  lemma TermCodeInjective(y1: nat, s1: string, y2: nat, s2: string)
    requires |s1| == 2 && |s2| == 2
    ensures Decimal(y1) + s1 == Decimal(y2) + s2 <==> y1 == y2 && s1 == s2
  {
    if Decimal(y1) + s1 == Decimal(y2) + s2 {
      TermCodeParts(y1, s1);
      TermCodeParts(y2, s2);
    }
  }
}

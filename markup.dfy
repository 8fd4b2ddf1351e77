/** What the two components hand to the carousel: slides, and the decimal
    text of a slide number that template literals such as `${index + 1}`
    produce. */
module Markup {

  /** One carousel item: a `<video src>` or an `<img src alt>`. */
  datatype Slide = VideoSlide(src: string) | ImageSlide(src: string, alt: string)

  predicate IsDigit(c: char) {
    '0' <= c <= '9'
  }

  predicate AllDigits(s: string) {
    forall i :: 0 <= i < |s| ==> IsDigit(s[i])
  }

  function DigitChar(d: nat): (c: char)
    requires d < 10
    ensures IsDigit(c)
    ensures c as int - '0' as int == d
  {
    ('0' as int + d) as char
  }

  /** The text JavaScript gives a non-negative integer when it is written
      into a template literal: its decimal digits, no sign, no leading zero. */
  function NumberText(n: nat): (s: string)
    ensures |s| >= 1 && AllDigits(s)
    ensures |s| > 1 ==> s[0] != '0'
    decreases n
  {
    if n < 10 then [DigitChar(n)] else NumberText(n / 10) + [DigitChar(n % 10)]
  }

  /** Reads a string of decimal digits back as a number. */
  function ParseDigits(s: string): nat
    requires AllDigits(s)
    decreases |s|
  {
    if s == [] then 0
    else ParseDigits(s[..|s| - 1]) * 10 + (s[|s| - 1] as int - '0' as int)
  }

  /** Reading the text of a number back gives the number. */
  lemma {:induction false} ParseNumberText(n: nat)
    ensures ParseDigits(NumberText(n)) == n
    decreases n
  {
    var s := NumberText(n);
    if n < 10 {
      assert s[..|s| - 1] == [];
    } else {
      ParseNumberText(n / 10);
      assert s[..|s| - 1] == NumberText(n / 10);
    }
  }

  /** Different numbers have different texts. */
  lemma NumberTextInjective(m: nat, n: nat)
    requires m != n
    ensures NumberText(m) != NumberText(n)
  {
    ParseNumberText(m);
    ParseNumberText(n);
  }

  /** Two labels that share a prefix and end in different numbers differ:
      the alt texts `<title> - 1`, `<title> - 2`, ... are pairwise distinct. */
  lemma {:induction false} NumberedLabelsDistinct(prefix: string, m: nat, n: nat)
    requires m != n
    ensures prefix + NumberText(m) != prefix + NumberText(n)
  {
    NumberTextInjective(m, n);
    var a, b := prefix + NumberText(m), prefix + NumberText(n);
    assert a[|prefix|..] == NumberText(m);
    assert b[|prefix|..] == NumberText(n);
  }
}

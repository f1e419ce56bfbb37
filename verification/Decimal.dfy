/** Decimal printing of integers, as fmt does it, with the reading back that makes it injective. */
module Decimal {

  function Digit(d: nat): char
    requires d < 10
  {
    "0123456789"[d]
  }

  function DigitValue(c: char): int {
    c as int - '0' as int
  }

  /** "%d" of a natural number. */
  function Natural(n: nat): string {
    if n < 10 then [Digit(n)] else Natural(n / 10) + [Digit(n % 10)]
  }

  /** "%d". */
  function Integer(n: int): string {
    if n < 0 then "-" + Natural(-n) else Natural(n)
  }

  /** "%03d" of a natural number: at least three digits, wider numbers in full. */
  function Padded3(n: nat): string {
    if n < 10 then "00" + Natural(n) else if n < 100 then "0" + Natural(n) else Natural(n)
  }

  function Value(s: string): int {
    if s == "" then 0 else 10 * Value(s[..|s| - 1]) + DigitValue(s[|s| - 1])
  }

  lemma {:induction false} ReadNatural(n: nat)
    ensures Value(Natural(n)) == n
  {
    if n < 10 {
      assert Natural(n)[..0] == "";
    } else {
      ReadNatural(n / 10);
      assert Natural(n)[..|Natural(n)| - 1] == Natural(n / 10);
    }
  }

  lemma {:induction false} LeadingZero(s: string)
    ensures Value("0" + s) == Value(s)
  {
    if s == "" {
      assert ("0" + s)[..0] == "";
    } else {
      LeadingZero(s[..|s| - 1]);
      assert ("0" + s)[..|s|] == "0" + s[..|s| - 1];
    }
  }

  predicate AllDigits(s: string) {
    forall c :: c in s ==> '0' <= c <= '9'
  }

  /** A printed natural number has digits only and no leading zero, except 0 itself. */
  lemma {:induction false} NaturalForm(n: nat)
    ensures AllDigits(Natural(n)) && |Natural(n)| >= 1
    ensures |Natural(n)| > 1 ==> Natural(n)[0] != '0'
    ensures 10 <= n <==> 2 <= |Natural(n)|
    ensures 100 <= n <==> 3 <= |Natural(n)|
    ensures 0 < n ==> Natural(n)[0] != '0'
  {
    if n >= 10 {
      NaturalForm(n / 10);
    }
  }

  /** What "%03d" prints: digits only, three at least, no leading zero in a longer one, and the
      number itself when read back. Nothing else fits. */
  lemma Padded3Form(n: nat)
    ensures var s := Padded3(n);
            AllDigits(s) && |s| >= 3 && (|s| > 3 ==> s[0] != '0') && Value(s) == n
    ensures |Padded3(n)| == 3 <==> n < 1000
  {
    NaturalForm(n);
    ReadPadded3(n);
    if 100 <= n {
      NaturalLength(n);
    }
  }

  lemma NaturalLength(n: nat)
    requires 100 <= n
    ensures |Natural(n)| == 3 <==> n < 1000
  {
    assert Natural(n) == Natural(n / 10 / 10) + [Digit(n / 10 % 10)] + [Digit(n % 10)];
    NaturalForm(n / 10 / 10);
  }

  /** "%d": the digits of the absolute value, after a minus sign for a negative number. */
  lemma IntegerForm(n: int)
    ensures 0 <= n ==> AllDigits(Integer(n)) && Value(Integer(n)) == n && (|Integer(n)| > 1 ==> Integer(n)[0] != '0')
    ensures n < 0 ==>
              Integer(n) != "" && Integer(n)[0] == '-' && AllDigits(Integer(n)[1..]) && Value(Integer(n)[1..]) == -n
  {
    NaturalForm(if n < 0 then -n else n);
    ReadNatural(if n < 0 then -n else n);
  }

  /** Zero padding loses nothing: the printed number can be read back. */
  lemma ReadPadded3(n: nat)
    ensures Value(Padded3(n)) == n
  {
    ReadNatural(n);
    LeadingZero(Natural(n));
    LeadingZero("0" + Natural(n));
    assert "00" + Natural(n) == "0" + ("0" + Natural(n));
  }
}

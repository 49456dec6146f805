// Fixed-width numerals: Python's f"{n:016x}" and f"{n:010d}", and int(text, base).
module Numerals {
  datatype Radix = Decimal | Hexadecimal

  function Base(radix: Radix): nat {
    if radix.Decimal? then 10 else 16
  }

  function Quotient(n: nat, radix: Radix): nat {
    if radix.Decimal? then n / 10 else n / 16
  }

  function Remainder(n: nat, radix: Radix): nat {
    if radix.Decimal? then n % 10 else n % 16
  }

  function Scaled(n: nat, radix: Radix): nat {
    if radix.Decimal? then 10 * n else 16 * n
  }

  predicate IsDigit(c: char, radix: Radix) {
    '0' <= c <= '9' || (radix.Hexadecimal? && 'a' <= c <= 'f')
  }

  predicate AllDigits(s: string, radix: Radix) {
    forall i :: 0 <= i < |s| ==> IsDigit(s[i], radix)
  }

  function DigitOf(n: nat): char
    requires n < 16
  {
    if n < 10 then '0' + n as char else 'a' + (n - 10) as char
  }

  function ValueOf(c: char): nat
    requires IsDigit(c, Hexadecimal)
  {
    if c <= '9' then (c - '0') as nat else 10 + (c - 'a') as nat
  }

  // The numeral of n, padded with zeros to at least width digits.
  function Numeral(n: nat, width: nat, radix: Radix): string
    decreases n, width
  {
    if n < Base(radix) && width <= 1 then
      [DigitOf(n)]
    else
      Numeral(Quotient(n, radix), if width == 0 then 0 else width - 1, radix) + [DigitOf(Remainder(n, radix))]
  }

  function Parse(s: string, radix: Radix): nat
    requires AllDigits(s, radix)
  {
    if s == [] then 0
    else Scaled(Parse(s[..|s| - 1], radix), radix) + ValueOf(s[|s| - 1])
  }

  function Power(radix: Radix, width: nat): nat {
    if width == 0 then 1 else Scaled(Power(radix, width - 1), radix)
  }

  // A numeral reads back as the number it writes.
  lemma {:induction false} ParseNumeral(n: nat, width: nat, radix: Radix)
    ensures AllDigits(Numeral(n, width, radix), radix)
    ensures Parse(Numeral(n, width, radix), radix) == n
    decreases n, width
  {
    var s := Numeral(n, width, radix);
    if n < Base(radix) && width <= 1 {
      assert s[..0] == [];
    } else {
      var w := if width == 0 then 0 else width - 1;
      ParseNumeral(Quotient(n, radix), w, radix);
      assert s[..|s| - 1] == Numeral(Quotient(n, radix), w, radix);
    }
  }

  // Digits are the numeral, at their own width, of the number they read as: reading loses nothing.
  lemma {:induction false} NumeralParse(s: string, radix: Radix)
    requires s != [] && AllDigits(s, radix)
    ensures Numeral(Parse(s, radix), |s|, radix) == s
  {
    var front := s[..|s| - 1];
    assert s == front + [s[|s| - 1]];
    if front == [] {
      assert Parse(front, radix) == 0;
    } else {
      NumeralParse(front, radix);
      var n := Parse(s, radix);
      assert Quotient(n, radix) == Parse(front, radix) && Remainder(n, radix) == ValueOf(s[|s| - 1]);
    }
  }

  // A numeral keeps its width exactly when the number fits it.
  lemma {:induction false} NumeralLength(n: nat, width: nat, radix: Radix)
    requires width > 0
    ensures |Numeral(n, width, radix)| >= width
    ensures |Numeral(n, width, radix)| == width <==> n < Power(radix, width)
    decreases n, width
  {
    if width == 1 {
      assert Power(radix, 0) == 1;
      if n >= Base(radix) {
        NumeralNotEmpty(Quotient(n, radix), 0, radix);
      }
    } else {
      NumeralLength(Quotient(n, radix), width - 1, radix);
    }
  }

  lemma {:induction false} NumeralNotEmpty(n: nat, width: nat, radix: Radix)
    ensures Numeral(n, width, radix) != []
  {
  }
}

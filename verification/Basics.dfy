/** Value types and text helpers shared by the other modules. */
module Basics {
  datatype Option<+T> = None | Some(value: T)

  datatype Result<+T, +E> = Ok(value: T) | Err(error: E)

  type byte = x: int | 0 <= x < 256

  // ---- Decimal numerals: str(n) and int(text) on plain digits ----

  predicate IsDigit(c: char) { '0' <= c <= '9' }

  function DigitChar(d: nat): char
    requires d < 10
  {
    '0' + d as char
  }

  function DigitValue(c: char): nat
    requires IsDigit(c)
  {
    c as int - '0' as int
  }

  function Decimal(n: nat): (text: string)
    ensures text != [] && forall c <- text :: IsDigit(c)
    decreases n
  {
    if n < 10 then [DigitChar(n)] else Decimal(n / 10) + [DigitChar(n % 10)]
  }

  function DecimalValue(text: string): nat
    requires forall c <- text :: IsDigit(c)
  {
    if text == [] then 0 else 10 * DecimalValue(text[..|text| - 1]) + DigitValue(text[|text| - 1])
  }

  /** A numeral is read in base ten, digit by digit. */
  lemma NumeralTerms(text: string, d: nat)
    requires (forall c <- text :: c in "0123456789") && d < 10
    ensures IsDigit("0123456789"[d])
    ensures (forall c <- text :: IsDigit(c)) && DecimalValue([]) == 0
    ensures DecimalValue(text + ["0123456789"[d]]) == 10 * DecimalValue(text) + d
  {
    var c := "0123456789"[d];
    assert DigitValue(c) == d;
    assert (text + [c])[..|text|] == text;
  }

  lemma DigitIff(c: char)
    ensures IsDigit(c) <==> c in "0123456789"
  {
    if IsDigit(c) {
      var d := c as int - '0' as int;
      assert "0123456789"[d] == c;
    }
  }

  lemma {:induction false} DecimalRoundTrip(n: nat)
    ensures DecimalValue(Decimal(n)) == n
    decreases n
  {
    if n < 10 {
      assert Decimal(n)[..0] == [];
    } else {
      var text := Decimal(n);
      assert text[..|text| - 1] == Decimal(n / 10);
      DecimalRoundTrip(n / 10);
    }
  }
}

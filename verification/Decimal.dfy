/** Decimal numerals: fields of fixed width with leading zeros, and plain numerals. */
module Decimal {
  import opened Lexicographic

  function Digit(d: nat): char
    requires d < 10
  {
    (('0' as int) + d) as char
  }

  function Pow10(w: nat): nat {
    if w == 0 then 1 else 10 * Pow10(w - 1)
  }

  /** `n` in `w` decimal digits, with leading zeros. */
  function Field(n: nat, w: nat): (s: string)
    ensures |s| == w
  {
    if w == 0 then "" else Field(n / 10, w - 1) + [Digit(n % 10)]
  }

  /** The ten digits. */
  lemma DigitsAre()
    ensures Field(1234567890, 10) == "1234567890"
  {
    assert Field(1, 1) == "1" && Field(12, 2) == "12" && Field(123, 3) == "123" && Field(1234, 4) == "1234";
    assert Field(12345, 5) == "12345" && Field(123456, 6) == "123456" && Field(1234567, 7) == "1234567";
    assert Field(12345678, 8) == "12345678" && Field(123456789, 9) == "123456789";
  }

  predicate IsDigit(c: char) {
    '0' <= c <= '9'
  }

  predicate AllDigits(s: string) {
    forall c :: c in s ==> IsDigit(c)
  }

  function DigitValue(c: char): nat
    requires IsDigit(c)
  {
    (c as int) - ('0' as int)
  }

  function Value(s: string): nat
    requires AllDigits(s)
  {
    if s == "" then 0 else 10 * Value(s[..|s| - 1]) + DigitValue(s[|s| - 1])
  }

  lemma {:induction false} FieldReads(n: nat, w: nat)
    requires n < Pow10(w)
    ensures AllDigits(Field(n, w)) && Value(Field(n, w)) == n
  {
    if w > 0 {
      FieldReads(n / 10, w - 1);
      var s := Field(n, w);
      assert s[..|s| - 1] == Field(n / 10, w - 1);
    }
  }

  lemma {:induction false} FieldPrints(s: string)
    requires AllDigits(s)
    ensures Value(s) < Pow10(|s|) && Field(Value(s), |s|) == s
  {
    if s != "" {
      var init, c := s[..|s| - 1], s[|s| - 1];
      assert c in s && forall x :: x in init ==> x in s;
      FieldPrints(init);
      DivTen(Value(init), DigitValue(c));
      assert s == init + [c];
    }
  }

  lemma DivTen(v: nat, d: nat)
    requires d < 10
    ensures (10 * v + d) / 10 == v && (10 * v + d) % 10 == d
  {
  }

  /** Numbers of one width are ordered as their digits are. */
  lemma {:induction false} FieldOrder(n: nat, m: nat, w: nat)
    requires n < m < Pow10(w)
    ensures LexLess(Field(n, w), Field(m, w))
  {
    var a, b := Field(n / 10, w - 1), Field(m / 10, w - 1);
    LexConcat(a, [Digit(n % 10)], b, [Digit(m % 10)]);
    if n / 10 < m / 10 {
      FieldOrder(n / 10, m / 10, w - 1);
    } else {
      assert n % 10 < m % 10;
    }
  }

  /** `n` in decimal without leading zeros. */
  function Print(n: nat): string {
    if n < 10 then [Digit(n)] else Print(n / 10) + [Digit(n % 10)]
  }

  lemma {:induction false} PrintReads(n: nat)
    ensures Print(n) != "" && AllDigits(Print(n)) && Value(Print(n)) == n
  {
    var s := Print(n);
    if n < 10 {
      assert s[..|s| - 1] == "";
    } else {
      PrintReads(n / 10);
      assert s[..|s| - 1] == Print(n / 10) && s[|s| - 1] == Digit(n % 10);
    }
  }
}

/** Decimal and octal numerals as ASCII bytes. */
module Numerals {
  import opened Common

  const ZERO: byte := 48
  const NINE: byte := 57
  const PLUS: byte := 43
  const U64_LIMIT: nat := 0x1_0000_0000_0000_0000
  const U32_LIMIT: nat := 0x1_0000_0000

  predicate IsDigit(b: byte) {
    ZERO <= b <= NINE
  }

  predicate AllDigits(text: Bytes) {
    forall i :: 0 <= i < |text| ==> IsDigit(text[i])
  }

  function Numeral(n: nat, radix: nat): (r: Bytes)
    requires 2 <= radix <= 10
    ensures |r| > 0 && AllDigits(r)
    decreases n
  {
    var digit := [(n % radix) as byte + ZERO];
    if n < radix then digit else Numeral(n / radix, radix) + digit
  }

  function Decimal(n: nat): (r: Bytes)
    ensures |r| > 0 && AllDigits(r)
  {
    Numeral(n, 10)
  }

  function Value(text: Bytes): nat
    requires AllDigits(text)
  {
    if text == [] then 0 else 10 * Value(text[..|text| - 1]) + (text[|text| - 1] - ZERO) as nat
  }

  lemma {:induction false} ValueOfDecimal(n: nat)
    ensures Value(Decimal(n)) == n
  {
    if n >= 10 {
      ValueOfDecimal(n / 10);
      assert Decimal(n)[..|Decimal(n)| - 1] == Decimal(n / 10);
    }
  }

  /** A numeral has at most `k` digits below the `k`-th power of ten. */
  lemma {:induction false} DecimalLength(n: nat, k: nat)
    requires k > 0 && n < Power(k)
    ensures |Decimal(n)| <= k
  {
    if n >= 10 {
      DecimalLength(n / 10, k - 1);
    }
  }

  lemma {:induction false} U64Digits(n: nat)
    requires n < U64_LIMIT
    ensures |Decimal(n)| <= 20
  {
    assert Power(5) == 100000;
    assert Power(10) == 100000 * Power(5);
    assert Power(15) == 100000 * Power(10);
    assert Power(20) == 100000 * Power(15);
    DecimalLength(n, 20);
  }

  function Power(k: nat): nat {
    if k == 0 then 1 else 10 * Power(k - 1)
  }

  /** `str::parse::<u64>`: an optional plus sign, then digits, within range. */
  function ParseU64(text: Bytes): Option<nat> {
    var digits := if text != [] && text[0] == PLUS then text[1..] else text;
    if digits != [] && AllDigits(digits) && Value(digits) < U64_LIMIT then Some(Value(digits)) else None
  }

  lemma {:induction false} ParseDecimal(n: nat)
    requires n < U64_LIMIT
    ensures ParseU64(Decimal(n)) == Some(n)
  {
    ValueOfDecimal(n);
    assert Decimal(n)[0] != PLUS;
  }
}

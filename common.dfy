/**
 * Shared vocabulary of the model: an Option type, the range of a C `int`
 * (32-bit two's complement), C's truncating division and remainder, and
 * `std::to_string` on integers together with its inverse.
 */
module Common {

  datatype Option<T> = None | Some(value: T)

  const I32_MIN: int := -0x8000_0000
  const I32_MAX: int := 0x7fff_ffff

  /** A value representable in a 32-bit C `int`. */
  predicate IsI32(x: int) {
    I32_MIN <= x <= I32_MAX
  }

  function Abs(x: int): int {
    if x < 0 then -x else x
  }

  /** C's `/` on `int`: the quotient is truncated toward zero. */
  function CDiv(a: int, b: int): (q: int)
    requires b != 0
    ensures Abs(q) == Abs(a) / Abs(b)
    ensures q == 0 || ((q < 0) <==> ((a < 0) != (b < 0)))
  {
    var x, y := Abs(a), Abs(b);
    assert x >= 0 && y > 0;
    var m := x / y;
    assert m >= 0 by { DivNonNeg(x, y); }
    if (a < 0) == (b < 0) then m else -m
  }

  lemma DivNonNeg(x: int, y: int)
    requires x >= 0 && y > 0
    ensures x / y >= 0
  {
  }

  /** C's `%` on `int`: the remainder has the sign of the dividend. */
  function CMod(a: int, b: int): (r: int)
    requires b != 0
    ensures a == b * CDiv(a, b) + r
    ensures Abs(r) < Abs(b)
    ensures r == 0 || ((r < 0) == (a < 0))
  {
    var r := a - b * CDiv(a, b);
    CModBounds(a, b);
    r
  }

  lemma CModBounds(a: int, b: int)
    requires b != 0
    ensures var r := a - b * CDiv(a, b); Abs(r) < Abs(b) && (r == 0 || ((r < 0) == (a < 0)))
  {
    var m := Abs(a) / Abs(b);
    var k := Abs(a) % Abs(b);
    var p := Abs(b) * m;
    assert Abs(a) == p + k && 0 <= k < Abs(b);
    var q := CDiv(a, b);
    assert q == (if (a < 0) == (b < 0) then m else -m);
    SignedProduct(b, q, m, p);
  }

  /** `b * q` where `q` is `m` up to sign and `p` is `|b| * m`. */
  lemma SignedProduct(b: int, q: int, m: int, p: int)
    requires b != 0 && p == Abs(b) * m && (q == m || q == -m)
    ensures b * q == (if (b < 0) == (q == -m) then p else -p)
  {
    if q == -m {
      assert b * q == -(b * m);
    }
  }

  // ---------------------------------------------------------------------
  // Decimal text, as produced by std::to_string
  // ---------------------------------------------------------------------

  predicate IsDigit(c: char) {
    '0' <= c <= '9'
  }

  function DigitChar(d: nat): (c: char)
    requires d < 10
    ensures IsDigit(c) && c as int - '0' as int == d
  {
    ('0' as int + d) as char
  }

  predicate AllDigits(s: string) {
    forall i :: 0 <= i < |s| ==> IsDigit(s[i])
  }

  /** Decimal digits of `n`, most significant first, without leading zeros. */
  function NatToString(n: nat): (s: string)
    ensures |s| >= 1 && AllDigits(s)
    ensures s[0] == '0' <==> n == 0
    ensures n < 10 <==> |s| == 1
  {
    if n < 10 then [DigitChar(n)] else NatToString(n / 10) + [DigitChar(n % 10)]
  }

  /** `std::to_string(x)`: a leading '-' for negative values. */
  function IntToString(x: int): (s: string)
    ensures |s| >= 1
    ensures x < 0 <==> s[0] == '-'
    ensures x >= 0 ==> AllDigits(s)
    ensures x < 0 ==> |s| >= 2 && AllDigits(s[1..])
  {
    if x < 0 then "-" + NatToString(-x) else NatToString(x)
  }

  /** The value of a run of decimal digits, most significant first. */
  function DigitsValue(s: string): nat
    requires AllDigits(s)
  {
    if s == [] then 0
    else DigitsValue(s[..|s| - 1]) * 10 + (s[|s| - 1] as int - '0' as int)
  }

  lemma {:induction false} NatToStringValue(n: nat)
    ensures DigitsValue(NatToString(n)) == n
  {
    if n >= 10 {
      NatToStringValue(n / 10);
      var s := NatToString(n);
      assert s[..|s| - 1] == NatToString(n / 10);
    }
  }

  /** Distinct integers have distinct decimal texts. */
  lemma IntToStringInjective(x: int, y: int)
    requires IntToString(x) == IntToString(y)
    ensures x == y
  {
    if x < 0 {
      assert y < 0;
      NegativeText(x);
      NegativeText(y);
      ValueOfText(-x, -y);
    } else {
      assert y >= 0;
      ValueOfText(x, y);
    }
  }

  /** After the sign, the text of a negative number is the text of its magnitude. */
  lemma NegativeText(x: int)
    requires x < 0
    ensures IntToString(x)[1..] == NatToString(-x)
  {
    assert IntToString(x) == "-" + NatToString(-x);
  }

  lemma ValueOfText(m: nat, n: nat)
    requires NatToString(m) == NatToString(n)
    ensures m == n
  {
    NatToStringValue(m);
    NatToStringValue(n);
  }
}

/**
 * Python's string helpers used by the layouter: `str.ljust`, `str.rjust`
 * (space padding up to a width, never truncating) and `str(n)` for an int
 * (its decimal spelling), together with a decimal reader as the inverse of
 * the latter.
 */
module Text {

  /** `k` space characters (an empty string when `k` is not positive). */
  function Spaces(k: int): (r: string)
    ensures |r| == if k < 0 then 0 else k
    ensures forall i :: 0 <= i < |r| ==> r[i] == ' '
  {
    if k <= 0 then "" else Spaces(k - 1) + " "
  }

  predicate AllSpaces(s: string) {
    forall i :: 0 <= i < |s| ==> s[i] == ' '
  }

  function Max(a: int, b: int): int {
    if a < b then b else a
  }

  /** `x.ljust(w)`: `x` followed by spaces up to width `w`. */
  function Ljust(x: string, w: int): (r: string)
    ensures |r| == Max(|x|, w)
    ensures r[..|x|] == x
    ensures AllSpaces(r[|x|..])
  {
    x + Spaces(w - |x|)
  }

  /** `x.rjust(w)`: spaces up to width `w`, then `x`. */
  function Rjust(x: string, w: int): (r: string)
    ensures |r| == Max(|x|, w)
    ensures r[|r| - |x|..] == x
    ensures AllSpaces(r[..|r| - |x|])
  {
    Spaces(w - |x|) + x
  }

  /** Left and right justification add the same padding, on opposite sides. */
  lemma JustifyMirror(x: string, w: int)
    ensures exists pad :: AllSpaces(pad) && Ljust(x, w) == x + pad && Rjust(x, w) == pad + x
  {
    var pad := Spaces(w - |x|);
    assert Ljust(x, w) == x + pad && Rjust(x, w) == pad + x;
  }

  /** A field already as wide as the column is left as it is. */
  lemma JustifyWideField(x: string, w: int)
    requires w <= |x|
    ensures Ljust(x, w) == x && Rjust(x, w) == x
  {
    assert Spaces(w - |x|) == "";
  }

  predicate IsDigit(c: char) {
    '0' <= c <= '9'
  }

  predicate AllDigits(s: string) {
    forall i :: 0 <= i < |s| ==> IsDigit(s[i])
  }

  function DigitChar(d: nat): (c: char)
    requires d < 10
    ensures IsDigit(c)
  {
    ['0', '1', '2', '3', '4', '5', '6', '7', '8', '9'][d]
  }

  function DigitValue(c: char): (d: nat)
    requires IsDigit(c)
    ensures d < 10
  {
    (c as int - '0' as int) as nat
  }

  /** `str(n)` for a non-negative int: its digits, most significant first, no leading zero. */
  function NatToDecimal(n: nat): (r: string)
    ensures 1 <= |r|
    ensures AllDigits(r)
    ensures r[0] == '0' ==> n == 0 && |r| == 1
  {
    if n < 10 then [DigitChar(n)] else NatToDecimal(n / 10) + [DigitChar(n % 10)]
  }

  /** `str(n)` for any int: a minus sign before the magnitude when negative. */
  function IntToDecimal(n: int): (r: string)
    ensures 1 <= |r|
    ensures n < 0 <==> r[0] == '-'
    ensures AllDigits(if n < 0 then r[1..] else r)
    ensures |r| > (if n < 0 then 1 else 0) && ((if n < 0 then r[1] else r[0]) == '0' ==> n == 0)
  {
    if n < 0 then "-" + NatToDecimal(-n) else NatToDecimal(n)
  }

  /** Reads a string of decimal digits (the partner of NatToDecimal). */
  function DecimalToNat(s: string): nat
    requires AllDigits(s)
  {
    if |s| == 0 then 0 else 10 * DecimalToNat(s[..|s| - 1]) + DigitValue(s[|s| - 1])
  }

  /** Reads an optional minus sign and decimal digits. */
  function DecimalToInt(s: string): int
    requires 1 <= |s|
    requires AllDigits(if s[0] == '-' then s[1..] else s)
  {
    if s[0] == '-' then -(DecimalToNat(s[1..]) as int) else DecimalToNat(s)
  }

  lemma DigitRoundTrip(d: nat)
    requires d < 10
    ensures DigitValue(DigitChar(d)) == d
  {
  }

  /** Reading back the decimal spelling of `n` gives `n`. */
  lemma {:induction false} NatDecimalRoundTrip(n: nat)
    ensures DecimalToNat(NatToDecimal(n)) == n
  {
    var r := NatToDecimal(n);
    if n < 10 {
      DigitRoundTrip(n);
      assert r[..0] == "";
    } else {
      NatDecimalRoundTrip(n / 10);
      DigitRoundTrip(n % 10);
      assert r[..|r| - 1] == NatToDecimal(n / 10);
    }
  }

  lemma ReadSigned(d: string)
    requires 1 <= |d| && AllDigits(d)
    ensures DecimalToInt(d) == DecimalToNat(d)
    ensures DecimalToInt("-" + d) == -(DecimalToNat(d) as int)
  {
    assert IsDigit(d[0]);
    assert ("-" + d)[1..] == d;
  }

  /** `int(str(n)) == n` for every int, negative ones included. */
  lemma {:induction false} IntDecimalRoundTrip(n: int)
    ensures DecimalToInt(IntToDecimal(n)) == n
  {
    var m: nat := if n < 0 then -n else n;
    var d := NatToDecimal(m);
    assert IntToDecimal(n) == if n < 0 then "-" + d else d;
    ReadSigned(d);
    NatDecimalRoundTrip(m);
  }

  /** Distinct ints have distinct decimal spellings. */
  lemma IntDecimalInjective(m: int, n: int)
    requires IntToDecimal(m) == IntToDecimal(n)
    ensures m == n
  {
    IntDecimalRoundTrip(m);
    IntDecimalRoundTrip(n);
  }
}

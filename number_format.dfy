/**
 * Number-to-text conversions used by the exporters, on exact values:
 * `String(n)` for integers and `Number.prototype.toFixed(2)` for prices,
 * with the decimal readers that invert them.
 */
module NumberFormat {

  predicate IsDigit(c: char) {
    '0' <= c <= '9'
  }

  predicate AllDigits(s: string) {
    forall i :: 0 <= i < |s| ==> IsDigit(s[i])
  }

  function DigitChar(d: nat): (c: char)
    requires d < 10
    ensures IsDigit(c) && c as int - '0' as int == d
  {
    ('0' as int + d) as char
  }

  /** The decimal digits of `n`, most significant first, without leading zeros. */
  function NatToString(n: nat): (r: string)
    ensures |r| >= 1 && AllDigits(r)
    ensures |r| > 1 ==> r[0] != '0'
  {
    if n < 10 then [DigitChar(n)] else NatToString(n / 10) + [DigitChar(n % 10)]
  }

  /** `String(i)` for an integer-valued number. */
  function IntToString(i: int): string {
    if i < 0 then "-" + NatToString(-i) else NatToString(i)
  }

  /** The value of a string of decimal digits. */
  function DigitsValue(s: string): nat
    requires AllDigits(s)
  {
    if s == [] then 0 else DigitsValue(s[..|s| - 1]) * 10 + (s[|s| - 1] as int - '0' as int)
  }

  /** Reading back the digits `String(n)` produces gives `n`. */
  lemma {:induction false} NatToStringRoundTrip(n: nat)
    ensures DigitsValue(NatToString(n)) == n
  {
    if n >= 10 {
      NatToStringRoundTrip(n / 10);
      var s := NatToString(n);
      assert s[..|s| - 1] == NatToString(n / 10);
    }
  }

  /** Different naturals print differently. */
  lemma NatToStringInjective(m: nat, n: nat)
    requires NatToString(m) == NatToString(n)
    ensures m == n
  {
    NatToStringRoundTrip(m);
    NatToStringRoundTrip(n);
  }

  /** A price with at most two decimal places: a whole number of cents. */
  predicate WholeCents(x: real) {
    (x * 100.0).Floor as real == x * 100.0
  }

  /**
   * The integer `n` that `toFixed(2)` picks for a non-negative `x`: the one
   * for which `n / 100 - x` is closest to zero, the larger one on a tie.
   */
  function RoundedCents(x: real): (n: nat)
    requires x >= 0.0
    ensures (n as real) - 0.5 <= x * 100.0 < (n as real) + 0.5
  {
    (x * 100.0 + 0.5).Floor
  }

  function Fixed2NonNegative(x: real): string
    requires x >= 0.0
  {
    var n := RoundedCents(x);
    NatToString(n / 100) + "." + [DigitChar(n % 100 / 10), DigitChar(n % 10)]
  }

  /**
   * `x.toFixed(2)`: a sign for negative values, then the integer part, a
   * point and exactly two decimals.
   */
  function Fixed2(x: real): string {
    if x < 0.0 then "-" + Fixed2NonNegative(-x) else Fixed2NonNegative(x)
  }

  /** The value of a non-negative decimal `d+.dd` as `toFixed(2)` writes it. */
  function DecimalValue(s: string): real
    requires |s| >= 4 && s[|s| - 3] == '.'
    requires AllDigits(s[..|s| - 3]) && AllDigits(s[|s| - 2..])
  {
    (DigitsValue(s[..|s| - 3]) as real) + (DigitsValue(s[|s| - 2..]) as real) / 100.0
  }

  /** Two digits read back as the number below 100 they were written from. */
  lemma TwoDigitsValue(r: nat)
    requires r < 100
    ensures AllDigits([DigitChar(r / 10), DigitChar(r % 10)])
    ensures DigitsValue([DigitChar(r / 10), DigitChar(r % 10)]) == r
  {
    var fr := [DigitChar(r / 10), DigitChar(r % 10)];
    assert fr[..1] == [DigitChar(r / 10)];
    assert fr[..1][..0] == [];
    assert DigitsValue(fr[..1]) == r / 10;
  }

  /**
   * `toFixed(2)` of a non-negative whole number of cents is exact: it has the
   * shape `d+.dd` and reads back as the same value.
   */
  lemma Fixed2Exact(x: real)
    requires x >= 0.0 && WholeCents(x)
    ensures var s := Fixed2(x);
      |s| >= 4 && s[|s| - 3] == '.' && AllDigits(s[..|s| - 3]) && AllDigits(s[|s| - 2..]) &&
      DecimalValue(s) == x
  {
    var n := RoundedCents(x);
    assert n == (x * 100.0).Floor;
    var q, r := n / 100, n % 100;
    var ip := NatToString(q);
    var fr := [DigitChar(r / 10), DigitChar(r % 10)];
    var s := Fixed2(x);
    assert s == ip + "." + fr;
    assert s[..|s| - 3] == ip;
    assert s[|s| - 2..] == fr;
    NatToStringRoundTrip(q);
    TwoDigitsValue(r);
    assert (n as real) == (q as real) * 100.0 + (r as real);
  }
}

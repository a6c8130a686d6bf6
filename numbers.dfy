/**
 * Integer arithmetic the pages perform on counts: `Math.round(part / whole * 100)`
 * computed exactly, and the decimal rendering of a millisecond timestamp.
 */
module Numbers {

  /**
   * `Math.round(part / whole * 100)` for counts, computed exactly:
   * the integer nearest to 100 * part / whole, halves rounded up.
   */
  function RoundPercent(part: nat, whole: nat): (r: nat)
    requires whole > 0
    ensures 2 * whole * r <= 200 * part + whole < 2 * whole * (r + 1)
  {
    (200 * part + whole) / (2 * whole)
  }

  /** A rounded share of a whole lies between 0 and 100, and is 100 for the whole itself. */
  lemma RoundPercentRange(part: nat, whole: nat)
    requires whole > 0 && part <= whole
    ensures RoundPercent(part, whole) <= 100
    ensures part == whole ==> RoundPercent(part, whole) == 100
    ensures part == 0 ==> RoundPercent(part, whole) == 0
  {
    var r := RoundPercent(part, whole);
    assert whole * (2 * r) <= whole * 201;
    MulCancel(whole, 2 * r, 201);
    if part == whole {
      assert whole * 201 < whole * (2 * r + 2);
      MulStrict(whole, 201, 2 * r + 2);
    }
    if part == 0 {
      assert whole * (2 * r) <= whole * 1;
      MulCancel(whole, 2 * r, 1);
    }
  }

  lemma MulMonotone(k: nat, a: nat, b: nat)
    requires a <= b
    ensures k * a <= k * b
  {
  }

  lemma MulCancel(k: nat, a: nat, b: nat)
    requires k > 0
    ensures k * a <= k * b ==> a <= b
  {
    if b < a {
      MulMonotone(k, b + 1, a);
    }
  }

  lemma MulStrict(k: nat, a: nat, b: nat)
    ensures k * a < k * b ==> a < b
  {
    if b <= a {
      MulMonotone(k, b, a);
    }
  }

  function DigitChar(d: nat): char
    requires d < 10
  {
    ('0' as int + d) as char
  }

  predicate IsDigit(c: char)
  {
    '0' <= c <= '9'
  }

  function DigitValue(c: char): (d: nat)
    requires IsDigit(c)
    ensures d < 10
  {
    c as int - '0' as int
  }

  /** The decimal rendering of a natural number, as in `String(n)`. */
  function NatToString(n: nat): (s: string)
    ensures s != ""
    ensures forall i :: 0 <= i < |s| ==> IsDigit(s[i])
    decreases n
  {
    if n < 10 then [DigitChar(n)] else NatToString(n / 10) + [DigitChar(n % 10)]
  }

  /** The value of a string of decimal digits. */
  function ParseNat(s: string): nat
    requires forall i :: 0 <= i < |s| ==> IsDigit(s[i])
    decreases |s|
  {
    if s == "" then 0
    else ParseNat(s[..|s| - 1]) * 10 + DigitValue(s[|s| - 1])
  }

  /** Rendering a number in decimal loses nothing: parsing gives it back. */
  lemma {:induction false} ParseNatToString(n: nat)
    ensures ParseNat(NatToString(n)) == n
    decreases n
  {
    if n >= 10 {
      var s := NatToString(n);
      assert s[..|s| - 1] == NatToString(n / 10);
      ParseNatToString(n / 10);
    }
  }

  /** Distinct numbers render as distinct strings. */
  lemma NatToStringInjective(m: nat, n: nat)
    requires NatToString(m) == NatToString(n)
    ensures m == n
  {
    ParseNatToString(m);
    ParseNatToString(n);
  }
}

/**
 * Names of indexed parameters: a prefix followed by the decimal index, as
 * Python's "IFUNC%d" % k writes them (no sign, no leading zeros).
 */
module ParNames {

  /** Every character is one of '0'..'9'. */
  predicate IsDigits(s: string)
  {
    forall i :: 0 <= i < |s| ==> '0' <= s[i] <= '9'
  }

  function DigitChar(d: nat): char
    requires d < 10
  {
    (48 + d) as char
  }

  /** The decimal text of n, most significant digit first. */
  function DecimalString(n: nat): (s: string)
    ensures |s| >= 1 && IsDigits(s)
    ensures n >= 10 ==> s[0] != '0'
  {
    if n < 10 then [DigitChar(n)] else DecimalString(n / 10) + [DigitChar(n % 10)]
  }

  /** The number a string of decimal digits denotes. */
  function DecimalValue(s: string): nat
    requires IsDigits(s)
  {
    if s == [] then 0
    else DecimalValue(s[..|s| - 1]) * 10 + (s[|s| - 1] as int - 48)
  }

  /** Reading back the decimal text of n gives n. */
  lemma {:induction false} DecimalRoundTrip(n: nat)
    ensures DecimalValue(DecimalString(n)) == n
  {
    if n >= 10 {
      var s := DecimalString(n);
      assert s[..|s| - 1] == DecimalString(n / 10);
      DecimalRoundTrip(n / 10);
    }
  }

  /** The name of member k of a parameter family, e.g. "IFUNC3". */
  function PrefixName(prefix: string, k: nat): string
  {
    prefix + DecimalString(k)
  }

  /** Distinct indices of one family never share a name. */
  lemma PrefixNameInjective(prefix: string, j: nat, k: nat)
    requires PrefixName(prefix, j) == PrefixName(prefix, k)
    ensures j == k
  {
    var a, b := PrefixName(prefix, j), PrefixName(prefix, k);
    assert a[|prefix|..] == DecimalString(j);
    assert b[|prefix|..] == DecimalString(k);
    DecimalRoundTrip(j);
    DecimalRoundTrip(k);
  }
}

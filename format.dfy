/** Decimal rendering of integers, as Go's `%d` verb prints an `int`. */
module Format {

  function DigitChar(d: nat): (c: char)
    requires d < 10
  {
    "0123456789"[d]
  }

  function DigitValue(c: char): (d: nat)
    requires '0' <= c <= '9'
    ensures d < 10 && DigitChar(d) == c
  {
    (c as int - '0' as int) as nat
  }

  /** The digits of `n` in base ten, most significant first, without leading zeros. */
  function NatToString(n: nat): (s: string)
    decreases n
  {
    if n < 10 then [DigitChar(n)] else NatToString(n / 10) + [DigitChar(n % 10)]
  }

  /** `%d` of an int: an optional minus sign followed by the digits of its magnitude. */
  function IntToString(i: int): (s: string)
  {
    if i < 0 then "-" + NatToString(-i) else NatToString(i)
  }

  predicate IsDigits(s: string)
  {
    forall k :: 0 <= k < |s| ==> '0' <= s[k] <= '9'
  }

  /** Reads back a string of decimal digits. */
  function ParseDigits(s: string): (n: nat)
    requires IsDigits(s)
    decreases |s|
  {
    if s == [] then 0 else ParseDigits(s[..|s| - 1]) * 10 + DigitValue(s[|s| - 1])
  }

  /** Reads back what `IntToString` prints. */
  function ParseInt(s: string): (r: int)
    requires |s| > 0
    requires if s[0] == '-' then |s| > 1 && IsDigits(s[1..]) else IsDigits(s)
  {
    if s[0] == '-' then -(ParseDigits(s[1..]) as int) else ParseDigits(s)
  }

  /** The rendering is never empty and uses digits only. */
  lemma {:induction false} NatToStringDigits(n: nat)
    ensures |NatToString(n)| > 0 && IsDigits(NatToString(n))
    ensures NatToString(n)[0] != '-'
    decreases n
  {
    if n >= 10 {
      NatToStringDigits(n / 10);
    }
  }

  lemma {:induction false} NatRoundTrip(n: nat)
    ensures IsDigits(NatToString(n)) && ParseDigits(NatToString(n)) == n
    decreases n
  {
    NatToStringDigits(n);
    if n >= 10 {
      var prefix := NatToString(n / 10);
      NatRoundTrip(n / 10);
      assert (prefix + [DigitChar(n % 10)])[..|prefix|] == prefix;
    } else {
      assert NatToString(n)[..0] == [];
    }
  }

  /** `%d` loses nothing: parsing the rendering of any int gives the int back. */
  lemma {:induction false} IntRoundTrip(i: int)
    ensures |IntToString(i)| > 0
    ensures IntToString(i)[0] == '-' ==> |IntToString(i)| > 1 && IsDigits(IntToString(i)[1..])
    ensures IntToString(i)[0] != '-' ==> IsDigits(IntToString(i))
    ensures ParseInt(IntToString(i)) == i
  {
    var m: nat := if i < 0 then -i else i;
    var digits := NatToString(m);
    NatToStringDigits(m);
    NatRoundTrip(m);
    if i < 0 {
      var s := "-" + digits;
      assert s[1..] == digits;
      assert s[0] == '-';
      assert IntToString(i) == s;
    } else {
      assert IntToString(i) == digits;
    }
  }
}

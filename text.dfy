/** Small pieces of JavaScript's string behaviour that the handlers rely on. */
module Text {

  /** `String.prototype.startsWith`. */
  predicate StartsWith(s: string, prefix: string)
    ensures StartsWith(s, prefix) <==>
      |prefix| <= |s| && forall i :: 0 <= i < |prefix| ==> s[i] == prefix[i]
  {
    |prefix| <= |s| && s[..|prefix|] == prefix
  }

  predicate IsDigit(c: char) {
    '0' <= c <= '9'
  }

  function DigitChar(d: nat): (c: char)
    requires d < 10
    ensures IsDigit(c) && DigitValue(c) == d
  {
    (48 + d) as char
  }

  function DigitValue(c: char): nat
    requires IsDigit(c)
  {
    c as int - '0' as int
  }

  predicate AllDigits(s: string) {
    forall i :: 0 <= i < |s| ==> IsDigit(s[i])
  }

  /** Decimal rendering of a non-negative integer, as `Number.prototype.toString`
      writes one below 1e21: no leading zero, at least one digit. */
  function NatString(n: nat): (r: string)
    ensures 1 <= |r| && AllDigits(r)
    ensures r[0] == '0' ==> n == 0
    ensures |r| == 1 <==> n < 10
    decreases n
  {
    if n < 10 then [DigitChar(n)] else NatString(n / 10) + [DigitChar(n % 10)]
  }

  /** Decimal rendering of any integer: a `-` before the digits of a negative one. */
  function IntString(n: int): (r: string)
    ensures n >= 0 ==> r == NatString(n)
    ensures n < 0 ==> r == "-" + NatString(-n)
  {
    if n < 0 then "-" + NatString(-n) else NatString(n)
  }

  /** The inverse of NatString: the value of a string of decimal digits. */
  function ParseNat(s: string): nat
    requires AllDigits(s)
  {
    if s == [] then 0 else ParseNat(s[..|s| - 1]) * 10 + DigitValue(s[|s| - 1])
  }

  lemma {:induction false} ParseNatString(n: nat)
    ensures ParseNat(NatString(n)) == n
  {
    if n >= 10 {
      var s := NatString(n);
      assert s[..|s| - 1] == NatString(n / 10);
      ParseNatString(n / 10);
    }
  }

  /** An integer's text reads back as the integer: digits alone for one that
      is not negative, a `-` and the digits of its magnitude otherwise. */
  lemma IntStringReadsBack(n: int)
    ensures var r := IntString(n);
      && (n >= 0 ==> AllDigits(r) && ParseNat(r) == n)
      && (n < 0 ==> 1 <= |r| && r[0] == '-' && AllDigits(r[1..]) && ParseNat(r[1..]) == -n)
  {
    if n < 0 {
      ParseNatString(-n);
      assert IntString(n)[1..] == NatString(-n);
    } else {
      ParseNatString(n);
    }
  }

  /** `n` copies of `c`. */
  function Repeat(c: char, n: nat): (r: string)
    ensures |r| == n && forall i :: 0 <= i < n ==> r[i] == c
  {
    if n == 0 then [] else [c] + Repeat(c, n - 1)
  }

  /** `s.padStart(width, fill)` with a one-character fill string. */
  function PadStart(s: string, width: nat, fill: char): string
  {
    if |s| >= width then s else Repeat(fill, width - |s|) + s
  }

  /** The padded text is at least `width` long, ends with `s`, and holds
      nothing but `fill` before it. */
  lemma PadStartShape(s: string, width: nat, fill: char)
    ensures var r := PadStart(s, width, fill);
      && |r| == (if |s| >= width then |s| else width)
      && r[|r| - |s|..] == s
      && forall i :: 0 <= i < |r| - |s| ==> r[i] == fill
  {
    var r := PadStart(s, width, fill);
    if |s| < width {
      assert r[|r| - |s|..] == s;
    }
  }
}

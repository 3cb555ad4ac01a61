/** Decimal text of integers and its inverse. */
module Decimal {
  import opened Wrappers

  predicate IsDigit(c: char) { '0' <= c <= '9' }

  function Digit(d: nat): (c: char)
    requires d < 10
    ensures IsDigit(c) && (c as int) - ('0' as int) == d
  {
    "0123456789"[d]
  }

  function Digits(n: nat): string {
    if n < 10 then [Digit(n)] else Digits(n / 10) + [Digit(n % 10)]
  }

  function IntText(n: int): string {
    if n < 0 then "-" + Digits(-n) else Digits(n)
  }

  ghost predicate AllDigits(s: string) {
    forall i :: 0 <= i < |s| ==> IsDigit(s[i])
  }

  /** The length of the longest prefix of digits. */
  function DigitRun(s: string): (n: nat)
    ensures n <= |s| && AllDigits(s[..n])
  {
    if |s| == 0 || !IsDigit(s[0]) then 0
    else
      var n := DigitRun(s[1..]);
      assert s[..n + 1] == [s[0]] + s[1..][..n];
      n + 1
  }

  function Value(s: string): nat
    requires AllDigits(s)
  {
    if |s| == 0 then 0
    else 10 * Value(s[..|s| - 1]) + ((s[|s| - 1] as int) - ('0' as int))
  }

  lemma {:induction false} DigitsValue(n: nat)
    ensures AllDigits(Digits(n)) && |Digits(n)| > 0 && Value(Digits(n)) == n
  {
    if n >= 10 {
      DigitsValue(n / 10);
      var s := Digits(n);
      assert s[..|s| - 1] == Digits(n / 10);
    } else {
      var s := Digits(n);
      assert s[..0] == "";
    }
  }

  lemma {:induction false} RunOfDigits(s: string, rest: string)
    requires AllDigits(s) && (|rest| > 0 ==> !IsDigit(rest[0]))
    ensures DigitRun(s + rest) == |s|
  {
    if |s| == 0 {
      assert s + rest == rest;
    } else {
      assert (s + rest)[1..] == s[1..] + rest;
      RunOfDigits(s[1..], rest);
    }
  }

  /** Read an optional minus sign and the longest run of digits. */
  function ParseInt(s: string): (r: Option<(int, string)>)
    ensures r.Some? ==> |r.value.1| < |s|
  {
    var negative := |s| > 0 && s[0] == '-';
    var t := if negative then s[1..] else s;
    var n := DigitRun(t);
    if n == 0 then None
    else
      var v: int := Value(t[..n]);
      Some((if negative then -v else v, t[n..]))
  }

  /** Reading undoes writing, whatever non-digit follows. */
  lemma ParseIntText(n: int, rest: string)
    requires |rest| > 0 ==> !IsDigit(rest[0])
    ensures ParseInt(IntText(n) + rest) == Some((n, rest))
  {
    if n < 0 { ParseNegative(n, rest); } else { ParseNatural(n, rest); }
  }

  lemma ParseNatural(n: nat, rest: string)
    requires |rest| > 0 ==> !IsDigit(rest[0])
    ensures ParseInt(Digits(n) + rest) == Some((n, rest))
  {
    ParseDigits(n, rest);
  }

  lemma ParseNegative(n: int, rest: string)
    requires n < 0 && (|rest| > 0 ==> !IsDigit(rest[0]))
    ensures ParseInt("-" + Digits(-n) + rest) == Some((n, rest))
  {
    ParseDigits(-n, rest);
    var s := "-" + Digits(-n) + rest;
    assert s[0] == '-' && s[1..] == Digits(-n) + rest;
  }

  lemma ParseDigits(n: nat, rest: string)
    requires |rest| > 0 ==> !IsDigit(rest[0])
    ensures var s := Digits(n) + rest;
            var k := DigitRun(s);
            0 < k == |Digits(n)| && IsDigit(s[0]) && Value(s[..k]) == n && s[k..] == rest
  {
    var d := Digits(n);
    DigitsValue(n);
    RunOfDigits(d, rest);
    assert (d + rest)[..|d|] == d && (d + rest)[|d|..] == rest;
    assert (d + rest)[0] == d[0];
  }

  lemma IntTextInjective(a: int, b: int)
    requires IntText(a) == IntText(b)
    ensures a == b
  {
    ParseIntText(a, "");
    ParseIntText(b, "");
  }
}

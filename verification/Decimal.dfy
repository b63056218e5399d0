/** Decimal text of integers, as strconv.FormatInt writes it and encoding/json reads it. */
module Decimal {

  predicate IsDigit(c: char) {
    '0' <= c <= '9'
  }

  predicate AllDigits(s: string) {
    forall i :: 0 <= i < |s| ==> IsDigit(s[i])
  }

  function DigitValue(c: char): (d: int)
    requires IsDigit(c)
    ensures 0 <= d < 10
  {
    c as int - '0' as int
  }

  function DigitChar(d: int): (c: char)
    requires 0 <= d < 10
    ensures IsDigit(c) && DigitValue(c) == d
  {
    (d + '0' as int) as char
  }

  /** The base-10 text of a natural number, most significant digit first. */
  function NatText(n: nat): (s: string)
    ensures |s| > 0 && AllDigits(s)
  {
    if n < 10 then [DigitChar(n)] else NatText(n / 10) + [DigitChar(n % 10)]
  }

  /** The number a digit string denotes; the empty string denotes zero. */
  function NatValue(s: string): nat
    requires AllDigits(s)
  {
    if |s| == 0 then 0 else 10 * NatValue(s[..|s| - 1]) + DigitValue(s[|s| - 1])
  }

  /** A digit string without superfluous leading zeros. */
  predicate IsNatText(s: string) {
    |s| > 0 && AllDigits(s) && (s[0] == '0' ==> |s| == 1)
  }

  lemma {:induction false} NatTextRoundTrip(n: nat)
    ensures NatValue(NatText(n)) == n
    ensures IsNatText(NatText(n))
    ensures n > 0 ==> NatText(n)[0] != '0'
  {
    if n >= 10 {
      NatTextRoundTrip(n / 10);
      var s := NatText(n);
      assert s[..|s| - 1] == NatText(n / 10);
    } else {
      var s := NatText(n);
      assert s[..|s| - 1] == [];
    }
  }

  lemma {:induction false} NatTextUnique(s: string)
    requires IsNatText(s)
    ensures NatText(NatValue(s)) == s
    ensures s[0] != '0' ==> NatValue(s) > 0
  {
    var init, last := s[..|s| - 1], s[|s| - 1];
    if |s| == 1 {
      assert init == [];
    } else {
      NatTextUnique(init);
      assert NatValue(s) / 10 == NatValue(init);
      assert s == init + [last];
    }
  }

  /** strconv.FormatInt(i, 10). */
  function IntText(i: int): (s: string)
    ensures |s| > 0
  {
    if i < 0 then "-" + NatText(-i) else NatText(i)
  }

  lemma IntTextInjective(i: int, j: int)
    requires IntText(i) == IntText(j)
    ensures i == j
  {
    NatTextRoundTrip(if i < 0 then -i else i);
    NatTextRoundTrip(if j < 0 then -j else j);
    if i < 0 && j < 0 {
      assert IntText(i)[1..] == NatText(-i) && IntText(j)[1..] == NatText(-j);
    }
  }

  /** An integer literal of JSON: an optional minus sign, then digits without a leading zero. */
  predicate IsIntLiteral(s: string) {
    |s| > 0 && IsNatText(if s[0] == '-' then s[1..] else s)
  }

  function IntValue(s: string): int
    requires IsIntLiteral(s)
  {
    if s[0] == '-' then 0 - NatValue(s[1..]) as int else NatValue(s)
  }

  /** Two literals with one value are one text, unless one of them is minus zero. */
  lemma IntLiteralUnique(a: string, b: string)
    requires IsIntLiteral(a) && IsIntLiteral(b) && a != "-0" && b != "-0"
    requires IntValue(a) == IntValue(b)
    ensures a == b
  {
    var da, db := if a[0] == '-' then a[1..] else a, if b[0] == '-' then b[1..] else b;
    NatTextUnique(da);
    NatTextUnique(db);
    if a[0] == '-' {
      assert a == ['-'] + da;
    }
    if b[0] == '-' {
      assert b == ['-'] + db;
    }
    if NatValue(da) == 0 {
      NatTextRoundTrip(0);
      assert da == "0";
    }
  }
}

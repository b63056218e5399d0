/**
 Texts are compared here by character and in the source by byte (internal/models/primary_key.go:206-254);
 the order of characters is that of their UTF-8 bytes (section 3 of RFC 3629).
 */
module Utf8 {
  import opened PrimaryKeys

  function CharBytes(c: char): (bytes: seq<int>)
    ensures 1 <= |bytes| <= 4
  {
    var n := c as int;
    if n < 0x80 then [n]
    else if n < 0x800 then [0xC0 + n / 64, 0x80 + n % 64]
    else if n < 0x1_0000 then [0xE0 + n / 64 / 64, 0x80 + n / 64 % 64, 0x80 + n % 64]
    else [0xF0 + n / 64 / 64 / 64, 0x80 + n / 64 / 64 % 64, 0x80 + n / 64 % 64, 0x80 + n % 64]
  }

  function Encoded(s: string): seq<int> {
    if s == "" then [] else CharBytes(s[0]) + Encoded(s[1..])
  }

  /** bytes.Compare. */
  function CompareBytes(l: seq<int>, r: seq<int>): int {
    if |l| == 0 || |r| == 0 then CompareInts(|l|, |r|)
    else if l[0] != r[0] then CompareInts(l[0], r[0])
    else CompareBytes(l[1..], r[1..])
  }

  lemma {:induction false} SamePrefix(p: seq<int>, l: seq<int>, r: seq<int>)
    ensures CompareBytes(p + l, p + r) == CompareBytes(l, r)
    decreases |p|
  {
    if p == [] {
      assert p + l == l && p + r == r;
    } else {
      assert (p + l)[1..] == p[1..] + l && (p + r)[1..] == p[1..] + r;
      SamePrefix(p[1..], l, r);
    }
  }

  lemma SixBits(n: nat, m: nat)
    requires n < m
    ensures n / 64 < m / 64 || (n / 64 == m / 64 && n % 64 < m % 64)
  {
  }

  /** Longer characters start with larger bytes. */
  lemma FirstByte(c: char)
    ensures var n, first := |CharBytes(c)|, CharBytes(c)[0];
            && (n == 1 <==> first < 0x80) && (n == 2 <==> 0xC0 <= first < 0xE0)
            && (n == 3 <==> 0xE0 <= first < 0xF0) && (n == 4 <==> 0xF0 <= first)
  {
  }

  /** Up to some place the bytes are the same, and there one is smaller. */
  predicate SmallerAt(l: seq<int>, r: seq<int>, i: nat) {
    i < |l| && i < |r| && l[..i] == r[..i] && l[i] < r[i]
  }

  lemma SmallerChar(c: char, d: char) returns (i: nat)
    requires c < d
    ensures SmallerAt(CharBytes(c), CharBytes(d), i)
  {
    var n, m, l, r := c as int, d as int, CharBytes(c), CharBytes(d);
    FirstByte(c);
    FirstByte(d);
    SixBits(n, m);
    if |l| != |r| || |l| == 1 {
      i := 0;
    } else if n / 64 == m / 64 {
      i := |l| - 1;
      assert l[..i] == r[..i];
    } else {
      SixBits(n / 64, m / 64);
      if n / 64 / 64 == m / 64 / 64 {
        i := |l| - 2;
        assert l[..i] == r[..i];
      } else {
        SixBits(n / 64 / 64, m / 64 / 64);
        i := if n / 64 / 64 / 64 == m / 64 / 64 / 64 && |l| == 4 then 1 else 0;
        assert l[..i] == r[..i];
      }
    }
  }

  lemma SmallerCompares(l: seq<int>, r: seq<int>, i: nat, x: seq<int>, y: seq<int>)
    requires SmallerAt(l, r, i)
    ensures CompareBytes(l + x, r + y) == -1 && CompareBytes(r + y, l + x) == 1
  {
    var p, a, b := l[..i], l[i..] + x, r[i..] + y;
    assert l + x == p + a && r + y == p + b;
    SamePrefix(p, a, b);
    SamePrefix(p, b, a);
  }

  /** Comparing texts by character is comparing their bytes. */
  lemma {:induction false} TextOrderIsByteOrder(l: string, r: string)
    ensures CompareText(l, r) == CompareBytes(Encoded(l), Encoded(r))
  {
    if l != "" && r != "" {
      if l[0] == r[0] {
        SamePrefix(CharBytes(l[0]), Encoded(l[1..]), Encoded(r[1..]));
        TextOrderIsByteOrder(l[1..], r[1..]);
      } else if l[0] < r[0] {
        var i := SmallerChar(l[0], r[0]);
        SmallerCompares(CharBytes(l[0]), CharBytes(r[0]), i, Encoded(l[1..]), Encoded(r[1..]));
      } else {
        var i := SmallerChar(r[0], l[0]);
        SmallerCompares(CharBytes(r[0]), CharBytes(l[0]), i, Encoded(r[1..]), Encoded(l[1..]));
      }
    }
  }
}

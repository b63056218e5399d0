/** Primary keys and their order (internal/models/primary_key.go). */
module PrimaryKeys {
  import opened Decimal

  datatype Option<+T> = None | Some(value: T)

  datatype PrimaryKeyType = Unspecified | Boolean | Integer | String

  /** One column of a key; the value is the raw JSON text. */
  datatype PrimaryKeyPart = PrimaryKeyPart(column: string, typ: PrimaryKeyType, value: string)

  /** Alphabetical rank of the type names "", "boolean", "integer" and "string". */
  function TypeRank(t: PrimaryKeyType): int {
    match t
    case Unspecified => 0
    case Boolean => 1
    case Integer => 2
    case String => 3
  }

  function CompareInts(l: int, r: int): int {
    if l < r then -1 else if l > r then 1 else 0
  }

  /** Lexicographic comparison of texts. */
  function CompareText(l: string, r: string): (c: int)
    ensures -1 <= c <= 1
  {
    if |l| == 0 || |r| == 0 then CompareInts(|l|, |r|)
    else if l[0] != r[0] then CompareInts(l[0] as int, r[0] as int)
    else CompareText(l[1..], r[1..])
  }

  /** What decoding a raw JSON value into an int64 yields; null leaves the zero value. */
  function DecodeInt(s: string): Option<int> {
    if s == "null" then Some(0)
    else if IsIntLiteral(s) && -0x8000_0000_0000_0000 <= IntValue(s) < 0x8000_0000_0000_0000
    then Some(IntValue(s))
    else None
  }

  /** What decoding a raw JSON value into a bool yields; null leaves the zero value. */
  function DecodeBool(s: string): Option<bool> {
    if s == "true" then Some(true)
    else if s == "false" || s == "null" then Some(false)
    else None
  }

  function BoolRank(b: bool): int {
    if b then 1 else 0
  }

  function CompareValue(t: PrimaryKeyType, l: string, r: string): (c: int)
    ensures -1 <= c <= 1
  {
    match t
    case Integer =>
      if DecodeInt(l).None? || DecodeInt(r).None? then CompareText(l, r)
      else CompareInts(DecodeInt(l).value, DecodeInt(r).value)
    case Boolean =>
      if DecodeBool(l).None? || DecodeBool(r).None? then CompareText(l, r)
      else CompareInts(BoolRank(DecodeBool(l).value), BoolRank(DecodeBool(r).value))
    case _ => CompareText(l, r)
  }

  function ComparePart(l: PrimaryKeyPart, r: PrimaryKeyPart): (c: int)
    ensures -1 <= c <= 1
  {
    var byColumn := CompareText(l.column, r.column);
    if byColumn != 0 then byColumn
    else
      var byType := CompareInts(TypeRank(l.typ), TypeRank(r.typ));
      if byType != 0 then byType else CompareValue(l.typ, l.value, r.value)
  }

  /** The order of keys: the first differing part decides, then the length. */
  function KeyOrder(l: seq<PrimaryKeyPart>, r: seq<PrimaryKeyPart>): (c: int)
    ensures -1 <= c <= 1
  {
    if |l| == 0 || |r| == 0 then CompareInts(|l|, |r|)
    else if ComparePart(l[0], r[0]) != 0 then ComparePart(l[0], r[0])
    else KeyOrder(l[1..], r[1..])
  }

  method ComparePrimaryKeys(left: seq<PrimaryKeyPart>, right: seq<PrimaryKeyPart>) returns (c: int)
    ensures c == KeyOrder(left, right)
  {
    var limit := if |right| < |left| then |right| else |left|;
    var i := 0;
    while i < limit
      invariant 0 <= i <= limit
      invariant KeyOrder(left, right) == KeyOrder(left[i..], right[i..])
    {
      var cmp := ComparePart(left[i], right[i]);
      if cmp != 0 {
        return cmp;
      }
      assert left[i..][1..] == left[i + 1..] && right[i..][1..] == right[i + 1..];
      i := i + 1;
    }
    return if |left| < |right| then -1 else if |left| > |right| then 1 else 0;
  }

  // ---- order laws ----

  lemma {:induction false} TextOrder(a: string, b: string, c: string)
    ensures CompareText(a, b) == -CompareText(b, a)
    ensures CompareText(a, b) == 0 <==> a == b
    ensures CompareText(a, b) <= 0 && CompareText(b, c) <= 0 ==> CompareText(a, c) <= 0
    ensures CompareText(a, b) < 0 && CompareText(b, c) <= 0 ==> CompareText(a, c) < 0
    ensures CompareText(a, b) <= 0 && CompareText(b, c) < 0 ==> CompareText(a, c) < 0
    decreases |a|
  {
    if |a| > 0 && |b| > 0 {
      assert a == [a[0]] + a[1..] && b == [b[0]] + b[1..];
      if |c| > 0 {
        TextOrder(a[1..], b[1..], c[1..]);
      } else {
        TextOrder(a[1..], b[1..], c);
      }
    }
  }

  predicate WellFormedPart(p: PrimaryKeyPart) {
    match p.typ
    case Integer => DecodeInt(p.value).Some?
    case Boolean => DecodeBool(p.value).Some?
    case _ => true
  }

  predicate WellFormedKey(k: seq<PrimaryKeyPart>) {
    forall i :: 0 <= i < |k| ==> WellFormedPart(k[i])
  }

  lemma PartOrder(a: PrimaryKeyPart, b: PrimaryKeyPart, c: PrimaryKeyPart)
    requires WellFormedPart(a) && WellFormedPart(b) && WellFormedPart(c)
    ensures ComparePart(a, b) == -ComparePart(b, a)
    ensures ComparePart(a, a) == 0
    ensures ComparePart(a, b) <= 0 && ComparePart(b, c) <= 0 ==> ComparePart(a, c) <= 0
    ensures ComparePart(a, b) < 0 && ComparePart(b, c) <= 0 ==> ComparePart(a, c) < 0
    ensures ComparePart(a, b) <= 0 && ComparePart(b, c) < 0 ==> ComparePart(a, c) < 0
  {
    TextOrder(a.column, b.column, c.column);
    TextOrder(b.column, c.column, a.column);
    TextOrder(a.value, b.value, c.value);
    TextOrder(b.value, c.value, a.value);
    TextOrder(a.column, a.column, a.column);
    TextOrder(a.value, a.value, a.value);
  }

  /** ComparePrimaryKeys is a total preorder on well-formed keys. */
  lemma {:induction false} KeyOrderIsTotalPreorder(
    a: seq<PrimaryKeyPart>, b: seq<PrimaryKeyPart>, c: seq<PrimaryKeyPart>)
    requires WellFormedKey(a) && WellFormedKey(b) && WellFormedKey(c)
    ensures KeyOrder(a, b) == -KeyOrder(b, a)
    ensures KeyOrder(a, a) == 0
    ensures KeyOrder(a, b) <= 0 && KeyOrder(b, c) <= 0 ==> KeyOrder(a, c) <= 0
    ensures KeyOrder(a, b) < 0 && KeyOrder(b, c) <= 0 ==> KeyOrder(a, c) < 0
    ensures KeyOrder(a, b) <= 0 && KeyOrder(b, c) < 0 ==> KeyOrder(a, c) < 0
    decreases |a| + |b| + |c|
  {
    if |a| > 0 {
      PartOrder(a[0], a[0], a[0]);
      KeyOrderIsTotalPreorder(a[1..], [], []);
      if |b| > 0 {
        if |c| > 0 {
          PartOrder(a[0], b[0], c[0]);
          PartOrder(b[0], c[0], a[0]);
          KeyOrderIsTotalPreorder(a[1..], b[1..], c[1..]);
        } else {
          PartOrder(a[0], b[0], a[0]);
          KeyOrderIsTotalPreorder(a[1..], b[1..], []);
        }
      }
    }
  }

  /** With a malformed integer the fallback to byte order makes the comparison cyclic. */
  lemma MalformedIntegersBreakTheOrder()
    ensures var key := (v: string) => [PrimaryKeyPart("id", Integer, v)];
            && KeyOrder(key("10"), key("1x")) < 0
            && KeyOrder(key("1x"), key("9")) < 0
            && KeyOrder(key("9"), key("10")) < 0
  {
    assert "10"[..1] == "1" && "1"[..0] == "" && "9"[..0] == "";
    assert NatValue("1") == 10 * NatValue("") + 1;
    assert NatValue("10") == 10;
    assert NatValue("9") == 10 * NatValue("") + 9;
    assert DecodeInt("10") == Some(10) && DecodeInt("9") == Some(9);
    assert DecodeInt("1x").None? by {
      assert !IsDigit("1x"[1]);
    }
    assert "10"[1..] == "0" && "1x"[1..] == "x";
    assert CompareText("10", "1x") == CompareText("0", "x");
  }

  // ---- canonical keys ----

  /** The text PostgreSQL itself writes: no minus zero, no null, lower-case booleans. */
  predicate CanonicalPart(p: PrimaryKeyPart) {
    match p.typ
    case Integer => p.value != "-0" && p.value != "null" && DecodeInt(p.value).Some?
    case Boolean => p.value == "true" || p.value == "false"
    case _ => true
  }

  predicate CanonicalKey(k: seq<PrimaryKeyPart>) {
    forall i :: 0 <= i < |k| ==> CanonicalPart(k[i])
  }

  /** Keys as the rest of the model uses them. The empty key stands for "before every key". */
  type Key = k: seq<PrimaryKeyPart> | CanonicalKey(k) witness []

  predicate KeyLess(a: Key, b: Key) {
    KeyOrder(a, b) < 0
  }

  lemma PartZero(a: PrimaryKeyPart, b: PrimaryKeyPart)
    requires CanonicalPart(a) && CanonicalPart(b)
    requires ComparePart(a, b) == 0
    ensures a == b
  {
    TextOrder(a.column, b.column, a.column);
    TextOrder(a.value, b.value, a.value);
    if a.typ.Integer? {
      IntLiteralUnique(a.value, b.value);
    }
  }

  /** On canonical keys the comparison is zero only for equal keys. */
  lemma {:induction false} KeyOrderZero(a: Key, b: Key)
    requires KeyOrder(a, b) == 0
    ensures a == b
    decreases |a|
  {
    if |a| > 0 && |b| > 0 {
      PartZero(a[0], b[0]);
      KeyOrderZero(a[1..], b[1..]);
      assert a == [a[0]] + a[1..] && b == [b[0]] + b[1..];
    }
  }

  /** Exactly one of less, equal and greater holds. */
  lemma KeyTrichotomy(a: Key, b: Key)
    ensures !KeyLess(a, a)
    ensures !(KeyLess(a, b) && KeyLess(b, a))
    ensures a == b || KeyLess(a, b) || KeyLess(b, a)
  {
    KeyOrderIsTotalPreorder(a, b, a);
    if KeyOrder(a, b) == 0 {
      KeyOrderZero(a, b);
    }
  }

  lemma KeyTransitive(a: Key, b: Key, c: Key)
    requires KeyLess(a, b) && KeyLess(b, c)
    ensures KeyLess(a, c)
  {
    KeyOrderIsTotalPreorder(a, b, c);
  }
}

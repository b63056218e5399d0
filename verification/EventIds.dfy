/**
 The bytes hashed into an event id (internal/service/changefeed/service.go:207-243). SHA-256 is taken
 to be collision free, so the id of a change is modelled by the bytes themselves.
 */
module EventIds {
  import opened Decimal
  import opened PrimaryKeys
  import opened Rows

  function TypeText(t: PrimaryKeyType): string {
    match t
    case Unspecified => ""
    case Boolean => "boolean"
    case Integer => "integer"
    case String => "string"
  }

  function OperationText(op: Operation): string {
    match op
    case Insert => "insert"
    case Update => "update"
    case Upsert => "upsert"
    case Delete => "delete"
  }

  // Each encoder takes the text that follows.

  function Counted(n: nat, rest: string): string {
    NatText(n) + (":" + rest)
  }

  function Prefixed(s: string, rest: string): string {
    Counted(|s|, s + rest)
  }

  function PartText(p: PrimaryKeyPart, rest: string): string {
    Prefixed(p.column, Prefixed(TypeText(p.typ), Prefixed(p.value, rest)))
  }

  function PartsText(parts: seq<PrimaryKeyPart>, rest: string): string {
    if parts == [] then rest else PartText(parts[0], PartsText(parts[1..], rest))
  }

  function KeyText(key: seq<PrimaryKeyPart>, rest: string): string {
    Counted(|key|, PartsText(key, rest))
  }

  function Preimage(table: string, key: seq<PrimaryKeyPart>, version: int, op: Operation, rest: string): string {
    Prefixed(table, KeyText(key, Prefixed(IntText(version), Prefixed(OperationText(op), rest))))
  }

  /** The bytes that identify a change. */
  function EventId(table: string, key: seq<PrimaryKeyPart>, version: int, op: Operation): string {
    Preimage(table, key, version, op, "")
  }

  // ---- the writers ----

  class Hasher {
    var written: string

    constructor ()
      ensures written == ""
    {
      written := "";
    }

    method Write(data: string)
      modifies this
      ensures written == old(written) + data
    {
      written := written + data;
    }

    method WriteLengthPrefixed(value: string, ghost rest: string)
      modifies this
      ensures written + rest == old(written) + Prefixed(value, rest)
    {
      Write(NatText(|value|));
      Write(":");
      Write(value);
      assert written + rest == old(written) + (NatText(|value|) + (":" + (value + rest)));
    }

    method WritePart(part: PrimaryKeyPart, ghost rest: string)
      modifies this
      ensures written + rest == old(written) + PartText(part, rest)
    {
      WriteLengthPrefixed(part.column, Prefixed(TypeText(part.typ), Prefixed(part.value, rest)));
      WriteLengthPrefixed(TypeText(part.typ), Prefixed(part.value, rest));
      WriteLengthPrefixed(part.value, rest);
    }

    method WriteCount(n: nat, ghost rest: string)
      modifies this
      ensures written + rest == old(written) + Counted(n, rest)
    {
      Write(NatText(n));
      Write(":");
      assert written + rest == old(written) + (NatText(n) + (":" + rest));
    }

    method WritePrimaryKeyParts(parts: seq<PrimaryKeyPart>, ghost rest: string)
      modifies this
      ensures written + rest == old(written) + KeyText(parts, rest)
    {
      WriteCount(|parts|, PartsText(parts, rest));
      for i := 0 to |parts|
        invariant written + PartsText(parts[i..], rest) == old(written) + KeyText(parts, rest)
      {
        WritePart(parts[i], PartsText(parts[i + 1..], rest));
        assert parts[i..][1..] == parts[i + 1..];
      }
    }

    /** Writes the bytes of one change. */
    method WriteChange(table: string, key: seq<PrimaryKeyPart>, version: int, op: Operation)
      requires written == ""
      modifies this
      ensures written == EventId(table, key, version, op)
    {
      ghost var opText := Prefixed(OperationText(op), "");
      ghost var versionText := Prefixed(IntText(version), opText);
      WriteLengthPrefixed(table, KeyText(key, versionText));
      WritePrimaryKeyParts(key, versionText);
      WriteLengthPrefixed(IntText(version), opText);
      WriteLengthPrefixed(OperationText(op), "");
      assert written == written + "";
    }
  }

  // ---- unique decoding ----

  lemma {:induction false} DigitsEndAtColon(u: string, x: string, v: string, y: string)
    requires AllDigits(u) && AllDigits(v) && u + (":" + x) == v + (":" + y)
    ensures u == v && x == y
    decreases |u|
  {
    var l, r := u + (":" + x), v + (":" + y);
    assert l[0] == r[0];
    if u == "" || v == "" {
      assert u == "" && v == "";
      assert l[1..] == x && r[1..] == y;
    } else {
      assert l[1..] == u[1..] + (":" + x) && r[1..] == v[1..] + (":" + y);
      DigitsEndAtColon(u[1..], x, v[1..], y);
      assert u == [u[0]] + u[1..] && v == [v[0]] + v[1..];
    }
  }

  lemma CountedSplits(m: nat, x: string, n: nat, y: string)
    requires Counted(m, x) == Counted(n, y)
    ensures m == n && x == y
  {
    DigitsEndAtColon(NatText(m), x, NatText(n), y);
    NatTextRoundTrip(m);
    NatTextRoundTrip(n);
  }

  /** A length-prefixed text can be told from what follows it. */
  lemma PrefixedSplits(a: string, x: string, b: string, y: string)
    requires Prefixed(a, x) == Prefixed(b, y)
    ensures a == b && x == y
  {
    CountedSplits(|a|, a + x, |b|, b + y);
    assert (a + x)[..|a|] == a && (b + y)[..|b|] == b;
    assert (a + x)[|a|..] == x && (b + y)[|b|..] == y;
  }

  lemma PartSplits(a: PrimaryKeyPart, x: string, b: PrimaryKeyPart, y: string)
    requires PartText(a, x) == PartText(b, y)
    ensures a == b && x == y
  {
    var va, vb := Prefixed(a.value, x), Prefixed(b.value, y);
    PrefixedSplits(a.column, Prefixed(TypeText(a.typ), va), b.column, Prefixed(TypeText(b.typ), vb));
    PrefixedSplits(TypeText(a.typ), va, TypeText(b.typ), vb);
    PrefixedSplits(a.value, x, b.value, y);
  }

  lemma {:induction false} PartsSplit(a: seq<PrimaryKeyPart>, x: string, b: seq<PrimaryKeyPart>, y: string)
    requires |a| == |b| && PartsText(a, x) == PartsText(b, y)
    ensures a == b && x == y
    decreases |a|
  {
    if a != [] {
      PartSplits(a[0], PartsText(a[1..], x), b[0], PartsText(b[1..], y));
      PartsSplit(a[1..], x, b[1..], y);
      assert a == [a[0]] + a[1..] && b == [b[0]] + b[1..];
    }
  }

  lemma KeySplits(a: seq<PrimaryKeyPart>, x: string, b: seq<PrimaryKeyPart>, y: string)
    requires KeyText(a, x) == KeyText(b, y)
    ensures a == b && x == y
  {
    CountedSplits(|a|, PartsText(a, x), |b|, PartsText(b, y));
    PartsSplit(a, x, b, y);
  }

  /** The hashed bytes determine table, ordered key parts, version and operation, and their own end. */
  lemma PreimageSplits(
    table: string, key: seq<PrimaryKeyPart>, version: int, op: Operation, x: string,
    table': string, key': seq<PrimaryKeyPart>, version': int, op': Operation, y: string)
    requires Preimage(table, key, version, op, x) == Preimage(table', key', version', op', y)
    ensures table == table' && key == key' && version == version' && op == op' && x == y
  {
    var o, o' := Prefixed(OperationText(op), x), Prefixed(OperationText(op'), y);
    var v, v' := Prefixed(IntText(version), o), Prefixed(IntText(version'), o');
    PrefixedSplits(table, KeyText(key, v), table', KeyText(key', v'));
    KeySplits(key, v, key', v');
    PrefixedSplits(IntText(version), o, IntText(version'), o');
    IntTextInjective(version, version');
    PrefixedSplits(OperationText(op), x, OperationText(op'), y);
  }
}

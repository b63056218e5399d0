/**
 What the key order means, said of bytes, type names and values alone
 (internal/models/primary_key.go:85-105, 189-254).
 */
module KeyMeaning {
  import opened PrimaryKeys
  import opened Utf8
  import opened EventIds

  /** Bytes in lexicographic order: a proper prefix, or smaller at the first difference. */
  predicate BytesBefore(l: seq<int>, r: seq<int>) {
    exists i :: 0 <= i <= |l| && i < |r| && l[..i] == r[..i] && (i == |l| || l[i] < r[i])
  }

  predicate TextBefore(l: string, r: string) {
    BytesBefore(Encoded(l), Encoded(r))
  }

  /** Numbers by size, false before true, everything else by its bytes. */
  predicate ValueBefore(t: PrimaryKeyType, l: string, r: string) {
    if t.Integer? && DecodeInt(l).Some? && DecodeInt(r).Some? then DecodeInt(l).value < DecodeInt(r).value
    else if t.Boolean? && DecodeBool(l).Some? && DecodeBool(r).Some? then !DecodeBool(l).value && DecodeBool(r).value
    else TextBefore(l, r)
  }

  predicate SameValue(t: PrimaryKeyType, l: string, r: string) {
    if t.Integer? && DecodeInt(l).Some? && DecodeInt(r).Some? then DecodeInt(l) == DecodeInt(r)
    else if t.Boolean? && DecodeBool(l).Some? && DecodeBool(r).Some? then DecodeBool(l) == DecodeBool(r)
    else l == r
  }

  predicate SamePart(l: PrimaryKeyPart, r: PrimaryKeyPart) {
    l.column == r.column && l.typ == r.typ && SameValue(l.typ, l.value, r.value)
  }

  /** The column decides, then the name of the type, then the value. */
  predicate PartBefore(l: PrimaryKeyPart, r: PrimaryKeyPart) {
    || TextBefore(l.column, r.column)
    || (l.column == r.column && TextBefore(TypeText(l.typ), TypeText(r.typ)))
    || (l.column == r.column && l.typ == r.typ && ValueBefore(l.typ, l.value, r.value))
  }

  predicate DecidedAt(l: seq<PrimaryKeyPart>, r: seq<PrimaryKeyPart>, i: nat) {
    && i <= |l| && i < |r| && (forall j :: 0 <= j < i ==> SamePart(l[j], r[j]))
    && (i == |l| || PartBefore(l[i], r[i]))
  }

  /** The first parts that differ decide; a proper prefix comes first. */
  predicate KeyBefore(l: seq<PrimaryKeyPart>, r: seq<PrimaryKeyPart>) {
    exists i :: 0 <= i < |r| && DecidedAt(l, r, i)
  }

  // ---- bytes ----

  lemma {:induction false} CompareBytesMeans(l: seq<int>, r: seq<int>)
    ensures CompareBytes(l, r) < 0 <==> BytesBefore(l, r)
    ensures CompareBytes(l, r) == 0 <==> l == r
    ensures CompareBytes(l, r) > 0 <==> BytesBefore(r, l)
    decreases |l|
  {
    if l == [] || r == [] {
      if r != [] {
        assert l[..0] == r[..0];
      }
      if l != [] {
        assert r[..0] == l[..0];
      }
    } else if l[0] != r[0] {
      assert l[..0] == r[..0];
      FirstDecides(l, r);
      FirstDecides(r, l);
    } else {
      CompareBytesMeans(l[1..], r[1..]);
      assert l == [l[0]] + l[1..] && r == [r[0]] + r[1..];
      RestDecides(l, r);
      RestDecides(r, l);
    }
  }

  lemma FirstDecides(l: seq<int>, r: seq<int>)
    requires l != [] && r != [] && l[0] != r[0]
    ensures BytesBefore(l, r) <==> l[0] < r[0]
  {
    if l[0] < r[0] {
      assert l[..0] == r[..0];
    }
    if i :| 0 <= i <= |l| && i < |r| && l[..i] == r[..i] && (i == |l| || l[i] < r[i]) {
      if i > 0 {
        assert l[..i][0] == l[0] && r[..i][0] == r[0];
      }
    }
  }

  lemma RestDecides(l: seq<int>, r: seq<int>)
    requires l != [] && r != [] && l[0] == r[0]
    ensures BytesBefore(l, r) <==> BytesBefore(l[1..], r[1..])
  {
    if i :| 0 <= i <= |l| && i < |r| && l[..i] == r[..i] && (i == |l| || l[i] < r[i]) {
      assert i > 0;
      assert l[1..][..i - 1] == l[..i][1..] && r[1..][..i - 1] == r[..i][1..];
      assert i - 1 == |l[1..]| || l[1..][i - 1] < r[1..][i - 1];
    }
    if i :| 0 <= i <= |l[1..]| && i < |r[1..]| && l[1..][..i] == r[1..][..i]
            && (i == |l[1..]| || l[1..][i] < r[1..][i]) {
      assert l[..i + 1] == [l[0]] + l[1..][..i] && r[..i + 1] == [r[0]] + r[1..][..i];
      assert i + 1 == |l| || l[i + 1] < r[i + 1];
    }
  }

  lemma TextMeans(l: string, r: string)
    ensures CompareText(l, r) < 0 <==> TextBefore(l, r)
    ensures CompareText(l, r) == 0 <==> l == r
    ensures CompareText(l, r) > 0 <==> TextBefore(r, l)
  {
    TextOrderIsByteOrder(l, r);
    CompareBytesMeans(Encoded(l), Encoded(r));
    TextOrder(l, r, l);
  }

  // ---- parts ----

  /** The rank of a type is the place of its name. */
  lemma TypeMeans(l: PrimaryKeyType, r: PrimaryKeyType)
    ensures TypeRank(l) < TypeRank(r) <==> TextBefore(TypeText(l), TypeText(r))
    ensures TypeRank(l) == TypeRank(r) <==> l == r
  {
    TextMeans(TypeText(l), TypeText(r));
    assert CompareText("boolean", "integer") == -1 && CompareText("boolean", "string") == -1;
    assert CompareText("integer", "string") == -1 && CompareText("integer", "boolean") == 1;
    assert CompareText("string", "boolean") == 1 && CompareText("string", "integer") == 1;
    TextOrder(TypeText(l), TypeText(r), TypeText(l));
  }

  lemma ValueMeans(t: PrimaryKeyType, l: string, r: string)
    ensures CompareValue(t, l, r) < 0 <==> ValueBefore(t, l, r)
    ensures CompareValue(t, l, r) == 0 <==> SameValue(t, l, r)
    ensures CompareValue(t, l, r) > 0 <==> ValueBefore(t, r, l)
  {
    TextMeans(l, r);
  }

  lemma PartMeans(l: PrimaryKeyPart, r: PrimaryKeyPart)
    ensures ComparePart(l, r) < 0 <==> PartBefore(l, r)
    ensures ComparePart(l, r) == 0 <==> SamePart(l, r)
    ensures ComparePart(l, r) > 0 <==> PartBefore(r, l)
  {
    TextMeans(l.column, r.column);
    TextMeans(r.column, l.column);
    TextMeans(l.column, l.column);
    TypeMeans(l.typ, r.typ);
    TypeMeans(r.typ, l.typ);
    ValueMeans(l.typ, l.value, r.value);
  }

  // ---- keys ----

  lemma LaterDecides(l: seq<PrimaryKeyPart>, r: seq<PrimaryKeyPart>, i: nat)
    requires l != [] && r != [] && i > 0 && SamePart(l[0], r[0])
    ensures DecidedAt(l, r, i) <==> DecidedAt(l[1..], r[1..], i - 1)
  {
    if DecidedAt(l[1..], r[1..], i - 1) {
      forall j | 0 <= j < i
        ensures SamePart(l[j], r[j])
      {
        if j > 0 {
          assert SamePart(l[1..][j - 1], r[1..][j - 1]);
        }
      }
    }
  }

  lemma KeyFirst(l: seq<PrimaryKeyPart>, r: seq<PrimaryKeyPart>)
    requires l != [] && r != []
    ensures !SamePart(l[0], r[0]) ==> (KeyBefore(l, r) <==> PartBefore(l[0], r[0]))
    ensures SamePart(l[0], r[0]) && !PartBefore(l[0], r[0]) ==> (KeyBefore(l, r) <==> KeyBefore(l[1..], r[1..]))
  {
    if PartBefore(l[0], r[0]) {
      assert DecidedAt(l, r, 0);
    }
    if i :| 0 <= i < |r| && DecidedAt(l, r, i) {
      if i > 0 {
        LaterDecides(l, r, i);
        assert 0 <= i - 1 < |r[1..]|;
      }
    }
    if SamePart(l[0], r[0]) {
      if i :| 0 <= i < |r[1..]| && DecidedAt(l[1..], r[1..], i) {
        LaterDecides(l, r, i + 1);
        assert DecidedAt(l, r, i + 1);
      }
    }
  }

  predicate SameKey(l: seq<PrimaryKeyPart>, r: seq<PrimaryKeyPart>) {
    |l| == |r| && forall i :: 0 <= i < |l| ==> SamePart(l[i], r[i])
  }

  lemma SameFirst(l: seq<PrimaryKeyPart>, r: seq<PrimaryKeyPart>)
    requires l != [] && r != []
    ensures SameKey(l, r) <==> SamePart(l[0], r[0]) && SameKey(l[1..], r[1..])
  {
    if SamePart(l[0], r[0]) && SameKey(l[1..], r[1..]) {
      forall i | 0 <= i < |l|
        ensures SamePart(l[i], r[i])
      {
        if i > 0 {
          assert SamePart(l[1..][i - 1], r[1..][i - 1]);
        }
      }
    }
  }

  /** The comparison of any two keys, well formed or not, means what is said above. */
  lemma {:induction false} KeyOrderMeans(l: seq<PrimaryKeyPart>, r: seq<PrimaryKeyPart>)
    ensures KeyOrder(l, r) < 0 <==> KeyBefore(l, r)
    ensures KeyOrder(l, r) == 0 <==> SameKey(l, r)
    ensures KeyOrder(l, r) > 0 <==> KeyBefore(r, l)
    decreases |l|
  {
    if l == [] || r == [] {
      assert r != [] ==> (DecidedAt(l, r, 0) <==> l == []);
      assert l != [] ==> (DecidedAt(r, l, 0) <==> r == []);
    } else {
      PartMeans(l[0], r[0]);
      PartMeans(r[0], l[0]);
      KeyFirst(l, r);
      KeyFirst(r, l);
      SameFirst(l, r);
      KeyOrderMeans(l[1..], r[1..]);
    }
  }
}

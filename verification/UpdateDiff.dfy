/**
 Update diffs and their application are inverse (internal/service/changefeed/adapter/capture.go:321-353,
 internal/repository/postgres/events.go:132-260), and when several diffs of a row may share a batch.
 */
module UpdateDiff {
  import opened PrimaryKeys
  import opened Rows
  import opened BatchApply
  import opened Capture

  /** A tuple with a value for every column of its relation. */
  predicate Whole(r: Relation, tuple: Tuple) {
    forall c :: c in r.columns ==> Sent(r, tuple, c)
  }

  /** The row a new tuple stands for: a value that was not sent is the old one. */
  function Merged(r: Relation, was: Tuple, next: Tuple): Row
    requires Whole(r, was) && Whole(r, next)
  {
    map c | c in r.columns && c !in r.primaryKey ::
      ValueOf(if ColumnOf(r, next, c).ToastColumn? then ColumnOf(r, was, c) else ColumnOf(r, next, c))
  }

  /** An old tuple is sent in full, and the table has the relation's non-key columns. */
  predicate Matches(spec: TableSpec, r: Relation, was: Tuple, next: Tuple) {
    && Whole(r, was) && Whole(r, next) && !HasToast(r, was)
    && spec.columns == TuplePayload(r, was).Keys
  }

  predicate OwnedBy(spec: TableSpec, peer: string, row: Row) {
    spec.regionField.None? || Owner(spec, row) == Val(peer)
  }

  function Patched(row: Row, diff: Row): Row {
    map c | c in row :: if c in diff then diff[c] else row[c]
  }

  lemma DiffOverRow(spec: TableSpec, peer: string, diff: Row, row: Row)
    requires OwnedBy(spec, peer, row)
    ensures UpdateCell(spec, peer, diff, Some(row)) == Some(Patched(row, diff))
  {
    assert diff == map[] ==> Patched(row, diff) == row;
    assert Overwritten(row, diff.Keys, diff) == Patched(row, diff);
  }

  /** Column by column: the new row has the diff's values, and the old ones where the diff leaves out. */
  lemma DiffColumns(r: Relation, was: Tuple, next: Tuple)
    requires Whole(r, was) && Whole(r, next) && !HasToast(r, was)
    ensures var row, diff, merged := TuplePayload(r, was), DiffPayload(r, was, next), Merged(r, was, next);
            && row.Keys == merged.Keys && diff.Keys <= row.Keys
            && forall c :: c in row ==> merged[c] == if c in diff then diff[c] else row[c]
  {
    var row, diff, merged := TuplePayload(r, was), DiffPayload(r, was, next), Merged(r, was, next);
    assert row.Keys == merged.Keys;
    forall c | c in row
      ensures merged[c] == if c in diff then diff[c] else row[c]
    {
      assert Sent(r, was, c) && Sent(r, next, c) && !ColumnOf(r, was, c).ToastColumn?;
    }
  }

  /** Applying the diff to the old row gives the new one. */
  lemma PatchInvertsDiff(spec: TableSpec, peer: string, r: Relation, was: Tuple, next: Tuple)
    requires Matches(spec, r, was, next) && OwnedBy(spec, peer, TuplePayload(r, was))
    ensures UpdateCell(spec, peer, DiffPayload(r, was, next), Some(TuplePayload(r, was))) == Some(Merged(r, was, next))
  {
    var diff, row, merged := DiffPayload(r, was, next), TuplePayload(r, was), Merged(r, was, next);
    DiffOverRow(spec, peer, diff, row);
    DiffColumns(r, was, next);
    assert merged == Patched(row, diff);
  }

  predicate OnlyEventOfKey(es: seq<Event>, i: int)
    requires 0 <= i < |es|
  {
    forall j :: 0 <= j < |es| && es[j].key == es[i].key ==> j == i
  }

  lemma {:induction false} LastForOnly(es: seq<Event>, i: int)
    requires 0 <= i < |es| && OnlyEventOfKey(es, i)
    ensures LastFor(es, es[i].key) == Some(es[i])
  {
    LastForIsIn(es, es[i].key);
    assert es[i] in es;
  }

  /** In a batch, among other events, a diff turns the old row into the new one. */
  lemma BatchAppliesDiff(
    spec: TableSpec, mode: ApplyMode, peer: string, r: Relation, was: Tuple, next: Tuple, es: seq<Event>, i: int,
    t: Table)
    requires Matches(spec, r, was, next) && OwnedBy(spec, peer, TuplePayload(r, was)) && !mode.InsertOnlyMode?
    requires 0 <= i < |es| && OnlyEventOfKey(es, i)
    requires es[i].op == Update && es[i].peer == peer && es[i].fields == DiffPayload(r, was, next)
    requires CellAt(t, es[i].key) == Some(TuplePayload(r, was))
    ensures CellAt(GroupTable(spec, mode, es, t), es[i].key) == Some(Merged(r, was, next))
  {
    LastForOnly(es, i);
    GroupTableCell(spec, mode, es, t, es[i].key);
    PatchInvertsDiff(spec, peer, r, was, next);
  }

  // ---- several diffs of one row in one batch ----

  /** The columns in which two rows of a table differ. */
  function Differing(row: Row, other: Row): set<string>
    requires row.Keys == other.Keys
  {
    set c | c in row && row[c] != other[c]
  }

  /**
   Only the last event of a key is applied. Whatever else the batch holds, other diffs of the row
   included, the newest row results if and only if the last diff has every column in which the row
   before it differs from the stored one.
   */
  lemma LastDiffSufficesIff(
    spec: TableSpec, mode: ApplyMode, peer: string, r: Relation, was: Tuple, next: Tuple, es: seq<Event>, k: Key,
    t: Table)
    requires Matches(spec, r, was, next) && !mode.InsertOnlyMode?
    requires LastFor(es, k).Some? && k in t && t[k].Keys == spec.columns && OwnedBy(spec, peer, t[k])
    requires var e := LastFor(es, k).value; e.op == Update && e.peer == peer && e.fields == DiffPayload(r, was, next)
    ensures CellAt(GroupTable(spec, mode, es, t), k) == Some(Merged(r, was, next))
       <==> Differing(t[k], TuplePayload(r, was)) <= DiffPayload(r, was, next).Keys
  {
    var row, diff, merged := t[k], DiffPayload(r, was, next), Merged(r, was, next);
    GroupTableCell(spec, mode, es, t, k);
    DiffOverRow(spec, peer, diff, row);
    DiffColumns(r, was, next);
    if Patched(row, diff) == merged {
      forall c | c in Differing(row, TuplePayload(r, was))
        ensures c in diff
      {
        assert Patched(row, diff)[c] == merged[c];
      }
    } else {
      var c :| c in row && Patched(row, diff)[c] != merged[c];
      assert c in Differing(row, TuplePayload(r, was));
    }
  }
}

/**
 Polling over crashes and restarts: one table's saved cursor, the adapter's cursor, and what has been
 enqueued for every peer. Sources: internal/service/changefeed/adapter/polling.go:82-147,
 internal/service/changefeed/service.go:186-204, 245-306.
 */
module PollingRuns {
  import opened PrimaryKeys
  import opened Positions
  import opened Polling
  import Paging

  /**
   The table, the positions enqueued for every peer, the saved cursor, and the adapter's cursor while
   it runs. History: the newest version at the first start, the newest version ever written, and the
   positions that a later start from nothing skipped.
   */
  datatype State = State(
    view: View, enqueued: set<Position>, saved: Position, memory: Option<Position>,
    first: Option<int>, clock: int, skipped: set<Position>)

  /** What becomes of a page: how far handling it got before a failure or a crash. */
  datatype Outcome = Refused | EnqueuedOnly | SavedOnly | Accepted

  datatype Action =
    | Write(rows: View)
    | Remove(keys: set<Key>)
    | Start
    | Poll(outcome: Outcome)
    | Crash

  predicate Enabled(s: State, a: Action) {
    match a
    case Write(rows) => NoEmptyKey(rows) && forall k :: k in rows ==> rows[k] > s.clock
    case Remove(keys) => true
    case Start => s.memory.None?
    case Poll(outcome) => s.memory.Some? && PageOf(s.view, s.memory.value) != []
    case Crash => true
  }

  /** Rows written since the first start that are neither enqueued nor beyond a cursor. */
  function Unsent(s: State, cursor: Position): set<Position> {
    set p | p in PositionsOf(s.view) && p !in s.enqueued && !Beyond(cursor, p)
         && s.first.Some? && p.version > s.first.value
  }

  function Started(s: State): State {
    var cursor := if s.saved.version == 0 then Position(MaxVersion(s.view), []) else s.saved;
    if s.first.None? then s.(memory := Some(cursor), first := Some(MaxVersion(s.view)))
    else if s.saved.version == 0 then s.(memory := Some(cursor), skipped := s.skipped + Unsent(s, cursor))
    else s.(memory := Some(cursor))
  }

  function Polled(s: State, outcome: Outcome): State
    requires s.memory.Some? && PageOf(s.view, s.memory.value) != []
  {
    var page := PageOf(s.view, s.memory.value);
    var last := page[|page| - 1];
    var sent := s.enqueued + (set p | p in page);
    match outcome
    case Refused => s.(memory := None)
    case EnqueuedOnly => s.(enqueued := sent, memory := None)
    case SavedOnly => s.(enqueued := sent, saved := last, memory := None)
    case Accepted => s.(enqueued := sent, saved := last, memory := Some(last))
  }

  function NewestOf(rows: View, clock: int): int {
    if rows == map[] || MaxVersion(rows) < clock then clock else MaxVersion(rows)
  }

  function Step(s: State, a: Action): State
    requires Enabled(s, a)
  {
    match a
    case Write(rows) => s.(view := s.view + rows, clock := NewestOf(rows, s.clock))
    case Remove(keys) => s.(view := s.view - keys)
    case Start => Started(s)
    case Poll(outcome) => Polled(s, outcome)
    case Crash => s.(memory := None)
  }

  const INITIAL: State := State(map[], {}, Position(0, []), None, None, 0, {})

  predicate IsRun(s: State, run: seq<Action>)
    decreases |run|
  {
    run == [] || (Enabled(s, run[0]) && IsRun(Step(s, run[0]), run[1..]))
  }

  function After(s: State, run: seq<Action>): State
    requires IsRun(s, run)
    decreases |run|
  {
    if run == [] then s else After(Step(s, run[0]), run[1..])
  }

  // ---- the invariant ----

  function Current(s: State): Position {
    if s.memory.Some? then s.memory.value else s.saved
  }

  predicate Bounded(s: State) {
    && NoEmptyKey(s.view) && s.clock >= 0
    && (forall k :: k in s.view ==> 0 < s.view[k] <= s.clock)
    && 0 <= s.saved.version <= s.clock && 0 <= Current(s).version <= s.clock
    && (s.first.Some? ==> s.first.value >= 0)
  }

  predicate Aligned(s: State) {
    && (s.saved.version == 0 ==> s.saved == Position(0, []))
    && (s.saved.version != 0 ==> s.saved.key != [] && s.first.Some?)
    && (s.memory.Some? ==> s.first.Some?)
    && (s.memory.Some? && s.saved.version != 0 ==> s.memory.value == s.saved)
    && (s.memory.Some? && s.saved.version == 0 ==> s.memory.value.key == [])
  }

  /** A row since the first start is enqueued, skipped, or still to come. */
  predicate Accounted(s: State, p: Position) {
    s.first.Some? && p.version > s.first.value ==> p in s.enqueued || p in s.skipped || Beyond(Current(s), p)
  }

  /** A skipped row is never enqueued, and every cursor is past it. */
  predicate StaysSkipped(s: State, p: Position) {
    && p !in s.enqueued && s.first.Some? && p.version > s.first.value
    && (s.memory.Some? ==> !Beyond(s.memory.value, p))
    && (s.saved.version != 0 ==> !Beyond(s.saved, p))
  }

  predicate Inv(s: State) {
    && Bounded(s) && Aligned(s)
    && (forall p :: p in s.enqueued + s.skipped ==> p.version <= s.clock)
    && (forall p :: p in PositionsOf(s.view) ==> Accounted(s, p))
    && (forall p :: p in s.skipped && p in PositionsOf(s.view) ==> StaysSkipped(s, p))
  }

  lemma WriteKeeps(s: State, rows: View)
    requires Inv(s) && Enabled(s, Write(rows))
    ensures Inv(Step(s, Write(rows)))
  {
    var t := Step(s, Write(rows));
    forall p | p in PositionsOf(t.view)
      ensures Accounted(t, p) && (p in t.skipped ==> StaysSkipped(t, p))
    {
      PositionsAre(t.view, p);
      PositionsAre(s.view, p);
      if p !in PositionsOf(s.view) {
        assert p.key in rows && p.version > s.clock;
      }
    }
  }

  lemma RemoveKeeps(s: State, keys: set<Key>)
    requires Inv(s)
    ensures Inv(Step(s, Remove(keys)))
  {
    var t := Step(s, Remove(keys));
    forall p | p in PositionsOf(t.view)
      ensures Accounted(t, p) && (p in t.skipped ==> StaysSkipped(t, p))
    {
      PositionsAre(t.view, p);
      PositionsAre(s.view, p);
    }
  }

  lemma StartKeeps(s: State)
    requires Inv(s) && Enabled(s, Start)
    ensures Inv(Step(s, Start))
  {
    var t := Step(s, Start);
    forall p | p in t.enqueued + t.skipped
      ensures p.version <= t.clock
    {
      PositionsAre(s.view, p);
    }
    forall p | p in PositionsOf(t.view)
      ensures Accounted(t, p) && (p in t.skipped ==> StaysSkipped(t, p))
    {
      PositionsAre(s.view, p);
      assert p.version <= MaxVersion(s.view);
    }
  }

  lemma PolledPage(s: State, p: Position)
    requires Inv(s) && s.memory.Some? && PageOf(s.view, s.memory.value) != []
    ensures var page := PageOf(s.view, s.memory.value);
            var last := page[|page| - 1];
            && last in PositionsOf(s.view) && last.key != [] && Beyond(s.memory.value, last)
            && (p in page ==> p in PositionsOf(s.view) && Beyond(s.memory.value, p))
            && (p in PositionsOf(s.view) && Beyond(s.memory.value, p) ==> p in page || Beyond(last, p))
            && (!Beyond(s.memory.value, p) ==> !Beyond(last, p))
  {
    var cursor := s.memory.value;
    var all, page := Rest(s.view, cursor), PageOf(s.view, cursor);
    var last := page[|page| - 1];
    Paging.PageWithin(all, None, PAGE_SIZE);
    Paging.PageHolds(all, None, PAGE_SIZE);
    assert last in page;
    PositionsAre(s.view, last);
    BeforeTrichotomy(p, last);
    if Before(last, p) {
      BeyondTransitive(cursor, last, p);
    }
  }

  lemma PollKeeps(s: State, outcome: Outcome)
    requires Inv(s) && Enabled(s, Poll(outcome))
    ensures Inv(Step(s, Poll(outcome)))
  {
    var t := Step(s, Poll(outcome));
    var page := PageOf(s.view, s.memory.value);
    PolledPage(s, page[|page| - 1]);
    PositionsAre(s.view, page[|page| - 1]);
    forall p | p in t.enqueued + t.skipped
      ensures p.version <= t.clock
    {
      PolledPage(s, p);
      PositionsAre(s.view, p);
    }
    forall p | p in PositionsOf(t.view)
      ensures Accounted(t, p) && (p in t.skipped ==> StaysSkipped(t, p))
    {
      PositionsAre(s.view, p);
      PolledPage(s, p);
    }
  }

  lemma CrashKeeps(s: State)
    requires Inv(s)
    ensures Inv(Step(s, Crash))
  {
    var t := Step(s, Crash);
    forall p | p in PositionsOf(t.view)
      ensures Accounted(t, p) && (p in t.skipped ==> StaysSkipped(t, p))
    {
      PositionsAre(s.view, p);
    }
  }

  lemma {:induction false} RunKeeps(s: State, run: seq<Action>)
    requires Inv(s) && IsRun(s, run)
    ensures Inv(After(s, run))
    decreases |run|
  {
    if run != [] {
      match run[0] {
        case Write(rows) => WriteKeeps(s, rows);
        case Remove(keys) => RemoveKeeps(s, keys);
        case Start => StartKeeps(s);
        case Poll(outcome) => PollKeeps(s, outcome);
        case Crash => CrashKeeps(s);
      }
      RunKeeps(Step(s, run[0]), run[1..]);
    }
  }

  /**
   In every run, of the rows written since the first start, those that the saved cursor has passed
   without their being enqueued for every peer are exactly those a later start from nothing skipped.
   */
  lemma PassedUnsentIffSkipped(run: seq<Action>, p: Position)
    requires IsRun(INITIAL, run)
    requires var s := After(INITIAL, run);
             s.saved.version != 0 && p in PositionsOf(s.view) && s.first.Some? && p.version > s.first.value
    ensures var s := After(INITIAL, run);
            p !in s.enqueued && !Beyond(s.saved, p) <==> p in s.skipped
  {
    RunKeeps(INITIAL, run);
  }

  /** Starts that find a saved cursor, or nothing unsent, skip nothing. */
  predicate NoBlindStart(s: State, run: seq<Action>)
    requires IsRun(s, run)
    decreases |run|
  {
    run == [] ||
    ((run[0].Start? && s.first.Some? && s.saved.version == 0 ==> Unsent(s, Position(MaxVersion(s.view), [])) == {})
     && NoBlindStart(Step(s, run[0]), run[1..]))
  }

  lemma {:induction false} NothingSkipped(s: State, run: seq<Action>)
    requires IsRun(s, run) && NoBlindStart(s, run)
    ensures After(s, run).skipped == s.skipped
    decreases |run|
  {
    if run != [] {
      NothingSkipped(Step(s, run[0]), run[1..]);
    }
  }

  /** Then the saved cursor never passes a row that is not enqueued for every peer. */
  lemma SavedCursorIsSafe(run: seq<Action>, p: Position)
    requires IsRun(INITIAL, run) && NoBlindStart(INITIAL, run)
    requires var s := After(INITIAL, run); p in PositionsOf(s.view) && s.first.Some? && p.version > s.first.value
    ensures var s := After(INITIAL, run); Beyond(s.saved, p) || p in s.enqueued
  {
    RunKeeps(INITIAL, run);
    NothingSkipped(INITIAL, run);
    var s := After(INITIAL, run);
    PositionsAre(s.view, p);
    assert Accounted(s, p);
  }

  // ---- a run that loses a row ----

  /**
   A row is written after the first start, the adapter stops before its first batch is saved, and the
   next start takes the newest version as its baseline: the row is skipped, and the saved cursor
   passes it with the next row.
   */
  lemma BlindStartLosesARow(a: Key, b: Key)
    requires a != [] && b != [] && a != b
    ensures var run := [Start, Write(map[a := 1]), Crash, Start, Write(map[b := 2]), Poll(Accepted)];
            && IsRun(INITIAL, run)
            && var s := After(INITIAL, run);
               s.saved == Position(2, b) && Position(1, a) in PositionsOf(s.view) && Position(1, a) !in s.enqueued
               && s.first == Some(0) && !Beyond(s.saved, Position(1, a))
  {
    var s1 := INITIAL.(memory := Some(Position(0, [])), first := Some(0));
    var s2 := s1.(view := map[a := 1], clock := 1);
    var s3 := s2.(memory := None);
    var s4 := s3.(memory := Some(Position(1, [])), skipped := Unsent(s3, Position(1, [])));
    var s5 := s4.(view := map[a := 1, b := 2], clock := 2);
    var s6 := s5.(enqueued := {Position(2, b)}, saved := Position(2, b), memory := Some(Position(2, b)));
    BlindStartSteps(a, b, s1, s2, s3, s4);
    OneRow(b, 2);
    assert s4.view + map[b := 2] == s5.view;
    OnlyRowPolled(s5.view, a, b);
    assert s5.enqueued + (set p | p in [Position(2, b)]) == s6.enqueued;
    PositionsAre(s6.view, Position(1, a));
    var run := [Start, Write(map[a := 1]), Crash, Start, Write(map[b := 2]), Poll(Accepted)];
    RunOfSix(run, s1, s2, s3, s4, s5, s6);
  }

  lemma BlindStartSteps(a: Key, b: Key, s1: State, s2: State, s3: State, s4: State)
    requires a != []
    requires s1 == INITIAL.(memory := Some(Position(0, [])), first := Some(0))
    requires s2 == s1.(view := map[a := 1], clock := 1) && s3 == s2.(memory := None)
    requires s4 == s3.(memory := Some(Position(1, [])), skipped := Unsent(s3, Position(1, [])))
    ensures s1 == Step(INITIAL, Start)
    ensures Enabled(s1, Write(map[a := 1])) && s2 == Step(s1, Write(map[a := 1]))
    ensures s3 == Step(s2, Crash) && s4 == Step(s3, Start)
  {
    OneRow(a, 1);
    assert s1.view + map[a := 1] == s2.view;
    assert s3.skipped + Unsent(s3, Position(1, [])) == s4.skipped;
  }

  lemma OneRow(k: Key, v: int)
    ensures MaxVersion(map[k := v]) == v
  {
    var view: View := map[k := v];
    assert k in view && view[k] == v;
    assert IsMaxVersion(view, MaxVersion(view));
    assert view != map[];
  }

  lemma OnlyRowPolled(view: View, a: Key, b: Key)
    requires a != [] && b != [] && a != b && view == map[a := 1, b := 2]
    ensures PageOf(view, Position(1, [])) == [Position(2, b)]
  {
    var rest := Rest(view, Position(1, []));
    forall p
      ensures p in rest <==> p == Position(2, b)
    {
      PositionsAre(view, p);
    }
    assert rest == {Position(2, b)};
    assert Paging.Rest(rest, None) == rest;
    Paging.OrderedIs(rest);
    assert |Paging.Ordered(rest)| == 1;
    assert Paging.Ordered(rest)[0] in Paging.Ordered(rest);
  }

  lemma RunOfSix(run: seq<Action>, s1: State, s2: State, s3: State, s4: State, s5: State, s6: State)
    requires |run| == 6
    requires Enabled(INITIAL, run[0]) && s1 == Step(INITIAL, run[0])
    requires Enabled(s1, run[1]) && s2 == Step(s1, run[1])
    requires Enabled(s2, run[2]) && s3 == Step(s2, run[2])
    requires Enabled(s3, run[3]) && s4 == Step(s3, run[3])
    requires Enabled(s4, run[4]) && s5 == Step(s4, run[4])
    requires Enabled(s5, run[5]) && s6 == Step(s5, run[5])
    ensures IsRun(INITIAL, run) && After(INITIAL, run) == s6
  {
    var r5, r4, r3, r2, r1 := run[5..], run[4..], run[3..], run[2..], run[1..];
    assert r5[1..] == [] && r4[1..] == r5 && r3[1..] == r4 && r2[1..] == r3 && r1[1..] == r2;
    assert IsRun(s5, r5) && After(s5, r5) == s6;
    assert IsRun(s4, r4) && After(s4, r4) == s6;
    assert IsRun(s3, r3) && After(s3, r3) == s6;
    assert IsRun(s2, r2) && After(s2, r2) == s6;
    assert IsRun(s1, r1) && After(s1, r1) == s6;
  }
}

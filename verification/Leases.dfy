/**
 Lease rows and sessions (internal/repository/postgres/state_leases.go, internal/service/lease/service.go)
 under one clock that does not go back.
 */
module Leases {
  import opened PrimaryKeys
  import opened Rows

  datatype Scope = Scope(kind: string, region: string, peerRegion: string, table: string)

  datatype Lease = Lease(owner: string, generation: nat, expires: int)

  // ---- one row ----

  /** A lease can be taken when it is free, expired, or one's own. */
  predicate Available(row: Option<Lease>, owner: string, now: int) {
    row.None? || row.value.expires <= now || row.value.owner == owner
  }

  /** The row after a successful acquire: the generation counts changes of owner. */
  function Taken(row: Option<Lease>, owner: string, now: int, ttl: int): Lease {
    var generation := if row.None? then 1
                      else if row.value.owner == owner then row.value.generation
                      else row.value.generation + 1;
    Lease(owner, generation, now + ttl)
  }

  predicate Renewable(row: Option<Lease>, owner: string, generation: nat, now: int) {
    row.Some? && row.value.owner == owner && row.value.generation == generation && row.value.expires > now
  }

  predicate Releasable(row: Option<Lease>, owner: string, generation: nat) {
    row.Some? && row.value.owner == owner && row.value.generation == generation
  }

  class LeaseTable {
    var rows: map<Scope, Lease>

    constructor ()
      ensures rows == map[]
    {
      rows := map[];
    }

    function Row(scope: Scope): Option<Lease>
      reads this
    {
      if scope in rows then Some(rows[scope]) else None
    }

    /** A non-positive time to live is an error; otherwise the lease is taken if it is available. */
    method TryAcquire(scope: Scope, owner: string, now: int, ttl: int) returns (lease: Result<Option<Lease>>)
      modifies this
      ensures ttl <= 0 ==> lease == Failure && rows == old(rows)
      ensures ttl > 0 && !Available(old(Row(scope)), owner, now) ==> lease == Success(None) && rows == old(rows)
      ensures ttl > 0 && Available(old(Row(scope)), owner, now) ==>
                && lease == Success(Some(Taken(old(Row(scope)), owner, now, ttl)))
                && rows == old(rows)[scope := Taken(old(Row(scope)), owner, now, ttl)]
    {
      if ttl <= 0 {
        return Failure;
      }
      if scope !in rows {
        rows := rows[scope := Lease(owner, 1, now + ttl)];
        return Success(Some(rows[scope]));
      }
      var l := rows[scope];
      if l.expires <= now || l.owner == owner {
        var generation := if l.owner == owner then l.generation else l.generation + 1;
        rows := rows[scope := Lease(owner, generation, now + ttl)];
        return Success(Some(rows[scope]));
      }
      return Success(None);
    }

    method Renew(scope: Scope, owner: string, generation: nat, now: int, ttl: int)
      returns (lease: Result<Option<Lease>>)
      modifies this
      ensures ttl <= 0 ==> lease == Failure && rows == old(rows)
      ensures ttl > 0 && !Renewable(old(Row(scope)), owner, generation, now) ==>
                lease == Success(None) && rows == old(rows)
      ensures ttl > 0 && Renewable(old(Row(scope)), owner, generation, now) ==>
                && lease == Success(Some(Lease(owner, generation, now + ttl)))
                && rows == old(rows)[scope := Lease(owner, generation, now + ttl)]
    {
      if ttl <= 0 {
        return Failure;
      }
      var row := if scope in rows then Some(rows[scope]) else None;
      if row.Some? && row.value.owner == owner && row.value.generation == generation && row.value.expires > now {
        rows := rows[scope := rows[scope].(expires := now + ttl)];
        return Success(Some(rows[scope]));
      }
      return Success(None);
    }

    method Release(scope: Scope, owner: string, generation: nat) returns (released: bool)
      modifies this
      ensures released <==> Releasable(old(Row(scope)), owner, generation)
      ensures rows == if released then old(rows) - {scope} else old(rows)
    {
      released := scope in rows && rows[scope].owner == owner && rows[scope].generation == generation;
      if released {
        rows := rows - {scope};
      }
    }

    method CleanupExpired(now: int)
      modifies this
      ensures forall s :: s in rows <==> s in old(rows) && old(rows)[s].expires > now
      ensures forall s :: s in rows ==> rows[s] == old(rows)[s]
    {
      rows := map s | s in rows && rows[s].expires > now :: rows[s];
    }
  }

  // ---- sessions on one scope ----

  /** A worker's session: what it knows of its lease, and whether its context is cancelled. */
  datatype Session = Session(generation: nat, expires: int, cancelled: bool)

  datatype State = State(row: Option<Lease>, now: int, sessions: map<string, Session>)

  datatype Action =
    | Tick(now: int)
    | Acquire(owner: string)
    | Renew(owner: string)
    | Fail(owner: string)
    | Release(owner: string)
    | Crash(owner: string)
    | Cleanup

  predicate Enabled(s: State, a: Action) {
    match a
    case Tick(now) => now >= s.now
    case Acquire(owner) => owner !in s.sessions
    case Renew(owner) => owner in s.sessions && !s.sessions[owner].cancelled
    case Fail(owner) => owner in s.sessions
    case Release(owner) => owner in s.sessions && s.sessions[owner].cancelled
    case Crash(owner) => owner in s.sessions
    case Cleanup => true
  }

  /** An acquire that misses changes nothing; a renewal that misses cancels the session. */
  function Step(ttl: int, s: State, a: Action): State
    requires Enabled(s, a)
  {
    match a
    case Tick(now) => s.(now := now)
    case Acquire(owner) =>
      if Available(s.row, owner, s.now) then
        var l := Taken(s.row, owner, s.now, ttl);
        s.(row := Some(l), sessions := s.sessions[owner := Session(l.generation, l.expires, false)])
      else s
    case Renew(owner) =>
      var x := s.sessions[owner];
      if Renewable(s.row, owner, x.generation, s.now) then
        s.(row := Some(Lease(owner, x.generation, s.now + ttl)),
           sessions := s.sessions[owner := x.(expires := s.now + ttl)])
      else s.(sessions := s.sessions[owner := x.(cancelled := true)])
    case Fail(owner) => s.(sessions := s.sessions[owner := s.sessions[owner].(cancelled := true)])
    case Release(owner) =>
      s.(row := if Releasable(s.row, owner, s.sessions[owner].generation) then None else s.row,
         sessions := s.sessions - {owner})
    case Crash(owner) => s.(sessions := s.sessions - {owner})
    case Cleanup => s.(row := if s.row.Some? && s.row.value.expires <= s.now then None else s.row)
  }

  predicate IsRun(ttl: int, s: State, run: seq<Action>)
    decreases |run|
  {
    run == [] || (Enabled(s, run[0]) && IsRun(ttl, Step(ttl, s, run[0]), run[1..]))
  }

  function After(ttl: int, s: State, run: seq<Action>): State
    requires IsRun(ttl, s, run)
    decreases |run|
  {
    if run == [] then s else After(ttl, Step(ttl, s, run[0]), run[1..])
  }

  const INITIAL: State := State(None, 0, map[])

  predicate Running(s: State, owner: string) {
    owner in s.sessions && !s.sessions[owner].cancelled
  }

  /** A session whose lease has not expired holds the row. */
  predicate Holds(s: State, owner: string) {
    Running(s, owner) && s.sessions[owner].expires > s.now ==>
      s.row == Some(Lease(owner, s.sessions[owner].generation, s.sessions[owner].expires))
  }

  predicate Inv(s: State) {
    forall owner :: owner in s.sessions ==> Holds(s, owner)
  }

  lemma StepKeeps(ttl: int, s: State, a: Action)
    requires ttl > 0 && Inv(s) && Enabled(s, a)
    ensures Inv(Step(ttl, s, a))
  {
    var t := Step(ttl, s, a);
    forall owner | owner in t.sessions
      ensures Holds(t, owner)
    {
      if owner in s.sessions {
        assert Holds(s, owner);
      }
    }
  }

  lemma {:induction false} RunKeeps(ttl: int, s: State, run: seq<Action>)
    requires ttl > 0 && Inv(s) && IsRun(ttl, s, run)
    ensures Inv(After(ttl, s, run))
    decreases |run|
  {
    if run != [] {
      StepKeeps(ttl, s, run[0]);
      RunKeeps(ttl, Step(ttl, s, run[0]), run[1..]);
    }
  }

  /** Of two owners that both run, one has outlived its lease. */
  lemma OneHasOutlivedItsLease(ttl: int, run: seq<Action>, a: string, b: string)
    requires ttl > 0 && IsRun(ttl, INITIAL, run) && a != b
    requires Running(After(ttl, INITIAL, run), a) && Running(After(ttl, INITIAL, run), b)
    ensures var s := After(ttl, INITIAL, run); s.sessions[a].expires <= s.now || s.sessions[b].expires <= s.now
  {
    RunKeeps(ttl, INITIAL, run);
    var s := After(ttl, INITIAL, run);
    assert Holds(s, a) && Holds(s, b);
  }

  /** A row of a session's owner was written by that session. */
  predicate RowOfSession(s: State) {
    s.row.Some? && s.row.value.owner in s.sessions ==> s.row.value.expires == s.sessions[s.row.value.owner].expires
  }

  lemma {:induction false} RunKeepsRow(ttl: int, s: State, run: seq<Action>)
    requires RowOfSession(s) && IsRun(ttl, s, run)
    ensures RowOfSession(After(ttl, s, run))
    decreases |run|
  {
    if run != [] {
      RunKeepsRow(ttl, Step(ttl, s, run[0]), run[1..]);
    }
  }

  /** Somebody else could take the lease now. */
  ghost predicate OpenToOthers(s: State, owner: string) {
    exists other :: other != owner && Available(s.row, other, s.now)
  }

  /** While an owner runs, in every run, the lease is open to others if and only if the owner has outlived it. */
  lemma OpenIffOutlived(ttl: int, run: seq<Action>, owner: string)
    requires ttl > 0 && IsRun(ttl, INITIAL, run) && Running(After(ttl, INITIAL, run), owner)
    ensures var s := After(ttl, INITIAL, run); OpenToOthers(s, owner) <==> s.sessions[owner].expires <= s.now
  {
    var s := After(ttl, INITIAL, run);
    RunKeeps(ttl, INITIAL, run);
    RunKeepsRow(ttl, INITIAL, run);
    assert Holds(s, owner);
    if s.sessions[owner].expires <= s.now {
      var other := if s.row.Some? && s.row.value.owner != owner then s.row.value.owner else owner + "x";
      assert other != owner && Available(s.row, other, s.now);
    }
  }

  // ---- timely renewal ----

  /** Time does not reach the expiry of a running session before it is renewed or cancelled. */
  predicate Timely(ttl: int, s: State, run: seq<Action>)
    requires IsRun(ttl, s, run)
    decreases |run|
  {
    run == [] ||
    ((run[0].Tick? ==>
        forall owner :: owner in s.sessions && Running(s, owner) ==> run[0].now < s.sessions[owner].expires)
     && Timely(ttl, Step(ttl, s, run[0]), run[1..]))
  }

  predicate AllUnexpired(s: State) {
    forall owner :: owner in s.sessions && Running(s, owner) ==> s.now < s.sessions[owner].expires
  }

  lemma {:induction false} TimelyStaysUnexpired(ttl: int, s: State, run: seq<Action>)
    requires ttl > 0 && IsRun(ttl, s, run) && Timely(ttl, s, run) && AllUnexpired(s)
    ensures AllUnexpired(After(ttl, s, run))
    decreases |run|
  {
    if run != [] {
      var t := Step(ttl, s, run[0]);
      forall owner | owner in t.sessions && Running(t, owner)
        ensures t.now < t.sessions[owner].expires
      {
        assert owner in s.sessions && Running(s, owner) ==> s.now < s.sessions[owner].expires;
      }
      TimelyStaysUnexpired(ttl, t, run[1..]);
    }
  }

  /** Under timely renewal at most one owner runs. */
  lemma TimelyRenewalExcludes(ttl: int, run: seq<Action>, a: string, b: string)
    requires ttl > 0 && IsRun(ttl, INITIAL, run) && Timely(ttl, INITIAL, run)
    requires Running(After(ttl, INITIAL, run), a) && Running(After(ttl, INITIAL, run), b)
    ensures a == b
  {
    TimelyStaysUnexpired(ttl, INITIAL, run);
    if a != b {
      OneHasOutlivedItsLease(ttl, run, a, b);
    }
  }

  /** Without it two owners can run: the renewal of the first comes after its expiry. */
  lemma LateRenewalLetsTwoRun(ttl: int, a: string, b: string)
    requires ttl > 0 && a != b
    ensures var run := [Acquire(a), Tick(ttl), Acquire(b)];
            && IsRun(ttl, INITIAL, run)
            && Running(After(ttl, INITIAL, run), a) && Running(After(ttl, INITIAL, run), b)
  {
    var run := [Acquire(a), Tick(ttl), Acquire(b)];
    var s1 := Step(ttl, INITIAL, run[0]);
    var s2 := Step(ttl, s1, run[1]);
    var s3 := Step(ttl, s2, run[2]);
    var r1, r2, r3 := run[1..], run[2..], run[3..];
    assert r1[1..] == r2 && r2[1..] == r3 && r3 == [];
    assert IsRun(ttl, s3, r3) && After(ttl, s3, r3) == s3;
    assert IsRun(ttl, s2, r2) && After(ttl, s2, r2) == s3;
    assert IsRun(ttl, s1, r1) && After(ttl, s1, r1) == s3;
  }

  // ---- generations ----

  /** The row is there in every state of the run. */
  predicate RowThroughout(ttl: int, s: State, run: seq<Action>)
    requires IsRun(ttl, s, run)
    decreases |run|
  {
    s.row.Some? && (run == [] || RowThroughout(ttl, Step(ttl, s, run[0]), run[1..]))
  }

  /** While the row stays, its generation never falls, and it rises with every change of owner. */
  lemma {:induction false} GenerationsTellOwnersApart(ttl: int, s: State, run: seq<Action>)
    requires IsRun(ttl, s, run) && RowThroughout(ttl, s, run)
    ensures var t := After(ttl, s, run);
            && t.row.Some? && t.row.value.generation >= s.row.value.generation
            && (t.row.value.generation == s.row.value.generation ==> t.row.value.owner == s.row.value.owner)
    decreases |run|
  {
    if run != [] {
      GenerationsTellOwnersApart(ttl, Step(ttl, s, run[0]), run[1..]);
    }
  }

  /** How often the owner of the row changes along a run. */
  function OwnerChanges(ttl: int, s: State, run: seq<Action>): nat
    requires IsRun(ttl, s, run) && RowThroughout(ttl, s, run)
    decreases |run|
  {
    if run == [] then 0
    else
      var t := Step(ttl, s, run[0]);
      assert RowThroughout(ttl, t, run[1..]);
      (if t.row.value.owner != s.row.value.owner then 1 else 0) + OwnerChanges(ttl, t, run[1..])
  }

  /** The generation counts exactly those changes: taking one's own lease again does not raise it. */
  lemma {:induction false} GenerationCountsOwners(ttl: int, s: State, run: seq<Action>)
    requires IsRun(ttl, s, run) && RowThroughout(ttl, s, run)
    ensures After(ttl, s, run).row.Some?
    ensures After(ttl, s, run).row.value.generation == s.row.value.generation + OwnerChanges(ttl, s, run)
    decreases |run|
  {
    if run != [] {
      GenerationCountsOwners(ttl, Step(ttl, s, run[0]), run[1..]);
    }
  }

  /** Across a release they do not: the row is deleted, and the next owner starts at one again. */
  lemma ReleaseResetsGenerations(ttl: int, a: string, b: string)
    requires ttl > 0 && a != b
    ensures IsRun(ttl, INITIAL, [Acquire(a)]) && After(ttl, INITIAL, [Acquire(a)]).row == Some(Lease(a, 1, ttl))
    ensures var run := [Acquire(a), Fail(a), Release(a), Acquire(b)];
            IsRun(ttl, INITIAL, run) && After(ttl, INITIAL, run).row == Some(Lease(b, 1, ttl))
  {
    var run := [Acquire(a), Fail(a), Release(a), Acquire(b)];
    var s1 := Step(ttl, INITIAL, run[0]);
    var s2 := Step(ttl, s1, run[1]);
    var s3 := Step(ttl, s2, run[2]);
    var s4 := Step(ttl, s3, run[3]);
    var r1, r2, r3, r4 := run[1..], run[2..], run[3..], run[4..];
    assert [Acquire(a)][1..] == [];
    assert r1[1..] == r2 && r2[1..] == r3 && r3[1..] == r4 && r4 == [];
    assert IsRun(ttl, s4, r4) && After(ttl, s4, r4) == s4;
    assert IsRun(ttl, s3, r3) && After(ttl, s3, r3) == s4;
    assert IsRun(ttl, s2, r2) && After(ttl, s2, r2) == s4;
    assert IsRun(ttl, s1, r1) && After(ttl, s1, r1) == s4;
  }

  // ---- nobody else before the expiry ----

  predicate NeverReleases(run: seq<Action>, owner: string) {
    forall i :: 0 <= i < |run| ==> run[i] != Release(owner)
  }

  /** From a lease on, and until its expiry, every run without a release leaves the row with its owner. */
  lemma {:induction false} HeldUntilExpiry(ttl: int, s: State, run: seq<Action>, owner: string, expires: int)
    requires ttl > 0 && IsRun(ttl, s, run) && NeverReleases(run, owner)
    requires s.row.Some? && s.row.value.owner == owner && s.row.value.expires >= expires && s.now + ttl >= expires
    requires After(ttl, s, run).now < expires
    ensures var t := After(ttl, s, run); t.row.Some? && t.row.value.owner == owner && t.row.value.expires >= expires
    decreases |run|
  {
    if run != [] {
      var t := Step(ttl, s, run[0]);
      ClockForward(ttl, s, run);
      ClockForward(ttl, t, run[1..]);
      assert run[0] != Release(owner);
      assert NeverReleases(run[1..], owner);
      HeldUntilExpiry(ttl, t, run[1..], owner, expires);
    }
  }

  lemma {:induction false} ClockForward(ttl: int, s: State, run: seq<Action>)
    requires IsRun(ttl, s, run)
    ensures After(ttl, s, run).now >= s.now
    decreases |run|
  {
    if run != [] {
      ClockForward(ttl, Step(ttl, s, run[0]), run[1..]);
    }
  }

  /** So an acquire by anyone else misses. */
  lemma NobodyElseBeforeExpiry(ttl: int, s: State, run: seq<Action>, owner: string, expires: int, other: string)
    requires ttl > 0 && IsRun(ttl, s, run) && NeverReleases(run, owner) && other != owner
    requires s.row.Some? && s.row.value.owner == owner && s.row.value.expires == expires == s.now + ttl
    requires var t := After(ttl, s, run); t.now < expires && Enabled(t, Acquire(other))
    ensures var t := After(ttl, s, run); Step(ttl, t, Acquire(other)) == t
  {
    HeldUntilExpiry(ttl, s, run, owner, expires);
  }
}

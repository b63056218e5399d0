/**
 Keyset pages: the ordered rows beyond a cursor, a bounded number at a time. Snapshot reads and
 polling reads both page this way; a snapshot row has version 0.
 */
module Paging {
  import opened PrimaryKeys
  import opened Positions

  predicate IsLeast(ps: set<Position>, p: Position) {
    p in ps && forall q :: q in ps ==> AtOrBefore(p, q)
  }

  lemma {:induction false} LeastExists(ps: set<Position>)
    requires ps != {}
    ensures exists p :: IsLeast(ps, p)
    decreases |ps|
  {
    var x :| x in ps;
    var rest := ps - {x};
    if rest == {} {
      assert forall q :: q in ps ==> q == x || q in rest;
      assert IsLeast(ps, x);
    } else {
      LeastExists(rest);
      var p :| IsLeast(rest, p);
      BeforeTrichotomy(x, p);
      if Before(x, p) {
        forall q | q in ps
          ensures AtOrBefore(x, q)
        {
          if q != x {
            BeforeTransitive(x, p, q);
          }
        }
        assert IsLeast(ps, x);
      } else {
        assert IsLeast(ps, p);
      }
    }
  }

  lemma LeastUnique(ps: set<Position>)
    ensures forall p, q :: IsLeast(ps, p) && IsLeast(ps, q) ==> p == q
  {
    forall p, q | IsLeast(ps, p) && IsLeast(ps, q)
      ensures p == q
    {
      BeforeTrichotomy(p, q);
    }
  }

  function Least(ps: set<Position>): (p: Position)
    requires ps != {}
    ensures IsLeast(ps, p)
  {
    LeastExists(ps);
    LeastUnique(ps);
    var p :| IsLeast(ps, p);
    p
  }

  /** A set of positions in order, as ORDER BY returns it. */
  function Ordered(ps: set<Position>): (s: seq<Position>)
    decreases |ps|
  {
    if ps == {} then [] else [Least(ps)] + Ordered(ps - {Least(ps)})
  }

  lemma {:induction false} OrderedIs(ps: set<Position>)
    ensures Increasing(Ordered(ps)) && |Ordered(ps)| == |ps|
    ensures forall p :: p in Ordered(ps) <==> p in ps
    decreases |ps|
  {
    if ps != {} {
      var least, rest := Least(ps), ps - {Least(ps)};
      OrderedIs(rest);
      assert forall p :: p in Ordered(rest) ==> p in ps && Before(least, p);
      assert forall p :: p in ps <==> p == least || p in rest;
    }
  }

  lemma FirstIsMember(s: seq<Position>)
    ensures s != [] ==> exists p :: p in s
  {
    if s != [] {
      assert s[0] in s;
    }
  }

  /** The order determines the sequence. */
  lemma {:induction false} IncreasingUnique(a: seq<Position>, b: seq<Position>)
    requires Increasing(a) && Increasing(b) && forall p :: p in a <==> p in b
    ensures a == b
    decreases |a|
  {
    FirstIsMember(b);
    if a != [] {
      assert a[0] in b;
      assert b[0] in a;
      BeforeTrichotomy(a[0], b[0]);
      var ra, rb := a[1..], b[1..];
      forall p
        ensures p in ra <==> p in rb
      {
        BeforeTrichotomy(a[0], a[0]);
        assert a == [a[0]] + ra && b == [b[0]] + rb;
        assert p in a <==> p in b;
        assert a[0] !in ra && b[0] !in rb;
      }
      IncreasingUnique(ra, rb);
      assert a == [a[0]] + ra && b == [b[0]] + rb;
    }
  }

  // ---- pages ----

  predicate Beyond(after: Option<Position>, p: Position) {
    after.Some? ==> Before(after.value, p)
  }

  function Rest(ps: set<Position>, after: Option<Position>): set<Position> {
    set p | p in ps && Beyond(after, p)
  }

  /** The first positions beyond the cursor, at most limit of them. */
  function Page(ps: set<Position>, after: Option<Position>, limit: nat): seq<Position> {
    var all := Ordered(Rest(ps, after));
    if |all| <= limit then all else all[..limit]
  }

  lemma PageWithin(ps: set<Position>, after: Option<Position>, limit: nat)
    ensures forall p :: p in Page(ps, after, limit) ==> p in ps
  {
    var all := Ordered(Rest(ps, after));
    OrderedIs(Rest(ps, after));
    assert forall p :: p in all ==> p in ps;
  }

  function LastOf(page: seq<Position>, after: Option<Position>): Option<Position> {
    if page == [] then after else Some(page[|page| - 1])
  }

  /** What a page holds: all positions beyond the cursor, or those up to its last one. */
  lemma PageHolds(ps: set<Position>, after: Option<Position>, limit: nat)
    ensures var page := Page(ps, after, limit);
            && Increasing(page) && |page| <= limit
            && (|page| < limit ==> forall p :: p in page <==> p in ps && Beyond(after, p))
            && (page != [] ==>
                  forall p :: p in page <==> p in ps && Beyond(after, p) && AtOrBefore(p, page[|page| - 1]))
  {
    var page := Page(ps, after, limit);
    var all := Ordered(Rest(ps, after));
    OrderedIs(Rest(ps, after));
    if page != [] {
      forall p
        ensures p in page <==> p in ps && Beyond(after, p) && AtOrBefore(p, page[|page| - 1])
      {
        PageReaches(all, |page|, p);
        assert all[..|page|] == page;
      }
    }
  }

  lemma PageReaches(all: seq<Position>, n: nat, p: Position)
    requires Increasing(all) && 0 < n <= |all|
    ensures p in all[..n] <==> p in all && AtOrBefore(p, all[n - 1])
  {
    if p in all {
      var i :| 0 <= i < |all| && all[i] == p;
      BeforeTrichotomy(p, all[n - 1]);
      if i < n {
        assert all[..n][i] == p;
      } else {
        assert Before(all[n - 1], p);
        assert forall j :: 0 <= j < n ==> AtOrBefore(all[j], all[n - 1]);
      }
    }
  }

  /** Reading on after a page continues where it stopped. */
  lemma PageThenRest(ps: set<Position>, after: Option<Position>, limit: nat)
    requires limit > 0
    ensures var page := Page(ps, after, limit);
            Ordered(Rest(ps, after)) == page + Ordered(Rest(ps, LastOf(page, after)))
  {
    var page := Page(ps, after, limit);
    var all := Ordered(Rest(ps, after));
    OrderedIs(Rest(ps, after));
    if page == [] {
      assert all == [];
    } else {
      assert all == page + all[|page|..];
      assert all[|page| - 1] == page[|page| - 1];
      TailOrdered(ps, after, all, |page|);
    }
  }

  lemma TailOrdered(ps: set<Position>, after: Option<Position>, all: seq<Position>, n: nat)
    requires Increasing(all) && 0 < n <= |all| && forall q :: q in all <==> q in ps && Beyond(after, q)
    ensures all[n..] == Ordered(Rest(ps, Some(all[n - 1])))
  {
    var tail, rest := all[n..], Rest(ps, Some(all[n - 1]));
    OrderedIs(rest);
    forall p
      ensures p in tail <==> p in Ordered(rest)
    {
      TailIsBeyond(ps, after, all, n, p);
    }
    IncreasingUnique(tail, Ordered(rest));
  }

  lemma TailIsBeyond(ps: set<Position>, after: Option<Position>, all: seq<Position>, n: nat, p: Position)
    requires Increasing(all) && 0 < n <= |all| && forall q :: q in all <==> q in ps && Beyond(after, q)
    ensures p in all[n..] <==> p in ps && Before(all[n - 1], p)
  {
    var last := all[n - 1];
    assert last in all;
    if p in ps && Before(last, p) {
      if after.Some? {
        BeforeTransitive(after.value, last, p);
      }
      var i :| 0 <= i < |all| && all[i] == p;
      BeforeTrichotomy(p, last);
      assert i >= n;
      assert all[n..][i - n] == p;
    }
    if p in all[n..] {
      var i :| n <= i < |all| && all[i] == p;
    }
  }
}

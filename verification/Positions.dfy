/** Event positions: a version, then a key (internal/repository/postgres/state_events.go:81-90). */
module Positions {
  import opened PrimaryKeys

  datatype Position = Position(version: int, key: Key)

  predicate Before(a: Position, b: Position) {
    a.version < b.version || (a.version == b.version && KeyLess(a.key, b.key))
  }

  predicate AtOrBefore(a: Position, b: Position) {
    a == b || Before(a, b)
  }

  lemma BeforeTrichotomy(a: Position, b: Position)
    ensures !Before(a, a)
    ensures !(Before(a, b) && Before(b, a))
    ensures a == b || Before(a, b) || Before(b, a)
  {
    KeyTrichotomy(a.key, b.key);
  }

  lemma BeforeTransitive(a: Position, b: Position, c: Position)
    requires AtOrBefore(a, b) && AtOrBefore(b, c)
    ensures AtOrBefore(a, c)
    ensures Before(a, b) || Before(b, c) ==> Before(a, c)
  {
    if Before(a, b) && Before(b, c) && a.version == c.version {
      KeyTransitive(a.key, b.key, c.key);
    }
  }

  /** A sequence of positions that strictly increases. */
  predicate Increasing(s: seq<Position>) {
    forall i, j :: 0 <= i < j < |s| ==> Before(s[i], s[j])
  }
}

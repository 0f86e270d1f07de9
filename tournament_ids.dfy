/** Record identifiers of the tournament models; a recordset of them is a sequence or a set. */
module TournamentIds {
  type TeamId = nat
  type MatchId = nat
  type SetId = nat
  type ResultId = nat
  type TournamentId = nat
  type EventId = nat
  /** An attendee (`event.registration`), which is a component of a team. */
  type RegistrationId = nat

  /** A recordset holds each record once. */
  predicate DistinctTeams(ts: seq<TeamId>)
  {
    forall i, j :: 0 <= i < j < |ts| ==> ts[i] != ts[j]
  }

  /** The state of a match: the selection has no default, so it starts empty. */
  datatype MatchState = Unset | Draft | Done

  /**
   * What `len(recordset) > 1` and `first(recordset)` say about a mapped recordset: it
   * has two elements exactly when two of its values differ, and otherwise it is
   * empty or holds the one value every element shares.
   */
  lemma SetOfOneOrMore<T>(s: set<T>)
    ensures |s| > 1 <==> exists x, y :: x in s && y in s && x != y
    ensures |s| <= 1 ==> forall x, y :: x in s && y in s ==> x == y
  {
    if |s| > 1 {
      var x :| x in s;
      var rest := s - {x};
      assert |rest| == |s| - 1;
      var y :| y in rest;
      assert x in s && y in s && x != y;
    }
    if exists x, y :: x in s && y in s && x != y {
      var x, y :| x in s && y in s && x != y;
      assert {x, y} <= s;
      assert |{x, y}| == 2;
      SubsetSize({x, y}, s);
    }
  }

  lemma SubsetSize<T>(a: set<T>, b: set<T>)
    requires a <= b
    ensures |a| <= |b|
  {
    assert b == a + (b - a);
  }
}

/**
 * Per-team statistics of a match (model `event.tournament.match.team_stats`):
 * points done and taken, sets won and lost, tournament points and ratios.
 */
module TeamStats {
  import opened Wrappers
  import opened Sums
  import opened TournamentIds
  import opened MatchSet
  import opened MatchMode

  /** A match as the statistics see it. */
  datatype MatchTeams = MatchTeams(id: MatchId, teams: seq<TeamId>)

  /** A set of a match, with its results and its computed winner. */
  datatype PlayedSet = PlayedSet(id: SetId, results: seq<SetResult>, winner: set<TeamId>)

  /** A statistics record, for one team in one match. */
  datatype Stat = Stat(matchId: MatchId, team: TeamId)

  function StatsOf(m: MatchTeams): (r: seq<Stat>)
    ensures |r| == |m.teams|
  {
    seq(|m.teams|, i requires 0 <= i < |m.teams| => Stat(m.id, m.teams[i]))
  }

  /** `create_from_matches`: one record per match and team of that match, match by match. */
  function CreateFromMatches(ms: seq<MatchTeams>): seq<Stat>
  {
    if ms == [] then [] else StatsOf(ms[0]) + CreateFromMatches(ms[1..])
  }

  predicate DistinctStats(ss: seq<Stat>)
  {
    forall i, j :: 0 <= i < j < |ss| ==> ss[i] != ss[j]
  }

  predicate DistinctMatches(ms: seq<MatchTeams>)
  {
    forall i, j :: 0 <= i < j < |ms| ==> ms[i].id != ms[j].id
  }

  /**
   * A record exists exactly for each team of each match, and, the matches and their
   * teams being recordsets, no pair gets two records.
   */
  lemma CreateFromMatchesPairs(ms: seq<MatchTeams>)
    requires DistinctMatches(ms) && forall i :: 0 <= i < |ms| ==> DistinctTeams(ms[i].teams)
    ensures forall m, t :: Stat(m, t) in CreateFromMatches(ms) <==> exists i :: 0 <= i < |ms| && ms[i].id == m && t in ms[i].teams
    ensures DistinctStats(CreateFromMatches(ms))
  {
    StatsMembers(ms);
    StatsDistinct(ms);
  }

  /** The records of one match: its id with each of its teams. */
  lemma StatsOfMembers(mt: MatchTeams)
    ensures forall s: Stat :: s in StatsOf(mt) <==> s.matchId == mt.id && s.team in mt.teams
  {
    var r := StatsOf(mt);
    forall s: Stat | s.matchId == mt.id && s.team in mt.teams ensures s in r {
      var k: int :| 0 <= k < |mt.teams| && mt.teams[k] == s.team;
      assert r[k] == s;
    }
  }

  lemma {:induction false} StatsMembers(ms: seq<MatchTeams>)
    ensures forall m, t :: Stat(m, t) in CreateFromMatches(ms) <==> exists i :: 0 <= i < |ms| && ms[i].id == m && t in ms[i].teams
    decreases |ms|
  {
    if ms != [] {
      StatsMembers(ms[1..]);
      StatsOfMembers(ms[0]);
      forall m, t
        ensures Stat(m, t) in CreateFromMatches(ms) <==> exists i :: 0 <= i < |ms| && ms[i].id == m && t in ms[i].teams
      {
        if exists i :: 0 <= i < |ms| && ms[i].id == m && t in ms[i].teams {
          var i :| 0 <= i < |ms| && ms[i].id == m && t in ms[i].teams;
          if i > 0 {
            assert ms[1..][i - 1] == ms[i];
          }
        }
      }
    }
  }

  lemma {:induction false} StatsDistinct(ms: seq<MatchTeams>)
    requires DistinctMatches(ms) && forall i :: 0 <= i < |ms| ==> DistinctTeams(ms[i].teams)
    ensures DistinctStats(CreateFromMatches(ms))
    decreases |ms|
  {
    if ms != [] {
      var head, rest := StatsOf(ms[0]), CreateFromMatches(ms[1..]);
      StatsDistinct(ms[1..]);
      StatsMembers(ms[1..]);
      forall i, j | 0 <= i < j < |head + rest|
        ensures (head + rest)[i] != (head + rest)[j]
      {
        if i < |head| && j >= |head| {
          var s := rest[j - |head|];
          assert s in rest;
          var k :| 0 <= k < |ms[1..]| && ms[1..][k].id == s.matchId && s.team in ms[1..][k].teams;
          assert ms[k + 1].id != ms[0].id;
        }
      }
    }
  }

  /** The results of all the sets of a match, set by set. */
  function AllResults(sets: seq<PlayedSet>): seq<SetResult>
  {
    if sets == [] then [] else sets[0].results + AllResults(sets[1..])
  }

  function Scores(rs: seq<SetResult>): (r: seq<int>)
    ensures |r| == |rs|
  {
    seq(|rs|, i requires 0 <= i < |rs| => rs[i].score)
  }

  /** The sum of all the scores of a match. */
  function MatchPoints(sets: seq<PlayedSet>): int
  {
    IntSum(Scores(AllResults(sets)))
  }

  /**
   * `done_points`: the sum of the team's own scores over the sets of the match. With
   * scores that are not negative, it is at most all the match's points.
   */
  function DonePoints(sets: seq<PlayedSet>, team: TeamId): (r: int)
    ensures (forall i :: 0 <= i < |AllResults(sets)| ==> AllResults(sets)[i].score >= 0) ==> 0 <= r <= MatchPoints(sets)
  {
    var rs := AllResults(sets);
    ResultsOfBounded(rs, team);
    IntSum(Scores(ResultsOf(rs, team)))
  }

  /** The scores of one team's results add up to between 0 and all the scores, when none is negative. */
  lemma {:induction false} ResultsOfBounded(rs: seq<SetResult>, team: TeamId)
    ensures (forall i :: 0 <= i < |rs| ==> rs[i].score >= 0) ==> 0 <= IntSum(Scores(ResultsOf(rs, team))) <= IntSum(Scores(rs))
    decreases |rs|
  {
    if rs != [] && forall i :: 0 <= i < |rs| ==> rs[i].score >= 0 {
      ResultsOfBounded(rs[1..], team);
      assert rs == [rs[0]] + rs[1..];
      ScoresCons(rs[0], rs[1..]);
      if rs[0].team == team {
        ScoresCons(rs[0], ResultsOf(rs[1..], team));
      } else {
        assert ResultsOf(rs, team) == ResultsOf(rs[1..], team);
      }
    }
  }

  /** `taken_points`: the match's points that the team did not score. */
  function TakenPoints(sets: seq<PlayedSet>, team: TeamId): (r: int)
    ensures DonePoints(sets, team) + r == MatchPoints(sets)
  {
    MatchPoints(sets) - DonePoints(sets, team)
  }

  /** The points the given teams scored, over the results `rs`. */
  function TeamsPoints(teams: seq<TeamId>, rs: seq<SetResult>): int
  {
    if teams == [] then 0 else IntSum(Scores(ResultsOf(rs, teams[0]))) + TeamsPoints(teams[1..], rs)
  }

  lemma ScoresCons(r: SetResult, rs: seq<SetResult>)
    ensures IntSum(Scores([r] + rs)) == r.score + IntSum(Scores(rs))
  {
    assert Scores([r] + rs) == [r.score] + Scores(rs);
    IntSumAppend([r.score], Scores(rs));
    assert IntSum([r.score]) == IntSum([r.score][..0]) + r.score;
  }

  /** A further result adds its score to the points of the teams once, if its team is among them. */
  lemma {:induction false} TeamsPointsCons(teams: seq<TeamId>, r: SetResult, rs: seq<SetResult>)
    requires DistinctTeams(teams)
    ensures TeamsPoints(teams, [r] + rs) == TeamsPoints(teams, rs) + if r.team in teams then r.score else 0
    decreases |teams|
  {
    if teams != [] {
      var t := teams[0];
      TeamsPointsCons(teams[1..], r, rs);
      TeamPointsCons(t, r, rs);
      assert r.team == t ==> r.team !in teams[1..];
      assert r.team in teams <==> r.team == t || r.team in teams[1..] by {
        assert teams == [t] + teams[1..];
      }
    }
  }

  /** A further result adds its score to the points of its own team only. */
  lemma TeamPointsCons(t: TeamId, r: SetResult, rs: seq<SetResult>)
    ensures IntSum(Scores(ResultsOf([r] + rs, t))) == IntSum(Scores(ResultsOf(rs, t))) + if r.team == t then r.score else 0
  {
    assert ([r] + rs)[0] == r && ([r] + rs)[1..] == rs;
    if r.team == t {
      assert ResultsOf([r] + rs, t) == [r] + ResultsOf(rs, t);
      ScoresCons(r, ResultsOf(rs, t));
    } else {
      assert ResultsOf([r] + rs, t) == ResultsOf(rs, t);
    }
  }

  /** When every result belongs to one of the teams, the teams' points add up to all the points. */
  lemma {:induction false} TeamsPointsTotal(teams: seq<TeamId>, rs: seq<SetResult>)
    requires DistinctTeams(teams)
    requires forall i :: 0 <= i < |rs| ==> rs[i].team in teams
    ensures TeamsPoints(teams, rs) == IntSum(Scores(rs))
    decreases |rs|
  {
    if rs == [] {
      TeamsPointsNone(teams);
    } else {
      assert rs == [rs[0]] + rs[1..];
      TeamsPointsTotal(teams, rs[1..]);
      TeamsPointsCons(teams, rs[0], rs[1..]);
      ScoresCons(rs[0], rs[1..]);
    }
  }

  lemma {:induction false} TeamsPointsNone(teams: seq<TeamId>)
    ensures TeamsPoints(teams, []) == 0
    decreases |teams|
  {
    if teams != [] {
      TeamsPointsNone(teams[1..]);
    }
  }

  lemma {:induction false} AllResultsMembers(sets: seq<PlayedSet>, r: SetResult)
    ensures r in AllResults(sets) <==> exists k :: 0 <= k < |sets| && r in sets[k].results
    decreases |sets|
  {
    if sets != [] {
      AllResultsMembers(sets[1..], r);
      if exists k :: 0 <= k < |sets| && r in sets[k].results {
        var k :| 0 <= k < |sets| && r in sets[k].results;
        if k > 0 {
          assert sets[1..][k - 1] == sets[k];
        }
      }
    }
  }

  /**
   * The done points of the match's teams add up to the match's points when every
   * result belongs to one of them (the set results' team domain).
   */
  lemma PointsConserved(teams: seq<TeamId>, sets: seq<PlayedSet>)
    requires DistinctTeams(teams)
    requires forall r :: r in AllResults(sets) ==> r.team in teams
    ensures TeamsPoints(teams, AllResults(sets)) == MatchPoints(sets)
  {
    var rs := AllResults(sets);
    assert forall i :: 0 <= i < |rs| ==> rs[i] in rs;
    TeamsPointsTotal(teams, rs);
  }

  /** In a two-team match, the points one team takes are the points the other one does. */
  lemma TwoTeamsTaken(a: TeamId, b: TeamId, sets: seq<PlayedSet>)
    requires a != b
    requires forall r :: r in AllResults(sets) ==> r.team == a || r.team == b
    ensures TakenPoints(sets, a) == DonePoints(sets, b)
  {
    var rs := AllResults(sets);
    PointsConserved([a, b], sets);
    assert [a, b][1..] == [b] && [b][1..] == [];
    assert TeamsPoints([b], rs) == DonePoints(sets, b) + TeamsPoints([], rs);
    assert TeamsPoints([a, b], rs) == DonePoints(sets, a) + TeamsPoints([b], rs);
  }

  /** Sets whose scores do not sum to 0 have been played. */
  function Played(sets: seq<PlayedSet>): (r: seq<PlayedSet>)
    ensures forall i :: 0 <= i < |r| ==> r[i] in sets && IntSum(Scores(r[i].results)) != 0
    ensures forall i :: 0 <= i < |sets| && IntSum(Scores(sets[i].results)) != 0 ==> sets[i] in r
  {
    if sets == [] then []
    else (if IntSum(Scores(sets[0].results)) != 0 then [sets[0]] else []) + Played(sets[1..])
  }

  /**
   * The team won the set when the set's winner recordset is exactly that team; a set
   * with no winner, or with several, counts as lost.
   */
  predicate WonBy(s: PlayedSet, team: TeamId)
  {
    s.winner == {team}
  }

  /** The ids of the sets the team won, in order. */
  function WonIds(played: seq<PlayedSet>, team: TeamId): seq<SetId>
  {
    if played == [] then []
    else
      var last := played[|played| - 1];
      WonIds(played[..|played| - 1], team) + (if WonBy(last, team) then [last.id] else [])
  }

  /** The ids of the sets the team lost, in order. */
  function LostIds(played: seq<PlayedSet>, team: TeamId): seq<SetId>
  {
    if played == [] then []
    else
      var last := played[|played| - 1];
      LostIds(played[..|played| - 1], team) + (if WonBy(last, team) then [] else [last.id])
  }

  predicate DistinctSets(sets: seq<PlayedSet>)
  {
    forall i, j :: 0 <= i < j < |sets| ==> sets[i].id != sets[j].id
  }

  lemma {:induction false} WonWithin(played: seq<PlayedSet>, team: TeamId)
    ensures forall id :: id in WonIds(played, team) ==> exists k :: 0 <= k < |played| && played[k].id == id && WonBy(played[k], team)
    decreases |played|
  {
    if played != [] {
      var n := |played| - 1;
      WonWithin(played[..n], team);
      forall id | id in WonIds(played, team)
        ensures exists k :: 0 <= k < |played| && played[k].id == id && WonBy(played[k], team)
      {
        if id in WonIds(played[..n], team) {
          var k :| 0 <= k < n && played[..n][k].id == id && WonBy(played[..n][k], team);
          assert played[k] == played[..n][k];
        } else {
          assert played[n].id == id && WonBy(played[n], team);
        }
      }
    }
  }

  lemma {:induction false} LostWithin(played: seq<PlayedSet>, team: TeamId)
    ensures forall id :: id in LostIds(played, team) ==> exists k :: 0 <= k < |played| && played[k].id == id && !WonBy(played[k], team)
    decreases |played|
  {
    if played != [] {
      var n := |played| - 1;
      LostWithin(played[..n], team);
      forall id | id in LostIds(played, team)
        ensures exists k :: 0 <= k < |played| && played[k].id == id && !WonBy(played[k], team)
      {
        if id in LostIds(played[..n], team) {
          var k :| 0 <= k < n && played[..n][k].id == id && !WonBy(played[..n][k], team);
          assert played[k] == played[..n][k];
        } else {
          assert played[n].id == id && !WonBy(played[n], team);
        }
      }
    }
  }

  /**
   * Each played set is either won or lost: the counts add up to the number of played
   * sets, and a set is listed as won exactly when the team is its winner.
   */
  lemma WonLostSplit(played: seq<PlayedSet>, team: TeamId)
    requires DistinctSets(played)
    ensures |WonIds(played, team)| + |LostIds(played, team)| == |played|
    ensures forall k :: 0 <= k < |played| ==> (played[k].id in WonIds(played, team) <==> WonBy(played[k], team))
    ensures forall k :: 0 <= k < |played| ==> (played[k].id in LostIds(played, team) <==> !WonBy(played[k], team))
  {
    WonLostCount(played, team);
    WonMembers(played, team);
    LostMembers(played, team);
  }

  lemma {:induction false} WonLostCount(played: seq<PlayedSet>, team: TeamId)
    ensures |WonIds(played, team)| + |LostIds(played, team)| == |played|
    decreases |played|
  {
    if played != [] {
      WonLostCount(played[..|played| - 1], team);
    }
  }

  /** The id of the last set is none of the earlier sets' ids. */
  lemma LastApart(played: seq<PlayedSet>, front: seq<PlayedSet>)
    requires DistinctSets(played) && played != [] && front == played[..|played| - 1]
    ensures DistinctSets(front)
    ensures forall j :: 0 <= j < |front| ==> front[j].id != played[|played| - 1].id
  {
  }

  lemma {:induction false} WonMembers(played: seq<PlayedSet>, team: TeamId)
    requires DistinctSets(played)
    ensures forall k :: 0 <= k < |played| ==> (played[k].id in WonIds(played, team) <==> WonBy(played[k], team))
    decreases |played|
  {
    if played != [] {
      var n := |played| - 1;
      var front := played[..n];
      LastApart(played, front);
      WonMembers(front, team);
      WonWithin(front, team);
      forall k | 0 <= k < |played|
        ensures played[k].id in WonIds(played, team) <==> WonBy(played[k], team)
      {
        if k < n {
          assert front[k] == played[k];
        }
      }
    }
  }

  lemma {:induction false} LostMembers(played: seq<PlayedSet>, team: TeamId)
    requires DistinctSets(played)
    ensures forall k :: 0 <= k < |played| ==> (played[k].id in LostIds(played, team) <==> !WonBy(played[k], team))
    decreases |played|
  {
    if played != [] {
      var n := |played| - 1;
      var front := played[..n];
      LastApart(played, front);
      LostMembers(front, team);
      LostWithin(front, team);
      forall k | 0 <= k < |played|
        ensures played[k].id in LostIds(played, team) <==> !WonBy(played[k], team)
      {
        if k < n {
          assert front[k] == played[k];
        }
      }
    }
  }

  /**
   * `_compute_sets`: on a done match, each played set goes to the won sets when the
   * team is its winner and to the lost sets otherwise; on any other match both are empty.
   * The sets of a match are distinct records, so the recordset union `|=` appends.
   */
  method ComputeSets(state: MatchState, sets: seq<PlayedSet>, team: TeamId) returns (won: seq<SetId>, lost: seq<SetId>)
    ensures state == Done ==> won == WonIds(Played(sets), team) && lost == LostIds(Played(sets), team)
    ensures state != Done ==> won == [] && lost == []
  {
    won, lost := [], [];
    if state == Done {
      var played := Played(sets);
      for i := 0 to |played|
        invariant won == WonIds(played[..i], team) && lost == LostIds(played[..i], team)
      {
        var s := played[i];
        WonLostStep(played, i, team);
        if {team} == s.winner {
          won := won + [s.id];
        } else {
          lost := lost + [s.id];
        }
      }
      assert played[..|played|] == played;
    }
  }

  /** One more played set joins the won or the lost ids. */
  lemma WonLostStep(played: seq<PlayedSet>, i: nat, team: TeamId)
    requires i < |played|
    ensures WonIds(played[..i + 1], team) == WonIds(played[..i], team) + (if WonBy(played[i], team) then [played[i].id] else [])
    ensures LostIds(played[..i + 1], team) == LostIds(played[..i], team) + (if WonBy(played[i], team) then [] else [played[i].id])
  {
    assert played[..i + 1][..i] == played[..i];
  }

  /**
   * `_compute_tournament_points`: 0 unless the match is done and has a mode; then the
   * team's entry of the mode's points, 0 for a team without one, or the mode's error.
   */
  function TournamentPoints(state: MatchState, mode: Option<seq<ModeResult>>, teams: seq<TeamId>,
                            keys: seq<TeamId>, info: map<TeamId, SetsInfo>, team: TeamId): (r: Result<int, PointsError>)
    requires KeySet(keys) == info.Keys
    ensures state != Done || mode.None? ==> r == Ok(0)
    ensures r.Err? ==> state == Done && mode.Some? && Points(teams, keys, info, mode.value).Err?
  {
    if state == Done && mode.Some? then
      match Points(teams, keys, info, mode.value)
      case Err(e) => Err(e)
      case Ok(points) => Ok(if team in points then points[team] else 0)
    else Ok(0)
  }

  /**
   * On a done match with a mode that expects every result, a team listed in the sets
   * info gets its row's points, a team of the match that is not listed keeps 1, and
   * any other team gets 0.
   */
  lemma TournamentPointsOfTeam(teams: seq<TeamId>, keys: seq<TeamId>, info: map<TeamId, SetsInfo>,
                               rows: seq<ModeResult>, team: TeamId)
    requires KeySet(keys) == info.Keys
    requires forall k :: k in info ==> RowPoints(info[k], rows).Some?
    ensures team in info ==> TournamentPoints(Done, Some(rows), teams, keys, info, team) == Ok(RowPoints(info[team], rows).value)
    ensures team !in info && team in teams ==> TournamentPoints(Done, Some(rows), teams, keys, info, team) == Ok(1)
    ensures team !in info && team !in teams ==> TournamentPoints(Done, Some(rows), teams, keys, info, team) == Ok(0)
  {
    PointsValues(teams, keys, info, rows);
    assert team in teams <==> team in KeySet(teams);
  }

  /** `calculate_ratio`: won over lost, with a lost count of 0 replaced by 0.1. */
  function CalculateRatio(won: real, lost: real): (r: real)
    ensures lost != 0.0 ==> r * lost == won
    ensures lost == 0.0 ==> r == won * 10.0
  {
    won / (if lost == 0.0 then 0.1 else lost)
  }

  /** The stored figures of a statistics record that the ratios read. */
  datatype StatValues = StatValues(donePoints: int, takenPoints: int, wonSetsCount: int, lostSetsCount: int)

  function DoneColumn(stats: seq<StatValues>): (r: seq<int>)
    ensures |r| == |stats|
  {
    seq(|stats|, i requires 0 <= i < |stats| => stats[i].donePoints)
  }

  function TakenColumn(stats: seq<StatValues>): (r: seq<int>)
    ensures |r| == |stats|
  {
    seq(|stats|, i requires 0 <= i < |stats| => stats[i].takenPoints)
  }

  function WonColumn(stats: seq<StatValues>): (r: seq<int>)
    ensures |r| == |stats|
  {
    seq(|stats|, i requires 0 <= i < |stats| => stats[i].wonSetsCount)
  }

  function LostColumn(stats: seq<StatValues>): (r: seq<int>)
    ensures |r| == |stats|
  {
    seq(|stats|, i requires 0 <= i < |stats| => stats[i].lostSetsCount)
  }

  /** `get_points_ratio`: the ratio of the summed done points to the summed taken points. */
  function PointsRatio(stats: seq<StatValues>): (r: real)
    ensures IntSum(TakenColumn(stats)) != 0 ==> r * IntSum(TakenColumn(stats)) as real == IntSum(DoneColumn(stats)) as real
    ensures IntSum(TakenColumn(stats)) == 0 ==> r == IntSum(DoneColumn(stats)) as real * 10.0
  {
    CalculateRatio(IntSum(DoneColumn(stats)) as real, IntSum(TakenColumn(stats)) as real)
  }

  /** `get_sets_ratio`: the ratio of the summed won sets to the summed lost sets. */
  function SetsRatio(stats: seq<StatValues>): (r: real)
    ensures IntSum(LostColumn(stats)) != 0 ==> r * IntSum(LostColumn(stats)) as real == IntSum(WonColumn(stats)) as real
    ensures IntSum(LostColumn(stats)) == 0 ==> r == IntSum(WonColumn(stats)) as real * 10.0
  {
    CalculateRatio(IntSum(WonColumn(stats)) as real, IntSum(LostColumn(stats)) as real)
  }

  /**
   * The ratio is taken of the sums, not averaged: a match won 1–1 and one lost 0–3
   * give 1/4, while the mean of their ratios would be 1/2.
   */
  lemma RatioOfSums()
    ensures PointsRatio([StatValues(1, 1, 0, 0), StatValues(0, 3, 0, 0)]) == 0.25
  {
    var stats := [StatValues(1, 1, 0, 0), StatValues(0, 3, 0, 0)];
    assert DoneColumn(stats) == [1, 0] && TakenColumn(stats) == [1, 3];
    assert IntSum([1, 0]) == 1 by {
      assert [1, 0][..1] == [1] && [1][..0] == [];
    }
    assert IntSum([1, 3]) == 4 by {
      assert [1, 3][..1] == [1] && [1][..0] == [];
    }
  }
}

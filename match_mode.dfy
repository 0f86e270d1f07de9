/**
 * A match mode (model `event.tournament.match.mode`): a table of results, each row
 * saying how many tournament points a team gets for a won–lost count of sets.
 */
module MatchMode {
  import opened Wrappers
  import opened Sums
  import opened TournamentIds

  /** One row of `result_ids`. */
  datatype ModeResult = ModeResult(wonSets: int, lostSets: int, winPoints: int, losePoints: int)

  /** A team's entry of the match's sets info: the sets it won and lost. */
  datatype SetsInfo = SetsInfo(won: int, lost: int)

  /** The UserError of `get_points`; it names the won–lost result that no row expects. */
  datatype PointsError = ResultNotExpected(won: int, lost: int)

  /** The row applies to the result as it stands, or read from the other team's side. */
  predicate Matches(info: SetsInfo, row: ModeResult)
  {
    (info.won, info.lost) == (row.wonSets, row.lostSets)
    || (info.won, info.lost) == (row.lostSets, row.wonSets)
  }

  /** The points a matching row gives: the straight reading is tried first. */
  function RowValue(info: SetsInfo, row: ModeResult): int
  {
    if (info.won, info.lost) == (row.wonSets, row.lostSets) then row.winPoints else row.losePoints
  }

  /** The points of the first row, in table order, that applies to the result. */
  function RowPoints(info: SetsInfo, rows: seq<ModeResult>): (r: Option<int>)
    ensures r.None? <==> forall i :: 0 <= i < |rows| ==> !Matches(info, rows[i])
  {
    if rows == [] then None
    else if (info.won, info.lost) == (rows[0].wonSets, rows[0].lostSets) then Some(rows[0].winPoints)
    else if (info.won, info.lost) == (rows[0].lostSets, rows[0].wonSets) then Some(rows[0].losePoints)
    else RowPoints(info, rows[1..])
  }

  /** The first applicable row decides; rows after it are not consulted. */
  lemma {:induction false} FirstRowDecides(info: SetsInfo, rows: seq<ModeResult>, i: nat, later: seq<ModeResult>)
    requires i < |rows| && Matches(info, rows[i])
    requires forall j :: 0 <= j < i ==> !Matches(info, rows[j])
    ensures RowPoints(info, rows) == Some(RowValue(info, rows[i]))
    ensures RowPoints(info, rows[..i + 1] + later) == Some(RowValue(info, rows[i]))
    decreases i
  {
    if i > 0 {
      assert !Matches(info, rows[0]);
      assert (rows[..i + 1] + later)[0] == rows[0];
      assert (rows[..i + 1] + later)[1..] == rows[1..][..i] + later;
      FirstRowDecides(info, rows[1..], i - 1, later);
    } else {
      assert (rows[..1] + later)[0] == rows[0];
    }
  }

  /** A result and its mirror image are expected by the same rows. */
  lemma MirrorExpected(won: int, lost: int, rows: seq<ModeResult>)
    ensures RowPoints(SetsInfo(won, lost), rows).Some? <==> RowPoints(SetsInfo(lost, won), rows).Some?
  {
  }

  /**
   * When the first row for a decided result is written from the winner's side, the
   * winner of the match gets its win points and the loser its lose points.
   */
  lemma WinnerAndLoser(won: int, lost: int, rows: seq<ModeResult>, i: nat)
    requires won != lost
    requires i < |rows| && rows[i].wonSets == won && rows[i].lostSets == lost
    requires forall j :: 0 <= j < i ==> !Matches(SetsInfo(won, lost), rows[j])
    ensures RowPoints(SetsInfo(won, lost), rows) == Some(rows[i].winPoints)
    ensures RowPoints(SetsInfo(lost, won), rows) == Some(rows[i].losePoints)
  {
    FirstRowDecides(SetsInfo(won, lost), rows, i, []);
    assert forall j :: 0 <= j < i ==> !Matches(SetsInfo(lost, won), rows[j]) by {
      forall j | 0 <= j < i ensures !Matches(SetsInfo(lost, won), rows[j]) {
        assert !Matches(SetsInfo(won, lost), rows[j]);
      }
    }
    FirstRowDecides(SetsInfo(lost, won), rows, i, []);
  }

  /** `Counter(match.team_ids)`: every team of the match starts at 1. */
  function Counter(teams: seq<TeamId>): (c: map<TeamId, int>)
    ensures c.Keys == KeySet(teams)
    ensures forall t :: t in c ==> c[t] == 1
  {
    map t | t in KeySet(teams) :: 1
  }

  /** Overwrites the points of each team of `keys`, in order, or stops at the first unexpected result. */
  function Scored(points: map<TeamId, int>, keys: seq<TeamId>, info: map<TeamId, SetsInfo>, rows: seq<ModeResult>)
    : Result<map<TeamId, int>, PointsError>
    requires KeySet(keys) <= info.Keys
    decreases |keys|
  {
    if keys == [] then Ok(points)
    else
      var wl := info[keys[0]];
      match RowPoints(wl, rows)
      case None => Err(ResultNotExpected(wl.won, wl.lost))
      case Some(p) => Scored(points[keys[0] := p], keys[1..], info, rows)
  }

  /** What `get_points` returns for a match with `teams` whose sets info lists `keys` in order. */
  function Points(teams: seq<TeamId>, keys: seq<TeamId>, info: map<TeamId, SetsInfo>, rows: seq<ModeResult>)
    : Result<map<TeamId, int>, PointsError>
    requires KeySet(keys) == info.Keys
  {
    Scored(Counter(teams), keys, info, rows)
  }

  /** `get_points`: the nested loop with its `break` and its `for … else` error. */
  method GetPoints(teams: seq<TeamId>, keys: seq<TeamId>, info: map<TeamId, SetsInfo>, rows: seq<ModeResult>)
    returns (r: Result<map<TeamId, int>, PointsError>)
    requires KeySet(keys) == info.Keys
    ensures r == Points(teams, keys, info, rows)
  {
    var points := map t | t in KeySet(teams) :: 1;
    for i := 0 to |keys|
      invariant Scored(points, keys[i..], info, rows) == Points(teams, keys, info, rows)
    {
      var team := keys[i];
      assert team in KeySet(keys);
      var wl := info[team];
      assert keys[i..][1..] == keys[i + 1..];
      ghost var before, expected := points, RowPoints(wl, rows);
      ghost var got := 0;
      var matched := false;
      for j := 0 to |rows|
        invariant !matched ==> expected == RowPoints(wl, rows[j..]) && points == before
        invariant matched ==> expected == Some(got) && points == before[team := got]
      {
        var res := rows[j];
        assert rows[j..][1..] == rows[j + 1..];
        if (wl.won, wl.lost) == (res.wonSets, res.lostSets) {
          points := points[team := res.winPoints];
          got, matched := res.winPoints, true;
          break;
        }
        if (wl.won, wl.lost) == (res.lostSets, res.wonSets) {
          points := points[team := res.losePoints];
          got, matched := res.losePoints, true;
          break;
        }
      }
      if !matched {
        return Err(ResultNotExpected(wl.won, wl.lost));
      }
    }
    return Ok(points);
  }

  /** No row of the table expects the result of team `k`. */
  predicate Unexpected(info: map<TeamId, SetsInfo>, rows: seq<ModeResult>, k: TeamId)
  {
    k in info && RowPoints(info[k], rows).None?
  }

  /**
   * `Scored` fails exactly when some team's result is unexpected, and then its error
   * names the result of the first such team in sets-info order.
   */
  lemma {:induction false} ScoredError(points: map<TeamId, int>, keys: seq<TeamId>, info: map<TeamId, SetsInfo>, rows: seq<ModeResult>)
    requires KeySet(keys) <= info.Keys
    ensures Scored(points, keys, info, rows).Err? <==> exists i :: 0 <= i < |keys| && Unexpected(info, rows, keys[i])
    ensures Scored(points, keys, info, rows).Err? ==>
      exists i :: 0 <= i < |keys| && Unexpected(info, rows, keys[i])
        && (forall j :: 0 <= j < i ==> !Unexpected(info, rows, keys[j]))
        && Scored(points, keys, info, rows).error == ResultNotExpected(info[keys[i]].won, info[keys[i]].lost)
    decreases |keys|
  {
    if keys != [] {
      assert keys[0] in KeySet(keys);
      var wl := info[keys[0]];
      if RowPoints(wl, rows).Some? {
        var p := RowPoints(wl, rows).value;
        assert KeySet(keys[1..]) <= KeySet(keys);
        ScoredError(points[keys[0] := p], keys[1..], info, rows);
        if exists i :: 0 <= i < |keys| && Unexpected(info, rows, keys[i]) {
          var i :| 0 <= i < |keys| && Unexpected(info, rows, keys[i]);
          assert Unexpected(info, rows, keys[1..][i - 1]);
        }
        if Scored(points, keys, info, rows).Err? {
          var i :| 0 <= i < |keys[1..]| && Unexpected(info, rows, keys[1..][i])
            && (forall j :: 0 <= j < i ==> !Unexpected(info, rows, keys[1..][j]))
            && Scored(points, keys, info, rows).error == ResultNotExpected(info[keys[1..][i]].won, info[keys[1..][i]].lost);
          assert forall j :: 0 <= j < i + 1 ==> !Unexpected(info, rows, keys[j]) by {
            forall j | 0 <= j < i + 1 ensures !Unexpected(info, rows, keys[j]) {
              if j > 0 {
                assert keys[j] == keys[1..][j - 1];
              }
            }
          }
          assert keys[i + 1] == keys[1..][i];
        }
      } else {
        assert Unexpected(info, rows, keys[0]);
      }
    }
  }

  /**
   * When `Scored` succeeds, every team of `keys` holds the points of its first
   * applicable row and every other team keeps the points it had.
   */
  lemma {:induction false} ScoredValues(points: map<TeamId, int>, keys: seq<TeamId>, info: map<TeamId, SetsInfo>, rows: seq<ModeResult>)
    requires KeySet(keys) <= info.Keys
    requires Scored(points, keys, info, rows).Ok?
    ensures Scored(points, keys, info, rows).value.Keys == points.Keys + KeySet(keys)
    ensures forall k :: k in KeySet(keys) ==> Some(Scored(points, keys, info, rows).value[k]) == RowPoints(info[k], rows)
    ensures forall t :: t in points && t !in KeySet(keys) ==> Scored(points, keys, info, rows).value[t] == points[t]
    decreases |keys|
  {
    if keys != [] {
      assert keys[0] in KeySet(keys);
      var p := RowPoints(info[keys[0]], rows).value;
      var rest := keys[1..];
      assert KeySet(keys) == {keys[0]} + KeySet(rest) by {
        assert keys == [keys[0]] + rest;
      }
      ScoredValues(points[keys[0] := p], rest, info, rows);
    }
  }

  /**
   * `get_points` succeeds when every team's result is expected; then each team of the
   * sets info has the points of its first applicable row, and each other team of the
   * match keeps the 1 of the Counter.
   */
  lemma PointsValues(teams: seq<TeamId>, keys: seq<TeamId>, info: map<TeamId, SetsInfo>, rows: seq<ModeResult>)
    requires KeySet(keys) == info.Keys
    requires forall k :: k in info ==> RowPoints(info[k], rows).Some?
    ensures Points(teams, keys, info, rows).Ok?
    ensures Points(teams, keys, info, rows).value.Keys == KeySet(teams) + info.Keys
    ensures forall k :: k in info ==> Some(Points(teams, keys, info, rows).value[k]) == RowPoints(info[k], rows)
    ensures forall t :: t in KeySet(teams) && t !in info ==> Points(teams, keys, info, rows).value[t] == 1
  {
    ScoredError(Counter(teams), keys, info, rows);
    ScoredValues(Counter(teams), keys, info, rows);
  }

  /** The rows of a table with a 2–1 row worth 2 points to the winner and 1 to the loser. */
  function TwoOneRows(): seq<ModeResult>
  {
    [ModeResult(2, 0, 3, 0), ModeResult(2, 1, 2, 1)]
  }

  /**
   * A 2–1 match scored with such a table: the loser, whose sets info reads 1–2, gets 1
   * and the winner gets 2, as the beach-volley test expects.
   */
  lemma TwoOneMatch(loser: TeamId, winner: TeamId)
    requires loser != winner
    ensures KeySet([loser, winner]) == {loser, winner}
    ensures Points([loser, winner], [loser, winner], map[loser := SetsInfo(1, 2), winner := SetsInfo(2, 1)], TwoOneRows())
      == Ok(map[loser := 1, winner := 2])
  {
    var rows := TwoOneRows();
    var info := map[loser := SetsInfo(1, 2), winner := SetsInfo(2, 1)];
    assert KeySet([loser, winner]) == info.Keys by {
      assert [loser, winner][0] == loser && [loser, winner][1] == winner;
    }
    WinnerAndLoser(2, 1, rows, 1);
    PointsValues([loser, winner], [loser, winner], info, rows);
    var r := Points([loser, winner], [loser, winner], info, rows).value;
    assert r.Keys == {loser, winner};
    assert r == map[loser := 1, winner := 2];
  }
}

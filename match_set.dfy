/**
 * A set of a match (model `event.tournament.match.set`): its tie-break flag, its
 * winner, and the reconciliation of its results with the teams of the match.
 */
module MatchSet {
  import opened Wrappers
  import opened Py
  import opened Sums
  import opened TournamentIds

  /**
   * `_compute_is_tie_break`: the match has at least `tieBreakNumber` sets and the set
   * sits at that 1-based position. The position is a Python index, so 0 names the
   * last set and a number below minus the set count raises an IndexError.
   */
  function IsTieBreak(sets: seq<SetId>, s: SetId, tieBreakNumber: int): (r: Result<bool, PyError>)
    ensures r.Err? <==> tieBreakNumber <= |sets| && tieBreakNumber - 1 < -|sets|
    ensures 1 <= tieBreakNumber ==> (r == Ok(true) <==> tieBreakNumber <= |sets| && sets[tieBreakNumber - 1] == s)
    ensures tieBreakNumber == 0 && sets != [] ==> (r == Ok(true) <==> sets[|sets| - 1] == s)
  {
    if |sets| >= tieBreakNumber then
      match PyIndex(sets, tieBreakNumber - 1)
      case None => Err(IndexError)
      case Some(at) => Ok(at == s)
    else Ok(false)
  }

  /** At most one set of a match is its tie-break. */
  lemma OneTieBreak(sets: seq<SetId>, s1: SetId, s2: SetId, tieBreakNumber: int)
    requires IsTieBreak(sets, s1, tieBreakNumber) == Ok(true)
    requires IsTieBreak(sets, s2, tieBreakNumber) == Ok(true)
    ensures s1 == s2
  {
  }

  /**
   * `_compute_winner_team_id`: the winner the match mode gives for the set, but
   * only once the match is done; before that the set has no winner.
   */
  function SetWinner(state: MatchState, modeWinner: set<TeamId>): (w: set<TeamId>)
    ensures state != Done ==> w == {}
    ensures state == Done ==> w == modeWinner
  {
    if state == Done then modeWinner else {}
  }

  /** A team's score in a set (model `event.tournament.match.set.result`). */
  datatype SetResult = SetResult(id: ResultId, team: TeamId, score: int)

  /** The one2many commands `_compute_result_ids` writes. */
  datatype ResultCommand = DeleteResult(id: ResultId) | CreateResult(team: TeamId)

  /** The results of team `t`, in order. */
  function ResultsOf(rs: seq<SetResult>, t: TeamId): (r: seq<SetResult>)
    ensures forall i :: 0 <= i < |r| ==> r[i].team == t && r[i] in rs
  {
    if rs == [] then [] else (if rs[0].team == t then [rs[0]] else []) + ResultsOf(rs[1..], t)
  }

  /** The constraint `unique_set_team`: a team has at most one score in a set. */
  ghost predicate OneScorePerTeam(rs: seq<SetResult>)
  {
    forall t :: |ResultsOf(rs, t)| <= 1
  }

  predicate DistinctResultIds(rs: seq<SetResult>)
  {
    forall i, j :: 0 <= i < j < |rs| ==> rs[i].id != rs[j].id
  }

  /** The ids of the results to delete: those of teams no longer in the match, once the match is saved. */
  function DeletedIds(existing: seq<SetResult>, teams: seq<TeamId>, saved: bool): seq<ResultId>
  {
    if existing == [] then []
    else
      var last := existing[|existing| - 1];
      DeletedIds(existing[..|existing| - 1], teams, saved)
        + (if last.team !in teams && saved then [last.id] else [])
  }

  /** The teams of the results. */
  function ResultTeams(rs: seq<SetResult>): set<TeamId>
  {
    set i | 0 <= i < |rs| :: rs[i].team
  }

  /** The teams of `ts` outside `gone`, in order. */
  function FilterOut(ts: seq<TeamId>, gone: set<TeamId>): (r: seq<TeamId>)
    ensures forall i :: 0 <= i < |r| ==> r[i] in ts && r[i] !in gone
  {
    if ts == [] then [] else (if ts[0] in gone then [] else [ts[0]]) + FilterOut(ts[1..], gone)
  }

  function Deletes(ids: seq<ResultId>): (cs: seq<ResultCommand>)
    ensures |cs| == |ids|
  {
    seq(|ids|, i requires 0 <= i < |ids| => DeleteResult(ids[i]))
  }

  function Creates(ts: seq<TeamId>): (cs: seq<ResultCommand>)
    ensures |cs| == |ts|
  {
    seq(|ts|, i requires 0 <= i < |ts| => CreateResult(ts[i]))
  }

  /** The commands `_compute_result_ids` writes: deletions, then one creation per team without a result. */
  function ResultCommands(teams: seq<TeamId>, existing: seq<SetResult>, saved: bool): seq<ResultCommand>
  {
    Deletes(DeletedIds(existing, teams, saved)) + Creates(FilterOut(teams, ResultTeams(existing)))
  }

  lemma {:induction false} FilterOutMore(ts: seq<TeamId>, gone: set<TeamId>, t: TeamId)
    ensures FilterOut(ts, gone + {t}) == FilterOut(FilterOut(ts, gone), {t})
    ensures t !in ts ==> FilterOut(ts, gone + {t}) == FilterOut(ts, gone)
    decreases |ts|
  {
    if ts != [] {
      FilterOutMore(ts[1..], gone, t);
      var head := if ts[0] in gone then [] else [ts[0]];
      FilterOutAppend(head, FilterOut(ts[1..], gone), {t});
      assert FilterOut(head, {t}) == (if ts[0] in gone + {t} then [] else [ts[0]]);
      if t !in ts {
        assert t !in ts[1..];
      }
    }
  }

  lemma {:induction false} FilterOutAppend(a: seq<TeamId>, b: seq<TeamId>, gone: set<TeamId>)
    ensures FilterOut(a + b, gone) == FilterOut(a, gone) + FilterOut(b, gone)
    decreases |a|
  {
    if a != [] {
      assert (a + b)[1..] == a[1..] + b;
      FilterOutAppend(a[1..], b, gone);
    } else {
      assert a + b == b;
    }
  }

  lemma {:induction false} FilterOutNothing(ts: seq<TeamId>)
    ensures FilterOut(ts, {}) == ts
    decreases |ts|
  {
    if ts != [] {
      FilterOutNothing(ts[1..]);
    }
  }

  /**
   * `_compute_result_ids`: walks the existing results, deleting those of removed
   * teams (unless the match is an unsaved NewId) and crossing kept teams off the
   * teams needing a result; then creates a result for each team still needing one.
   */
  method ComputeResultIds(teams: seq<TeamId>, existing: seq<SetResult>, saved: bool)
    returns (commands: seq<ResultCommand>)
    ensures commands == ResultCommands(teams, existing, saved)
  {
    var needing := teams;
    var deleted: seq<ResultId> := [];
    FilterOutNothing(teams);
    assert ResultTeams(existing[..0]) == {};
    for i := 0 to |existing|
      invariant deleted == DeletedIds(existing[..i], teams, saved)
      invariant needing == FilterOut(teams, ResultTeams(existing[..i]))
    {
      var team := existing[i].team;
      assert existing[..i + 1][..i] == existing[..i];
      assert ResultTeams(existing[..i + 1]) == ResultTeams(existing[..i]) + {team} by {
        assert existing[..i + 1] == existing[..i] + [existing[i]];
      }
      FilterOutMore(teams, ResultTeams(existing[..i]), team);
      if team !in teams {
        if saved {
          deleted := deleted + [existing[i].id];
        }
      } else {
        needing := FilterOut(needing, {team});
      }
    }
    assert existing[..|existing|] == existing;
    commands := Deletes(deleted) + Creates(needing);
  }

  /** The results whose id is not in `ids`, in order. */
  function WithoutIds(rs: seq<SetResult>, ids: set<ResultId>): (r: seq<SetResult>)
    ensures forall i :: 0 <= i < |r| ==> r[i] in rs && r[i].id !in ids
  {
    if rs == [] then [] else (if rs[0].id in ids then [] else [rs[0]]) + WithoutIds(rs[1..], ids)
  }

  /** The results a run of creations adds, with fresh ids from `nextId` and the default score 0. */
  function NewResults(ts: seq<TeamId>, nextId: ResultId): (r: seq<SetResult>)
    ensures |r| == |ts|
  {
    seq(|ts|, i requires 0 <= i < |ts| => SetResult(nextId + i, ts[i], 0))
  }

  /** Writing the commands to `result_ids`, one after the other. */
  function ApplyResultCommands(rs: seq<SetResult>, cs: seq<ResultCommand>, nextId: ResultId): seq<SetResult>
    decreases |cs|
  {
    if cs == [] then rs
    else match cs[0]
      case DeleteResult(id) => ApplyResultCommands(WithoutIds(rs, {id}), cs[1..], nextId)
      case CreateResult(t) => ApplyResultCommands(rs + [SetResult(nextId, t, 0)], cs[1..], nextId + 1)
  }

  lemma {:induction false} ApplyCreates(rs: seq<SetResult>, ts: seq<TeamId>, nextId: ResultId)
    ensures ApplyResultCommands(rs, Creates(ts), nextId) == rs + NewResults(ts, nextId)
    decreases |ts|
  {
    if ts != [] {
      assert Creates(ts)[1..] == Creates(ts[1..]);
      ApplyCreates(rs + [SetResult(nextId, ts[0], 0)], ts[1..], nextId + 1);
      assert NewResults(ts, nextId) == [SetResult(nextId, ts[0], 0)] + NewResults(ts[1..], nextId + 1);
    }
  }

  lemma {:induction false} WithoutIdsTwice(rs: seq<SetResult>, a: set<ResultId>, b: set<ResultId>)
    ensures WithoutIds(WithoutIds(rs, a), b) == WithoutIds(rs, a + b)
    decreases |rs|
  {
    if rs != [] {
      WithoutIdsTwice(rs[1..], a, b);
      var head := if rs[0].id in a then [] else [rs[0]];
      WithoutIdsAppend(head, WithoutIds(rs[1..], a), b);
    }
  }

  lemma {:induction false} WithoutIdsAppend(x: seq<SetResult>, y: seq<SetResult>, ids: set<ResultId>)
    ensures WithoutIds(x + y, ids) == WithoutIds(x, ids) + WithoutIds(y, ids)
    decreases |x|
  {
    if x != [] {
      assert (x + y)[1..] == x[1..] + y;
      WithoutIdsAppend(x[1..], y, ids);
    } else {
      assert x + y == y;
    }
  }

  lemma {:induction false} WithoutNoIds(rs: seq<SetResult>)
    ensures WithoutIds(rs, {}) == rs
    decreases |rs|
  {
    if rs != [] {
      WithoutNoIds(rs[1..]);
    }
  }

  lemma {:induction false} ApplyDeletes(rs: seq<SetResult>, ids: seq<ResultId>, rest: seq<ResultCommand>, nextId: ResultId)
    ensures ApplyResultCommands(rs, Deletes(ids) + rest, nextId) == ApplyResultCommands(WithoutIds(rs, KeySet(ids)), rest, nextId)
    decreases |ids|
  {
    if ids == [] {
      assert Deletes(ids) + rest == rest;
      assert KeySet(ids) == {};
      WithoutNoIds(rs);
    } else {
      assert (Deletes(ids) + rest)[0] == DeleteResult(ids[0]);
      assert (Deletes(ids) + rest)[1..] == Deletes(ids[1..]) + rest;
      ApplyDeletes(WithoutIds(rs, {ids[0]}), ids[1..], rest, nextId);
      WithoutIdsTwice(rs, {ids[0]}, KeySet(ids[1..]));
      assert KeySet(ids) == {ids[0]} + KeySet(ids[1..]) by {
        assert ids == [ids[0]] + ids[1..];
      }
    }
  }

  lemma {:induction false} ResultsOfAppend(x: seq<SetResult>, y: seq<SetResult>, t: TeamId)
    ensures ResultsOf(x + y, t) == ResultsOf(x, t) + ResultsOf(y, t)
    decreases |x|
  {
    if x != [] {
      assert (x + y)[1..] == x[1..] + y;
      ResultsOfAppend(x[1..], y, t);
    } else {
      assert x + y == y;
    }
  }

  /** Fresh results for distinct teams give each of those teams exactly one result. */
  lemma {:induction false} ResultsOfNew(ts: seq<TeamId>, nextId: ResultId, t: TeamId)
    requires DistinctTeams(ts)
    ensures |ResultsOf(NewResults(ts, nextId), t)| == if t in ts then 1 else 0
    decreases |ts|
  {
    if ts != [] {
      assert NewResults(ts, nextId)[1..] == NewResults(ts[1..], nextId + 1);
      ResultsOfNew(ts[1..], nextId + 1, t);
      assert t in ts <==> t == ts[0] || t in ts[1..] by {
        assert ts == [ts[0]] + ts[1..];
      }
      if t == ts[0] {
        assert t !in ts[1..];
      }
    }
  }

  /** Removing ids none of a team's results carry leaves that team's results as they were. */
  lemma {:induction false} ResultsOfWithoutOtherIds(rs: seq<SetResult>, ids: set<ResultId>, t: TeamId)
    requires forall i :: 0 <= i < |rs| && rs[i].team == t ==> rs[i].id !in ids
    ensures ResultsOf(WithoutIds(rs, ids), t) == ResultsOf(rs, t)
    decreases |rs|
  {
    if rs != [] {
      assert forall i :: 0 <= i < |rs[1..]| ==> rs[1..][i] == rs[i + 1];
      ResultsOfWithoutOtherIds(rs[1..], ids, t);
      var head := if rs[0].id in ids then [] else [rs[0]];
      ResultsOfAppend(head, WithoutIds(rs[1..], ids), t);
    }
  }

  /** Removing the ids of all of a team's results leaves that team none. */
  lemma {:induction false} ResultsOfWithoutAllIds(rs: seq<SetResult>, ids: set<ResultId>, t: TeamId)
    requires forall i :: 0 <= i < |rs| && rs[i].team == t ==> rs[i].id in ids
    ensures ResultsOf(WithoutIds(rs, ids), t) == []
    decreases |rs|
  {
    if rs != [] {
      assert forall i :: 0 <= i < |rs[1..]| ==> rs[1..][i] == rs[i + 1];
      ResultsOfWithoutAllIds(rs[1..], ids, t);
      var head := if rs[0].id in ids then [] else [rs[0]];
      ResultsOfAppend(head, WithoutIds(rs[1..], ids), t);
    }
  }

  lemma {:induction false} DeletedIdsMembers(existing: seq<SetResult>, teams: seq<TeamId>, saved: bool, id: ResultId)
    ensures id in KeySet(DeletedIds(existing, teams, saved))
      <==> saved && exists i :: 0 <= i < |existing| && existing[i].id == id && existing[i].team !in teams
    decreases |existing|
  {
    if existing != [] {
      var n := |existing| - 1;
      var front := existing[..n];
      DeletedIdsMembers(front, teams, saved, id);
      var tail := if existing[n].team !in teams && saved then [existing[n].id] else [];
      KeySetAppend(DeletedIds(front, teams, saved), tail);
      if id in KeySet(DeletedIds(existing, teams, saved)) {
        if id in KeySet(DeletedIds(front, teams, saved)) {
          var i :| 0 <= i < |front| && front[i].id == id && front[i].team !in teams;
          assert existing[i] == front[i];
        } else {
          assert existing[n].id == id;
        }
      }
      if saved && exists i :: 0 <= i < |existing| && existing[i].id == id && existing[i].team !in teams {
        var i :| 0 <= i < |existing| && existing[i].id == id && existing[i].team !in teams;
        if i < n {
          assert front[i] == existing[i];
          assert id in KeySet(DeletedIds(front, teams, saved));
        } else {
          assert tail == [id] && tail[0] == id;
          assert id in KeySet(tail);
        }
      }
    }
  }

  lemma {:induction false} ResultTeamsMembers(rs: seq<SetResult>, t: TeamId)
    ensures t in ResultTeams(rs) <==> ResultsOf(rs, t) != []
    decreases |rs|
  {
    if rs != [] {
      ResultTeamsMembers(rs[1..], t);
      assert ResultTeams(rs) == {rs[0].team} + ResultTeams(rs[1..]) by {
        assert forall i :: 0 < i < |rs| ==> rs[i] == rs[1..][i - 1];
      }
    }
  }

  lemma {:induction false} FilterOutMembers(ts: seq<TeamId>, gone: set<TeamId>, t: TeamId)
    ensures t in FilterOut(ts, gone) <==> t in ts && t !in gone
    ensures DistinctTeams(ts) ==> DistinctTeams(FilterOut(ts, gone))
    decreases |ts|
  {
    if ts != [] {
      FilterOutMembers(ts[1..], gone, t);
      FilterOutMembers(ts[1..], gone, ts[0]);
      assert ts == [ts[0]] + ts[1..];
    }
  }

  /**
   * Writing the commands of `_compute_result_ids` leaves exactly one result for every
   * team of the match, keeps an existing result of such a team as it was, removes the
   * results of the other teams (only once the match is saved), and so keeps the
   * one-score-per-team constraint.
   */
  lemma ResultsAfterCompute(teams: seq<TeamId>, existing: seq<SetResult>, saved: bool, nextId: ResultId)
    requires DistinctTeams(teams) && DistinctResultIds(existing) && OneScorePerTeam(existing)
    ensures var after := ApplyResultCommands(existing, ResultCommands(teams, existing, saved), nextId);
      && (forall t :: t in teams ==> |ResultsOf(after, t)| == 1)
      && (forall t :: t in teams && ResultsOf(existing, t) != [] ==> ResultsOf(after, t) == ResultsOf(existing, t))
      && (forall t :: t !in teams ==> ResultsOf(after, t) == if saved then [] else ResultsOf(existing, t))
      && OneScorePerTeam(after)
  {
    var ids := DeletedIds(existing, teams, saved);
    var needing := FilterOut(teams, ResultTeams(existing));
    var kept := WithoutIds(existing, KeySet(ids));
    var after := ApplyResultCommands(existing, ResultCommands(teams, existing, saved), nextId);
    ApplyDeletes(existing, ids, Creates(needing), nextId);
    ApplyCreates(kept, needing, nextId);
    assert after == kept + NewResults(needing, nextId);
    forall t
      ensures t in teams ==> ResultsOf(after, t) == ResultsOf(existing, t) + ResultsOf(NewResults(needing, nextId), t)
      ensures t in teams ==> |ResultsOf(NewResults(needing, nextId), t)| == if ResultsOf(existing, t) == [] then 1 else 0
      ensures t !in teams ==> ResultsOf(after, t) == if saved then [] else ResultsOf(existing, t)
    {
      ResultsOfAppend(kept, NewResults(needing, nextId), t);
      FilterOutMembers(teams, ResultTeams(existing), t);
      ResultTeamsMembers(existing, t);
      ResultsOfNew(needing, nextId, t);
      forall i | 0 <= i < |existing| && existing[i].id in KeySet(ids)
        ensures existing[i].team !in teams
      {
        DeletedIdsMembers(existing, teams, saved, existing[i].id);
      }
      if t !in teams {
        forall i | 0 <= i < |existing| && existing[i].team == t && saved
          ensures existing[i].id in KeySet(ids)
        {
          DeletedIdsMembers(existing, teams, saved, existing[i].id);
        }
        if !saved {
          assert ids == [] by {
            if ids != [] {
              DeletedIdsMembers(existing, teams, saved, ids[0]);
            }
          }
          WithoutNoIds(existing);
        }
      }
      if t in teams || !saved {
        ResultsOfWithoutOtherIds(existing, KeySet(ids), t);
      } else {
        ResultsOfWithoutAllIds(existing, KeySet(ids), t);
      }
    }
    assert OneScorePerTeam(after) by {
      forall t ensures |ResultsOf(after, t)| <= 1 {
        assert |ResultsOf(existing, t)| <= 1;
      }
    }
  }

  /** The scores of the results, as `str` writes them. */
  function ScoreTexts(rs: seq<SetResult>): (r: seq<string>)
    ensures |r| == |rs|
  {
    seq(|rs|, i requires 0 <= i < |rs| => IntToString(rs[i].score))
  }

  /** `name_get`: the set's name, a colon, and its scores joined with " - ". */
  function SetDisplayName(name: string, rs: seq<SetResult>): (r: string)
    ensures |r| >= |name| + 2 && r[..|name| + 2] == name + ": "
  {
    name + ": " + Join(ScoreTexts(rs), " - ")
  }

  /** With a single result, the text after the name is the score, which reads back as the same number. */
  lemma SetDisplayOneScore(name: string, result: SetResult)
    ensures ParseInt(SetDisplayName(name, [result])[|name| + 2..]) == Some(result.score)
  {
    assert SetDisplayName(name, [result])[|name| + 2..] == IntToString(result.score);
    ParseIntToString(result.score);
  }
}

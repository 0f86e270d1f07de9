/**
 * A match (model `event.tournament.match`): the constraints on its teams, its
 * tournament and its winner, its state, and its display name.
 */
module TournamentMatch {
  import opened Wrappers
  import opened Py
  import opened TournamentIds

  datatype MatchError =
    | CommonComponents
    | TeamsFromDifferentTournaments
    | TeamsNotInSelectedTournament
    | WinnerNotParticipating

  /** Some attendee is a component of every team of the match. */
  ghost predicate HasCommonComponent(teams: seq<TeamId>, componentsOf: TeamId -> set<RegistrationId>)
  {
    teams != [] && exists c :: c in componentsOf(teams[0]) && forall i :: 0 <= i < |teams| ==> c in componentsOf(teams[i])
  }

  /**
   * `constrain_teams`: starts from the first team's components and intersects those of
   * every team; the check fails when something is left, that is, when one attendee
   * plays for all the teams. A match without teams passes.
   */
  method ConstrainTeams(teams: seq<TeamId>, componentsOf: TeamId -> set<RegistrationId>) returns (r: Outcome<MatchError>)
    ensures r.Fail? ==> r.error == CommonComponents
    ensures r.Fail? <==> HasCommonComponent(teams, componentsOf)
  {
    var registration: set<RegistrationId> := if teams == [] then {} else componentsOf(teams[0]);
    for i := 0 to |teams|
      invariant teams != [] ==> forall c :: c in registration <==> Shared(teams, componentsOf, c, i)
      invariant teams == [] ==> registration == {}
    {
      registration := registration * componentsOf(teams[i]);
    }
    CommonComponentLeft(teams, componentsOf, registration);
    if registration != {} {
      return Fail(CommonComponents);
    }
    return Pass;
  }

  /** Attendee `c` is a component of the first team and of the first `n` teams. */
  predicate Shared(teams: seq<TeamId>, componentsOf: TeamId -> set<RegistrationId>, c: RegistrationId, n: nat)
    requires teams != [] && n <= |teams|
  {
    c in componentsOf(teams[0]) && forall j :: 0 <= j < n ==> c in componentsOf(teams[j])
  }

  lemma CommonComponentLeft(teams: seq<TeamId>, componentsOf: TeamId -> set<RegistrationId>, left: set<RegistrationId>)
    requires teams != [] ==> forall c :: c in left <==> Shared(teams, componentsOf, c, |teams|)
    requires teams == [] ==> left == {}
    ensures left != {} <==> HasCommonComponent(teams, componentsOf)
  {
    if HasCommonComponent(teams, componentsOf) {
      var c :| c in componentsOf(teams[0]) && forall i :: 0 <= i < |teams| ==> c in componentsOf(teams[i]);
      assert c in left;
    }
    if left != {} {
      var c :| c in left;
      assert Shared(teams, componentsOf, c, |teams|);
    }
  }

  /**
   * The check is on all the teams at once, not pair by pair: three teams each sharing
   * a different attendee with each other have no component in common.
   */
  lemma PairwiseSharingPasses(a: TeamId, b: TeamId, c: TeamId, componentsOf: TeamId -> set<RegistrationId>)
    requires componentsOf(a) == {1, 2} && componentsOf(b) == {2, 3} && componentsOf(c) == {3, 1}
    ensures !HasCommonComponent([a, b, c], componentsOf)
  {
    var teams := [a, b, c];
    forall x | x in componentsOf(teams[0])
      ensures !(forall i :: 0 <= i < |teams| ==> x in componentsOf(teams[i]))
    {
      if x == 1 {
        assert x !in componentsOf(teams[1]);
      } else {
        assert x !in componentsOf(teams[2]);
      }
    }
  }

  /** A match with a single team fails as soon as that team has a component. */
  lemma OneTeamWithComponents(t: TeamId, componentsOf: TeamId -> set<RegistrationId>)
    ensures HasCommonComponent([t], componentsOf) <==> componentsOf(t) != {}
  {
    if componentsOf(t) != {} {
      var x :| x in componentsOf(t);
      assert [t][0] == t;
      assert x in componentsOf([t][0]) && forall i :: 0 <= i < |[t]| ==> x in componentsOf([t][i]);
    }
  }

  /** The tournaments of the teams, as `mapped('tournament_id')` collects them. */
  function TeamsTournaments(teams: seq<TeamId>, tournamentOf: TeamId -> TournamentId): set<TournamentId>
  {
    set i | 0 <= i < |teams| :: tournamentOf(teams[i])
  }

  /**
   * `constrain_tournament`: the teams must come from one tournament, and that must be
   * the match's tournament (a team's tournament is required).
   */
  function ConstrainTournament(teams: seq<TeamId>, tournamentOf: TeamId -> TournamentId,
                               matchTournament: Option<TournamentId>): (r: Outcome<MatchError>)
    ensures r == Pass <==> forall i :: 0 <= i < |teams| ==> Some(tournamentOf(teams[i])) == matchTournament
    ensures r == Fail(TeamsFromDifferentTournaments)
      <==> exists i, j :: 0 <= i < |teams| && 0 <= j < |teams| && tournamentOf(teams[i]) != tournamentOf(teams[j])
    ensures r.Fail? ==> r.error in {TeamsFromDifferentTournaments, TeamsNotInSelectedTournament}
  {
    var ts := TeamsTournaments(teams, tournamentOf);
    SetOfOneOrMore(ts);
    assert forall i :: 0 <= i < |teams| ==> tournamentOf(teams[i]) in ts;
    if |ts| > 1 then Fail(TeamsFromDifferentTournaments)
    else if ts != {} && (matchTournament.None? || ts != {matchTournament.value}) then Fail(TeamsNotInSelectedTournament)
    else Pass
  }

  /** `_constrain_winner`: a winner must be one of the match's teams. */
  function ConstrainWinner(winner: Option<TeamId>, teams: seq<TeamId>): (r: Outcome<MatchError>)
    ensures r == Pass <==> winner.None? || winner.value in teams
    ensures r.Fail? ==> r.error == WinnerNotParticipating
  {
    if winner.Some? && winner.value !in teams then Fail(WinnerNotParticipating) else Pass
  }

  /** `name_get`: the team names joined with " vs ". */
  function MatchDisplayName(names: seq<string>): (r: string)
    ensures |names| == 1 ==> r == names[0]
    ensures |names| == 2 ==> r == names[0] + " vs " + names[1]
  {
    Join(names, " vs ")
  }

  /** A match record: the fields the modelled methods read and write. */
  class Match {
    var teams: seq<TeamId>
    var tournament: Option<TournamentId>
    var winner: Option<TeamId>
    var state: MatchState

    constructor (teams: seq<TeamId>, tournament: Option<TournamentId>)
      ensures this.teams == teams && this.tournament == tournament
      ensures winner == None && state == Unset
    {
      this.teams := teams;
      this.tournament := tournament;
      winner := None;
      state := Unset;
    }

    /**
     * `action_done`: the state becomes done whatever it was, so doing it again
     * changes nothing; the other fields are untouched.
     */
    method ActionDone()
      modifies this
      ensures state == Done
      ensures teams == old(teams) && tournament == old(tournament) && winner == old(winner)
    {
      state := Done;
    }
  }
}

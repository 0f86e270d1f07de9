/**
 * A tournament team (model `event.tournament.team`): the rule that its components
 * and its matches belong to its tournament's event, and the domains its form offers.
 */
module TournamentTeam {
  import opened Wrappers
  import opened TournamentIds

  datatype TeamError =
    | ComponentsFromDifferentEvents
    | ComponentsNotInSelectedEvent
    | TeamsFromDifferentEvents
    | TeamsNotInSelectedEvent

  /** The events of the components, as `mapped('event_id')` collects them (an attendee's event is required). */
  function ComponentEvents(components: set<RegistrationId>, eventOf: RegistrationId -> EventId): set<EventId>
  {
    set c | c in components :: eventOf(c)
  }

  /** The events of the matches' tournaments; a match without one contributes nothing. */
  function MatchEvents(matches: set<MatchId>, eventOfMatch: MatchId -> Option<EventId>): set<EventId>
  {
    set m | m in matches && eventOfMatch(m).Some? :: eventOfMatch(m).value
  }

  /** One half of the rule: at most one event, and then the tournament's. */
  function CheckEvents(events: set<EventId>, tournamentEvent: Option<EventId>,
                       different: TeamError, notSelected: TeamError): (r: Outcome<TeamError>)
    ensures r == Pass <==> forall e :: e in events ==> Some(e) == tournamentEvent
    ensures r.Fail? && different != notSelected ==>
      (r.error == different <==> exists x, y :: x in events && y in events && x != y)
    ensures r.Fail? ==> r.error in {different, notSelected}
  {
    SetOfOneOrMore(events);
    if |events| > 1 then Fail(different)
    else if events != {} && (tournamentEvent.None? || events != {tournamentEvent.value}) then Fail(notSelected)
    else Pass
  }

  /**
   * `constrain_tournament`: the components must all come from the event of the team's
   * tournament, and so must the matches; the four errors are raised in this order.
   */
  function ConstrainTournament(components: set<RegistrationId>, eventOf: RegistrationId -> EventId,
                               matches: set<MatchId>, eventOfMatch: MatchId -> Option<EventId>,
                               tournamentEvent: Option<EventId>): (r: Outcome<TeamError>)
    ensures r == Pass <==>
      (forall c :: c in components ==> Some(eventOf(c)) == tournamentEvent)
      && (forall m :: m in matches && eventOfMatch(m).Some? ==> eventOfMatch(m) == tournamentEvent)
    ensures r == Fail(ComponentsFromDifferentEvents)
      <==> exists c1, c2 :: c1 in components && c2 in components && eventOf(c1) != eventOf(c2)
    ensures r.Fail? && r.error in {TeamsFromDifferentEvents, TeamsNotInSelectedEvent} ==>
      forall c :: c in components ==> Some(eventOf(c)) == tournamentEvent
  {
    var ce := ComponentEvents(components, eventOf);
    var me := MatchEvents(matches, eventOfMatch);
    assert forall c :: c in components ==> eventOf(c) in ce;
    assert forall m :: m in matches && eventOfMatch(m).Some? ==> eventOfMatch(m).value in me;
    var first := CheckEvents(ce, tournamentEvent, ComponentsFromDifferentEvents, ComponentsNotInSelectedEvent);
    if first.Fail? then first
    else CheckEvents(me, tournamentEvent, TeamsFromDifferentEvents, TeamsNotInSelectedEvent)
  }

  /** A team with no components and no matches always passes. */
  lemma EmptyTeamPasses(eventOf: RegistrationId -> EventId, eventOfMatch: MatchId -> Option<EventId>,
                        tournamentEvent: Option<EventId>)
    ensures ConstrainTournament({}, eventOf, {}, eventOfMatch, tournamentEvent) == Pass
  {
  }

  /** One term of a search domain: a field, an operator and a record id (`False` when empty). */
  datatype DomainTerm = DomainTerm(field: string, operator: string, value: Option<nat>)

  /**
   * `onchange_tournament`: restricts the components to the tournament's event and the
   * matches to the tournament.
   */
  function OnchangeTournament(tournament: Option<TournamentId>, tournamentEvent: Option<EventId>)
    : (r: map<string, map<string, seq<DomainTerm>>>)
    ensures r.Keys == {"domain"}
    ensures r["domain"].Keys == {"component_ids", "match_ids"}
    ensures r["domain"]["component_ids"] == [DomainTerm("event_id", "=", tournamentEvent)]
    ensures r["domain"]["match_ids"] == [DomainTerm("tournament_id", "=", tournament)]
  {
    map["domain" := map[
      "component_ids" := [DomainTerm("event_id", "=", tournamentEvent)],
      "match_ids" := [DomainTerm("tournament_id", "=", tournament)]]]
  }
}

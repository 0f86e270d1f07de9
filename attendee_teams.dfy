/**
 * Turning the team entries saved on the registrations into teams: the entries are
 * popped from the registrations, the attendees are grouped by tournament and team
 * name, and each group either completes the tournament's team of that name or
 * becomes a new team.
 */
module AttendeeTeams {
  import opened Wrappers
  import opened Py
  import opened TournamentIds
  import opened RegistrationForm

  /** `attendees_teams`: the saved entries of each registration that has some, by position. */
  function TeamsByIndex(regs: seq<RegistrationValues>): map<nat, seq<TeamEntry>>
  {
    map i | 0 <= i < |regs| && regs[i].teams.Some? :: regs[i].teams.value
  }

  /** The loop that pops `tournament_team_ids` from every registration into `attendees_teams`. */
  method PopTeams(regs: seq<RegistrationValues>) returns (byIndex: map<nat, seq<TeamEntry>>, rest: seq<RegistrationValues>)
    ensures byIndex == TeamsByIndex(regs)
    ensures forall i :: i in byIndex <==> 0 <= i < |regs| && regs[i].teams.Some?
    ensures |rest| == |regs| && forall i :: 0 <= i < |rest| ==> rest[i].teams.None?
  {
    byIndex := map[];
    rest := regs;
    for i := 0 to |regs|
      invariant |rest| == |regs| && rest[i..] == regs[i..]
      invariant byIndex == map j | 0 <= j < i && regs[j].teams.Some? :: regs[j].teams.value
      invariant forall j :: 0 <= j < i ==> rest[j].teams.None?
    {
      assert rest[i] == regs[i] by { assert rest[i..][0] == regs[i..][0]; }
      if rest[i].teams.Some? {
        byIndex := byIndex[i := rest[i].teams.value];
        rest := rest[i := RegistrationValues(None)];
      }
    }
  }

  /** `tournament_to_team_to_components`: tournament id, then team name, then its attendees. */
  type Grouping = map<int, map<string, set<RegistrationId>>>

  predicate Member(g: Grouping, tournament: int, name: string, attendee: RegistrationId)
  {
    tournament in g && name in g[tournament] && attendee in g[tournament][name]
  }

  /** Adds one attendee to the team `name` of `tournament`, creating either level when missing. */
  function Joined(g: Grouping, tournament: int, name: string, attendee: RegistrationId): (r: Grouping)
    ensures forall t, n, b :: Member(r, t, n, b) <==> Member(g, t, n, b) || (t == tournament && n == name && b == attendee)
    ensures r.Keys == g.Keys + {tournament}
  {
    var teams := if tournament in g then g[tournament] else map[];
    var members := if name in teams then teams[name] else {};
    g[tournament := teams[name := members + {attendee}]]
  }

  /** Every saved entry names its tournament with an integer. */
  predicate AllParse(entries: seq<TeamEntry>)
  {
    forall k :: 0 <= k < |entries| ==> ParseInt(entries[k].tournament).Some?
  }

  /** One attendee's entries, in order; `int(tournament_id)` raises a ValueError for a non-integer id. */
  function AddEntries(g: Grouping, entries: seq<TeamEntry>, attendee: RegistrationId): Result<Grouping, PyError>
    decreases |entries|
  {
    if entries == [] then Ok(g)
    else match ParseInt(entries[0].tournament)
      case None => Err(ValueError)
      case Some(t) => AddEntries(Joined(g, t, entries[0].name, attendee), entries[1..], attendee)
  }

  /** The grouping loop as written: an attendee without a saved entry raises a KeyError. */
  function GroupAsWritten(g: Grouping, byIndex: map<nat, seq<TeamEntry>>, attendees: seq<RegistrationId>, i: nat): Result<Grouping, PyError>
    decreases |attendees| - i
  {
    if i >= |attendees| then Ok(g)
    else if i !in byIndex then Err(KeyError)
    else match AddEntries(g, byIndex[i], attendees[i])
      case Err(e) => Err(e)
      case Ok(next) => GroupAsWritten(next, byIndex, attendees, i + 1)
  }

  /** `attendees_teams.get(i, [])`: an attendee without entries belongs to no team. */
  function EntriesAt(byIndex: map<nat, seq<TeamEntry>>, i: nat): seq<TeamEntry>
  {
    if i in byIndex then byIndex[i] else []
  }

  /** The grouping loop with the missing entries read as no entries. */
  function GroupCorrected(g: Grouping, byIndex: map<nat, seq<TeamEntry>>, attendees: seq<RegistrationId>, i: nat): Result<Grouping, PyError>
    decreases |attendees| - i
  {
    if i >= |attendees| then Ok(g)
    else match AddEntries(g, EntriesAt(byIndex, i), attendees[i])
      case Err(e) => Err(e)
      case Ok(next) => GroupCorrected(next, byIndex, attendees, i + 1)
  }

  /** The inner loop: one attendee's entries added to the grouping, level by level. */
  method AddAttendee(g: Grouping, entries: seq<TeamEntry>, attendee: RegistrationId) returns (r: Result<Grouping, PyError>)
    ensures r == AddEntries(g, entries, attendee)
  {
    var groups := g;
    for k := 0 to |entries|
      invariant AddEntries(groups, entries[k..], attendee) == AddEntries(g, entries, attendee)
    {
      assert entries[k..][0] == entries[k] && entries[k..][1..] == entries[k + 1..];
      var parsed := ParseInt(entries[k].tournament);
      if parsed.None? {
        return Err(ValueError);
      }
      var tournament := parsed.value;
      var name := entries[k].name;
      // a missing tournament or team name starts empty
      var teamDict := if tournament in groups then groups[tournament] else map[];
      var members := if name in teamDict then teamDict[name] else {};
      groups := groups[tournament := teamDict[name := members + {attendee}]];
    }
    assert entries[|entries|..] == [];
    return Ok(groups);
  }

  /** The nested loops of `_create_attendees_from_registration_post` that fill the grouping. */
  method GroupAttendeeTeams(byIndex: map<nat, seq<TeamEntry>>, attendees: seq<RegistrationId>) returns (r: Result<Grouping, PyError>)
    ensures r == GroupAsWritten(map[], byIndex, attendees, 0)
  {
    var g: Grouping := map[];
    for i := 0 to |attendees|
      invariant GroupAsWritten(g, byIndex, attendees, i) == GroupAsWritten(map[], byIndex, attendees, 0)
    {
      if i !in byIndex {
        return Err(KeyError);
      }
      var next := AddAttendee(g, byIndex[i], attendees[i]);
      if next.Err? {
        return next;
      }
      g := next.value;
    }
    return Ok(g);
  }

  /** The entries succeed exactly when every tournament id parses; the only error is a ValueError. */
  lemma {:induction false} AddEntriesOk(g: Grouping, entries: seq<TeamEntry>, attendee: RegistrationId)
    ensures AddEntries(g, entries, attendee).Ok? <==> AllParse(entries)
    ensures AddEntries(g, entries, attendee).Err? ==> AddEntries(g, entries, attendee).error == ValueError
    decreases |entries|
  {
    if entries != [] {
      AllParseCons(entries);
      var parsed := ParseInt(entries[0].tournament);
      if parsed.Some? {
        var next := Joined(g, parsed.value, entries[0].name, attendee);
        assert AddEntries(g, entries, attendee) == AddEntries(next, entries[1..], attendee);
        AddEntriesOk(next, entries[1..], attendee);
      }
    }
  }

  lemma AllParseCons(entries: seq<TeamEntry>)
    requires entries != []
    ensures AllParse(entries) <==> ParseInt(entries[0].tournament).Some? && AllParse(entries[1..])
  {
    assert forall k :: 0 < k < |entries| ==> entries[k] == entries[1..][k - 1];
  }

  /** Some entry names team `n` of tournament `t`. */
  ghost predicate Names(entries: seq<TeamEntry>, t: int, n: string)
  {
    exists k :: 0 <= k < |entries| && entries[k].name == n && ParseInt(entries[k].tournament) == Some(t)
  }

  lemma NamesCons(entries: seq<TeamEntry>, t: int, n: string)
    requires entries != []
    ensures Names(entries, t, n) <==>
      (entries[0].name == n && ParseInt(entries[0].tournament) == Some(t)) || Names(entries[1..], t, n)
  {
    assert forall k :: 0 < k < |entries| ==> entries[k] == entries[1..][k - 1];
  }

  /** The attendee is added to exactly the teams its entries name, and nothing else changes. */
  lemma {:induction false} AddEntriesMembers(g: Grouping, entries: seq<TeamEntry>, attendee: RegistrationId,
                                             t: int, n: string, b: RegistrationId)
    requires AddEntries(g, entries, attendee).Ok?
    ensures Member(AddEntries(g, entries, attendee).value, t, n, b) <==>
      Member(g, t, n, b) || (b == attendee && Names(entries, t, n))
    decreases |entries|
  {
    if entries != [] {
      var p := ParseInt(entries[0].tournament).value;
      var next := Joined(g, p, entries[0].name, attendee);
      assert AddEntries(g, entries, attendee) == AddEntries(next, entries[1..], attendee);
      AddEntriesMembers(next, entries[1..], attendee, t, n, b);
      NamesCons(entries, t, n);
    }
  }

  /** The attendee at position `i` or later that names team `n` of tournament `t`. */
  ghost predicate Named(byIndex: map<nat, seq<TeamEntry>>, attendees: seq<RegistrationId>, from: nat,
                        t: int, n: string, b: RegistrationId)
  {
    exists i: nat :: from <= i < |attendees| && attendees[i] == b && Names(EntriesAt(byIndex, i), t, n)
  }

  /**
   * The corrected grouping puts an attendee in the team of a tournament exactly when one
   * of its saved entries names that team and that tournament.
   */
  lemma {:induction false} GroupCorrectedMembers(g: Grouping, byIndex: map<nat, seq<TeamEntry>>, attendees: seq<RegistrationId>,
                                                 from: nat, t: int, n: string, b: RegistrationId)
    requires GroupCorrected(g, byIndex, attendees, from).Ok?
    ensures Member(GroupCorrected(g, byIndex, attendees, from).value, t, n, b) <==>
      Member(g, t, n, b) || Named(byIndex, attendees, from, t, n, b)
    decreases |attendees| - from
  {
    if from < |attendees| {
      var entries := EntriesAt(byIndex, from);
      var next := AddEntries(g, entries, attendees[from]).value;
      AddEntriesMembers(g, entries, attendees[from], t, n, b);
      GroupCorrectedMembers(next, byIndex, attendees, from + 1, t, n, b);
      assert Named(byIndex, attendees, from, t, n, b) <==>
        (b == attendees[from] && Names(entries, t, n)) || Named(byIndex, attendees, from + 1, t, n, b);
    } else {
      assert !Named(byIndex, attendees, from, t, n, b);
    }
  }

  /** The corrected grouping fails only on a tournament id that is not an integer, never with a KeyError. */
  lemma {:induction false} GroupCorrectedOk(g: Grouping, byIndex: map<nat, seq<TeamEntry>>, attendees: seq<RegistrationId>, from: nat)
    ensures GroupCorrected(g, byIndex, attendees, from).Ok? <==> AllFromParse(byIndex, attendees, from)
    ensures GroupCorrected(g, byIndex, attendees, from).Err? ==> GroupCorrected(g, byIndex, attendees, from).error == ValueError
    decreases |attendees| - from
  {
    if from < |attendees| {
      var step := AddEntries(g, EntriesAt(byIndex, from), attendees[from]);
      AddEntriesOk(g, EntriesAt(byIndex, from), attendees[from]);
      AllFromParseStep(byIndex, attendees, from);
      if step.Ok? {
        GroupCorrectedOk(step.value, byIndex, attendees, from + 1);
      }
    }
  }

  /** The entries of every attendee from position `from` on name their tournaments with integers. */
  predicate AllFromParse(byIndex: map<nat, seq<TeamEntry>>, attendees: seq<RegistrationId>, from: nat)
  {
    forall i: nat :: from <= i < |attendees| ==> AllParse(EntriesAt(byIndex, i))
  }

  lemma AllFromParseStep(byIndex: map<nat, seq<TeamEntry>>, attendees: seq<RegistrationId>, from: nat)
    requires from < |attendees|
    ensures AllFromParse(byIndex, attendees, from) <==>
      AllParse(EntriesAt(byIndex, from)) && AllFromParse(byIndex, attendees, from + 1)
  {
  }

  /** When every attendee saved at least one entry, the code as written and the corrected code agree. */
  lemma {:induction false} AsWrittenAgrees(g: Grouping, byIndex: map<nat, seq<TeamEntry>>, attendees: seq<RegistrationId>, from: nat)
    requires forall i: nat :: from <= i < |attendees| ==> i in byIndex
    ensures GroupAsWritten(g, byIndex, attendees, from) == GroupCorrected(g, byIndex, attendees, from)
    decreases |attendees| - from
  {
    if from < |attendees| {
      var step := AddEntries(g, byIndex[from], attendees[from]);
      if step.Ok? {
        AsWrittenAgrees(step.value, byIndex, attendees, from + 1);
      }
    }
  }

  /**
   * A registration in which no attendee entered a team name, as for every event without
   * tournaments, raises a KeyError in the code as written; the corrected code groups nobody.
   */
  lemma NoTeamsKeyError(attendees: seq<RegistrationId>)
    requires |attendees| >= 1
    ensures GroupAsWritten(map[], map[], attendees, 0) == Err(KeyError)
    ensures GroupCorrected(map[], map[], attendees, 0) == Ok(map[])
  {
    NoTeamsNoGroups(attendees, 0);
  }

  lemma {:induction false} NoTeamsNoGroups(attendees: seq<RegistrationId>, from: nat)
    ensures GroupCorrected(map[], map[], attendees, from) == Ok(map[])
    decreases |attendees| - from
  {
    if from < |attendees| {
      NoTeamsNoGroups(attendees, from + 1);
    }
  }

  /**
   * Two attendees, only the first of whom names a team: the code as written stops at
   * the second with a KeyError, the corrected code puts the first in the team.
   */
  lemma SecondAttendeeKeyError(first: RegistrationId, second: RegistrationId, tournament: int, name: string)
    ensures GroupAsWritten(map[], map[0 := [TeamEntry(IntToString(tournament), name)]], [first, second], 0) == Err(KeyError)
    ensures GroupCorrected(map[], map[0 := [TeamEntry(IntToString(tournament), name)]], [first, second], 0)
      == Ok(map[tournament := map[name := {first}]])
  {
    var entries := [TeamEntry(IntToString(tournament), name)];
    ParseIntToString(tournament);
    var g := Joined(map[], tournament, name, first);
    assert AddEntries(map[], entries, first) == AddEntries(g, [], first) by { assert entries[1..] == []; }
    var empty: map<string, set<RegistrationId>> := map[];
    assert {} + {first} == {first};
    assert g == map[tournament := empty[name := {} + {first}]];
    assert AddEntries(g, EntriesAt(map[0 := entries], 1), second) == Ok(g);
    assert GroupCorrected(g, map[0 := entries], [first, second], 2) == Ok(g);
  }

  /** A tournament team: its tournament, its name and its components. */
  datatype Team = Team(id: TeamId, tournament: int, name: string, components: set<RegistrationId>)

  predicate IsTeam(team: Team, tournament: int, name: string)
  {
    team.tournament == tournament && team.name == name
  }

  /** `first(tournament.team_ids.filtered_domain([("name", "=", name)]))`: the earliest team with that name. */
  function FindTeam(teams: seq<Team>, tournament: int, name: string): (r: Option<nat>)
    ensures r.Some? ==> r.value < |teams| && IsTeam(teams[r.value], tournament, name)
    ensures r.Some? ==> forall j :: 0 <= j < r.value ==> !IsTeam(teams[j], tournament, name)
    ensures r.None? <==> forall j :: 0 <= j < |teams| ==> !IsTeam(teams[j], tournament, name)
    decreases |teams|
  {
    if teams == [] then None
    else if IsTeam(teams[0], tournament, name) then Some(0)
    else match FindTeam(teams[1..], tournament, name)
      case None => None
      case Some(k) => Some(k + 1)
  }

  /** A team that kept its identity and gained components. */
  predicate Grown(old_: Team, new_: Team)
  {
    new_.id == old_.id && new_.tournament == old_.tournament && new_.name == old_.name
    && old_.components <= new_.components
  }

  /**
   * One group: the existing team of that tournament and name gets the components added
   * (`component_ids |= components`); without one, a team is created with them.
   */
  function CreateOrExtend(teams: seq<Team>, tournament: int, name: string, components: set<RegistrationId>, newId: TeamId): (r: seq<Team>)
    ensures exists j :: 0 <= j < |r| && IsTeam(r[j], tournament, name) && components <= r[j].components
    ensures |teams| <= |r| <= |teams| + 1
    ensures |r| == |teams| + 1 <==> forall j :: 0 <= j < |teams| ==> !IsTeam(teams[j], tournament, name)
    ensures |r| == |teams| + 1 ==> r[|teams|] == Team(newId, tournament, name, components)
    ensures forall k :: 0 <= k < |teams| ==> Grown(teams[k], r[k])
    ensures forall k :: 0 <= k < |teams| && !IsTeam(teams[k], tournament, name) ==> r[k] == teams[k]
    ensures forall k, c :: 0 <= k < |teams| && c in r[k].components ==> c in teams[k].components || c in components
  {
    match FindTeam(teams, tournament, name)
      case None =>
        var r := teams + [Team(newId, tournament, name, components)];
        assert IsTeam(r[|teams|], tournament, name) && r[|teams|].components == components;
        r
      case Some(k) =>
        var r := teams[k := teams[k].(components := teams[k].components + components)];
        assert IsTeam(r[k], tournament, name) && components <= r[k].components;
        r
  }

  /** Each of the first `n` groups has a team of its tournament and name holding all its attendees. */
  predicate Covered(teams: seq<Team>, g: Grouping, items: seq<(int, string)>, n: nat)
    requires n <= |items|
  {
    forall k :: 0 <= k < n ==>
      && items[k].0 in g && items[k].1 in g[items[k].0]
      && exists j :: 0 <= j < |teams| && IsTeam(teams[j], items[k].0, items[k].1) && g[items[k].0][items[k].1] <= teams[j].components
  }

  /** The team's tournament and name are those of one of the first `n` groups. */
  predicate NamesGroup(team: Team, items: seq<(int, string)>, n: nat)
    requires n <= |items|
  {
    exists k :: 0 <= k < n && IsTeam(team, items[k].0, items[k].1)
  }

  /** Every team past the original ones is one of the groups, and the first team of its tournament and name. */
  predicate CreatedOnce(teams: seq<Team>, after: seq<Team>, items: seq<(int, string)>, n: nat)
    requires n <= |items|
  {
    forall j :: |teams| <= j < |after| ==>
      && NamesGroup(after[j], items, n)
      && forall i :: 0 <= i < j ==> !IsTeam(after[i], after[j].tournament, after[j].name)
  }

  /** Every component of a team is one it had, or an attendee of one of the first `n` groups of its tournament and name. */
  predicate Sourced(teams: seq<Team>, after: seq<Team>, g: Grouping, items: seq<(int, string)>, n: nat)
    requires n <= |items|
  {
    forall j, c :: 0 <= j < |after| && c in after[j].components ==>
      || (j < |teams| && c in teams[j].components)
      || exists k :: 0 <= k < n && IsTeam(after[j], items[k].0, items[k].1)
                    && items[k].0 in g && items[k].1 in g[items[k].0] && c in g[items[k].0][items[k].1]
  }

  /** The attendees of the group of `tournament` and `name`; the loop only visits groups of the grouping. */
  function Components(g: Grouping, tournament: int, name: string): set<RegistrationId>
  {
    if tournament in g && name in g[tournament] then g[tournament][name] else {}
  }

  /** The create-or-update loop from group `i` on, with `newId` the id the next created team gets. */
  function CreateOrUpdateFrom(teams: seq<Team>, g: Grouping, items: seq<(int, string)>, i: nat, newId: TeamId): seq<Team>
    requires i <= |items|
    decreases |items| - i
  {
    if i == |items| then teams
    else
      var r := CreateOrExtend(teams, items[i].0, items[i].1, Components(g, items[i].0, items[i].1), newId);
      CreateOrUpdateFrom(r, g, items, i + 1, if |r| > |teams| then newId + 1 else newId)
  }

  /** Every visited pair names a group of the grouping. */
  predicate InGrouping(g: Grouping, items: seq<(int, string)>)
  {
    forall k :: 0 <= k < |items| ==> items[k].0 in g && items[k].1 in g[items[k].0]
  }

  /**
   * The create-or-update loop over the grouping, visiting its (tournament, name) pairs in
   * the dictionaries' order; new teams get consecutive ids from `nextId`. A team is
   * created only for a group whose tournament has no team of that name yet, and a team
   * gains only the attendees of the groups of its tournament and name.
   */
  method CreateOrUpdateTeams(teams: seq<Team>, g: Grouping, items: seq<(int, string)>, nextId: TeamId) returns (after: seq<Team>)
    requires InGrouping(g, items)
    ensures after == CreateOrUpdateFrom(teams, g, items, 0, nextId)
    ensures |teams| <= |after| <= |teams| + |items|
    ensures forall k :: 0 <= k < |teams| ==> Grown(teams[k], after[k])
    ensures forall j :: |teams| <= j < |after| ==> after[j].id == nextId + (j - |teams|)
    ensures Covered(after, g, items, |items|)
    ensures CreatedOnce(teams, after, items, |items|)
    ensures Sourced(teams, after, g, items, |items|)
  {
    after := teams;
    var newId := nextId;
    for i := 0 to |items|
      invariant CreateOrUpdateFrom(after, g, items, i, newId) == CreateOrUpdateFrom(teams, g, items, 0, nextId)
    {
      var (tournament, name) := items[i];
      var components := g[tournament][name];
      var previous, previousId := after, newId;
      after := CreateOrExtend(after, tournament, name, components, newId);
      if |after| > |previous| {
        newId := newId + 1;
      }
      FoldStep(previous, after, g, items, i, previousId, newId);
    }
    var grown := CreateOrUpdateGrows(teams, g, items, 0, teams, nextId, nextId);
    var covered := CreateOrUpdateCovers(g, items, 0, teams, nextId);
    var created := CreateOrUpdateCreates(teams, g, items, 0, teams, nextId);
  }

  /** The loop from group `i` on handles group `i`, then goes on from the next one. */
  lemma FoldStep(teams: seq<Team>, after: seq<Team>, g: Grouping, items: seq<(int, string)>, i: nat, newId: TeamId, next: TeamId)
    requires i < |items| && items[i].0 in g && items[i].1 in g[items[i].0]
    requires after == CreateOrExtend(teams, items[i].0, items[i].1, g[items[i].0][items[i].1], newId)
    requires next == if |after| > |teams| then newId + 1 else newId
    ensures CreateOrUpdateFrom(teams, g, items, i, newId) == CreateOrUpdateFrom(after, g, items, i + 1, next)
  {
  }

  /** The loop from group `i` on keeps the original teams grown and numbers the created ones consecutively. */
  lemma {:induction false} CreateOrUpdateGrows(teams: seq<Team>, g: Grouping, items: seq<(int, string)>, i: nat,
                                               cur: seq<Team>, newId: TeamId, nextId: TeamId)
    returns (r: seq<Team>)
    requires i <= |items| && InGrouping(g, items)
    requires |teams| <= |cur| <= |teams| + i && newId == nextId + (|cur| - |teams|)
    requires forall k :: 0 <= k < |teams| ==> Grown(teams[k], cur[k])
    requires forall j :: |teams| <= j < |cur| ==> cur[j].id == nextId + (j - |teams|)
    ensures r == CreateOrUpdateFrom(cur, g, items, i, newId)
    ensures |teams| <= |r| <= |teams| + |items|
    ensures forall k :: 0 <= k < |teams| ==> Grown(teams[k], r[k])
    ensures forall j :: |teams| <= j < |r| ==> r[j].id == nextId + (j - |teams|)
    decreases |items| - i
  {
    if i == |items| {
      r := cur;
      assert r == CreateOrUpdateFrom(cur, g, items, i, newId);
    } else {
      var next := CreateOrExtend(cur, items[i].0, items[i].1, g[items[i].0][items[i].1], newId);
      GrowStep(teams, cur, next, items[i].0, items[i].1, g[items[i].0][items[i].1], nextId, newId);
      var nid := if |next| > |cur| then newId + 1 else newId;
      FoldStep(cur, next, g, items, i, newId, nid);
      r := CreateOrUpdateGrows(teams, g, items, i + 1, next, nid, nextId);
      assert r == CreateOrUpdateFrom(cur, g, items, i, newId);
    }
  }

  /** One group keeps the original teams grown, and a team created for it takes the next consecutive id. */
  lemma GrowStep(teams: seq<Team>, previous: seq<Team>, after: seq<Team>, tournament: int, name: string,
                 components: set<RegistrationId>, nextId: TeamId, newId: TeamId)
    requires |teams| <= |previous| && newId == nextId + (|previous| - |teams|)
    requires forall k :: 0 <= k < |teams| ==> Grown(teams[k], previous[k])
    requires forall j :: |teams| <= j < |previous| ==> previous[j].id == nextId + (j - |teams|)
    requires after == CreateOrExtend(previous, tournament, name, components, newId)
    ensures forall k :: 0 <= k < |teams| ==> Grown(teams[k], after[k])
    ensures forall j :: |teams| <= j < |after| ==> after[j].id == nextId + (j - |teams|)
  {
    forall k | 0 <= k < |teams| ensures Grown(teams[k], after[k]) {
      assert Grown(previous[k], after[k]);
    }
    forall j | |teams| <= j < |previous| ensures after[j].id == nextId + (j - |teams|) {
      assert Grown(previous[j], after[j]);
    }
  }

  /** The loop from group `i` on covers every group. */
  lemma {:induction false} CreateOrUpdateCovers(g: Grouping, items: seq<(int, string)>, i: nat, cur: seq<Team>, newId: TeamId)
    returns (r: seq<Team>)
    requires i <= |items| && InGrouping(g, items)
    requires Covered(cur, g, items, i)
    ensures r == CreateOrUpdateFrom(cur, g, items, i, newId)
    ensures Covered(r, g, items, |items|)
    decreases |items| - i
  {
    if i == |items| {
      r := cur;
      assert r == CreateOrUpdateFrom(cur, g, items, i, newId);
    } else {
      var next := CreateOrExtend(cur, items[i].0, items[i].1, g[items[i].0][items[i].1], newId);
      CoverStep(cur, next, g, items, i, newId);
      var nid := if |next| > |cur| then newId + 1 else newId;
      FoldStep(cur, next, g, items, i, newId, nid);
      r := CreateOrUpdateCovers(g, items, i + 1, next, nid);
      assert r == CreateOrUpdateFrom(cur, g, items, i, newId);
    }
  }

  /** Adding group `i` covers it and keeps the earlier groups covered. */
  lemma CoverStep(previous: seq<Team>, after: seq<Team>, g: Grouping, items: seq<(int, string)>, i: nat, newId: TeamId)
    requires i < |items| && items[i].0 in g && items[i].1 in g[items[i].0]
    requires Covered(previous, g, items, i)
    requires after == CreateOrExtend(previous, items[i].0, items[i].1, g[items[i].0][items[i].1], newId)
    ensures Covered(after, g, items, i + 1)
  {
    forall k | 0 <= k < i
      ensures exists j :: 0 <= j < |after| && IsTeam(after[j], items[k].0, items[k].1) && g[items[k].0][items[k].1] <= after[j].components
    {
      var j :| 0 <= j < |previous| && IsTeam(previous[j], items[k].0, items[k].1) && g[items[k].0][items[k].1] <= previous[j].components;
      assert Grown(previous[j], after[j]);
    }
  }

  /** The loop from group `i` on creates each team once, for a group, and adds only the groups' attendees. */
  lemma {:induction false} CreateOrUpdateCreates(teams: seq<Team>, g: Grouping, items: seq<(int, string)>, i: nat,
                                                 cur: seq<Team>, newId: TeamId)
    returns (r: seq<Team>)
    requires i <= |items| && InGrouping(g, items) && |teams| <= |cur|
    requires CreatedOnce(teams, cur, items, i) && Sourced(teams, cur, g, items, i)
    ensures r == CreateOrUpdateFrom(cur, g, items, i, newId)
    ensures CreatedOnce(teams, r, items, |items|) && Sourced(teams, r, g, items, |items|)
    decreases |items| - i
  {
    if i == |items| {
      r := cur;
      assert r == CreateOrUpdateFrom(cur, g, items, i, newId);
    } else {
      var next := CreateOrExtend(cur, items[i].0, items[i].1, g[items[i].0][items[i].1], newId);
      ExtendKeeps(teams, cur, next, g, items, i, newId);
      var nid := if |next| > |cur| then newId + 1 else newId;
      FoldStep(cur, next, g, items, i, newId, nid);
      r := CreateOrUpdateCreates(teams, g, items, i + 1, next, nid);
      assert r == CreateOrUpdateFrom(cur, g, items, i, newId);
    }
  }

  /** Adding group `i` keeps the created teams first of their name and the components sourced. */
  lemma ExtendKeeps(teams: seq<Team>, previous: seq<Team>, after: seq<Team>, g: Grouping, items: seq<(int, string)>, i: nat, newId: TeamId)
    requires i < |items| && |teams| <= |previous| && items[i].0 in g && items[i].1 in g[items[i].0]
    requires CreatedOnce(teams, previous, items, i) && Sourced(teams, previous, g, items, i)
    requires after == CreateOrExtend(previous, items[i].0, items[i].1, g[items[i].0][items[i].1], newId)
    ensures |teams| <= |after|
    ensures CreatedOnce(teams, after, items, i + 1) && Sourced(teams, after, g, items, i + 1)
  {
    var (tournament, name) := items[i];
    forall j | |teams| <= j < |after|
      ensures NamesGroup(after[j], items, i + 1)
      ensures forall l :: 0 <= l < j ==> !IsTeam(after[l], after[j].tournament, after[j].name)
    {
      if j < |previous| {
        var k :| 0 <= k < i && IsTeam(previous[j], items[k].0, items[k].1);
        assert Grown(previous[j], after[j]);
        assert IsTeam(after[j], items[k].0, items[k].1);
        forall l | 0 <= l < j ensures !IsTeam(after[l], after[j].tournament, after[j].name) {
          assert Grown(previous[l], after[l]);
        }
      } else {
        assert IsTeam(after[j], tournament, name);
        forall l | 0 <= l < j ensures !IsTeam(after[l], after[j].tournament, after[j].name) {
          assert Grown(previous[l], after[l]);
        }
      }
    }
    forall j, c | 0 <= j < |after| && c in after[j].components
      ensures || (j < |teams| && c in teams[j].components)
              || exists k :: 0 <= k < i + 1 && IsTeam(after[j], items[k].0, items[k].1) && c in g[items[k].0][items[k].1]
    {
      if j < |previous| {
        assert Grown(previous[j], after[j]);
        if c !in previous[j].components {
          assert IsTeam(after[j], tournament, name);
        }
      } else {
        assert IsTeam(after[j], tournament, name);
      }
    }
  }
}

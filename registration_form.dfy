/**
 * The registration side of the website controller: reading the team fields of the
 * attendee form (`team_name-<attendee number>-<tournament id>`), grouping the attendees
 * by tournament and team name, and creating or completing the teams.
 */
module RegistrationForm {
  import opened Wrappers
  import opened Py
  import opened Sums
  import opened TournamentIds

  /** A team an attendee asked to join: the tournament id as posted, and the team's name. */
  datatype TeamEntry = TeamEntry(tournament: string, name: string)

  /** The values of one registration that this code reads and writes: the pending team entries. */
  datatype RegistrationValues = RegistrationValues(teams: Option<seq<TeamEntry>>)

  function Entries(v: RegistrationValues): seq<TeamEntry>
  {
    if v.teams.Some? then v.teams.value else []
  }

  /** `setdefault("tournament_team_ids", []).append(entry)`. */
  function AddEntry(v: RegistrationValues, e: TeamEntry): (r: RegistrationValues)
    ensures Entries(r) == Entries(v) + [e] && r.teams.Some?
  {
    RegistrationValues(Some(Entries(v) + [e]))
  }

  /**
   * The position Python's `values[index]` reaches in a list of `n` values: a negative
   * index counts from the end; anything else out of range is an IndexError.
   */
  function Position(n: nat, index: int): (r: Option<nat>)
    ensures r.Some? <==> -(n as int) <= index < n
    ensures r.Some? ==> r.value < n && (r.value == index || r.value == n + index)
  {
    if 0 <= index < n then Some(index) else if -(n as int) <= index < 0 then Some(n + index) else None
  }

  /**
   * One field of the posted form. A key starting with "team_name" must split on "-"
   * into three parts with an integer in the middle (else a ValueError); a first part
   * other than "team_name" or a blank value is skipped; otherwise the stripped name is
   * appended, with the tournament id, to the registration at the 1-based index.
   */
  function FormStep(regs: seq<RegistrationValues>, key: string, value: string): (r: Result<seq<RegistrationValues>, PyError>)
    ensures r.Ok? ==> |r.value| == |regs|
    ensures !StartsWith(key, "team_name") ==> r == Ok(regs)
    ensures StartsWith(key, "team_name") && |Split(key, '-')| != 3 ==> r == Err(ValueError)
  {
    if !StartsWith(key, "team_name") then Ok(regs)
    else
      var parts := Split(key, '-');
      if |parts| != 3 then Err(ValueError)
      else match ParseInt(parts[1])
        case None => Err(ValueError)
        case Some(number) =>
          if parts[0] != "team_name" then Ok(regs)
          else
            var name := Strip(value);
            if name == [] then Ok(regs)
            else match Position(|regs|, number - 1)
              case None => Err(IndexError)
              case Some(i) => Ok(regs[i := AddEntry(regs[i], TeamEntry(parts[2], name))])
  }

  /** The form's fields in order, stopping at the first error. */
  function ProcessForm(regs: seq<RegistrationValues>, form: seq<(string, string)>): Result<seq<RegistrationValues>, PyError>
    decreases |form|
  {
    if form == [] then Ok(regs)
    else match FormStep(regs, form[0].0, form[0].1)
      case Err(e) => Err(e)
      case Ok(next) => ProcessForm(next, form[1..])
  }

  /** `_process_attendees_form`: the loop over the posted fields, in their order. */
  method ProcessAttendeesForm(regs: seq<RegistrationValues>, form: seq<(string, string)>)
    returns (r: Result<seq<RegistrationValues>, PyError>)
    ensures r == ProcessForm(regs, form)
  {
    var values := regs;
    for k := 0 to |form|
      invariant ProcessForm(values, form[k..]) == ProcessForm(regs, form)
    {
      assert form[k..][0] == form[k] && form[k..][1..] == form[k + 1..];
      var (key, value) := form[k];
      if StartsWith(key, "team_name") {
        var parts := Split(key, '-');
        if |parts| != 3 {
          return Err(ValueError);
        }
        var parsed := ParseInt(parts[1]);
        if parsed.None? {
          return Err(ValueError);
        }
        var index := parsed.value - 1;
        if parts[0] == "team_name" {
          var name := Strip(value);
          if name != [] {
            var position := Position(|values|, index);
            if position.None? {
              return Err(IndexError);
            }
            var i := position.value;
            values := values[i := AddEntry(values[i], TeamEntry(parts[2], name))];
          }
        }
      }
    }
    assert form[|form|..] == [];
    return Ok(values);
  }

  /** The form key the attendee form posts for attendee `number` and a tournament. */
  function TeamKey(number: nat, tournament: string): string
  {
    Join(["team_name", IntToString(number), tournament], "-")
  }

  lemma TeamKeyParts(number: nat, tournament: string)
    requires '-' !in tournament
    ensures StartsWith(TeamKey(number, tournament), "team_name")
    ensures Split(TeamKey(number, tournament), '-') == ["team_name", IntToString(number), tournament]
  {
    var parts := ["team_name", IntToString(number), tournament];
    assert parts[0] == "team_name" && parts[1] == NatToString(number) && parts[2] == tournament;
    SplitJoin(parts, '-');
  }

  /**
   * A field posted for attendee `number` (1-based, within the attendees) with a
   * non-blank value appends the tournament and the stripped name to that attendee's
   * entries and changes nothing else.
   */
  lemma TeamFieldAppends(regs: seq<RegistrationValues>, number: nat, tournament: string, value: string, k: nat)
    requires 1 <= number <= |regs| && '-' !in tournament
    requires k < |value| && !IsSpace(value[k])
    ensures FormStep(regs, TeamKey(number, tournament), value)
      == Ok(regs[number - 1 := AddEntry(regs[number - 1], TeamEntry(tournament, Strip(value)))])
  {
    TeamKeyParts(number, tournament);
    ParseIntToString(number);
    StripNonBlank(value, k);
  }

  /** A team field whose value is blank or whitespace changes nothing. */
  lemma BlankTeamFieldSkipped(regs: seq<RegistrationValues>, number: nat, tournament: string, value: string)
    requires '-' !in tournament
    requires forall i :: 0 <= i < |value| ==> IsSpace(value[i])
    ensures FormStep(regs, TeamKey(number, tournament), value) == Ok(regs)
  {
    TeamKeyParts(number, tournament);
    ParseIntToString(number);
    StripBlank(value);
  }

  /** A key that starts with "team_name" but has another first part, like "team_names-1-2", is skipped. */
  lemma OtherFieldSkipped(regs: seq<RegistrationValues>, first: string, number: nat, tournament: string, value: string)
    requires StartsWith(first, "team_name") && first != "team_name" && '-' !in first && '-' !in tournament
    ensures FormStep(regs, Join([first, IntToString(number), tournament], "-"), value) == Ok(regs)
  {
    var parts := [first, IntToString(number), tournament];
    var key := Join(parts, "-");
    assert parts[1] == NatToString(number);
    SplitJoin(parts, '-');
    assert key[..|first|] == first;
    assert key[..9] == first[..9];
    ParseIntToString(number);
  }

  /** Processing the form only appends: every registration keeps its earlier entries, in order. */
  lemma {:induction false} ProcessFormKeeps(regs: seq<RegistrationValues>, form: seq<(string, string)>)
    requires ProcessForm(regs, form).Ok?
    ensures |ProcessForm(regs, form).value| == |regs|
    ensures forall i :: 0 <= i < |regs| ==>
      Entries(regs[i]) <= Entries(ProcessForm(regs, form).value[i])
    decreases |form|
  {
    if form != [] {
      var next := FormStep(regs, form[0].0, form[0].1).value;
      FormStepKeeps(regs, form[0].0, form[0].1);
      ProcessFormKeeps(next, form[1..]);
    }
  }

  /** One field appends to at most one registration's entries and removes nothing. */
  lemma FormStepKeeps(regs: seq<RegistrationValues>, key: string, value: string)
    requires FormStep(regs, key, value).Ok?
    ensures forall i :: 0 <= i < |regs| ==> Entries(regs[i]) <= Entries(FormStep(regs, key, value).value[i])
  {
  }
}

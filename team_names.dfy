/**
 * `get_team_names` of the website controller: the names an attendee typed in a team
 * field, where a name may be quoted ("A, B" is one team) or comma-separated.
 */
module TeamNames {
  import opened Py

  /** What the quoted-name pattern finds in a text, and the text it leaves once they are removed. */
  datatype Scanned = Scanned(quoted: seq<string>, rest: string)

  function QuoteFree(s: string): bool
  {
    forall i :: 0 <= i < |s| ==> s[i] != '"'
  }

  /** The position of the first double quote in `s`. */
  function FirstQuote(s: string): (k: nat)
    requires !QuoteFree(s)
    ensures k < |s| && s[k] == '"' && QuoteFree(s[..k])
  {
    if s[0] == '"' then 0 else 1 + FirstQuote(s[1..])
  }

  /**
   * The pattern `"([^"]*)"` read left to right, as `findall` and `sub` apply it: an
   * opening quote with a later quote captures the text between them and both quotes
   * disappear; a quote with no later one, and every other character, stays in the rest.
   */
  function Scan(s: string): (r: Scanned)
    ensures forall i :: 0 <= i < |r.quoted| ==> QuoteFree(r.quoted[i])
    ensures |r.rest| <= |s|
    decreases |s|
  {
    if s == [] then Scanned([], [])
    else if s[0] == '"' && !QuoteFree(s[1..]) then
      var k := FirstQuote(s[1..]);
      var tail := Scan(s[k + 2..]);
      assert s[1..k + 1] == s[1..][..k];
      Scanned([s[1..k + 1]] + tail.quoted, tail.rest)
    else
      var tail := Scan(s[1..]);
      Scanned(tail.quoted, [s[0]] + tail.rest)
  }

  /** The comma-separated names of the unquoted text, stripped, empty ones dropped. */
  function Unquoted(parts: seq<string>): (r: seq<string>)
    ensures forall i :: 0 <= i < |r| ==> r[i] != [] && Stripped(r[i])
  {
    if parts == [] then []
    else (if Strip(parts[0]) == [] then [] else [Strip(parts[0])]) + Unquoted(parts[1..])
  }

  /**
   * `get_team_names`: the quoted names first, kept as typed (they have no double quote),
   * then the names of the unquoted text, which are non-empty, have no comma and no
   * outer whitespace.
   */
  function GetTeamNames(value: string): (names: seq<string>)
    ensures var scanned := Scan(value);
      && |scanned.quoted| <= |names| && names[..|scanned.quoted|] == scanned.quoted
      && (forall i :: 0 <= i < |scanned.quoted| ==> QuoteFree(names[i]))
      && (forall i :: |scanned.quoted| <= i < |names| ==> names[i] != [] && Stripped(names[i]) && ',' !in names[i])
  {
    var scanned := Scan(value);
    var parts := Split(scanned.rest, ',');
    UnquotedWithin(parts);
    scanned.quoted + Unquoted(parts)
  }

  lemma {:induction false} UnquotedWithin(parts: seq<string>)
    requires forall i, j :: 0 <= i < |parts| && 0 <= j < |parts[i]| ==> parts[i][j] != ','
    ensures forall i :: 0 <= i < |Unquoted(parts)| ==> ',' !in Unquoted(parts)[i]
    decreases |parts|
  {
    if parts != [] {
      UnquotedWithin(parts[1..]);
      assert ',' !in Strip(parts[0]) by {
        var i := StripSlice(parts[0]);
        assert forall j :: 0 <= j < |Strip(parts[0])| ==> Strip(parts[0])[j] == parts[0][i + j];
      }
    }
  }

  /** A text without double quotes has nothing quoted and is left whole. */
  lemma {:induction false} ScanQuoteFree(s: string)
    requires QuoteFree(s)
    ensures Scan(s) == Scanned([], s)
    decreases |s|
  {
    if s != [] {
      ScanQuoteFree(s[1..]);
      assert s == [s[0]] + s[1..];
    }
  }

  function Quote(name: string): string
  {
    "\"" + name + "\""
  }

  /** The names, each quoted, written one after the other. */
  function QuoteAll(names: seq<string>): string
  {
    if names == [] then [] else Quote(names[0]) + QuoteAll(names[1..])
  }

  lemma {:induction false} ScanQuoted(names: seq<string>)
    requires forall i :: 0 <= i < |names| ==> QuoteFree(names[i])
    ensures Scan(QuoteAll(names)) == Scanned(names, [])
    decreases |names|
  {
    if names != [] {
      ScanQuoted(names[1..]);
      ScanQuoteStep(names[0], QuoteAll(names[1..]));
    }
  }

  /** A quoted name at the head of the text is read as the first quoted name. */
  lemma ScanQuoteStep(name: string, rest: string)
    requires QuoteFree(name)
    ensures Scan(Quote(name) + rest) == Scanned([name] + Scan(rest).quoted, Scan(rest).rest)
  {
    var s := Quote(name) + rest;
    assert s[1..] == name + ['"'] + rest;
    assert FirstQuote(s[1..]) == |name| by {
      FirstQuoteAt(s[1..], name);
    }
    assert s[1..|name| + 1] == name;
    assert s[|name| + 2..] == rest;
  }

  lemma {:induction false} FirstQuoteAt(s: string, prefix: string)
    requires QuoteFree(prefix) && |prefix| < |s| && s[..|prefix|] == prefix && s[|prefix|] == '"'
    ensures !QuoteFree(s) && FirstQuote(s) == |prefix|
    decreases |prefix|
  {
    if prefix != [] {
      assert s[0] == prefix[0];
      FirstQuoteAt(s[1..], prefix[1..]);
    }
  }

  /** Quoting names without double quotes and reading them back gives the same names, as typed. */
  lemma QuotedRoundTrip(names: seq<string>)
    requires forall i :: 0 <= i < |names| ==> QuoteFree(names[i])
    ensures GetTeamNames(QuoteAll(names)) == names
  {
    ScanQuoted(names);
    assert Unquoted(Split([], ',')) == [] by {
      assert Split([], ',') == [[]];
      assert Unquoted([[]]) == [];
    }
    assert GetTeamNames(QuoteAll(names)) == names + Unquoted(Split([], ','));
  }

  lemma {:induction false} UnquotedClean(names: seq<string>)
    requires forall i :: 0 <= i < |names| ==> names[i] != [] && Stripped(names[i])
    ensures Unquoted(names) == names
    decreases |names|
  {
    if names != [] {
      StripStripped(names[0]);
      UnquotedClean(names[1..]);
    }
  }

  lemma {:induction false} JoinQuoteFree(names: seq<string>)
    requires forall i :: 0 <= i < |names| ==> QuoteFree(names[i])
    ensures QuoteFree(Join(names, ","))
    decreases |names|
  {
    if |names| > 1 {
      JoinQuoteFree(names[1..]);
    }
  }

  /**
   * Names that are non-empty, without outer whitespace, commas or double quotes, written
   * with commas between them, read back as the same names.
   */
  lemma CommaRoundTrip(names: seq<string>)
    requires names != []
    requires forall i :: 0 <= i < |names| ==> names[i] != [] && Stripped(names[i]) && QuoteFree(names[i]) && ',' !in names[i]
    ensures GetTeamNames(Join(names, ",")) == names
  {
    JoinQuoteFree(names);
    ScanQuoteFree(Join(names, ","));
    SplitJoin(names, ',');
    UnquotedClean(names);
  }

  /** Text without double quotes before the quoted names passes into the rest unchanged. */
  lemma {:induction false} ScanQuoteFreePrefix(prefix: string, s: string)
    requires QuoteFree(prefix)
    ensures Scan(prefix + s) == Scanned(Scan(s).quoted, prefix + Scan(s).rest)
    decreases |prefix|
  {
    if prefix != [] {
      assert (prefix + s)[0] == prefix[0] && (prefix + s)[1..] == prefix[1..] + s;
      ScanQuoteFreePrefix(prefix[1..], s);
      assert prefix == [prefix[0]] + prefix[1..];
    } else {
      assert prefix + s == s;
    }
  }

  /**
   * Quoted names come first whatever their place in the text: an unquoted name
   * followed by a quoted one reads as the quoted one, comma included, then the other.
   */
  lemma QuotedFirst(unquoted: string, quoted: string)
    requires unquoted != [] && Stripped(unquoted) && QuoteFree(unquoted) && ',' !in unquoted
    requires QuoteFree(quoted)
    ensures GetTeamNames(unquoted + "," + Quote(quoted)) == [quoted, unquoted]
  {
    var prefix := unquoted + ",";
    var value := unquoted + "," + Quote(quoted);
    assert Scan(value) == Scanned([quoted], prefix) by {
      assert value == prefix + Quote(quoted);
      ScanAfterPrefix(prefix, quoted);
    }
    assert Unquoted(Split(prefix, ',')) == [unquoted] by {
      SplitTrailingComma(unquoted);
      UnquotedTrailingEmpty(unquoted);
    }
  }

  lemma ScanAfterPrefix(prefix: string, quoted: string)
    requires QuoteFree(prefix) && QuoteFree(quoted)
    ensures Scan(prefix + Quote(quoted)) == Scanned([quoted], prefix)
  {
    ScanQuoteStep(quoted, []);
    assert Quote(quoted) + [] == Quote(quoted);
    ScanQuoteFreePrefix(prefix, Quote(quoted));
  }

  lemma SplitTrailingComma(unquoted: string)
    requires ',' !in unquoted
    ensures Split(unquoted + ",", ',') == [unquoted, []]
  {
    assert Join([unquoted, []], ",") == unquoted + ",";
    SplitJoin([unquoted, []], ',');
  }

  lemma UnquotedTrailingEmpty(unquoted: string)
    requires unquoted != [] && Stripped(unquoted)
    ensures Unquoted([unquoted, []]) == [unquoted]
  {
    StripStripped(unquoted);
    StripStripped([]);
    var empty: seq<string> := [[]];
    assert [unquoted, []][1..] == empty && empty[1..] == [];
    assert Unquoted(empty) == [];
  }
}

/**
 Which OAuth scopes a request asks for: the values the integration is configured with, named by
 identifier or value, at most one value out of each group.
 */
module Scopes {
  import opened Distinct
  import opened Text
  import opened Wrappers

  /** `enabled` is absent when the configuration leaves it open. */
  datatype Scope = Scope(value: string, group: string, enabled: Option<bool>)

  datatype Choice = Choice(value: string, group: string)

  datatype ScopeError =
    | NoValue
    | NotAllowed(name: string)
    | GroupTaken(group: string)
    | NoneEnabled

  // ---------- Splitting a list of values ----------

  predicate Separates(c: char) {
    c == ',' || c == ' ' || c == '\n' || c == '\t'
  }

  /** The non-empty runs of characters between separators. */
  function Fields(s: string): (fields: seq<string>)
    ensures forall f :: f in fields ==> f != "" && forall c :: c in f ==> !Separates(c)
  {
    if s == "" then []
    else if Separates(s[0]) then Fields(s[1..])
    else
      var n := RunLength(s);
      [s[..n]] + Fields(s[n..])
  }

  function RunLength(s: string): (n: nat)
    ensures n <= |s| && (forall c :: c in s[..n] ==> !Separates(c)) && (n < |s| ==> Separates(s[n]))
    ensures s != "" && !Separates(s[0]) ==> n > 0
  {
    if s == "" || Separates(s[0]) then 0
    else
      assert s[..1 + RunLength(s[1..])] == [s[0]] + s[1..][..RunLength(s[1..])];
      1 + RunLength(s[1..])
  }

  /** The values of a list, each once, in the order in which they first occur. */
  function ScopeValues(raw: string): seq<string> {
    DistinctNames(Fields(TrimSpace(raw)))
  }

  method SplitScopeValues(raw: string) returns (scopes: seq<string>)
    ensures scopes == ScopeValues(raw)
  {
    var trimmed := TrimSpace(raw);
    scopes := [];
    if trimmed == "" {
      return;
    }
    var fields := Fields(trimmed);
    var seen: set<string> := {};
    for i := 0 to |fields|
      invariant scopes == DistinctNames(fields[..i])
      invariant forall name :: name in seen <==> name in scopes
    {
      OneMoreName(fields, i);
      var scope := TrimSpace(fields[i]);
      if scope != "" && scope !in seen {
        seen := seen + {scope};
        scopes := scopes + [scope];
      }
    }
    assert fields[..|fields|] == fields;
  }

  // ---------- Joining and splitting again ----------

  function Join(values: seq<string>, separator: string): string {
    if values == [] then ""
    else if |values| == 1 then values[0]
    else Join(values[..|values| - 1], separator) + separator + values[|values| - 1]
  }

  function Separator(provider: string): string {
    if provider == "todoist" then "," else " "
  }

  /** A value that a list carries whole: neither empty nor padded with white space, and without separators. */
  predicate Carried(value: string) {
    value != "" && Trimmed(value) && forall c :: c in value ==> !Separates(c)
  }

  lemma FieldsOfRun(run: string)
    requires run != "" && forall c :: c in run ==> !Separates(c)
    ensures Fields(run) == [run]
  {
    var n := RunLength(run);
    assert forall i :: 0 <= i < |run| ==> run[i] in run;
    assert run[0] in run;
    assert run[..|run|] == run && run[|run|..] == "";
  }

  /** What comes before a separator is split on its own. */
  lemma {:induction false} FieldsOfJoined(s: string, c: char, rest: string)
    requires Separates(c)
    ensures Fields(s + [c] + rest) == Fields(s) + Fields(rest)
    decreases |s|
  {
    var whole := s + [c] + rest;
    if s == "" {
      assert whole[1..] == rest;
    } else if Separates(s[0]) {
      assert whole[1..] == s[1..] + [c] + rest;
      FieldsOfJoined(s[1..], c, rest);
    } else {
      var n := RunLength(s);
      RunStopsAt(s, c, rest);
      assert whole[..n] == s[..n];
      assert whole[n..] == s[n..] + [c] + rest;
      FieldsOfJoined(s[n..], c, rest);
    }
  }

  lemma {:induction false} RunStopsAt(s: string, c: char, rest: string)
    requires Separates(c)
    ensures RunLength(s + [c] + rest) == RunLength(s)
  {
    if s != "" && !Separates(s[0]) {
      assert (s + [c] + rest)[1..] == s[1..] + [c] + rest;
      RunStopsAt(s[1..], c, rest);
    }
  }

  lemma {:induction false} FieldsOfJoin(values: seq<string>, c: char)
    requires Separates(c) && forall v :: v in values ==> Carried(v)
    ensures Fields(Join(values, [c])) == values
  {
    if values != [] {
      var init, last := values[..|values| - 1], values[|values| - 1];
      assert Carried(last);
      FieldsOfRun(last);
      if |values| > 1 {
        FieldsOfJoin(init, c);
        FieldsOfJoined(Join(init, [c]), c, last);
      }
    }
  }

  lemma {:induction false} JoinIsTrimmed(values: seq<string>, c: char)
    requires forall v :: v in values ==> Carried(v)
    ensures Trimmed(Join(values, [c]))
    ensures values != [] ==> Join(values, [c]) != "" && values[0] <= Join(values, [c])
  {
    if values != [] {
      assert Carried(values[0]) && Carried(values[|values| - 1]);
      if |values| > 1 {
        JoinIsTrimmed(values[..|values| - 1], c);
      }
    }
  }

  /** Whatever was split, only values that a list carries come out. */
  lemma ScopeValuesAreCarried(raw: string)
    ensures forall v :: v in ScopeValues(raw) ==> Carried(v)
  {
    var fields := Fields(TrimSpace(raw));
    NamesAreTrimmed(fields);
    forall v | v in ScopeValues(raw) ensures Carried(v) {
      NamesAreWithin(fields, v);
    }
  }

  /** Splitting what was joined gives the values back, each once and in order, exactly when a list carries them all. */
  lemma SplitOfJoin(values: seq<string>, provider: string)
    ensures ScopeValues(Join(values, Separator(provider))) == Firsts(values) <==> forall v :: v in values ==> Carried(v)
  {
    var c := Separator(provider)[0];
    assert Separator(provider) == [c];
    ScopeValuesAreCarried(Join(values, [c]));
    if forall v :: v in values ==> Carried(v) {
      JoinIsTrimmed(values, c);
      TrimSpaceFixes(Join(values, [c]));
      FieldsOfJoin(values, c);
      NamesFixed(values);
    } else {
      assert exists v :: v in Firsts(values) && !Carried(v);
    }
  }

  // ---------- Choosing ----------

  /** How the names of scopes come about does not matter: `ids[i]` names the i-th scope. */
  predicate Identified(scopes: seq<Scope>, ids: seq<string>) {
    |ids| == |scopes|
  }

  /** What a name stands for: the last scope that has it as identifier or value. */
  function Meaning(scopes: seq<Scope>, ids: seq<string>, name: string): Option<Choice>
    requires Identified(scopes, ids)
  {
    if scopes == [] then None
    else
      var n := |scopes| - 1;
      if scopes[n].value != "" && (ids[n] == name || scopes[n].value == name)
      then Some(Choice(scopes[n].value, scopes[n].group))
      else Meaning(scopes[..n], ids[..n], name)
  }

  predicate DefaultEnabled(scope: Scope, configured: string) {
    match scope.enabled
    case Some(enabled) => enabled
    case None => scope.value in ScopeValues(configured)
  }

  function Defaults(scopes: seq<Scope>, configured: string): seq<Choice> {
    if scopes == [] then []
    else
      var before, last := Defaults(scopes[..|scopes| - 1], configured), scopes[|scopes| - 1];
      if last.value != "" && DefaultEnabled(last, configured) then before + [Choice(last.value, last.group)] else before
  }

  /** Another value was chosen for the same non-empty group. */
  predicate Clashes(chosen: seq<Choice>, c: Choice) {
    c.group != "" && exists i :: 0 <= i < |chosen| && chosen[i].group == c.group && chosen[i].value != c.value
  }

  ghost predicate Agree(chosen: seq<Choice>) {
    forall i, j :: 0 <= i < j < |chosen| && chosen[i].group == chosen[j].group && chosen[i].group != ""
                   ==> chosen[i].value == chosen[j].value
  }

  /** The choices up to the first that clashes with an earlier one. */
  function Settle(choices: seq<Choice>): Result<seq<Choice>, ScopeError> {
    if choices == [] then Ok([])
    else
      var c := choices[|choices| - 1];
      match Settle(choices[..|choices| - 1])
      case Err(e) => Err(e)
      case Ok(chosen) => if Clashes(chosen, c) then Err(GroupTaken(c.group)) else Ok(chosen + [c])
  }

  /** The same for names, which may also be unknown. */
  function Request(scopes: seq<Scope>, ids: seq<string>, names: seq<string>): Result<seq<Choice>, ScopeError>
    requires Identified(scopes, ids)
  {
    if names == [] then Ok([])
    else
      var name := names[|names| - 1];
      match Request(scopes, ids, names[..|names| - 1])
      case Err(e) => Err(e)
      case Ok(chosen) =>
        match Meaning(scopes, ids, name)
        case None => Err(NotAllowed(name))
        case Some(c) => if Clashes(chosen, c) then Err(GroupTaken(c.group)) else Ok(chosen + [c])
  }

  function Values(chosen: seq<Choice>): (values: seq<string>)
    ensures |values| == |chosen| && forall i :: 0 <= i < |chosen| ==> values[i] == chosen[i].value
  {
    seq(|chosen|, i requires 0 <= i < |chosen| => chosen[i].value)
  }

  /** The choices of a request against configured scopes. */
  function Chosen(scopes: seq<Scope>, ids: seq<string>, requested: string, configured: string)
    : Result<seq<Choice>, ScopeError>
    requires Identified(scopes, ids)
  {
    var outcome :=
      if requested == "" then Settle(Defaults(scopes, configured))
      else if ScopeValues(requested) == [] then Err(NoValue)
      else Request(scopes, ids, ScopeValues(requested));
    if outcome == Ok([]) then Err(NoneEnabled) else outcome
  }

  function ScopeText(scopes: seq<Scope>, ids: seq<string>, provider: string,
                     requested: string, configured: string, fallback: string): Result<string, ScopeError>
    requires Identified(scopes, ids)
  {
    if scopes == [] then
      Ok(if requested != "" then requested else if configured != "" then configured else fallback)
    else
      match Chosen(scopes, ids, requested, configured)
      case Err(e) => Err(e)
      case Ok(chosen) => Ok(Join(Values(chosen), Separator(provider)))
  }

  // ---------- The loops ----------

  /** The groups decided so far, with the value of each. */
  ghost predicate GroupsOf(groups: map<string, string>, chosen: seq<Choice>) {
    && (forall g :: g in groups ==> g != "" && Choice(groups[g], g) in chosen)
    && (forall i :: 0 <= i < |chosen| && chosen[i].group != "" ==>
          chosen[i].group in groups && groups[chosen[i].group] == chosen[i].value)
  }

  method SelectScopeGroup(groups: map<string, string>, c: Choice, ghost chosen: seq<Choice>)
    returns (groups': map<string, string>, clash: bool)
    requires GroupsOf(groups, chosen)
    ensures clash <==> Clashes(chosen, c)
    ensures !clash ==> GroupsOf(groups', chosen + [c])
  {
    groups' := groups;
    if c.group == "" {
      assert forall x :: x in chosen ==> x in chosen + [c];
      return groups, false;
    }
    if c.group in groups && groups[c.group] != c.value {
      assert Choice(groups[c.group], c.group) in chosen;
      return groups, true;
    }
    groups' := groups[c.group := c.value];
    clash := false;
    assert forall x :: x in chosen + [c] <==> x in chosen || x == c;
  }

  /** The defaults, which count only when nothing is requested. */
  function DefaultsWhen(requested: string, scopes: seq<Scope>, configured: string): seq<Choice> {
    if requested == "" then Defaults(scopes, configured) else []
  }

  predicate TakenByDefault(requested: string, scope: Scope, configured: string) {
    scope.value != "" && requested == "" && DefaultEnabled(scope, configured)
  }

  /** The pass over the configured scopes: what names stand for and, when nothing is requested, the defaults. */
  method ReadScopes(scopes: seq<Scope>, ids: seq<string>, requested: string, configured: string)
    returns (allowed: map<string, Choice>, selected: seq<string>, failure: Option<ScopeError>)
    requires Identified(scopes, ids)
    ensures match Settle(DefaultsWhen(requested, scopes, configured))
            case Err(e) => failure == Some(e)
            case Ok(chosen) => failure == None && selected == Values(chosen) && Explains(allowed, scopes, ids)
  {
    allowed, selected, failure := map[], [], None;
    var groups: map<string, string> := map[];
    ghost var chosen: seq<Choice> := [];
    for i := 0 to |scopes|
      invariant failure.None? && Explains(allowed, scopes[..i], ids[..i])
      invariant GroupsOf(groups, chosen) && selected == Values(chosen)
      invariant Settle(DefaultsWhen(requested, scopes[..i], configured)) == Ok(chosen)
    {
      var c := Choice(scopes[i].value, scopes[i].group);
      ExplainsOneMore(allowed, scopes, ids, i);
      DefaultsOneMore(requested, scopes, configured, i, chosen);
      if c.value != "" {
        allowed := allowed[ids[i] := c][scopes[i].value := c];
        var enabled := IsDefaultEnabled(scopes[i], configured);
        if requested == "" && enabled {
          var clash;
          groups, clash := SelectScopeGroup(groups, c, chosen);
          if clash {
            failure := Some(GroupTaken(c.group));
            return;
          }
          selected, chosen := selected + [c.value], chosen + [c];
        }
      }
    }
    assert scopes[..|scopes|] == scopes && ids[..|ids|] == ids;
  }

  /** The map of allowed names agrees with what the names mean. */
  ghost predicate Explains(allowed: map<string, Choice>, scopes: seq<Scope>, ids: seq<string>)
    requires Identified(scopes, ids)
  {
    forall name :: Meaning(scopes, ids, name) == if name in allowed then Some(allowed[name]) else None
  }

  lemma ExplainsOneMore(allowed: map<string, Choice>, scopes: seq<Scope>, ids: seq<string>, i: nat)
    requires Identified(scopes, ids) && i < |scopes| && Explains(allowed, scopes[..i], ids[..i])
    ensures var c := Choice(scopes[i].value, scopes[i].group);
            Explains(if c.value != "" then allowed[ids[i] := c][c.value := c] else allowed,
                     scopes[..i + 1], ids[..i + 1])
  {
    assert scopes[..i + 1][..i] == scopes[..i] && ids[..i + 1][..i] == ids[..i];
  }

  lemma DefaultsOneMore(requested: string, scopes: seq<Scope>, configured: string, i: nat, chosen: seq<Choice>)
    requires i < |scopes| && Settle(DefaultsWhen(requested, scopes[..i], configured)) == Ok(chosen)
    ensures var c := Choice(scopes[i].value, scopes[i].group);
            var after := DefaultsWhen(requested, scopes[..i + 1], configured);
            if !TakenByDefault(requested, scopes[i], configured) then Settle(after) == Ok(chosen)
            else if Clashes(chosen, c) then
              Settle(DefaultsWhen(requested, scopes, configured)) == Err(GroupTaken(c.group))
            else Settle(after) == Ok(chosen + [c])
  {
    assert scopes[..i + 1][..i] == scopes[..i];
    var c, before := Choice(scopes[i].value, scopes[i].group), DefaultsWhen(requested, scopes[..i], configured);
    if TakenByDefault(requested, scopes[i], configured) {
      assert DefaultsWhen(requested, scopes[..i + 1], configured) == before + [c];
      assert (before + [c])[..|before|] == before;
      if Clashes(chosen, c) {
        SettleStops(scopes, configured, i + 1);
      }
    }
  }

  /** The pass over the requested names. */
  method SelectRequested(scopes: seq<Scope>, ids: seq<string>, allowed: map<string, Choice>, names: seq<string>)
    returns (selected: Result<seq<string>, ScopeError>)
    requires Identified(scopes, ids) && Explains(allowed, scopes, ids)
    ensures selected == match Request(scopes, ids, names)
                        case Err(e) => Err(e)
                        case Ok(chosen) => Ok(Values(chosen))
  {
    var values: seq<string> := [];
    var groups: map<string, string> := map[];
    ghost var chosen: seq<Choice> := [];
    for k := 0 to |names|
      invariant Request(scopes, ids, names[..k]) == Ok(chosen)
      invariant GroupsOf(groups, chosen) && values == Values(chosen)
    {
      assert names[..k + 1][..k] == names[..k];
      assert Meaning(scopes, ids, names[k]) == if names[k] in allowed then Some(allowed[names[k]]) else None;
      if names[k] !in allowed {
        RequestStops(scopes, ids, names, k + 1);
        return Err(NotAllowed(names[k]));
      }
      var c := allowed[names[k]];
      var clash;
      groups, clash := SelectScopeGroup(groups, c, chosen);
      if clash {
        RequestStops(scopes, ids, names, k + 1);
        return Err(GroupTaken(c.group));
      }
      values, chosen := values + [c.value], chosen + [c];
    }
    assert names[..|names|] == names;
    selected := Ok(values);
  }

  method ScopeFromRequest(scopes: seq<Scope>, ids: seq<string>, provider: string,
                          requested: string, configured: string, fallback: string)
    returns (text: Result<string, ScopeError>)
    requires Identified(scopes, ids)
    ensures text == ScopeText(scopes, ids, provider, requested, configured, fallback)
  {
    if |scopes| == 0 {
      return Ok(if requested != "" then requested else if configured != "" then configured else fallback);
    }
    var allowed, selected, failure := ReadScopes(scopes, ids, requested, configured);
    if failure.Some? {
      return Err(failure.value);
    }
    if requested != "" {
      var names := SplitScopeValues(requested);
      if names == [] {
        return Err(NoValue);
      }
      var outcome := SelectRequested(scopes, ids, allowed, names);
      if outcome.Err? {
        return Err(outcome.error);
      }
      selected := outcome.value;
    }
    if selected == [] {
      return Err(NoneEnabled);
    }
    text := Ok(Join(selected, Separator(provider)));
  }

  method IsDefaultEnabled(scope: Scope, configured: string) returns (enabled: bool)
    ensures enabled == DefaultEnabled(scope, configured)
  {
    if scope.enabled.Some? {
      return scope.enabled.value;
    }
    var values := SplitScopeValues(configured);
    for i := 0 to |values|
      invariant scope.value !in values[..i]
    {
      if values[i] == scope.value {
        return true;
      }
    }
    assert values[..|values|] == values;
    enabled := false;
  }

  /** An error on part of the scopes is the error on all of them. */
  lemma {:induction false} SettleStops(scopes: seq<Scope>, configured: string, n: nat)
    requires n <= |scopes| && Settle(Defaults(scopes[..n], configured)).Err?
    ensures Settle(Defaults(scopes, configured)) == Settle(Defaults(scopes[..n], configured))
    decreases |scopes|
  {
    if n == |scopes| {
      assert scopes[..n] == scopes;
    } else {
      var init := scopes[..|scopes| - 1];
      assert init[..n] == scopes[..n];
      SettleStops(init, configured, n);
      var before, after := Defaults(init, configured), Defaults(scopes, configured);
      assert after != before ==> after[..|after| - 1] == before;
    }
  }

  lemma {:induction false} RequestStops(scopes: seq<Scope>, ids: seq<string>, names: seq<string>, n: nat)
    requires Identified(scopes, ids) && n <= |names| && Request(scopes, ids, names[..n]).Err?
    ensures Request(scopes, ids, names) == Request(scopes, ids, names[..n])
    decreases |names|
  {
    if n == |names| {
      assert names[..n] == names;
    } else {
      assert names[..|names| - 1][..n] == names[..n];
      RequestStops(scopes, ids, names[..|names| - 1], n);
    }
  }

  // ---------- What is chosen ----------

  lemma {:induction false} MeaningIsConfigured(scopes: seq<Scope>, ids: seq<string>, name: string)
    requires Identified(scopes, ids)
    ensures var m := Meaning(scopes, ids, name);
            m.Some? ==> exists i :: 0 <= i < |scopes|
                                    && scopes[i].value == m.value.value && scopes[i].group == m.value.group
                                    && scopes[i].value != "" && name in [ids[i], scopes[i].value]
    ensures Meaning(scopes, ids, name).None? <==>
              forall i :: 0 <= i < |scopes| && scopes[i].value != "" ==> name !in [ids[i], scopes[i].value]
  {
    if scopes != [] {
      MeaningIsConfigured(scopes[..|scopes| - 1], ids[..|scopes| - 1], name);
    }
  }

  ghost predicate Configured(scopes: seq<Scope>, c: Choice) {
    exists i :: 0 <= i < |scopes| && scopes[i].value == c.value && scopes[i].group == c.group && c.value != ""
  }

  lemma {:induction false} DefaultsAreConfigured(scopes: seq<Scope>, configured: string)
    ensures forall c :: c in Defaults(scopes, configured) <==>
              exists i :: 0 <= i < |scopes| && scopes[i].value != "" && DefaultEnabled(scopes[i], configured)
                          && c == Choice(scopes[i].value, scopes[i].group)
  {
    if scopes != [] {
      var init := scopes[..|scopes| - 1];
      DefaultsAreConfigured(init, configured);
      assert scopes == init + [scopes[|scopes| - 1]];
    }
  }

  /** Choices settle exactly when no two of one group differ, and then all of them are kept. */
  lemma {:induction false} SettlesExactlyWhen(choices: seq<Choice>)
    ensures Settle(choices).Ok? <==> Agree(choices)
    ensures Settle(choices).Ok? ==> Settle(choices).value == choices
  {
    if choices != [] {
      var init, c := choices[..|choices| - 1], choices[|choices| - 1];
      SettlesExactlyWhen(init);
      assert choices == init + [c];
      if Agree(init) {
        assert Clashes(init, c) <==> !Agree(choices) by {
          if !Clashes(init, c) {
            assert forall i :: 0 <= i < |init| && init[i].group == c.group && c.group != ""
                               ==> init[i].value == c.value;
          }
        }
      } else {
        assert forall i :: 0 <= i < |init| ==> choices[i] == init[i];
      }
    }
  }

  /** The meanings of all names, where each has one. */
  ghost predicate AllMean(scopes: seq<Scope>, ids: seq<string>, names: seq<string>, choices: seq<Choice>)
    requires Identified(scopes, ids)
  {
    |choices| == |names| && forall k :: 0 <= k < |names| ==> Meaning(scopes, ids, names[k]) == Some(choices[k])
  }

  /** Request settles the meanings of its names, as far as each has one. */
  lemma {:induction false} RequestSettlesMeanings(scopes: seq<Scope>, ids: seq<string>, names: seq<string>,
                                                  choices: seq<Choice>)
    requires Identified(scopes, ids) && AllMean(scopes, ids, names, choices)
    ensures Request(scopes, ids, names) == Settle(choices)
  {
    if names != [] {
      assert Meaning(scopes, ids, names[|names| - 1]) == Some(choices[|choices| - 1]);
      RequestSettlesMeanings(scopes, ids, names[..|names| - 1], choices[..|choices| - 1]);
    }
  }

  lemma {:induction false} RequestMeansAll(scopes: seq<Scope>, ids: seq<string>, names: seq<string>)
    requires Identified(scopes, ids) && Request(scopes, ids, names).Ok?
    ensures AllMean(scopes, ids, names, Request(scopes, ids, names).value)
  {
    if names != [] {
      var init := names[..|names| - 1];
      RequestMeansAll(scopes, ids, init);
      var before, after := Request(scopes, ids, init).value, Request(scopes, ids, names).value;
      assert after[..|before|] == before;
      assert forall k :: 0 <= k < |before| ==> names[k] == init[k] && after[k] == before[k];
    }
  }

  /** A request succeeds exactly when every name has a meaning and the meanings agree; it then chooses just these. */
  lemma RequestSucceedsExactlyWhen(scopes: seq<Scope>, ids: seq<string>, names: seq<string>)
    requires Identified(scopes, ids)
    ensures var r := Request(scopes, ids, names);
            && (r.Ok? ==> AllMean(scopes, ids, names, r.value) && Agree(r.value))
            && (forall choices :: AllMean(scopes, ids, names, choices) && Agree(choices) ==> r == Ok(choices))
  {
    var r := Request(scopes, ids, names);
    if r.Ok? {
      RequestMeansAll(scopes, ids, names);
      RequestSettlesMeanings(scopes, ids, names, r.value);
      SettlesExactlyWhen(r.value);
    }
    forall choices | AllMean(scopes, ids, names, choices) && Agree(choices) ensures r == Ok(choices) {
      RequestSettlesMeanings(scopes, ids, names, choices);
      SettlesExactlyWhen(choices);
    }
  }

  /** What is returned under configured scopes: configured values, one for each group, at least one. */
  lemma ChosenIsConfigured(scopes: seq<Scope>, ids: seq<string>, requested: string, configured: string)
    requires Identified(scopes, ids)
    ensures var r := Chosen(scopes, ids, requested, configured);
            r.Ok? ==> r.value != [] && Agree(r.value) && forall c :: c in r.value ==> Configured(scopes, c)
  {
    var r := Chosen(scopes, ids, requested, configured);
    if r.Ok? {
      if requested == "" {
        SettlesExactlyWhen(Defaults(scopes, configured));
        DefaultsAreConfigured(scopes, configured);
        forall c | c in r.value ensures Configured(scopes, c) {
          var i :| 0 <= i < |scopes| && scopes[i].value != "" && c == Choice(scopes[i].value, scopes[i].group);
        }
      } else {
        var names := ScopeValues(requested);
        RequestSucceedsExactlyWhen(scopes, ids, names);
        forall c | c in r.value ensures Configured(scopes, c) {
          var k :| 0 <= k < |r.value| && r.value[k] == c;
          MeaningIsConfigured(scopes, ids, names[k]);
        }
      }
    }
  }

  /**
   The whole way: what the authorization request carries is split by the service into the chosen
   values, each once, exactly when a list carries every chosen value.
   */
  lemma ScopeTextSplits(scopes: seq<Scope>, ids: seq<string>, provider: string,
                        requested: string, configured: string, fallback: string)
    requires Identified(scopes, ids) && scopes != []
    ensures var text := ScopeText(scopes, ids, provider, requested, configured, fallback);
            var chosen := Chosen(scopes, ids, requested, configured);
            && (text.Ok? <==> chosen.Ok?)
            && (text.Ok? ==>
                  (ScopeValues(text.value) == Firsts(Values(chosen.value))
                   <==> forall c :: c in chosen.value ==> Carried(c.value)))
  {
    var chosen := Chosen(scopes, ids, requested, configured);
    if chosen.Ok? {
      SplitOfJoin(Values(chosen.value), provider);
      ValuesAreCarried(chosen.value);
    }
  }

  /** A scope that has a value and is enabled: by its own flag, or, without one, by the configured list. */
  predicate IsDefault(scope: Scope, configured: string) {
    scope.value != "" && (scope.enabled == Some(true)
                          || (scope.enabled == None && scope.value in ScopeValues(configured)))
  }

  ghost predicate DefaultsAre(scopes: seq<Scope>, configured: string, values: seq<Choice>) {
    forall c :: c in values <==>
      exists i :: 0 <= i < |scopes| && IsDefault(scopes[i], configured) && c == Choice(scopes[i].value, scopes[i].group)
  }

  /**
   When a choice is made, and which: without a request all enabled scopes, if there are any and
   they agree; with one the meanings of its names, if there are any, each has one, and they agree.
   */
  lemma ChosenExactlyWhen(scopes: seq<Scope>, ids: seq<string>, requested: string, configured: string)
    requires Identified(scopes, ids)
    ensures var (r, names) := (Chosen(scopes, ids, requested, configured), ScopeValues(requested));
            && (requested == "" ==>
                  && (r.Ok? <==> (exists i :: 0 <= i < |scopes| && IsDefault(scopes[i], configured))
                                 && Agree(Defaults(scopes, configured)))
                  && (r.Ok? ==> DefaultsAre(scopes, configured, r.value)))
            && (requested != "" ==>
                  && (r.Ok? ==> names != [] && AllMean(scopes, ids, names, r.value) && Agree(r.value))
                  && (names != [] ==> forall choices :: AllMean(scopes, ids, names, choices) && Agree(choices)
                                        ==> r == Ok(choices))
                  && (r == Err(NoValue) <==> names == []))
  {
    var names := ScopeValues(requested);
    if requested == "" {
      var defaults := Defaults(scopes, configured);
      SettlesExactlyWhen(defaults);
      DefaultsAreConfigured(scopes, configured);
      assert forall i :: 0 <= i < |scopes| ==>
                           (IsDefault(scopes[i], configured)
                            <==> scopes[i].value != "" && DefaultEnabled(scopes[i], configured));
      if defaults != [] {
        assert defaults[0] in defaults;
      }
      forall i | 0 <= i < |scopes| && IsDefault(scopes[i], configured) ensures defaults != [] {
        assert Choice(scopes[i].value, scopes[i].group) in defaults;
      }
    } else {
      RequestSucceedsExactlyWhen(scopes, ids, names);
      NeverNoValue(scopes, ids, names);
    }
  }

  lemma {:induction false} NeverNoValue(scopes: seq<Scope>, ids: seq<string>, names: seq<string>)
    requires Identified(scopes, ids)
    ensures Request(scopes, ids, names) != Err(NoValue)
    ensures Request(scopes, ids, names).Ok? ==> |Request(scopes, ids, names).value| == |names|
  {
    if names != [] {
      NeverNoValue(scopes, ids, names[..|names| - 1]);
    }
  }

  /** Joined values can be told apart at the separator, repeated ones included, when none contains it. */
  lemma {:induction false} JoinSplitsAt(values: seq<string>, c: char)
    requires values != [] && forall v :: v in values ==> c !in v
    ensures Split(c, Join(values, [c])) == values
  {
    var init, last := values[..|values| - 1], values[|values| - 1];
    assert last in values;
    SplitOfPiece(c, last);
    if |values| > 1 {
      JoinSplitsAt(init, c);
      SplitOfJoined(c, Join(init, [c]), last);
      assert values == init + [last];
    } else {
      assert values == [last];
    }
  }

  /**
   What the service is asked for. Without configured scopes: what is requested, word for word, else
   what the configuration says, else the built-in text. With them: the chosen values, in order, with
   commas between them for Todoist and blanks for everyone else.
   */
  lemma ScopeTextMeans(scopes: seq<Scope>, ids: seq<string>, provider: string,
                       requested: string, configured: string, fallback: string)
    requires Identified(scopes, ids)
    ensures var text := ScopeText(scopes, ids, provider, requested, configured, fallback);
            && (scopes == [] && requested != "" ==> text == Ok(requested))
            && (scopes == [] && requested == "" && configured != "" ==> text == Ok(configured))
            && (scopes == [] && requested == "" && configured == "" ==> text == Ok(fallback))
            && (scopes != [] && text.Ok? ==>
                  var chosen := Chosen(scopes, ids, requested, configured);
                  var c := if provider == "todoist" then ',' else ' ';
                  chosen.Ok? && ((forall v :: v in Values(chosen.value) ==> c !in v) ==>
                                   Split(c, text.value) == Values(chosen.value)))
  {
    var chosen := Chosen(scopes, ids, requested, configured);
    if scopes != [] && chosen.Ok? {
      var c := if provider == "todoist" then ',' else ' ';
      ChosenIsConfigured(scopes, ids, requested, configured);
      assert Separator(provider) == [c];
      if forall v :: v in Values(chosen.value) ==> c !in v {
        JoinSplitsAt(Values(chosen.value), c);
      }
    }
  }

  lemma ValuesAreCarried(chosen: seq<Choice>)
    ensures (forall v :: v in Values(chosen) ==> Carried(v)) <==> forall c :: c in chosen ==> Carried(c.value)
  {
    assert forall i :: 0 <= i < |chosen| ==> Values(chosen)[i] in Values(chosen);
  }

  /** A single scope that is enabled by default is chosen as it is. */
  lemma SingleDefault(value: string, provider: string)
    requires value != ""
    ensures var scopes := [Scope(value, "", Some(true))];
            && Chosen(scopes, ["id"], "", "") == Ok([Choice(value, "")])
            && ScopeText(scopes, ["id"], provider, "", "", "") == Ok(value)
  {
    var scopes := [Scope(value, "", Some(true))];
    assert Defaults(scopes[..0], "") == [];
    assert Defaults(scopes, "") == [Choice(value, "")];
    SettlesExactlyWhen([Choice(value, "")]);
    assert Values([Choice(value, "")]) == [value];
  }

  /** A configured value with a separator in it is chosen, and comes back in pieces. */
  lemma ValueWithSeparatorBreaks(provider: string)
    ensures ScopeText([Scope("a,b", "", Some(true))], ["id"], provider, "", "", "") == Ok("a,b")
    ensures ScopeValues("a,b") == ["a", "b"]
  {
    SingleDefault("a,b", provider);
    PairSplits();
  }

  lemma PairSplits()
    ensures ScopeValues("a,b") == ["a", "b"]
  {
    FieldsOfPair();
    TrimSpaceFixes("a,b");
    NamesFixed(["a", "b"]);
    FirstsOfNoRepeats(["a", "b"]);
  }

  lemma CarriedAlone(value: string)
    requires Carried(value)
    ensures ScopeValues(value) == [value]
  {
    SplitOfJoin([value], "");
    FirstsOfNoRepeats([value]);
  }

  /** White space inside a value that is no separator does no harm. */
  lemma InnerWhiteSpaceIsCarried()
    ensures IsSpace('\r') && Carried("a\rb") && ScopeValues("a\rb") == ["a\rb"]
  {
    CarriedAlone("a\rb");
  }

  lemma FieldsOfPair()
    ensures Fields("a,b") == ["a", "b"]
  {
    FieldsOfRun("a");
    FieldsOfRun("b");
    assert "a" + [','] + "b" == "a,b";
    FieldsOfJoined("a", ',', "b");
  }
}

/**
 The services of one request and the choice to intercept its connection: both look at the
 configured services, then at the stored ones, and fetch the list of services when neither helps.
 */
module ServiceSelection {
  import opened Distinct
  import opened PathPolicy
  import opened ServiceIndex
  import opened ServicePlan
  import opened Services
  import opened Text
  import opened Wrappers

  /** The library, the configured services, and what a fetch of the list of services would bring. */
  datatype Env = Env(
    lib: Library, validUrl: string -> bool, configured: map<string, Service>,
    canFetch: bool, listing: Result<seq<Item>, IndexError>)

  // ---------- Fetching the list ----------

  /** Every fetched description needs a name and is normalized; one bad item spoils the list. */
  function FetchAll(validUrl: string -> bool, raw: seq<Item>): Result<seq<Item>, IndexError> {
    if raw == [] then Ok([])
    else match FetchAll(validUrl, raw[..|raw| - 1])
      case Err(e) => Err(e)
      case Ok(before) =>
        var name, last := TrimSpace(raw[|raw| - 1].id), raw[|raw| - 1];
        if name == "" then Err(NoId)
        else match Normalize(validUrl, name, last.service)
          case Err(e) => Err(Refused(e))
          case Ok(n) => Ok(before + [Item(name, n)])
  }

  lemma {:induction false} FetchedAreAccepted(validUrl: string -> bool, raw: seq<Item>)
    ensures var r := FetchAll(validUrl, raw);
            r.Ok? ==> |r.value| == |raw| && forall item :: item in r.value ==> Accepted(validUrl, item)
  {
    if raw != [] {
      FetchedAreAccepted(validUrl, raw[..|raw| - 1]);
      var last := raw[|raw| - 1];
      TrimSpaceTwice(last.id);
      NormalizedIsFixed(validUrl, TrimSpace(last.id), last.service);
    }
  }

  /** An item as it was fetched, and as it is taken: under its trimmed name, in normal form. */
  predicate TakenAs(validUrl: string -> bool, raw: Item, taken: Item) {
    taken.id == TrimSpace(raw.id) && Normalize(validUrl, TrimSpace(raw.id), raw.service) == Ok(taken.service)
  }

  predicate AllTaken(validUrl: string -> bool, raw: seq<Item>, taken: seq<Item>) {
    |taken| == |raw| && forall i :: 0 <= i < |raw| ==> TakenAs(validUrl, raw[i], taken[i])
  }

  ghost predicate AllAccepted(validUrl: string -> bool, raw: seq<Item>) {
    forall item :: item in raw ==> Accepted(validUrl, item)
  }

  lemma OneMoreAccepted(validUrl: string -> bool, raw: seq<Item>, last: Item)
    ensures AllAccepted(validUrl, raw + [last]) <==> AllAccepted(validUrl, raw) && Accepted(validUrl, last)
  {
  }

  lemma OneMoreFetched(validUrl: string -> bool, raw: seq<Item>)
    requires raw != []
    ensures var (before, r) := (FetchAll(validUrl, raw[..|raw| - 1]), FetchAll(validUrl, raw));
            && (r.Ok? <==> before.Ok? && Accepted(validUrl, raw[|raw| - 1]))
            && (r.Ok? ==> r.value != [] && r.value[..|r.value| - 1] == before.value
                          && TakenAs(validUrl, raw[|raw| - 1], r.value[|r.value| - 1]))
  {
  }

  lemma OneMoreTaken(validUrl: string -> bool, raw: seq<Item>, taken: seq<Item>)
    requires raw != [] && taken != [] && AllTaken(validUrl, raw[..|raw| - 1], taken[..|taken| - 1])
    requires TakenAs(validUrl, raw[|raw| - 1], taken[|taken| - 1])
    ensures AllTaken(validUrl, raw, taken)
  {
    forall i | 0 <= i < |raw| ensures TakenAs(validUrl, raw[i], taken[i]) {
      assert i < |raw| - 1 ==> TakenAs(validUrl, raw[..|raw| - 1][i], taken[..|taken| - 1][i]);
    }
  }

  /** A fetched list is taken exactly when every item would be accepted, and is then their normal forms, in order. */
  lemma {:induction false} FetchedExactlyWhen(validUrl: string -> bool, raw: seq<Item>)
    ensures FetchAll(validUrl, raw).Ok? <==> AllAccepted(validUrl, raw)
    ensures FetchAll(validUrl, raw).Ok? ==> AllTaken(validUrl, raw, FetchAll(validUrl, raw).value)
  {
    if raw != [] {
      var init, last := raw[..|raw| - 1], raw[|raw| - 1];
      FetchedExactlyWhen(validUrl, init);
      OneMoreFetched(validUrl, raw);
      OneMoreAccepted(validUrl, init, last);
      assert raw == init + [last];
      if FetchAll(validUrl, raw).Ok? {
        OneMoreTaken(validUrl, raw, FetchAll(validUrl, raw).value);
      }
    }
  }

  /** Each item is put in turn, up to the first that is refused. */
  function PutAll(validUrl: string -> bool, m: Entries, items: seq<Item>): Written {
    if items == [] then Written(m, None)
    else
      var before, last := PutAll(validUrl, m, items[..|items| - 1]), items[|items| - 1];
      if before.error.Some? then before else Put(validUrl, before.entries, last.id, last.service)
  }

  lemma {:induction false} PutAllIsPuts(validUrl: string -> bool, m: Entries, items: seq<Item>)
    requires ListIDs(m).Ok? && forall item :: item in items ==> Accepted(validUrl, item)
    ensures PutAll(validUrl, m, items) == Written(Puts(validUrl, m, items), None)
  {
    if items != [] {
      var init, last := items[..|items| - 1], items[|items| - 1];
      PutAllIsPuts(validUrl, m, init);
      RunListed(validUrl, m, init);
      PutListed(validUrl, Puts(validUrl, m, init), last);
    }
  }

  function FetchAndCache(env: Env, m: Entries): Written {
    match env.listing
    case Err(e) => Written(m, Some(e))
    case Ok(raw) =>
      match FetchAll(env.validUrl, raw)
      case Err(e) => Written(m, Some(e))
      case Ok(items) => PutAll(env.validUrl, m, items)
  }

  // ---------- Stored services ----------

  predicate StoredApplies(env: Env, m: Entries, id: string, host: string, path: string) {
    var s := Get(env.validUrl, m, id);
    s.Ok? && s.value.Some? && RuleFor(env.lib, s.value.value, host, path).Some?
  }

  predicate StoredMatchesHost(env: Env, m: Entries, id: string, host: string) {
    var s := Get(env.validUrl, m, id);
    s.Ok? && s.value.Some? && HostMatches(env.lib, s.value.value, host)
  }

  /** The elements for which the answer is yes, unless one has none. */
  function Keep(answer: string -> Result<bool, IndexError>, ids: seq<string>): Result<seq<string>, IndexError> {
    if ids == [] then Ok([])
    else match Keep(answer, ids[..|ids| - 1])
      case Err(e) => Err(e)
      case Ok(before) =>
        match answer(ids[|ids| - 1])
        case Err(e) => Err(e)
        case Ok(yes) => Ok(if yes then before + [ids[|ids| - 1]] else before)
  }

  function RuleAnswer(env: Env, m: Entries, id: string, host: string, path: string): Result<bool, IndexError> {
    match Get(env.validUrl, m, id)
    case Err(e) => Err(e)
    case Ok(_) => Ok(StoredApplies(env, m, id, host, path))
  }

  /** The identifiers, out of `ids`, of stored services with a rule for the request. */
  function MatchingAmong(env: Env, m: Entries, ids: seq<string>, host: string, path: string): Result<seq<string>,
                         IndexError> {
    Keep(id => RuleAnswer(env, m, id, host, path), ids)
  }

  function MatchingStored(env: Env, m: Entries, host: string, path: string): Result<seq<string>, IndexError> {
    match ListIDs(m)
    case Err(e) => Err(e)
    case Ok(ids) => MatchingAmong(env, m, ids, host, path)
  }

  /** Whether the first stored service that can be read, and no unreadable one before it, matches the host. */
  function AnyMatchesHost(env: Env, m: Entries, ids: seq<string>, host: string): Result<bool, IndexError> {
    if ids == [] then Ok(false)
    else match Get(env.validUrl, m, ids[0])
      case Err(e) => Err(e)
      case Ok(_) => if StoredMatchesHost(env, m, ids[0], host) then Ok(true) else AnyMatchesHost(env, m, ids[1..], host)
  }

  function StoredHostMatches(env: Env, m: Entries, host: string): Result<bool, IndexError> {
    match ListIDs(m)
    case Err(e) => Err(e)
    case Ok(ids) => AnyMatchesHost(env, m, ids, host)
  }

  // ---------- The two decisions ----------

  function Without(ids: seq<string>, seen: seq<string>): (r: seq<string>)
    ensures forall id :: id in r <==> id in ids && id !in seen
    ensures NoRepeats(ids) ==> NoRepeats(r)
  {
    if ids == [] then []
    else
      var before, last := Without(ids[..|ids| - 1], seen), ids[|ids| - 1];
      assert ids == ids[..|ids| - 1] + [last];
      assert NoRepeats(ids) ==> last !in ids[..|ids| - 1];
      if last in seen then before else before + [last]
  }

  datatype Selected = Selected(ids: Result<seq<string>, IndexError>, entries: Entries)

  /** `matched` is the listing of the configured services with a rule for the request. */
  function Select(env: Env, m: Entries, matched: seq<string>, explicit: seq<string>, host: string,
                  path: string): Selected {
    if explicit != [] then Selected(Ok(explicit), m)
    else match MatchingStored(env, m, host, path)
      case Err(e) => Selected(Err(e), m)
      case Ok(stored) =>
        var ids := matched + Without(stored, matched);
        if ids != [] || !env.canFetch then Selected(Ok(ids), m)
        else
          var w := FetchAndCache(env, m);
          if w.error.Some? then Selected(Err(w.error.value), w.entries)
          else Selected(MatchingStored(env, w.entries, host, path), w.entries)
  }

  datatype Interception = Interception(chosen: Result<bool, IndexError>, entries: Entries)

  predicate ConfiguredMatchesHost(env: Env, host: string) {
    exists id :: id in env.configured && HostMatches(env.lib, env.configured[id], host)
  }

  function Intercept(env: Env, m: Entries, explicit: seq<string>, host: string): Interception {
    if explicit != [] || ConfiguredMatchesHost(env, host) then Interception(Ok(true), m)
    else
      var stored := StoredHostMatches(env, m, host);
      if stored != Ok(false) || !env.canFetch then Interception(stored, m)
      else
        var w := FetchAndCache(env, m);
        if w.error.Some? then Interception(Err(w.error.value), w.entries)
        else Interception(StoredHostMatches(env, w.entries, host), w.entries)
  }

  // ---------- What is selected ----------

  lemma {:induction false} KeepMeans(answer: string -> Result<bool, IndexError>, ids: seq<string>)
    ensures var r := Keep(answer, ids);
            && (r.Ok? <==> forall id :: id in ids ==> answer(id).Ok?)
            && (r.Ok? ==> forall id :: id in r.value <==> id in ids && answer(id) == Ok(true))
            && (r.Ok? && NoRepeats(ids) ==> NoRepeats(r.value))
  {
    if ids != [] {
      var init, last := ids[..|ids| - 1], ids[|ids| - 1];
      KeepMeans(answer, init);
      assert ids == init + [last];
      assert NoRepeats(ids) ==> last !in init;
    }
  }

  lemma MatchingAmongMeans(env: Env, m: Entries, ids: seq<string>, host: string, path: string)
    ensures var r := MatchingAmong(env, m, ids, host, path);
            && (r.Ok? <==> forall id :: id in ids ==> Get(env.validUrl, m, id).Ok?)
            && (r.Ok? ==> forall id :: id in r.value <==> id in ids && StoredApplies(env, m, id, host, path))
            && (r.Ok? && NoRepeats(ids) ==> NoRepeats(r.value))
  {
    var answer := (id: string) => RuleAnswer(env, m, id, host, path);
    KeepMeans(answer, ids);
    forall id
      ensures answer(id).Ok? <==> Get(env.validUrl, m, id).Ok?
      ensures answer(id) == Ok(true) <==> StoredApplies(env, m, id, host, path)
    {
    }
    assert MatchingAmong(env, m, ids, host, path) == Keep(answer, ids);
  }

  lemma MatchingStoredMeans(env: Env, m: Entries, host: string, path: string)
    ensures var r := MatchingStored(env, m, host, path);
            r.Ok? ==>
              && ListIDs(m).Ok? && NoRepeats(r.value)
              && (forall id :: id in ListIDs(m).value ==> Get(env.validUrl, m, id).Ok?)
              && (forall id :: id in r.value <==> id in ListIDs(m).value && StoredApplies(env, m, id, host, path))
  {
    if ListIDs(m).Ok? {
      ListedNames(m);
      MatchingAmongMeans(env, m, ListIDs(m).value, host, path);
    }
  }

  /** The service an identifier stands for when it is applied: a configured one goes first. */
  function Meant(env: Env, m: Entries, id: string): Option<Service> {
    if id in env.configured then Some(env.configured[id])
    else match Get(env.validUrl, m, id)
      case Err(_) => None
      case Ok(s) => s
  }

  predicate MeantApplies(env: Env, m: Entries, id: string, host: string, path: string) {
    var s := Meant(env, m, id);
    s.Some? && RuleFor(env.lib, s.value, host, path).Some?
  }

  /** A stored service with a rule for the request, under the name of a configured one that has none. */
  predicate Shadowed(env: Env, m: Entries, id: string, host: string, path: string) {
    && StoredApplies(env, m, id, host, path)
    && id in env.configured && RuleFor(env.lib, env.configured[id], host, path).None?
  }

  ghost predicate Matched(env: Env, matched: seq<string>, host: string, path: string) {
    Listing(matched, ConfiguredMatches(env.lib, env.configured, host, path))
  }

  /**
   Without explicit services, each is selected once, and a selected one is applicable exactly when
   it is not shadowed.
   */
  lemma SelectedOnceAndApplicable(env: Env, m: Entries, matched: seq<string>, host: string, path: string)
    requires Matched(env, matched, host, path) && Select(env, m, matched, [], host, path).ids.Ok?
    ensures var r := Select(env, m, matched, [], host, path);
            && NoRepeats(r.ids.value)
            && (forall id :: id in r.ids.value ==>
                  (MeantApplies(env, r.entries, id, host, path) <==> !Shadowed(env, r.entries, id, host, path)))
  {
    var r := Select(env, m, matched, [], host, path);
    SelectedIs(env, m, matched, host, path);
    MatchingStoredMeans(env, r.entries, host, path);
    var stored := MatchingStored(env, r.entries, host, path).value;
    SelectedOnce(matched, stored);
    forall id | id in r.ids.value
      ensures MeantApplies(env, r.entries, id, host, path) <==> !Shadowed(env, r.entries, id, host, path)
    {
      assert id in matched || id in stored;
      SelectedApplies(env, r.entries, matched, host, path, id);
    }
  }

  /** The selection is made of the configured matches and the stored ones in the store it leaves. */
  lemma SelectedIs(env: Env, m: Entries, matched: seq<string>, host: string, path: string)
    requires Matched(env, matched, host, path) && Select(env, m, matched, [], host, path).ids.Ok?
    ensures Ascending(matched)
    ensures var r := Select(env, m, matched, [], host, path);
            && MatchingStored(env, r.entries, host, path).Ok?
            && r.ids.value in [matched + Without(MatchingStored(env, r.entries, host, path).value, matched),
                               MatchingStored(env, r.entries, host, path).value]
  {
  }

  /** A configured or listed service has a rule for the request. */
  predicate Applicable(env: Env, m: Entries, id: string, host: string, path: string) {
    || (id in env.configured && RuleFor(env.lib, env.configured[id], host, path).Some?)
    || (ListIDs(m).Ok? && id in ListIDs(m).value && StoredApplies(env, m, id, host, path))
  }

  /**
   Explicit services are selected as they are. Without any, those are selected that have a rule for
   the request, configured or listed in the store as it is left; and the store is left as it was
   unless none had one and the list can be fetched.
   */
  lemma SelectedExactlyWhen(env: Env, m: Entries, matched: seq<string>, explicit: seq<string>, host: string,
                            path: string)
    requires Matched(env, matched, host, path)
    ensures var r := Select(env, m, matched, explicit, host, path);
            && (explicit != [] ==> r == Selected(Ok(explicit), m))
            && (explicit == [] && r.ids.Ok? ==>
                  forall id :: id in r.ids.value <==> Applicable(env, r.entries, id, host, path))
            && (explicit == [] && MatchingStored(env, m, host, path).Ok?
                && ((exists id :: Applicable(env, m, id, host, path)) || !env.canFetch)
                ==> r.ids.Ok? && r.entries == m)
  {
    var r := Select(env, m, matched, explicit, host, path);
    if explicit == [] {
      MatchingStoredMeans(env, m, host, path);
      MatchingStoredMeans(env, r.entries, host, path);
      assert forall id :: id in matched <==> id in ConfiguredMatches(env.lib, env.configured, host, path);
      if MatchingStored(env, m, host, path).Ok? {
        var ids := matched + Without(MatchingStored(env, m, host, path).value, matched);
        if id :| Applicable(env, m, id, host, path) {
          assert id in ids;
        }
      }
    }
  }

  /** A connection is intercepted exactly when services are named, or a configured or listed one is on its host. */
  lemma InterceptedExactlyWhen(env: Env, m: Entries, explicit: seq<string>, host: string)
    ensures var r := Intercept(env, m, explicit, host);
            r.chosen.Ok? ==>
              (r.chosen.value <==>
                || explicit != []
                || (exists id :: id in env.configured && HostMatches(env.lib, env.configured[id], host))
                || (ListIDs(r.entries).Ok?
                    && exists id :: id in ListIDs(r.entries).value && StoredMatchesHost(env, r.entries, id, host)))
  {
    var r := Intercept(env, m, explicit, host);
    if r.chosen.Ok? && !(explicit != [] || ConfiguredMatchesHost(env, host)) {
      AnyMatchesHostMeans(env, r.entries, ListIDs(r.entries).value, host);
    }
  }

  lemma {:induction false} KeepSame(f: string -> Result<bool, IndexError>, g: string -> Result<bool, IndexError>,
                                    ids: seq<string>)
    requires forall id :: f(id) == g(id)
    ensures Keep(f, ids) == Keep(g, ids)
  {
    if ids != [] {
      KeepSame(f, g, ids[..|ids| - 1]);
    }
  }

  lemma SameRules(env: Env, a: string, b: string, path: string)
    requires SameBareHost(env.lib, a, b)
    ensures forall s :: RuleFor(env.lib, s, a, path) == RuleFor(env.lib, s, b, path)
    ensures forall s :: HostMatches(env.lib, s, a) == HostMatches(env.lib, s, b)
  {
    forall s
      ensures RuleFor(env.lib, s, a, path) == RuleFor(env.lib, s, b, path)
      ensures HostMatches(env.lib, s, a) == HostMatches(env.lib, s, b)
    {
      PortDoesNotCount(env.lib, s, a, b, path);
    }
  }

  lemma SameStored(env: Env, m: Entries, a: string, b: string, path: string)
    requires SameBareHost(env.lib, a, b)
    ensures MatchingStored(env, m, a, path) == MatchingStored(env, m, b, path)
    ensures StoredHostMatches(env, m, a) == StoredHostMatches(env, m, b)
  {
    SameRules(env, a, b, path);
    if ListIDs(m).Ok? {
      var ids := ListIDs(m).value;
      KeepSame(id => RuleAnswer(env, m, id, a, path), id => RuleAnswer(env, m, id, b, path), ids);
      assert MatchingAmong(env, m, ids, a, path) == MatchingAmong(env, m, ids, b, path);
      SameAnyMatch(env, m, ids, a, b);
    }
  }

  lemma {:induction false} SameAnyMatch(env: Env, m: Entries, ids: seq<string>, a: string, b: string)
    requires forall s :: HostMatches(env.lib, s, a) == HostMatches(env.lib, s, b)
    ensures AnyMatchesHost(env, m, ids, a) == AnyMatchesHost(env, m, ids, b)
  {
    if ids != [] {
      SameAnyMatch(env, m, ids[1..], a, b);
    }
  }

  /** The port and case of the host play no part in what is selected for a request. */
  lemma PortDoesNotCountInSelection(env: Env, m: Entries, matched: seq<string>, explicit: seq<string>, a: string,
                                    b: string, path: string)
    requires SameBareHost(env.lib, a, b)
    ensures Matched(env, matched, a, path) <==> Matched(env, matched, b, path)
    ensures Select(env, m, matched, explicit, a, path) == Select(env, m, matched, explicit, b, path)
  {
    SameRules(env, a, b, path);
    assert ConfiguredMatches(env.lib, env.configured, a, path) == ConfiguredMatches(env.lib, env.configured, b, path);
    SameStored(env, m, a, b, path);
    SameStored(env, FetchAndCache(env, m).entries, a, b, path);
  }

  /** Nor in the choice to intercept a connection, whose host comes with a port. */
  lemma PortDoesNotCountInInterception(env: Env, m: Entries, explicit: seq<string>, a: string, b: string)
    requires SameBareHost(env.lib, a, b)
    ensures Intercept(env, m, explicit, a) == Intercept(env, m, explicit, b)
  {
    SameRules(env, a, b, "");
    SameStored(env, m, a, b, "");
    SameStored(env, FetchAndCache(env, m).entries, a, b, "");
  }

  lemma SelectedOnce(matched: seq<string>, stored: seq<string>)
    requires Ascending(matched) && NoRepeats(stored)
    ensures NoRepeats(matched + Without(stored, matched))
  {
    AscendingHasNoRepeats(matched);
    var rest := Without(stored, matched);
    forall i, j | 0 <= i < j < |matched + rest| ensures (matched + rest)[i] != (matched + rest)[j] {
      assert i < |matched| ==> matched[i] in matched;
      assert j >= |matched| ==> rest[j - |matched|] in rest;
    }
  }

  lemma SelectedApplies(env: Env, m: Entries, matched: seq<string>, host: string, path: string, id: string)
    requires Matched(env, matched, host, path)
    requires id in matched || StoredApplies(env, m, id, host, path)
    ensures MeantApplies(env, m, id, host, path) <==> !Shadowed(env, m, id, host, path)
  {
    assert id in matched <==> id in ConfiguredMatches(env.lib, env.configured, host, path);
  }

  lemma AscendingHasNoRepeats(ids: seq<string>)
    requires Ascending(ids)
    ensures NoRepeats(ids)
  {
    forall i, j | 0 <= i < j < |ids| ensures ids[i] != ids[j] {
      assert Less(ids[i], ids[j]);
      LessIsTotal(ids[i], ids[i]);
    }
  }

  /** Shadowing does happen: the stored service is selected and cannot be applied. */
  lemma ShadowedIsSelected(env: Env, m: Entries, matched: seq<string>, host: string, path: string, id: string)
    requires Matched(env, matched, host, path) && MatchingStored(env, m, host, path).Ok?
    requires id in ListIDs(m).value && Shadowed(env, m, id, host, path)
    ensures var r := Select(env, m, matched, [], host, path);
            r.ids.Ok? && id in r.ids.value && !MeantApplies(env, r.entries, id, host, path)
  {
    MatchingStoredMeans(env, m, host, path);
    var stored := MatchingStored(env, m, host, path).value;
    assert id in Without(stored, matched);
    assert id in matched + Without(stored, matched);
  }

  /** A service without OAuth for one host. */
  function ServiceFor(host: string): Service {
    Service("", "", "", None, [HostRule(host, "", "", "", "")], [], None, Injection([], []))
  }

  lemma ServiceForIsAccepted(validUrl: string -> bool, host: string)
    requires host != ""
    ensures var normal := ServiceFor(host).(hosts := [HostRule(host, "", "", "none", "")]);
            && Normalize(validUrl, "svc", ServiceFor(host)) == Ok(normal)
            && Validate("svc", ServiceFor(host)) == Ok(normal)
  {
    var normal := ServiceFor(host).(hosts := [HostRule(host, "", "", "none", "")]);
    assert Default("svc", ServiceFor(host)) == normal;
    HostsErrorMeans(normal.hosts);
  }

  /** A library that takes hosts as they are. */
  function PlainLibrary(): Library {
    Library(x => x, (x, y) => x == y, (x, y) => x == y, x => None)
  }

  lemma RuleOfOneHost(s: Service, host: string, asked: string, path: string)
    requires host != "" && s.hosts == [HostRule(host, "", "", "none", "")]
    ensures RuleFor(PlainLibrary(), s, asked, path).Some? <==> asked == host
  {
    FirstRuleExists(PlainLibrary(), s.hosts, HostOnly(PlainLibrary(), asked), path);
  }

  /**
   One is: a validated service "svc" for host "a" is configured, one for host "b" is put under the
   same name, and a request to host "b" selects the name and cannot apply it.
   */
  lemma ShadowingHappens(validUrl: string -> bool)
    ensures
      var (configured, item) := (Validate("svc", ServiceFor("a")), Item("svc", ServiceFor("b")));
      && configured.Ok? && Accepted(validUrl, item)
      && var env := Env(PlainLibrary(), validUrl, map["svc" := configured.value], false, Ok([]));
         var m := Puts(validUrl, map[], [item]);
         var r := Select(env, m, [], [], "b", "/");
         && Matched(env, [], "b", "/") && r.ids.Ok? && "svc" in r.ids.value
         && !MeantApplies(env, r.entries, "svc", "b", "/")
  {
    TrimSpaceFixes("svc");
    ServiceForIsAccepted(validUrl, "a");
    ServiceForIsAccepted(validUrl, "b");
    var configured, item := Validate("svc", ServiceFor("a")).value, Item("svc", ServiceFor("b"));
    var env := Env(PlainLibrary(), validUrl, map["svc" := configured], false, Ok([]));
    var m := Puts(validUrl, map[], [item]);
    OneStored(validUrl, item, "svc");
    RuleOfOneHost(configured, "a", "b", "/");
    RuleOfOneHost(Normalize(validUrl, "svc", ServiceFor("b")).value, "b", "b", "/");
    MatchingAmongMeans(env, m, ["svc"], "b", "/");
    ShadowedIsSelected(env, m, [], "b", "/", "svc");
  }

  // ---------- Interception covers selection ----------

  lemma {:induction false} AnyMatchesHostMeans(env: Env, m: Entries, ids: seq<string>, host: string)
    ensures var r := AnyMatchesHost(env, m, ids, host);
            && (r.Ok? ==> (r.value <==> exists id :: id in ids && StoredMatchesHost(env, m, id, host)))
            && ((forall id :: id in ids ==> Get(env.validUrl, m, id).Ok?) ==> r.Ok?)
  {
    if ids != [] {
      AnyMatchesHostMeans(env, m, ids[1..], host);
      assert ids == [ids[0]] + ids[1..];
    }
  }

  /** Configured services have one of host and suffix in every rule, as validation makes sure. */
  ghost predicate ConfiguredOk(env: Env) {
    forall id :: id in env.configured ==> HostsOk(env.configured[id])
  }

  lemma StoredAppliesMatchesHost(env: Env, m: Entries, id: string, host: string, path: string)
    requires StoredApplies(env, m, id, host, path)
    ensures StoredMatchesHost(env, m, id, host)
  {
    GottenHostsOk(env, m, id);
    RuleMeansMatch(env.lib, Get(env.validUrl, m, id).value.value, host, path);
  }

  lemma GottenHostsOk(env: Env, m: Entries, id: string)
    ensures var s := Get(env.validUrl, m, id); s.Ok? && s.value.Some? ==> HostsOk(s.value.value)
  {
    var key := (TrimSpace(id), SECRET_KEY);
    if key in m && m[key].ServiceText? {
      AcceptedHostsOk(env.validUrl, key.0, m[key].service);
    }
  }

  lemma StoredRuleMeansHost(env: Env, m: Entries, host: string, path: string)
    requires MatchingStored(env, m, host, path).Ok? && MatchingStored(env, m, host, path).value != []
    ensures StoredHostMatches(env, m, host) == Ok(true)
  {
    MatchingStoredMeans(env, m, host, path);
    var ids := ListIDs(m).value;
    var id := MatchingStored(env, m, host, path).value[0];
    assert id in MatchingStored(env, m, host, path).value;
    StoredAppliesMatchesHost(env, m, id, host, path);
    AnyMatchesHostMeans(env, m, ids, host);
  }

  lemma ConfiguredRuleMeansHost(env: Env, matched: seq<string>, host: string, path: string)
    requires ConfiguredOk(env) && Matched(env, matched, host, path) && matched != []
    ensures ConfiguredMatchesHost(env, host)
  {
    var id := matched[0];
    assert id in matched;
    RuleMeansMatch(env.lib, env.configured[id], host, path);
  }

  /** A request that selects a service belongs to a connection that is intercepted, seen from the same store. */
  lemma InterceptionCoversSelection(env: Env, m: Entries, matched: seq<string>, explicit: seq<string>, host: string,
                                    path: string)
    requires ConfiguredOk(env) && Matched(env, matched, host, path)
    requires Select(env, m, matched, explicit, host, path).ids.Ok?
    requires Select(env, m, matched, explicit, host, path).ids.value != []
    ensures Intercept(env, m, explicit, host).chosen == Ok(true)
  {
    if explicit == [] && !ConfiguredMatchesHost(env, host) {
      if matched != [] {
        ConfiguredRuleMeansHost(env, matched, host, path);
      } else {
        var stored := MatchingStored(env, m, host, path).value;
        if stored != [] {
          StoredRuleMeansHost(env, m, host, path);
        } else {
          assert matched + Without(stored, matched) == [];
          var w := FetchAndCache(env, m);
          StoredRuleMeansHost(env, w.entries, host, path);
          MatchingStoredMeans(env, m, host, path);
          AnyMatchesHostMeans(env, m, ListIDs(m).value, host);
        }
      }
    }
  }

  /** Caching the same list a second time changes no list and no description. */
  lemma FetchTwice(env: Env, m: Entries, id: string)
    requires ListIDs(m).Ok? && FetchAndCache(env, m).error.None?
    ensures var once := FetchAndCache(env, m).entries; var twice := FetchAndCache(env, once).entries;
            && ListIDs(once).Ok? && ListIDs(twice) == ListIDs(once) && FetchAndCache(env, once).error.None?
            && Get(env.validUrl, twice, id) == Get(env.validUrl, once, id)
  {
    FetchedAreAccepted(env.validUrl, env.listing.value);
    var items := FetchAll(env.validUrl, env.listing.value).value;
    PutAllIsPuts(env.validUrl, m, items);
    RunListed(env.validUrl, m, items);
    var once := Puts(env.validUrl, m, items);
    PutAllIsPuts(env.validUrl, once, items);
    RunListed(env.validUrl, once, items);
    RunStored(env.validUrl, m, items, id);
    RunStored(env.validUrl, once, items, id);
    FirstsAbsorb(ListIDs(m).value, AcceptedIds(env.validUrl, items));
  }

  lemma {:induction false} FirstsAbsorb(a: seq<string>, b: seq<string>)
    ensures Firsts(Firsts(a + b) + b) == Firsts(a + b)
  {
    FirstsAbsorbPart(Firsts(a + b), b);
    FirstsOfNoRepeats(Firsts(a + b));
  }

  lemma {:induction false} FirstsAbsorbPart(a: seq<string>, b: seq<string>)
    requires forall x :: x in b ==> x in a
    ensures Firsts(a + b) == Firsts(a)
  {
    if b == [] {
      assert a + b == a;
    } else {
      var init, last := b[..|b| - 1], b[|b| - 1];
      FirstsAbsorbPart(a, init);
      assert a + b == (a + init) + [last];
      FirstsAfter(a + init, last);
    }
  }

  /**
   A connection that was left alone carries no request that selects a service, when the request
   finds the store as the connection left it and the list of services has not changed.
   */
  lemma LeftAloneSelectsNothing(env: Env, m: Entries, matched: seq<string>, host: string, path: string)
    requires ConfiguredOk(env)
    requires Intercept(env, m, [], host).chosen == Ok(false) && Matched(env, matched, host, path)
    ensures var r := Select(env, Intercept(env, m, [], host).entries, matched, [], host, path);
            r.ids.Ok? ==> r.ids.value == []
  {
    var after := Intercept(env, m, [], host).entries;
    var r := Select(env, after, matched, [], host, path);
    if r.ids.Ok? && r.ids.value != [] {
      InterceptionCoversSelection(env, after, matched, [], host, path);
      LeftAloneStaysAlone(env, m, host);
    }
  }

  lemma LeftAloneStaysAlone(env: Env, m: Entries, host: string)
    requires Intercept(env, m, [], host).chosen == Ok(false)
    ensures Intercept(env, Intercept(env, m, [], host).entries, [], host).chosen != Ok(true)
  {
    var after := Intercept(env, m, [], host).entries;
    if env.canFetch {
      var twice := FetchAndCache(env, after);
      forall id ensures Get(env.validUrl, twice.entries, id) == Get(env.validUrl, after, id) {
        FetchTwice(env, m, id);
      }
      FetchTwice(env, m, "");
      SameAnswers(env, after, twice.entries, ListIDs(after).value, host);
    }
  }

  lemma {:induction false} SameAnswers(env: Env, m: Entries, m': Entries, ids: seq<string>, host: string)
    requires forall id :: Get(env.validUrl, m', id) == Get(env.validUrl, m, id)
    ensures AnyMatchesHost(env, m', ids, host) == AnyMatchesHost(env, m, ids, host)
  {
    if ids != [] {
      SameAnswers(env, m, m', ids[1..], host);
    }
  }

  /** And an intercepted connection has a path on which some configured or stored service has a rule. */
  lemma InterceptedHasSelectingPath(env: Env, m: Entries, host: string)
    requires ConfiguredOk(env) && Intercept(env, m, [], host).chosen == Ok(true)
    ensures (exists id, path :: id in env.configured && RuleFor(env.lib, env.configured[id], host, path).Some?)
            || exists id, path :: StoredApplies(env, Intercept(env, m, [], host).entries, id, host, path)
  {
    var after := Intercept(env, m, [], host).entries;
    if ConfiguredMatchesHost(env, host) {
      var id :| id in env.configured && HostMatches(env.lib, env.configured[id], host);
      HostMatchesExactlyWhen(env.lib, env.configured[id], host);
    } else {
      AnyMatchesHostMeans(env, after, ListIDs(after).value, host);
      var id :| id in ListIDs(after).value && StoredMatchesHost(env, after, id, host);
      GottenHostsOk(env, after, id);
      var s := Get(env.validUrl, after, id).value.value;
      HostMatchesExactlyWhen(env.lib, s, host);
      var path :| RuleFor(env.lib, s, host, path).Some?;
      assert StoredApplies(env, after, id, host, path);
    }
  }
}

/**
 The loops behind the selection of services and the choice to intercept, over a store that may
 fail, and the application of services to a request, which changes its headers and its query.
 */
module ServiceRequests {
  import opened PathPolicy
  import opened ServiceIndex
  import opened ServicePlan
  import opened ServiceSelection
  import opened Services
  import opened Text
  import opened Wrappers

  // ---------- Selecting and intercepting ----------

  method AnswerFor(env: Env, store: SecretStore, id: string, host: string, path: string)
    returns (answer: Result<bool, IndexError>)
    ensures answer == Err(StoreFailed) || answer == RuleAnswer(env, store.entries, id, host, path)
  {
    var service := GetStored(env.validUrl, store, id);
    if service.Err? {
      return Err(service.error);
    }
    answer := Ok(service.value.Some? && RuleFor(env.lib, service.value.value, host, path).Some?);
  }

  method MatchingStoredIDs(env: Env, store: SecretStore, host: string, path: string)
    returns (matches: Result<seq<string>, IndexError>)
    ensures matches == Err(StoreFailed) || matches == MatchingStored(env, store.entries, host, path)
  {
    var listed := ListStored(store);
    if listed.Err? {
      return Err(listed.error);
    }
    var ids := listed.value;
    var kept: seq<string> := [];
    ghost var m := store.entries;
    ghost var answers := (id: string) => RuleAnswer(env, m, id, host, path);
    for i := 0 to |ids|
      invariant Keep(answers, ids[..i]) == Ok(kept)
    {
      var answer := AnswerFor(env, store, ids[i], host, path);
      if answer == Err(StoreFailed) {
        return Err(StoreFailed);
      }
      KeepOneMore(answers, ids, i, kept);
      assert answers(ids[i]) == answer;
      if answer.Err? {
        return Err(answer.error);
      }
      if answer.value {
        kept := kept + [ids[i]];
      }
    }
    assert ids[..|ids|] == ids;
    matches := Ok(kept);
  }

  lemma KeepOneMore(answer: string -> Result<bool, IndexError>, ids: seq<string>, i: nat, kept: seq<string>)
    requires i < |ids| && Keep(answer, ids[..i]) == Ok(kept)
    ensures match answer(ids[i])
            case Err(e) => Keep(answer, ids) == Err(e)
            case Ok(yes) => Keep(answer, ids[..i + 1]) == Ok(if yes then kept + [ids[i]] else kept)
  {
    assert ids[..i + 1][..i] == ids[..i];
    if answer(ids[i]).Err? {
      KeepStops(answer, ids, i + 1);
    }
  }

  lemma {:induction false} KeepStops(answer: string -> Result<bool, IndexError>, ids: seq<string>, n: nat)
    requires n <= |ids| && Keep(answer, ids[..n]).Err?
    ensures Keep(answer, ids) == Keep(answer, ids[..n])
    decreases |ids|
  {
    if n == |ids| {
      assert ids[..n] == ids;
    } else {
      assert ids[..|ids| - 1][..n] == ids[..n];
      KeepStops(answer, ids[..|ids| - 1], n);
    }
  }

  /** What a store that fails in the middle of one Put leaves: nothing, or a description that is not listed. */
  predicate PutPartly(validUrl: string -> bool, m: Entries, item: Item, after: Entries) {
    after == m || (Accepted(validUrl, item) && after == WithDescription(validUrl, m, item))
  }

  /** All items before some place were put, and that one partly. */
  ghost predicate PutUpTo(validUrl: string -> bool, m: Entries, items: seq<Item>, after: Entries) {
    exists n: nat :: n < |items| && PutPartly(validUrl, PutAll(validUrl, m, items[..n]).entries, items[n], after)
  }

  method PutItems(validUrl: string -> bool, store: SecretStore, items: seq<Item>) returns (error: Option<IndexError>)
    modifies store
    ensures if error == Some(StoreFailed) then PutUpTo(validUrl, old(store.entries), items, store.entries)
            else Written(store.entries, error) == PutAll(validUrl, old(store.entries), items)
  {
    ghost var was := store.entries;
    for i := 0 to |items|
      invariant PutAll(validUrl, was, items[..i]) == Written(store.entries, None)
    {
      assert items[..i + 1][..i] == items[..i];
      ghost var before := store.entries;
      error := PutStoredService(validUrl, store, items[i].id, items[i].service);
      if error == Some(StoreFailed) {
        assert items[i] == Item(items[i].id, items[i].service);
        assert PutPartly(validUrl, before, items[i], store.entries);
        return;
      }
      if error.Some? {
        PutAllStops(validUrl, was, items, i + 1);
        return;
      }
    }
    assert items[..|items|] == items;
    error := None;
  }

  /** What a store failure leaves when the list of services was to be fetched and cached. */
  ghost predicate LeftByFailure(env: Env, m: Entries, after: Entries) {
    || after == m || after == FetchAndCache(env, m).entries
    || (env.listing.Ok? && FetchAll(env.validUrl, env.listing.value).Ok?
        && PutUpTo(env.validUrl, m, FetchAll(env.validUrl, env.listing.value).value, after))
  }

  method FetchAndCacheMetadata(env: Env, store: SecretStore) returns (error: Option<IndexError>)
    modifies store
    ensures if error == Some(StoreFailed) then LeftByFailure(env, old(store.entries), store.entries)
            else Written(store.entries, error) == FetchAndCache(env, old(store.entries))
  {
    if env.listing.Err? {
      return Some(env.listing.error);
    }
    var fetched := FetchAll(env.validUrl, env.listing.value);
    if fetched.Err? {
      return Some(fetched.error);
    }
    error := PutItems(env.validUrl, store, fetched.value);
  }

  lemma {:induction false} PutAllStops(validUrl: string -> bool, m: Entries, items: seq<Item>, n: nat)
    requires n <= |items| && PutAll(validUrl, m, items[..n]).error.Some?
    ensures PutAll(validUrl, m, items) == PutAll(validUrl, m, items[..n])
    decreases |items|
  {
    if n == |items| {
      assert items[..n] == items;
    } else {
      assert items[..|items| - 1][..n] == items[..n];
      PutAllStops(validUrl, m, items[..|items| - 1], n);
    }
  }

  /** Adds the stored services that are not among the configured ones. */
  method AddUnseen(configured: seq<string>, stored: seq<string>) returns (ids: seq<string>)
    ensures ids == configured + Without(stored, configured)
  {
    var seen := set id | id in configured;
    ids := configured;
    for i := 0 to |stored|
      invariant ids == configured + Without(stored[..i], configured)
    {
      assert stored[..i + 1][..i] == stored[..i];
      if stored[i] !in seen {
        ids := ids + [stored[i]];
      }
    }
    assert stored[..|stored|] == stored;
  }

  /** The services of a request; `matched` is what the walk over the configured ones finds. */
  method ServiceIDsForRequest(env: Env, store: SecretStore, explicit: seq<string>, host: string, path: string)
    returns (ids: Result<seq<string>, IndexError>, ghost matched: seq<string>)
    modifies store
    ensures explicit == [] ==> Matched(env, matched, host, path)
    ensures if ids == Err(StoreFailed) then LeftByFailure(env, old(store.entries), store.entries)
            else Selected(ids, store.entries) == Select(env, old(store.entries), matched, explicit, host, path)
  {
    matched := [];
    if |explicit| > 0 {
      ids := Ok(explicit);
      return;
    }
    var configured := MatchingConfiguredIDs(env.lib, env.configured, host, path);
    matched := configured;
    var stored := MatchingStoredIDs(env, store, host, path);
    if stored.Err? {
      ids := Err(stored.error);
      return;
    }
    var chosen := AddUnseen(configured, stored.value);
    if chosen == [] && env.canFetch {
      var error := FetchAndCacheMetadata(env, store);
      if error.Some? {
        ids := Err(error.value);
      } else {
        ids := MatchingStoredIDs(env, store, host, path);
      }
    } else {
      ids := Ok(chosen);
    }
  }

  method AnyStoredMatches(env: Env, store: SecretStore, host: string) returns (found: Result<bool, IndexError>)
    ensures found == Err(StoreFailed) || found == StoredHostMatches(env, store.entries, host)
  {
    var listed := ListStored(store);
    if listed.Err? {
      return Err(listed.error);
    }
    var ids := listed.value;
    var i := 0;
    while i < |ids|
      invariant i <= |ids|
      invariant AnyMatchesHost(env, store.entries, ids, host) == AnyMatchesHost(env, store.entries, ids[i..], host)
    {
      var service := GetStored(env.validUrl, store, ids[i]);
      if service.Err? {
        return Err(service.error);
      }
      if service.value.Some? && HostMatches(env.lib, service.value.value, host) {
        return Ok(true);
      }
      assert ids[i..][1..] == ids[i + 1..];
      i := i + 1;
    }
    found := Ok(false);
  }

  method ShouldIntercept(env: Env, store: SecretStore, explicit: seq<string>, host: string)
    returns (chosen: Result<bool, IndexError>)
    modifies store
    ensures if chosen == Err(StoreFailed) then LeftByFailure(env, old(store.entries), store.entries)
            else Interception(chosen, store.entries) == Intercept(env, old(store.entries), explicit, host)
  {
    if |explicit| > 0 {
      return Ok(true);
    }
    var left := env.configured.Keys;
    while left != {}
      invariant left <= env.configured.Keys
      invariant forall id :: id in env.configured && HostMatches(env.lib, env.configured[id], host) ==> id in left
      decreases |left|
    {
      var id :| id in left;
      if HostMatches(env.lib, env.configured[id], host) {
        return Ok(true);
      }
      left := left - {id};
    }
    chosen := AnyStoredMatches(env, store, host);
    if chosen != Ok(false) || !env.canFetch {
      return;
    }
    var error := FetchAndCacheMetadata(env, store);
    if error.Some? {
      return Err(error.value);
    }
    chosen := AnyStoredMatches(env, store, host);
  }

  // ---------- Applying services ----------

  datatype ApplyError =
    | LookupFailed(id: string, reason: IndexError)
    | NotFound(id: string)
    | NoRule(id: string)
    | TokenFailed(id: string)
    | AuthFailed(id: string)
    | RenderFailed(id: string)

  /** Header and query values: setting a name replaces all its values by one. */
  type Values = map<string, seq<string>>

  /**
   Tokens and rendered templates are taken as they come; a token may be missing. Header names are
   brought into canonical form; query names are taken as they are.
   */
  datatype Means = Means(
    env: Env, canonical: string -> string, canFetchOne: bool, fetchOne: string -> Result<Service, IndexError>,
    fields: Service -> Option<map<string, string>>, storedToken: string -> Option<string>,
    render: (string, string, map<string, string>) -> Option<string>, basic: string -> string)

  datatype Shape = Shape(headers: Values, query: Values)

  /** A lookup may fetch a description that is nowhere yet, and then stores it. */
  function ServiceByID(means: Means, m: Entries, id: string): (Result<Service, ApplyError>, Entries) {
    if id in means.env.configured then (Ok(means.env.configured[id]), m)
    else match Get(means.env.validUrl, m, id)
      case Err(e) => (Err(LookupFailed(id, e)), m)
      case Ok(Some(s)) => (Ok(s), m)
      case Ok(None) =>
        if !means.canFetchOne then (Err(NotFound(id)), m)
        else match means.fetchOne(id)
          case Err(e) => (Err(LookupFailed(id, e)), m)
          case Ok(s) =>
            var w := Put(means.env.validUrl, m, id, s);
            (if w.error.Some? then Err(LookupFailed(id, w.error.value)) else Ok(s), w.entries)
  }

  /**
   A lookup finds what the identifier means. What is nowhere yet is fetched when that is possible,
   and found when it is accepted; it is then stored under its name, for any lookup after this one.
   */
  lemma LookupMeans(means: Means, m: Entries, id: string)
    requires ListIDs(m).Ok?
    ensures var ((found, after), known) := (ServiceByID(means, m, id), Meant(means.env, m, id));
            && (known.Some? ==> found == Ok(known.value) && after == m)
            && (known.None? && found.Ok? <==>
                  && id !in means.env.configured && Get(means.env.validUrl, m, id) == Ok(None)
                  && means.canFetchOne && means.fetchOne(id).Ok?
                  && Accepted(means.env.validUrl, Item(id, means.fetchOne(id).value)))
            && (known.None? && found.Ok? ==>
                  var name := TrimSpace(id);
                  && found == Ok(means.fetchOne(id).value) && ListIDs(after).Ok? && name in ListIDs(after).value
                  && Get(means.env.validUrl, after, id)
                       == Ok(Some(SanitizeForClient(Normalize(means.env.validUrl, name, found.value).value))))
  {
    if means.fetchOne(id).Ok? {
      PutListed(means.env.validUrl, m, Item(id, means.fetchOne(id).value));
      PutStored(means.env.validUrl, m, Item(id, means.fetchOne(id).value), id);
    }
  }

  /** The authorization header for a token, if the method calls for one. */
  function AuthHeader(means: Means, authMethod: string, token: string): Result<Option<string>, ()> {
    if authMethod == "" || authMethod == "none" then Ok(None)
    else if token == "" || !SupportedAuthMethod(authMethod) then Err(())
    else if authMethod == "bearer" then Ok(Some("Bearer " + token))
    else if authMethod == "basic-x-access-token" then Ok(Some("Basic " + means.basic("x-access-token:" + token)))
    else Ok(Some("Basic " + means.basic(token)))
  }

  function CredentialOf(id: string, s: Service): string {
    if s.oauth.Some? then s.oauth.value.credentialId else id
  }

  /** The fields a service's templates may use, and the token for its authorization header. */
  function FieldsAndToken(means: Means, id: string, s: Service, rule: HostRule): Option<(map<string, string>, string)> {
    if s.oauth.Some? then
      match means.fields(s)
      case None => None
      case Some(f) => Some((f, if "access_token" in f then f["access_token"] else ""))
    else if s.inputs != [] && rule.authMethod != "none" then
      match means.storedToken(id)
      case None => None
      case Some(token) => Some((map[], token))
    else Some((map[], ""))
  }

  predicate Authorizes(s: Service, rule: HostRule) {
    s.oauth.Some? || (s.inputs != [] && rule.authMethod != "none")
  }

  function AsIs(name: string): string {
    name
  }

  /** The templates are rendered in turn; `keyOf` gives the place a name has among the values. */
  function SetAll(means: Means, credential: string, keyOf: string -> string, templates: seq<Template>,
                  fields: map<string, string>, values: Values): Option<Values> {
    if templates == [] then Some(values)
    else match SetAll(means, credential, keyOf, templates[..|templates| - 1], fields, values)
      case None => None
      case Some(before) =>
        var t := templates[|templates| - 1];
        match means.render(credential, t.value, fields)
        case None => None
        case Some(v) => Some(before[keyOf(t.name) := [v]])
  }

  function Authorization(means: Means): string {
    means.canonical("Authorization")
  }

  function ApplyOne(means: Means, id: string, s: Service, rule: HostRule, shape: Shape): Result<Shape, ApplyError> {
    match FieldsAndToken(means, id, s, rule)
    case None => Err(TokenFailed(id))
    case Some((fields, token)) =>
      match if Authorizes(s, rule) then AuthHeader(means, rule.authMethod, token) else Ok(None)
      case Err(_) => Err(AuthFailed(id))
      case Ok(auth) =>
        var headers := if auth.Some? then shape.headers[Authorization(means) := [auth.value]] else shape.headers;
        match SetAll(means, CredentialOf(id, s), means.canonical, s.injection.headers, fields, headers)
        case None => Err(RenderFailed(id))
        case Some(after) =>
          match SetAll(means, CredentialOf(id, s), AsIs, s.injection.query, fields, shape.query)
          case None => Err(RenderFailed(id))
          case Some(query) => Ok(Shape(after, query))
  }

  datatype Applied = Applied(shape: Result<Shape, ApplyError>, entries: Entries)

  function ApplyAll(means: Means, m: Entries, ids: seq<string>, host: string, path: string, shape: Shape): Applied {
    if ids == [] then Applied(Ok(shape), m)
    else
      var before := ApplyAll(means, m, ids[..|ids| - 1], host, path, shape);
      if before.shape.Err? then before
      else
        var id := ids[|ids| - 1];
        var (found, after) := ServiceByID(means, before.entries, id);
        match found
        case Err(e) => Applied(Err(e), after)
        case Ok(s) =>
          match RuleFor(means.env.lib, s, host, path)
          case None => Applied(Err(NoRule(id)), after)
          case Some(rule) => Applied(ApplyOne(means, id, s, rule, before.shape.value), after)
  }

  /** Services that are meant for the request fail, if at all, in getting a token or rendering a template. */
  lemma {:induction false} MeantAreApplied(means: Means, m: Entries, ids: seq<string>, host: string, path: string,
                                           shape: Shape)
    requires forall id :: id in ids ==> MeantApplies(means.env, m, id, host, path)
    ensures var r := ApplyAll(means, m, ids, host, path, shape);
            && r.entries == m
            && (r.shape.Ok? || r.shape.error.TokenFailed? || r.shape.error.AuthFailed? || r.shape.error.RenderFailed?)
  {
    if ids != [] {
      MeantAreApplied(means, m, ids[..|ids| - 1], host, path, shape);
      assert ids[|ids| - 1] in ids;
    }
  }

  /** One that is not meant for it stops the request, whatever the others do. */
  lemma {:induction false} NotMeantStops(means: Means, m: Entries, ids: seq<string>, host: string, path: string,
                                         shape: Shape)
    requires forall id :: id in ids ==> Meant(means.env, m, id).Some?
    requires exists id :: id in ids && !MeantApplies(means.env, m, id, host, path)
    ensures ApplyAll(means, m, ids, host, path, shape).shape.Err?
  {
    var init, last := ids[..|ids| - 1], ids[|ids| - 1];
    assert ids == init + [last];
    if MeantApplies(means.env, m, last, host, path)
       || exists id :: id in init && !MeantApplies(means.env, m, id, host, path)
    {
      NotMeantStops(means, m, init, host, path, shape);
    } else {
      MeantAreApplied(means, m, init, host, path, shape);
      assert last in ids;
    }
  }

  /**
   From selection to application: without explicit services, the selected ones pass their own host
   check exactly when none is shadowed, and the store is then left as the selection left it.
   */
  lemma SelectionIsApplied(means: Means, m: Entries, matched: seq<string>, host: string, path: string, shape: Shape)
    requires Matched(means.env, matched, host, path) && Select(means.env, m, matched, [], host, path).ids.Ok?
    ensures var r := Select(means.env, m, matched, [], host, path);
            var a := ApplyAll(means, r.entries, r.ids.value, host, path, shape);
            if forall id :: id in r.ids.value ==> !Shadowed(means.env, r.entries, id, host, path)
            then
              && a.entries == r.entries
              && (a.shape.Ok? || !(a.shape.error.LookupFailed? || a.shape.error.NotFound? || a.shape.error.NoRule?))
            else a.shape.Err?
  {
    var r := Select(means.env, m, matched, [], host, path);
    SelectedOnceAndApplicable(means.env, m, matched, host, path);
    if forall id :: id in r.ids.value ==> !Shadowed(means.env, r.entries, id, host, path) {
      MeantAreApplied(means, r.entries, r.ids.value, host, path, shape);
    } else {
      SelectedAreMeant(means.env, m, matched, host, path);
      NotMeantStops(means, r.entries, r.ids.value, host, path, shape);
    }
  }

  lemma SelectedAreMeant(env: Env, m: Entries, matched: seq<string>, host: string, path: string)
    requires Matched(env, matched, host, path) && Select(env, m, matched, [], host, path).ids.Ok?
    ensures var r := Select(env, m, matched, [], host, path);
            forall id :: id in r.ids.value ==> Meant(env, r.entries, id).Some?
  {
    var r := Select(env, m, matched, [], host, path);
    SelectedOnceAndApplicable(env, m, matched, host, path);
    forall id | id in r.ids.value ensures Meant(env, r.entries, id).Some? {
      assert MeantApplies(env, r.entries, id, host, path) || Shadowed(env, r.entries, id, host, path);
    }
  }

  predicate HasSame(a: Values, b: Values, key: string) {
    (key in a <==> key in b) && (key in a ==> a[key] == b[key])
  }

  /** The last template of a name decides its value; names without one keep theirs. */
  function LastTemplate(keyOf: string -> string, templates: seq<Template>, key: string): Option<Template> {
    if templates == [] then None
    else if keyOf(templates[|templates| - 1].name) == key then Some(templates[|templates| - 1])
    else LastTemplate(keyOf, templates[..|templates| - 1], key)
  }

  lemma {:induction false} SetAllMeans(means: Means, credential: string, keyOf: string -> string,
                                       templates: seq<Template>,
                                       fields: map<string, string>, values: Values, key: string)
    ensures var r := SetAll(means, credential, keyOf, templates, fields, values);
            r.Some? ==>
              match LastTemplate(keyOf, templates, key)
              case None => HasSame(values, r.value, key)
              case Some(t) => key in r.value && |r.value[key]| == 1
                              && Some(r.value[key][0]) == means.render(credential, t.value, fields)
  {
    if templates != [] {
      SetAllMeans(means, credential, keyOf, templates[..|templates| - 1], fields, values, key);
    }
  }

  /** The templates' last one for a key is number `i`. */
  predicate LastFor(keyOf: string -> string, templates: seq<Template>, key: string, i: nat) {
    i < |templates| && keyOf(templates[i].name) == key
    && forall j :: i < j < |templates| ==> keyOf(templates[j].name) != key
  }

  lemma {:induction false} LastTemplateMeans(keyOf: string -> string, templates: seq<Template>, key: string)
    ensures var t := LastTemplate(keyOf, templates, key);
            && (t.None? <==> forall i :: 0 <= i < |templates| ==> keyOf(templates[i].name) != key)
            && forall i: nat :: LastFor(keyOf, templates, key, i) ==> t == Some(templates[i])
  {
    if templates != [] {
      var init, n := templates[..|templates| - 1], |templates| - 1;
      LastTemplateMeans(keyOf, init, key);
      assert forall i :: 0 <= i < n ==> init[i] == templates[i];
      forall i: nat | LastFor(keyOf, templates, key, i)
        ensures LastTemplate(keyOf, templates, key) == Some(templates[i])
      {
        assert i < n ==> keyOf(templates[n].name) != key && LastFor(keyOf, init, key, i);
      }
    }
  }

  /** What a service's templates are rendered with: the credential, and the token fields it has. */
  function RenderedWith(means: Means, id: string, s: Service, value: string): Option<string> {
    match s.oauth
    case None => means.render(id, value, map[])
    case Some(oauth) =>
      match means.fields(s)
      case None => None
      case Some(fields) => means.render(oauth.credentialId, value, fields)
  }

  /** Every query name has what its last template renders to, and without a template what it had. */
  lemma QueryIsSet(means: Means, id: string, s: Service, rule: HostRule, shape: Shape, key: string)
    requires ApplyOne(means, id, s, rule, shape).Ok?
    ensures var query := ApplyOne(means, id, s, rule, shape).value.query;
            var templates := s.injection.query;
            && (forall i: nat :: i < |templates| && templates[i].name == key
                                 && (forall j :: i < j < |templates| ==> templates[j].name != key) ==>
                  key in query && |query[key]| == 1
                  && Some(query[key][0]) == RenderedWith(means, id, s, templates[i].value))
            && ((forall i :: 0 <= i < |templates| ==> templates[i].name != key) ==> HasSame(shape.query, query, key))
  {
    var (fields, token) := FieldsAndToken(means, id, s, rule).value;
    SetAllMeans(means, CredentialOf(id, s), AsIs, s.injection.query, fields, shape.query, key);
    LastTemplateMeans(AsIs, s.injection.query, key);
    var templates := s.injection.query;
    forall i: nat | i < |templates| && templates[i].name == key
                    && forall j :: i < j < |templates| ==> templates[j].name != key
      ensures LastTemplate(AsIs, templates, key) == Some(templates[i])
    {
      assert LastFor(AsIs, templates, key, i);
    }
  }

  /** So has every header, by its canonical name, except that the authorization header may have the token. */
  lemma HeaderIsSet(means: Means, id: string, s: Service, rule: HostRule, shape: Shape, key: string)
    requires ApplyOne(means, id, s, rule, shape).Ok?
    ensures var headers := ApplyOne(means, id, s, rule, shape).value.headers;
            var templates := s.injection.headers;
            && (forall i: nat :: LastFor(means.canonical, templates, key, i) ==>
                  key in headers && |headers[key]| == 1
                  && Some(headers[key][0]) == RenderedWith(means, id, s, templates[i].value))
            && ((forall i :: 0 <= i < |templates| ==> means.canonical(templates[i].name) != key)
                && key != means.canonical("Authorization")
                ==> HasSame(shape.headers, headers, key))
  {
    var (fields, token) := FieldsAndToken(means, id, s, rule).value;
    var auth := (if Authorizes(s, rule) then AuthHeader(means, rule.authMethod, token) else Ok(None)).value;
    var headers := if auth.Some? then shape.headers[Authorization(means) := [auth.value]] else shape.headers;
    SetAllMeans(means, CredentialOf(id, s), means.canonical, s.injection.headers, fields, headers, key);
    LastTemplateMeans(means.canonical, s.injection.headers, key);
  }

  /** The token of a service: the access token of an OAuth service, the stored one of a service with inputs. */
  function TokenOf(means: Means, id: string, s: Service): string {
    if s.oauth.Some? then
      match means.fields(s)
      case None => ""
      case Some(fields) => if "access_token" in fields then fields["access_token"] else ""
    else GetOr(means.storedToken(id), "")
  }

  /** The value of the authorization header for a token, by the method of the host rule. */
  predicate IsAuthorization(means: Means, authMethod: string, token: string, value: string) {
    || (authMethod == "bearer" && value == "Bearer " + token)
    || (authMethod == "basic" && value == "Basic " + means.basic(token))
    || (authMethod == "basic-x-access-token" && value == "Basic " + means.basic("x-access-token:" + token))
  }

  /**
   What a service makes of a request's authorization header: what the last template for it renders
   to, in whatever spelling it names it; otherwise the token as the rule wants it, which is not
   empty; and nothing new when the rule wants none or the service has neither OAuth nor inputs.
   */
  lemma TokenIsInjected(means: Means, id: string, s: Service, rule: HostRule, shape: Shape)
    requires ApplyOne(means, id, s, rule, shape).Ok?
    ensures var headers := ApplyOne(means, id, s, rule, shape).value.headers;
            var key := means.canonical("Authorization");
            match LastTemplate(means.canonical, s.injection.headers, key)
            case Some(t) =>
              key in headers && |headers[key]| == 1 && Some(headers[key][0]) == RenderedWith(means, id, s, t.value)
            case None =>
              if rule.authMethod in ["none", ""] || (s.oauth.None? && s.inputs == [])
              then HasSame(shape.headers, headers, key)
              else
                && TokenOf(means, id, s) != "" && key in headers && |headers[key]| == 1
                && IsAuthorization(means, rule.authMethod, TokenOf(means, id, s), headers[key][0])
  {
    var (fields, token) := FieldsAndToken(means, id, s, rule).value;
    var auth := (if Authorizes(s, rule) then AuthHeader(means, rule.authMethod, token) else Ok(None)).value;
    var headers := if auth.Some? then shape.headers[Authorization(means) := [auth.value]] else shape.headers;
    SetAllMeans(means, CredentialOf(id, s), means.canonical, s.injection.headers, fields, headers,
                Authorization(means));
  }

  lemma {:induction false} SetAllSucceedsExactlyWhen(means: Means, credential: string, keyOf: string -> string,
                                                     templates: seq<Template>, fields: map<string, string>,
                                                     values: Values)
    ensures SetAll(means, credential, keyOf, templates, fields, values).Some?
            <==> forall i :: 0 <= i < |templates| ==> means.render(credential, templates[i].value, fields).Some?
  {
    if templates != [] {
      var init, n := templates[..|templates| - 1], |templates| - 1;
      SetAllSucceedsExactlyWhen(means, credential, keyOf, init, fields, values);
      assert forall i :: 0 <= i < n ==> init[i] == templates[i];
    }
  }

  /**
   A service is applied exactly when it has the fields and token that its kind and rule call for,
   the rule's method is a known one, and every template renders.
   */
  lemma AppliesExactlyWhen(means: Means, id: string, s: Service, rule: HostRule, shape: Shape)
    ensures ApplyOne(means, id, s, rule, shape).Ok? <==>
              && (s.oauth.Some? ==> means.fields(s).Some?)
              && (s.oauth.None? && s.inputs != [] && rule.authMethod != "none" ==> means.storedToken(id).Some?)
              && (rule.authMethod !in ["none", ""] && (s.oauth.Some? || s.inputs != []) ==>
                    TokenOf(means, id, s) != ""
                    && rule.authMethod in ["bearer", "basic", "basic-x-access-token"])
              && (forall i :: 0 <= i < |s.injection.headers| ==>
                    RenderedWith(means, id, s, s.injection.headers[i].value).Some?)
              && (forall i :: 0 <= i < |s.injection.query| ==>
                    RenderedWith(means, id, s, s.injection.query[i].value).Some?)
  {
    var got := FieldsAndToken(means, id, s, rule);
    if got.Some? {
      var (fields, token) := got.value;
      var credential := CredentialOf(id, s);
      var authorization := if Authorizes(s, rule) then AuthHeader(means, rule.authMethod, token) else Ok(None);
      if authorization.Ok? {
        var auth := authorization.value;
        var headers := if auth.Some? then shape.headers[Authorization(means) := [auth.value]] else shape.headers;
        SetAllSucceedsExactlyWhen(means, credential, means.canonical, s.injection.headers, fields, headers);
        SetAllSucceedsExactlyWhen(means, credential, AsIs, s.injection.query, fields, shape.query);
      }
    }
  }

  /** A template for the same header in another spelling takes the token's place. */
  lemma OtherSpellingOverrides(means: Means, id: string, s: Service, rule: HostRule, shape: Shape, t: Template)
    requires ApplyOne(means, id, s, rule, shape).Ok? && s.injection.headers == [t]
    requires t.name == "authorization" && means.canonical("authorization") == means.canonical("Authorization")
    ensures var headers := ApplyOne(means, id, s, rule, shape).value.headers;
            var fields := FieldsAndToken(means, id, s, rule).value.0;
            var value := means.render(CredentialOf(id, s), t.value, fields);
            value.Some? && Authorization(means) in headers && headers[Authorization(means)] == [value.value]
  {
    var (fields, token) := FieldsAndToken(means, id, s, rule).value;
    var auth := (if Authorizes(s, rule) then AuthHeader(means, rule.authMethod, token) else Ok(None)).value;
    var headers := if auth.Some? then shape.headers[Authorization(means) := [auth.value]] else shape.headers;
    SetAllMeans(means, CredentialOf(id, s), means.canonical, s.injection.headers, fields, headers,
                Authorization(means));
  }

  /** The headers a service may set, by their canonical names: those of its templates, and the authorization header. */
  predicate MaySet(means: Means, s: Service, key: string) {
    key == Authorization(means) || LastTemplate(means.canonical, s.injection.headers, key).Some?
  }

  /** A header that no applied service may set comes through as it was. */
  lemma {:induction false} OtherHeadersStay(means: Means, m: Entries, ids: seq<string>, host: string, path: string,
                                            shape: Shape, key: string)
    requires forall id :: id in ids ==>
               Meant(means.env, m, id).Some? && !MaySet(means, Meant(means.env, m, id).value, key)
    ensures var r := ApplyAll(means, m, ids, host, path, shape);
            r.shape.Ok? ==> r.entries == m && HasSame(shape.headers, r.shape.value.headers, key)
  {
    if ids != [] && ApplyAll(means, m, ids, host, path, shape).shape.Ok? {
      var init, id := ids[..|ids| - 1], ids[|ids| - 1];
      OtherHeadersStay(means, m, init, host, path, shape, key);
      assert id in ids;
      var s := Meant(means.env, m, id).value;
      OtherHeadersStayOnce(means, id, s, RuleFor(means.env.lib, s, host, path).value,
                           ApplyAll(means, m, init, host, path, shape).shape.value, key);
    }
  }

  lemma OtherHeadersStayOnce(means: Means, id: string, s: Service, rule: HostRule, shape: Shape, key: string)
    requires ApplyOne(means, id, s, rule, shape).Ok? && !MaySet(means, s, key)
    ensures HasSame(shape.headers, ApplyOne(means, id, s, rule, shape).value.headers, key)
  {
    var (fields, token) := FieldsAndToken(means, id, s, rule).value;
    var auth := (if Authorizes(s, rule) then AuthHeader(means, rule.authMethod, token) else Ok(None)).value;
    var headers := if auth.Some? then shape.headers[Authorization(means) := [auth.value]] else shape.headers;
    SetAllMeans(means, CredentialOf(id, s), means.canonical, s.injection.headers, fields, headers, key);
  }

  /** No service after number `k` may set this header. */
  ghost predicate SetsHeaderLast(means: Means, m: Entries, ids: seq<string>, k: nat, key: string) {
    && k < |ids| && (forall id :: id in ids ==> Meant(means.env, m, id).Some?)
    && forall j :: k < j < |ids| ==> !MaySet(means, Meant(means.env, m, ids[j]).value, key)
  }

  /**
   The services are applied in turn, so that the last one that may set a header decides it: by its
   last template for it, or, for the authorization header, by its token.
   */
  lemma {:induction false} LastServiceDecidesHeader(means: Means, m: Entries, ids: seq<string>, host: string,
                                                    path: string, shape: Shape, k: nat, key: string)
    requires ApplyAll(means, m, ids, host, path, shape).shape.Ok? && SetsHeaderLast(means, m, ids, k, key)
    ensures var (headers, s) :=
              (ApplyAll(means, m, ids, host, path, shape).shape.value.headers, Meant(means.env, m, ids[k]).value);
            var rule := RuleFor(means.env.lib, s, host, path);
            && rule.Some?
            && (forall i: nat :: LastFor(means.canonical, s.injection.headers, key, i) ==>
                  key in headers && |headers[key]| == 1
                  && Some(headers[key][0]) == RenderedWith(means, ids[k], s, s.injection.headers[i].value))
            && (key == means.canonical("Authorization")
                && LastTemplate(means.canonical, s.injection.headers, key).None?
                && rule.value.authMethod !in ["none", ""] && (s.oauth.Some? || s.inputs != []) ==>
                  key in headers && |headers[key]| == 1
                  && IsAuthorization(means, rule.value.authMethod, TokenOf(means, ids[k], s), headers[key][0]))
  {
    var init, id := ids[..|ids| - 1], ids[|ids| - 1];
    var before := ApplyAll(means, m, init, host, path, shape);
    MeantKeepEntries(means, m, init, host, path, shape);
    assert id in ids;
    var s := Meant(means.env, m, id).value;
    var rule := RuleFor(means.env.lib, s, host, path).value;
    if k == |ids| - 1 {
      HeaderIsSet(means, id, s, rule, before.shape.value, key);
      TokenIsInjected(means, id, s, rule, before.shape.value);
    } else {
      assert SetsHeaderLast(means, m, init, k, key);
      LastServiceDecidesHeader(means, m, init, host, path, shape, k, key);
      OtherHeadersStayOnce(means, id, s, rule, before.shape.value, key);
    }
  }

  lemma {:induction false} MeantKeepEntries(means: Means, m: Entries, ids: seq<string>, host: string, path: string,
                                            shape: Shape)
    requires forall id :: id in ids ==> Meant(means.env, m, id).Some?
    ensures ApplyAll(means, m, ids, host, path, shape).entries == m
  {
    if ids != [] {
      assert ids[|ids| - 1] in ids;
      MeantKeepEntries(means, m, ids[..|ids| - 1], host, path, shape);
    }
  }

  ghost predicate NamesQuery(s: Service, key: string) {
    exists i :: 0 <= i < |s.injection.query| && s.injection.query[i].name == key
  }

  lemma OtherQueryStaysOnce(means: Means, id: string, s: Service, rule: HostRule, shape: Shape, key: string)
    requires ApplyOne(means, id, s, rule, shape).Ok? && !NamesQuery(s, key)
    ensures HasSame(shape.query, ApplyOne(means, id, s, rule, shape).value.query, key)
  {
    QueryIsSet(means, id, s, rule, shape, key);
  }

  lemma QueryIsSetOnce(means: Means, id: string, s: Service, rule: HostRule, shape: Shape, i: nat, key: string)
    requires ApplyOne(means, id, s, rule, shape).Ok? && LastFor(AsIs, s.injection.query, key, i)
    ensures var query := ApplyOne(means, id, s, rule, shape).value.query;
            && key in query && |query[key]| == 1
            && Some(query[key][0]) == RenderedWith(means, id, s, s.injection.query[i].value)
  {
    QueryIsSet(means, id, s, rule, shape, key);
    var templates := s.injection.query;
    assert templates[i].name == key;
    assert forall j :: i < j < |templates| ==> AsIs(templates[j].name) != key;
  }

  /** A query name that no service has a template for keeps its values. */
  lemma {:induction false} OtherQueriesStay(means: Means, m: Entries, ids: seq<string>, host: string, path: string,
                                            shape: Shape, key: string)
    requires forall id :: id in ids ==>
               Meant(means.env, m, id).Some? && !NamesQuery(Meant(means.env, m, id).value, key)
    ensures var r := ApplyAll(means, m, ids, host, path, shape);
            r.shape.Ok? ==> r.entries == m && HasSame(shape.query, r.shape.value.query, key)
  {
    if ids != [] && ApplyAll(means, m, ids, host, path, shape).shape.Ok? {
      var init, id := ids[..|ids| - 1], ids[|ids| - 1];
      OtherQueriesStay(means, m, init, host, path, shape, key);
      assert id in ids;
      var s := Meant(means.env, m, id).value;
      OtherQueryStaysOnce(means, id, s, RuleFor(means.env.lib, s, host, path).value,
                          ApplyAll(means, m, init, host, path, shape).shape.value, key);
    }
  }

  /** No service after number `k` has a template for this query name. */
  ghost predicate SetsQueryLast(means: Means, m: Entries, ids: seq<string>, k: nat, key: string) {
    && k < |ids| && (forall id :: id in ids ==> Meant(means.env, m, id).Some?)
    && forall j :: k < j < |ids| ==> !NamesQuery(Meant(means.env, m, ids[j]).value, key)
  }

  /** The last service with a template for a query name decides it, by its last one. */
  lemma {:induction false} LastServiceDecidesQuery(means: Means, m: Entries, ids: seq<string>, host: string,
                                                   path: string, shape: Shape, k: nat, i: nat, key: string)
    requires ApplyAll(means, m, ids, host, path, shape).shape.Ok? && SetsQueryLast(means, m, ids, k, key)
    requires LastFor(AsIs, Meant(means.env, m, ids[k]).value.injection.query, key, i)
    ensures var (query, s) :=
              (ApplyAll(means, m, ids, host, path, shape).shape.value.query, Meant(means.env, m, ids[k]).value);
            && key in query && |query[key]| == 1
            && Some(query[key][0]) == RenderedWith(means, ids[k], s, s.injection.query[i].value)
  {
    var init, id := ids[..|ids| - 1], ids[|ids| - 1];
    var before := ApplyAll(means, m, init, host, path, shape);
    MeantKeepEntries(means, m, init, host, path, shape);
    assert id in ids;
    var s := Meant(means.env, m, id).value;
    var rule := RuleFor(means.env.lib, s, host, path).value;
    if k == |ids| - 1 {
      QueryIsSetOnce(means, id, s, rule, before.shape.value, i, key);
    } else {
      assert SetsQueryLast(means, m, init, k, key);
      LastServiceDecidesQuery(means, m, init, host, path, shape, k, i, key);
      OtherQueryStaysOnce(means, id, s, rule, before.shape.value, key);
    }
  }

  // ---------- In place ----------

  /** The parts of a request that services look at or change. */
  class Request {
    var host: string
    var path: string
    var headers: Values
    var query: Values

    constructor (host: string, path: string, headers: Values, query: Values)
      ensures this.host == host && this.path == path && this.headers == headers && this.query == query
    {
      this.host, this.path, this.headers, this.query := host, path, headers, query;
    }
  }

  function ShapeOf(r: Request): Shape
    reads r
  {
    Shape(r.headers, r.query)
  }

  method FindService(means: Means, store: SecretStore, id: string) returns (found: Result<Service, ApplyError>)
    modifies store
    ensures || found == Err(LookupFailed(id, StoreFailed))
            || (found, store.entries) == ServiceByID(means, old(store.entries), id)
  {
    if id in means.env.configured {
      return Ok(means.env.configured[id]);
    }
    var stored := GetStored(means.env.validUrl, store, id);
    match stored {
      case Err(e) => return Err(LookupFailed(id, e));
      case Ok(Some(s)) => return Ok(s);
      case Ok(None) =>
    }
    if !means.canFetchOne {
      return Err(NotFound(id));
    }
    var fetched := means.fetchOne(id);
    if fetched.Err? {
      return Err(LookupFailed(id, fetched.error));
    }
    var error := PutStoredService(means.env.validUrl, store, id, fetched.value);
    found := if error.Some? then Err(LookupFailed(id, error.value)) else Ok(fetched.value);
  }

  method SetHeaders(means: Means, credential: string, templates: seq<Template>, fields: map<string, string>, r: Request)
    returns (rendered: bool)
    modifies r`headers
    ensures var after := SetAll(means, credential, means.canonical, templates, fields, old(r.headers));
            if rendered then after == Some(r.headers) else after == None
  {
    ghost var was := r.headers;
    for k := 0 to |templates|
      invariant SetAll(means, credential, means.canonical, templates[..k], fields, was) == Some(r.headers)
    {
      assert templates[..k + 1][..k] == templates[..k];
      var value := means.render(credential, templates[k].value, fields);
      if value.None? {
        SetAllStops(means, credential, means.canonical, templates, fields, was, k + 1);
        return false;
      }
      r.headers := r.headers[means.canonical(templates[k].name) := [value.value]];
    }
    assert templates[..|templates|] == templates;
    rendered := true;
  }

  /** The query is read once, changed, and written back when all its templates are rendered. */
  method SetQuery(means: Means, credential: string, templates: seq<Template>, fields: map<string, string>, r: Request)
    returns (rendered: bool)
    modifies r`query
    ensures var after := SetAll(means, credential, AsIs, templates, fields, old(r.query));
            if rendered then after == Some(r.query) else after == None && r.query == old(r.query)
  {
    var query := r.query;
    for k := 0 to |templates|
      invariant SetAll(means, credential, AsIs, templates[..k], fields, r.query) == Some(query)
    {
      assert templates[..k + 1][..k] == templates[..k];
      var value := means.render(credential, templates[k].value, fields);
      if value.None? {
        SetAllStops(means, credential, AsIs, templates, fields, r.query, k + 1);
        return false;
      }
      query := query[templates[k].name := [value.value]];
    }
    assert templates[..|templates|] == templates;
    r.query := query;
    rendered := true;
  }

  lemma {:induction false} SetAllStops(means: Means, credential: string, keyOf: string -> string,
                                       templates: seq<Template>,
                                       fields: map<string, string>, values: Values, n: nat)
    requires n <= |templates| && SetAll(means, credential, keyOf, templates[..n], fields, values).None?
    ensures SetAll(means, credential, keyOf, templates, fields, values).None?
    decreases |templates|
  {
    if n == |templates| {
      assert templates[..n] == templates;
    } else {
      assert templates[..|templates| - 1][..n] == templates[..n];
      SetAllStops(means, credential, keyOf, templates[..|templates| - 1], fields, values, n);
    }
  }

  method ApplyService(means: Means, id: string, s: Service, rule: HostRule, r: Request)
    returns (error: Option<ApplyError>)
    modifies r`headers, r`query
    ensures ApplyOne(means, id, s, rule, old(ShapeOf(r))) == if error.None? then Ok(ShapeOf(r)) else Err(error.value)
  {
    var got := FieldsAndToken(means, id, s, rule);
    if got.None? {
      return Some(TokenFailed(id));
    }
    var (fields, token) := got.value;
    if Authorizes(s, rule) {
      var auth := AuthHeader(means, rule.authMethod, token);
      if auth.Err? {
        return Some(AuthFailed(id));
      }
      if auth.value.Some? {
        r.headers := r.headers[means.canonical("Authorization") := [auth.value.value]];
      }
    }
    var rendered := SetHeaders(means, CredentialOf(id, s), s.injection.headers, fields, r);
    if rendered {
      rendered := SetQuery(means, CredentialOf(id, s), s.injection.query, fields, r);
    }
    error := if rendered then None else Some(RenderFailed(id));
  }

  /** The services are applied in turn; the host and path that each is checked against stay what they were. */
  method ApplyServices(means: Means, store: SecretStore, r: Request, ids: seq<string>)
    returns (error: Option<ApplyError>)
    modifies store, r`headers, r`query
    ensures (error.Some? && error.value.LookupFailed? && error.value.reason == StoreFailed) ||
            Applied(if error.None? then Ok(ShapeOf(r)) else Err(error.value), store.entries)
              == ApplyAll(means, old(store.entries), ids, r.host, r.path, old(ShapeOf(r)))
  {
    ghost var m, shape := store.entries, ShapeOf(r);
    for k := 0 to |ids|
      invariant ApplyAll(means, m, ids[..k], r.host, r.path, shape) == Applied(Ok(ShapeOf(r)), store.entries)
    {
      assert ids[..k + 1][..k] == ids[..k];
      var found := FindService(means, store, ids[k]);
      if found == Err(LookupFailed(ids[k], StoreFailed)) {
        return Some(found.error);
      }
      if found.Err? {
        ApplyAllStops(means, m, ids, r.host, r.path, shape, k + 1);
        return Some(found.error);
      }
      var rule := RuleFor(means.env.lib, found.value, r.host, r.path);
      if rule.None? {
        ApplyAllStops(means, m, ids, r.host, r.path, shape, k + 1);
        return Some(NoRule(ids[k]));
      }
      error := ApplyService(means, ids[k], found.value, rule.value, r);
      if error.Some? {
        ApplyAllStops(means, m, ids, r.host, r.path, shape, k + 1);
        return;
      }
    }
    assert ids[..|ids|] == ids;
    error := None;
  }

  lemma {:induction false} ApplyAllStops(means: Means, m: Entries, ids: seq<string>, host: string, path: string,
                                         shape: Shape, n: nat)
    requires n <= |ids| && ApplyAll(means, m, ids[..n], host, path, shape).shape.Err?
    ensures ApplyAll(means, m, ids, host, path, shape) == ApplyAll(means, m, ids[..n], host, path, shape)
    decreases |ids|
  {
    if n == |ids| {
      assert ids[..n] == ids;
    } else {
      assert ids[..|ids| - 1][..n] == ids[..n];
      ApplyAllStops(means, m, ids[..|ids| - 1], host, path, shape, n);
    }
  }
}

/**
 Descriptions of services: which hosts they answer to, the defaults that are filled in, the checks
 of a description from the configuration and of one from elsewhere, and what clients may see.
 Normalizing works on the caller's own list of hosts and OAuth record.
 */
module Services {
  import opened Wrappers

  datatype HostRule = HostRule(
    host: string, hostSuffix: string, pathPrefix: string, authMethod: string, credentialHostField: string)

  datatype Input = Input(id: string, name: string, description: string, kind: string, required: bool, secretKey: string)

  datatype ScopeParam = ScopeParam(name: Option<string>, separator: string)

  datatype TokenRequest = TokenRequest(
    bodyFormat: string, clientAuth: string, codeGrantType: Option<string>, refreshGrantType: Option<string>,
    refreshTokenURL: string, successField: string)

  datatype OAuth = OAuth(
    credentialId: string, clientId: string, clientIdSecretRef: string, clientSecret: string, clientSecretRef: string,
    authURL: string, tokenURL: string, revokeURL: string, redirectURL: string,
    scopeParam: ScopeParam, authorizationParams: map<string, string>, tokenRequest: TokenRequest)

  datatype Template = Template(name: string, value: string)

  datatype Injection = Injection(headers: seq<Template>, query: seq<Template>)

  datatype Service = Service(
    name: string, iconURL: string, description: string, released: Option<bool>,
    hosts: seq<HostRule>, inputs: seq<Input>, oauth: Option<OAuth>, injection: Injection)

  datatype ServiceError =
    | IdRequired
    | IdInvalid
    | HostsRequired
    | HostOrSuffix(index: nat)
    | AuthMethodUnsupported(index: nat)
    | UrlRequired(field: string)
    | UrlInvalid(field: string)
    | ClientRequired
    | BodyFormatUnsupported
    | ClientAuthUnsupported
    | TemplateIncomplete(field: string, index: nat)
    | InputsWithOAuth
    | InputBad(index: nat)
    | AuthMethodNeedsInput(index: nat)

  // ---------- Defaults ----------

  function DefaultHost(h: HostRule, hasOAuth: bool): HostRule {
    if h.authMethod == "" then h.(authMethod := if hasOAuth then "bearer" else "none") else h
  }

  function DefaultHosts(hosts: seq<HostRule>, hasOAuth: bool): (r: seq<HostRule>)
    ensures |r| == |hosts| && forall i :: 0 <= i < |hosts| ==> r[i] == DefaultHost(hosts[i], hasOAuth)
  {
    seq(|hosts|, i requires 0 <= i < |hosts| => DefaultHost(hosts[i], hasOAuth))
  }

  function Or(value: string, fallback: string): string {
    if value == "" then fallback else value
  }

  function DefaultTokenRequest(t: TokenRequest): TokenRequest {
    t.(bodyFormat := Or(t.bodyFormat, "form"), clientAuth := Or(t.clientAuth, "body"))
  }

  function DefaultOAuth(id: string, o: OAuth): OAuth {
    o.(credentialId := Or(o.credentialId, id),
       scopeParam := o.scopeParam.(separator := Or(o.scopeParam.separator, " ")),
       tokenRequest := DefaultTokenRequest(o.tokenRequest))
  }

  function Default(id: string, s: Service): Service {
    s.(hosts := DefaultHosts(s.hosts, s.oauth.Some?),
       oauth := match s.oauth case None => None case Some(o) => Some(DefaultOAuth(id, o)))
  }

  // ---------- Checks ----------

  predicate OneOfHostAndSuffix(h: HostRule) {
    (h.host == "") != (h.hostSuffix == "")
  }

  predicate SupportedAuthMethod(authMethod: string) {
    authMethod in ["bearer", "basic-x-access-token", "basic", "none"]
  }

  function HostError(h: HostRule, i: nat): Option<ServiceError> {
    if !OneOfHostAndSuffix(h) then Some(HostOrSuffix(i))
    else if !SupportedAuthMethod(h.authMethod) then Some(AuthMethodUnsupported(i))
    else None
  }

  function HostsError(hosts: seq<HostRule>): Option<ServiceError> {
    if hosts == [] then None
    else match HostsError(hosts[..|hosts| - 1])
      case Some(e) => Some(e)
      case None => HostError(hosts[|hosts| - 1], |hosts| - 1)
  }

  function UrlError(validUrl: string -> bool, field: string, url: string): Option<ServiceError> {
    if url != "" && !validUrl(url) then Some(UrlInvalid(field)) else None
  }

  function FirstOf(a: Option<ServiceError>, b: Option<ServiceError>): Option<ServiceError> {
    if a.Some? then a else b
  }

  function UrlsError(validUrl: string -> bool, o: OAuth): Option<ServiceError> {
    FirstOf(UrlError(validUrl, "authUrl", o.authURL),
            FirstOf(UrlError(validUrl, "tokenUrl", o.tokenURL), UrlError(validUrl, "revokeUrl", o.revokeURL)))
  }

  function TokenRequestError(t: TokenRequest): Option<ServiceError> {
    if t.bodyFormat !in ["form", "json"] then Some(BodyFormatUnsupported)
    else if t.clientAuth !in ["body", "basic"] then Some(ClientAuthUnsupported)
    else None
  }

  function TemplatesError(field: string, templates: seq<Template>): Option<ServiceError> {
    if templates == [] then None
    else match TemplatesError(field, templates[..|templates| - 1])
      case Some(e) => Some(e)
      case None =>
        var last := templates[|templates| - 1];
        if last.name == "" || last.value == "" then Some(TemplateIncomplete(field, |templates| - 1)) else None
  }

  function InjectionError(injection: Injection): Option<ServiceError> {
    FirstOf(TemplatesError("headers", injection.headers), TemplatesError("query", injection.query))
  }

  /** An input needs an identifier and a secret key, neither of which an earlier input has. */
  predicate InputBadAfter(earlier: seq<Input>, x: Input) {
    || x.id == "" || (exists k :: 0 <= k < |earlier| && earlier[k].id == x.id)
    || x.kind != "secret"
    || x.secretKey == "" || (exists k :: 0 <= k < |earlier| && earlier[k].secretKey == x.secretKey)
  }

  function InputsListError(inputs: seq<Input>): Option<ServiceError> {
    if inputs == [] then None
    else match InputsListError(inputs[..|inputs| - 1])
      case Some(e) => Some(e)
      case None =>
        if InputBadAfter(inputs[..|inputs| - 1], inputs[|inputs| - 1]) then Some(InputBad(|inputs| - 1)) else None
  }

  function AuthNeedsInput(hosts: seq<HostRule>, hasToken: bool): Option<ServiceError> {
    if hosts == [] then None
    else match AuthNeedsInput(hosts[..|hosts| - 1], hasToken)
      case Some(e) => Some(e)
      case None =>
        if hosts[|hosts| - 1].authMethod != "none" && !hasToken then Some(AuthMethodNeedsInput(|hosts| - 1)) else None
  }

  predicate HasTokenInput(inputs: seq<Input>) {
    exists i :: 0 <= i < |inputs| && inputs[i].kind == "secret" && inputs[i].secretKey == "access_token"
  }

  function InputsError(s: Service): Option<ServiceError> {
    if s.inputs == [] then None
    else if s.oauth.Some? then Some(InputsWithOAuth)
    else FirstOf(InputsListError(s.inputs), AuthNeedsInput(s.hosts, HasTokenInput(s.inputs)))
  }

  function OAuthError(validUrl: string -> bool, o: OAuth): Option<ServiceError> {
    FirstOf(UrlsError(validUrl, o), TokenRequestError(o.tokenRequest))
  }

  /** The checks of Normalize, in its order, on a description with its defaults filled in. */
  function Check(validUrl: string -> bool, id: string, s: Service): Option<ServiceError> {
    if id == "" then Some(IdRequired)
    else if s.hosts == [] then Some(HostsRequired)
    else
      FirstOf(HostsError(s.hosts),
              FirstOf(if s.oauth.Some? then OAuthError(validUrl, s.oauth.value) else None,
                      FirstOf(InjectionError(s.injection), InputsError(s))))
  }

  function Normalize(validUrl: string -> bool, id: string, s: Service): Result<Service, ServiceError> {
    match Check(validUrl, id, Default(id, s))
    case Some(e) => Err(e)
    case None => Ok(Default(id, s))
  }

  predicate ValidServiceId(id: string) {
    forall c :: c in id ==> 'a' <= c <= 'z' || '0' <= c <= '9' || c == '-' || c == '_' || c == '.'
  }

  function ConfiguredOAuthError(o: OAuth): Option<ServiceError> {
    if o.authURL == "" then Some(UrlRequired("authUrl"))
    else if o.tokenURL == "" then Some(UrlRequired("tokenUrl"))
    else if (o.clientId == "" && o.clientIdSecretRef == "") || (o.clientSecret == "" && o.clientSecretRef == "") then
      Some(ClientRequired)
    else TokenRequestError(o.tokenRequest)
  }

  /** The checks of one configured service: stricter on OAuth, but not on the form of its URLs. */
  function CheckConfigured(id: string, s: Service): Option<ServiceError> {
    if id == "" then Some(IdRequired)
    else if !ValidServiceId(id) then Some(IdInvalid)
    else if s.hosts == [] then Some(HostsRequired)
    else
      FirstOf(HostsError(s.hosts),
              FirstOf(if s.oauth.Some? then ConfiguredOAuthError(s.oauth.value) else None,
                      FirstOf(InputsError(s), InjectionError(s.injection))))
  }

  function Validate(id: string, s: Service): Result<Service, ServiceError> {
    match CheckConfigured(id, Default(id, s))
    case Some(e) => Err(e)
    case None => Ok(Default(id, s))
  }

  function SanitizeForClient(s: Service): Service {
    match s.oauth
    case None => s
    case Some(o) =>
      s.(oauth := Some(o.(clientId := "", clientIdSecretRef := "", clientSecret := "", clientSecretRef := "")))
  }

  // ---------- Laws ----------

  lemma DefaultTwice(id: string, s: Service)
    ensures Default(id, Default(id, s)) == Default(id, s)
  {
    assert DefaultHosts(Default(id, s).hosts, s.oauth.Some?) == Default(id, s).hosts;
  }

  lemma SanitizeCommutes(validUrl: string -> bool, id: string, s: Service)
    ensures Default(id, SanitizeForClient(s)) == SanitizeForClient(Default(id, s))
    ensures Check(validUrl, id, SanitizeForClient(s)) == Check(validUrl, id, s)
  {
  }

  /** The same but for the client's identifier and secret, and for where they are kept. */
  predicate SameButClient(s: Service, t: Service) {
    && s.name == t.name && s.iconURL == t.iconURL && s.description == t.description && s.released == t.released
    && s.hosts == t.hosts && s.inputs == t.inputs && s.injection == t.injection
    && (s.oauth.Some? <==> t.oauth.Some?)
    && (s.oauth.Some? ==>
          var (o, p) := (s.oauth.value, t.oauth.value);
          && o.credentialId == p.credentialId && o.authURL == p.authURL && o.tokenURL == p.tokenURL
          && o.revokeURL == p.revokeURL && o.redirectURL == p.redirectURL && o.scopeParam == p.scopeParam
          && o.authorizationParams == p.authorizationParams && o.tokenRequest == p.tokenRequest)
  }

  /** What clients see tells all there is to a description but its client, and nothing of that. */
  lemma SanitizedHidesTheClient(s: Service, t: Service)
    ensures SanitizeForClient(s) == SanitizeForClient(t) <==> SameButClient(s, t)
    ensures SameButClient(s, SanitizeForClient(s)) && SanitizeForClient(SanitizeForClient(s)) == SanitizeForClient(s)
    ensures SanitizeForClient(s).oauth.Some? ==>
              var o := SanitizeForClient(s).oauth.value;
              o.clientId == o.clientIdSecretRef == o.clientSecret == o.clientSecretRef == ""
  {
  }

  /** A normalized description normalizes to itself, and so does what clients see of it. */
  lemma NormalizedIsFixed(validUrl: string -> bool, id: string, s: Service)
    ensures var r := Normalize(validUrl, id, s);
            r.Ok? ==>
              && Normalize(validUrl, id, r.value) == Ok(r.value)
              && Normalize(validUrl, id, SanitizeForClient(r.value)) == Ok(SanitizeForClient(r.value))
  {
    DefaultTwice(id, s);
    SanitizeCommutes(validUrl, id, Default(id, s));
  }

  /**
   Validation leaves nothing for Normalize to fill in: it returns a validated description as it
   is, or refuses it, and refuses it exactly for a malformed URL.
   */
  lemma ValidatedNormalizes(validUrl: string -> bool, id: string, s: Service)
    requires Validate(id, s).Ok?
    ensures var v := Validate(id, s).value;
            && Default(id, v) == v
            && Normalize(validUrl, id, v) ==
                 if v.oauth.Some? && UrlsError(validUrl, v.oauth.value).Some?
                 then Err(UrlsError(validUrl, v.oauth.value).value) else Ok(v)
  {
    DefaultTwice(id, s);
  }

  /** Each host of a validated or normalized description has exactly one of host and suffix, and a known method. */
  lemma {:induction false} HostsErrorMeans(hosts: seq<HostRule>)
    ensures HostsError(hosts).None? <==>
              forall i :: 0 <= i < |hosts| ==> OneOfHostAndSuffix(hosts[i]) && SupportedAuthMethod(hosts[i].authMethod)
  {
    if hosts != [] {
      var init := hosts[..|hosts| - 1];
      HostsErrorMeans(init);
      assert hosts == init + [hosts[|hosts| - 1]];
    }
  }

  // ---------- What is accepted, and what it becomes ----------

  predicate CompleteTemplates(templates: seq<Template>) {
    forall i :: 0 <= i < |templates| ==> templates[i].name != "" && templates[i].value != ""
  }

  lemma {:induction false} TemplatesErrorMeans(field: string, templates: seq<Template>)
    ensures TemplatesError(field, templates).None? <==> CompleteTemplates(templates)
  {
    if templates != [] {
      var init, n := templates[..|templates| - 1], |templates| - 1;
      TemplatesErrorMeans(field, init);
      assert forall i :: 0 <= i < n ==> init[i] == templates[i];
    }
  }

  /** Inputs are secrets, each with an identifier and a secret key of its own. */
  ghost predicate InputsOk(inputs: seq<Input>) {
    && (forall i :: 0 <= i < |inputs| ==> inputs[i].id != "" && inputs[i].kind == "secret" && inputs[i].secretKey != "")
    && (forall i, j :: 0 <= i < j < |inputs| ==>
          inputs[i].id != inputs[j].id && inputs[i].secretKey != inputs[j].secretKey)
  }

  lemma {:induction false} InputsListErrorMeans(inputs: seq<Input>)
    ensures InputsListError(inputs).None? <==> InputsOk(inputs)
  {
    if inputs != [] {
      var init, n := inputs[..|inputs| - 1], |inputs| - 1;
      InputsListErrorMeans(init);
      assert forall i :: 0 <= i < n ==> init[i] == inputs[i];
    }
  }

  lemma {:induction false} AuthNeedsInputMeans(hosts: seq<HostRule>, hasToken: bool)
    ensures AuthNeedsInput(hosts, hasToken).None? <==>
              hasToken || forall i :: 0 <= i < |hosts| ==> hosts[i].authMethod == "none"
  {
    if hosts != [] {
      var init, n := hosts[..|hosts| - 1], |hosts| - 1;
      AuthNeedsInputMeans(init, hasToken);
      assert forall i :: 0 <= i < n ==> init[i] == hosts[i];
    }
  }

  /** One of host and suffix, and no method or a known one. */
  predicate HostOk(h: HostRule) {
    && (h.host == "" <==> h.hostSuffix != "")
    && h.authMethod in ["", "bearer", "basic-x-access-token", "basic", "none"]
  }

  predicate TokenRequestOk(t: TokenRequest) {
    t.bodyFormat in ["", "form", "json"] && t.clientAuth in ["", "body", "basic"]
  }

  /** A host rule without a method means none, unless the service has OAuth. */
  predicate NeedsToken(s: Service, h: HostRule) {
    h.authMethod != "none" && (h.authMethod != "" || s.oauth.Some?)
  }

  /** Inputs go without OAuth, and one of them is the access token if a host needs one. */
  ghost predicate InputsFit(s: Service) {
    s.inputs != [] ==>
      && s.oauth.None? && InputsOk(s.inputs)
      && ((exists i :: 0 <= i < |s.inputs| && s.inputs[i].secretKey == "access_token")
          || forall i :: 0 <= i < |s.hosts| ==> !NeedsToken(s, s.hosts[i]))
  }

  /** What both checks ask of a description, its hosts, templates and inputs. */
  ghost predicate BasicsOk(s: Service) {
    && s.hosts != [] && (forall i :: 0 <= i < |s.hosts| ==> HostOk(s.hosts[i]))
    && CompleteTemplates(s.injection.headers) && CompleteTemplates(s.injection.query) && InputsFit(s)
  }

  lemma HostsMean(id: string, s: Service)
    ensures HostsError(Default(id, s).hosts).None? <==> forall i :: 0 <= i < |s.hosts| ==> HostOk(s.hosts[i])
  {
    var hosts := Default(id, s).hosts;
    HostsErrorMeans(hosts);
    forall i | 0 <= i < |s.hosts|
      ensures OneOfHostAndSuffix(hosts[i]) && SupportedAuthMethod(hosts[i].authMethod) <==> HostOk(s.hosts[i])
    {
      assert hosts[i] == DefaultHost(s.hosts[i], s.oauth.Some?);
    }
  }

  lemma InputsMean(id: string, s: Service)
    ensures InputsError(Default(id, s)).None? <==> InputsFit(s)
  {
    var hosts := Default(id, s).hosts;
    InputsListErrorMeans(s.inputs);
    AuthNeedsInputMeans(hosts, HasTokenInput(s.inputs));
    forall i | 0 <= i < |s.hosts| ensures hosts[i].authMethod == "none" <==> !NeedsToken(s, s.hosts[i]) {
      assert hosts[i] == DefaultHost(s.hosts[i], s.oauth.Some?);
    }
  }

  lemma BasicsMean(id: string, s: Service)
    ensures var d := Default(id, s);
            d.hosts != [] && HostsError(d.hosts).None? && InjectionError(d.injection).None? && InputsError(d).None?
            <==> BasicsOk(s)
  {
    HostsMean(id, s);
    InputsMean(id, s);
    TemplatesErrorMeans("headers", s.injection.headers);
    TemplatesErrorMeans("query", s.injection.query);
  }

  predicate UrlOk(validUrl: string -> bool, url: string) {
    url != "" ==> validUrl(url)
  }

  /** One from elsewhere is accepted exactly when it has a name, its parts are in order, and its URLs well formed. */
  lemma NormalizesExactlyWhen(validUrl: string -> bool, id: string, s: Service)
    ensures Normalize(validUrl, id, s).Ok? <==>
              && id != "" && BasicsOk(s)
              && (s.oauth.Some? ==>
                    var o := s.oauth.value;
                    && UrlOk(validUrl, o.authURL) && UrlOk(validUrl, o.tokenURL) && UrlOk(validUrl, o.revokeURL)
                    && TokenRequestOk(o.tokenRequest))
  {
    BasicsMean(id, s);
  }

  /** A name of small letters, digits, hyphens, underscores and dots. */
  predicate PlainName(id: string) {
    forall c :: c in id ==> c in "abcdefghijklm" || c in "nopqrstuvwxyz" || c in "0123456789" || c in "-_."
  }

  lemma PlainCharacter(c: char)
    ensures c in "abcdefghijklm" <==> 'a' <= c <= 'm'
    ensures c in "nopqrstuvwxyz" <==> 'n' <= c <= 'z'
    ensures c in "0123456789" <==> '0' <= c <= '9'
  {
    FirstLetter(c);
    LaterLetter(c);
    assert '0' <= c <= '9' ==> "0123456789"[c as int - '0' as int] == c;
  }

  lemma FirstLetter(c: char)
    ensures c in "abcdefghijklm" <==> 'a' <= c <= 'm'
  {
    assert 'a' <= c <= 'm' ==> "abcdefghijklm"[c as int - 'a' as int] == c;
  }

  lemma LaterLetter(c: char)
    ensures c in "nopqrstuvwxyz" <==> 'n' <= c <= 'z'
  {
    assert 'n' <= c <= 'z' ==> "nopqrstuvwxyz"[c as int - 'n' as int] == c;
  }

  lemma PlainNameMeans(id: string)
    ensures ValidServiceId(id) <==> PlainName(id)
  {
    forall c | c in id
      ensures c in "abcdefghijklm" || c in "nopqrstuvwxyz" || c in "0123456789" || c in "-_."
              <==> 'a' <= c <= 'z' || '0' <= c <= '9' || c == '-' || c == '_' || c == '.'
    {
      PlainCharacter(c);
    }
  }

  /** One from the configuration also needs a plain name, both OAuth URLs, and a client with a secret. */
  lemma ValidatesExactlyWhen(id: string, s: Service)
    ensures Validate(id, s).Ok? <==>
              && id != "" && PlainName(id) && BasicsOk(s)
              && (s.oauth.Some? ==>
                    var o := s.oauth.value;
                    && o.authURL != "" && o.tokenURL != "" && TokenRequestOk(o.tokenRequest)
                    && (o.clientId != "" || o.clientIdSecretRef != "")
                    && (o.clientSecret != "" || o.clientSecretRef != ""))
  {
    BasicsMean(id, s);
    PlainNameMeans(id);
  }

  /** The value itself, or what stands for an empty one. */
  predicate Given(value: string, fallback: string, result: string) {
    if value != "" then result == value else result == fallback
  }

  /**
   What an accepted description becomes: hosts without a method get bearer under OAuth and none
   otherwise; an OAuth record without them gets the service's name as credential, a blank as
   separator, form bodies and the client in the body; all else stays.
   */
  lemma NormalizedMeans(validUrl: string -> bool, id: string, s: Service)
    requires Normalize(validUrl, id, s).Ok?
    ensures var n := Normalize(validUrl, id, s).value;
            && n == s.(hosts := n.hosts, oauth := n.oauth) && |n.hosts| == |s.hosts|
            && (forall i :: 0 <= i < |s.hosts| ==>
                  && n.hosts[i] == s.hosts[i].(authMethod := n.hosts[i].authMethod)
                  && Given(s.hosts[i].authMethod, if s.oauth.Some? then "bearer" else "none", n.hosts[i].authMethod))
            && (s.oauth.Some? <==> n.oauth.Some?)
            && (s.oauth.Some? ==>
                  var (o, p) := (s.oauth.value, n.oauth.value);
                  && p == o.(credentialId := p.credentialId, scopeParam := p.scopeParam, tokenRequest := p.tokenRequest)
                  && Given(o.credentialId, id, p.credentialId)
                  && p.scopeParam == o.scopeParam.(separator := p.scopeParam.separator)
                  && Given(o.scopeParam.separator, " ", p.scopeParam.separator)
                  && p.tokenRequest == o.tokenRequest.(bodyFormat := p.tokenRequest.bodyFormat,
                                                       clientAuth := p.tokenRequest.clientAuth)
                  && Given(o.tokenRequest.bodyFormat, "form", p.tokenRequest.bodyFormat)
                  && Given(o.tokenRequest.clientAuth, "body", p.tokenRequest.clientAuth))
  {
  }

  ghost predicate HostsOk(s: Service) {
    s.hosts != [] && forall h :: h in s.hosts ==> OneOfHostAndSuffix(h)
  }

  lemma AcceptedHostsOk(validUrl: string -> bool, id: string, s: Service)
    ensures Normalize(validUrl, id, s).Ok? ==> HostsOk(Normalize(validUrl, id, s).value)
    ensures Validate(id, s).Ok? ==> HostsOk(Validate(id, s).value)
  {
    HostsErrorMeans(Default(id, s).hosts);
  }

  // ---------- In place ----------

  /** The OAuth record a description points to. */
  class OAuthRecord {
    var config: OAuth

    constructor (o: OAuth)
      ensures config == o
    {
      config := o;
    }
  }

  /** A description as it is handed around: its hosts and OAuth record are shared with whoever else holds it. */
  datatype Handle = Handle(
    name: string, iconURL: string, description: string, released: Option<bool>,
    hosts: array<HostRule>, inputs: seq<Input>, oauth: OAuthRecord?, injection: Injection)

  function Look(h: Handle): Service
    reads h.hosts, h.oauth
  {
    Service(h.name, h.iconURL, h.description, h.released, h.hosts[..], h.inputs,
            if h.oauth == null then None else Some(h.oauth.config), h.injection)
  }

  /** `hosts` with the first `n` rules filled in. */
  ghost predicate FilledTo(hosts: seq<HostRule>, was: seq<HostRule>, hasOAuth: bool, n: nat) {
    && |hosts| == |was| && n <= |was|
    && forall j :: 0 <= j < |was| ==> hosts[j] == if j < n then DefaultHost(was[j], hasOAuth) else was[j]
  }

  lemma FilledPartly(hosts: seq<HostRule>, was: seq<HostRule>, hasOAuth: bool, n: nat)
    requires FilledTo(hosts, was, hasOAuth, n)
    ensures DefaultHosts(hosts, hasOAuth) == DefaultHosts(was, hasOAuth)
    ensures DefaultHosts(was, hasOAuth) == was ==> hosts == was
    ensures n == |was| ==> hosts == DefaultHosts(was, hasOAuth)
  {
    assert forall j :: 0 <= j < |was| ==> DefaultHosts(was, hasOAuth)[j] == DefaultHost(was[j], hasOAuth);
  }

  /** The verdict on the first `i + 1` rules, when the first `i` are in order. */
  lemma OneMoreHost(was: seq<HostRule>, hasOAuth: bool, i: nat)
    requires i < |was| && HostsError(DefaultHosts(was, hasOAuth)[..i]).None?
    ensures var filled := DefaultHosts(was, hasOAuth);
            && HostsError(filled[..i + 1]) == HostError(DefaultHost(was[i], hasOAuth), i)
            && (HostsError(filled[..i + 1]).Some? ==> HostsError(filled) == HostsError(filled[..i + 1]))
  {
    var filled := DefaultHosts(was, hasOAuth);
    assert filled[..i + 1][..i] == filled[..i];
    if HostsError(filled[..i + 1]).Some? {
      HostsErrorStays(filled, i + 1);
    }
  }

  /** One host at a time: the rule is checked, filled in, and checked again. */
  method NormalizeHosts(hosts: array<HostRule>, hasOAuth: bool) returns (failure: Option<ServiceError>)
    modifies hosts
    ensures failure == HostsError(DefaultHosts(old(hosts[..]), hasOAuth))
    ensures failure.None? ==> hosts[..] == DefaultHosts(old(hosts[..]), hasOAuth)
    ensures DefaultHosts(hosts[..], hasOAuth) == DefaultHosts(old(hosts[..]), hasOAuth)
    ensures DefaultHosts(old(hosts[..]), hasOAuth) == old(hosts[..]) ==> hosts[..] == old(hosts[..])
  {
    ghost var was := hosts[..];
    failure := None;
    for i := 0 to hosts.Length
      invariant FilledTo(hosts[..], was, hasOAuth, i)
      invariant HostsError(DefaultHosts(was, hasOAuth)[..i]).None?
    {
      OneMoreHost(was, hasOAuth, i);
      assert hosts[..][i] == was[i];
      if (hosts[i].host == "") == (hosts[i].hostSuffix == "") {
        FilledPartly(hosts[..], was, hasOAuth, i);
        failure := Some(HostOrSuffix(i));
        return;
      }
      if hosts[i].authMethod == "" {
        hosts[i] := hosts[i].(authMethod := if hasOAuth then "bearer" else "none");
      }
      assert FilledTo(hosts[..], was, hasOAuth, i + 1);
      if !SupportedAuthMethod(hosts[i].authMethod) {
        FilledPartly(hosts[..], was, hasOAuth, i + 1);
        failure := Some(AuthMethodUnsupported(i));
        return;
      }
    }
    FilledPartly(hosts[..], was, hasOAuth, hosts.Length);
    assert DefaultHosts(was, hasOAuth)[..|was|] == DefaultHosts(was, hasOAuth);
  }

  lemma {:induction false} HostsErrorStays(hosts: seq<HostRule>, n: nat)
    requires n <= |hosts| && HostsError(hosts[..n]).Some?
    ensures HostsError(hosts) == HostsError(hosts[..n])
    decreases |hosts|
  {
    if n == |hosts| {
      assert hosts[..n] == hosts;
    } else {
      assert hosts[..|hosts| - 1][..n] == hosts[..n];
      HostsErrorStays(hosts[..|hosts| - 1], n);
    }
  }

  /** Field by field, as far as the first refusal. */
  method NormalizeTokenRequest(t: TokenRequest) returns (r: TokenRequest, failure: Option<ServiceError>)
    ensures failure == TokenRequestError(DefaultTokenRequest(t))
    ensures failure.None? ==> r == DefaultTokenRequest(t)
    ensures DefaultTokenRequest(r) == DefaultTokenRequest(t)
    ensures DefaultTokenRequest(t) == t ==> r == t
  {
    r := t;
    if r.bodyFormat == "" {
      r := r.(bodyFormat := "form");
    }
    if r.bodyFormat != "form" && r.bodyFormat != "json" {
      return r, Some(BodyFormatUnsupported);
    }
    if r.clientAuth == "" {
      r := r.(clientAuth := "body");
    }
    if r.clientAuth != "body" && r.clientAuth != "basic" {
      return r, Some(ClientAuthUnsupported);
    }
    failure := None;
  }

  method NormalizeOAuth(validUrl: string -> bool, id: string, record: OAuthRecord)
    returns (failure: Option<ServiceError>)
    requires id != ""
    modifies record
    ensures failure == OAuthError(validUrl, DefaultOAuth(id, old(record.config)))
    ensures failure.None? ==> record.config == DefaultOAuth(id, old(record.config))
    ensures DefaultOAuth(id, record.config) == DefaultOAuth(id, old(record.config))
    ensures DefaultOAuth(id, old(record.config)) == old(record.config) ==> record.config == old(record.config)
  {
    if record.config.credentialId == "" {
      record.config := record.config.(credentialId := id);
    }
    failure := UrlsError(validUrl, record.config);
    if failure.Some? {
      return;
    }
    if record.config.scopeParam.separator == "" {
      record.config := record.config.(scopeParam := record.config.scopeParam.(separator := " "));
    }
    var t;
    t, failure := NormalizeTokenRequest(record.config.tokenRequest);
    record.config := record.config.(tokenRequest := t);
  }

  /**
   Fills in the defaults in the caller's own hosts and OAuth record, also when it then refuses
   the description; nothing else of it changes, and trying again gives the same answer.
   */
  method NormalizeInPlace(validUrl: string -> bool, id: string, h: Handle) returns (failure: Option<ServiceError>)
    modifies h.hosts, h.oauth
    ensures Normalize(validUrl, id, old(Look(h))) == if failure.Some? then Err(failure.value) else Ok(Look(h))
    ensures Default(id, Look(h)) == Default(id, old(Look(h)))
    ensures Default(id, old(Look(h))) == old(Look(h)) ==> Look(h) == old(Look(h))
  {
    if id == "" {
      return Some(IdRequired);
    }
    if h.hosts.Length == 0 {
      return Some(HostsRequired);
    }
    failure := NormalizeHosts(h.hosts, h.oauth != null);
    if failure.Some? {
      return;
    }
    if h.oauth != null {
      failure := NormalizeOAuth(validUrl, id, h.oauth);
      if failure.Some? {
        return;
      }
    }
    var s := Look(h);
    failure := InjectionError(s.injection);
    if failure.Some? {
      return;
    }
    failure := InputsError(s);
  }

  /** A description that validation has accepted is left as it is, hosts and OAuth record included. */
  method NormalizeValidated(validUrl: string -> bool, id: string, h: Handle, ghost s: Service)
    returns (failure: Option<ServiceError>)
    requires Validate(id, s) == Ok(Look(h))
    modifies h.hosts, h.oauth
    ensures Look(h) == old(Look(h))
    ensures failure == if h.oauth == null then None else UrlsError(validUrl, h.oauth.config)
  {
    ValidatedNormalizes(validUrl, id, s);
    failure := NormalizeInPlace(validUrl, id, h);
  }
}

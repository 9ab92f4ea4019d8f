/**
 Where tokens are stored: the entry an OAuth callback writes, the one that is read when a
 credential is injected, and the one that is deleted when a token is revoked.
 */
module TokenStorage {
  import opened Text
  import opened Wrappers

  datatype Credential = Credential(id: string, params: map<string, string>)

  /** `implied` are the credentials that client configurations and services bring with them. */
  datatype Config = Config(
    kubernetes: bool, users: set<string>, dynamicUsers: bool, credentials: seq<Credential>, implied: set<string>)

  type Entry = (string, string)
  type Entries = map<Entry, string>

  // ---------- Users and keys ----------

  predicate ValidDynamicUser(user: string) {
    && 0 < |user| <= 63
    && (forall c :: c in user ==> 'a' <= c <= 'z' || '0' <= c <= '9' || c == '-')
    && user[0] != '-' && user[|user| - 1] != '-'
  }

  predicate HasUser(cfg: Config, user: string) {
    user in cfg.users || (cfg.kubernetes && cfg.dynamicUsers && ValidDynamicUser(user))
  }

  function FindCredential(credentials: seq<Credential>, id: string): Option<Credential> {
    if credentials == [] then None
    else if credentials[0].id == id then Some(credentials[0])
    else FindCredential(credentials[1..], id)
  }

  function CredentialByID(cfg: Config, id: string): Option<Credential> {
    match FindCredential(cfg.credentials, id)
    case Some(c) => Some(c)
    case None => if id in cfg.implied then Some(Credential(id, map[])) else None
  }

  /** The text before the first dot, if there is one. */
  function BeforeDot(s: string): Option<string> {
    if s == "" then None
    else if s[0] == '.' then Some("")
    else match BeforeDot(s[1..])
      case None => None
      case Some(rest) => Some([s[0]] + rest)
  }

  function Param(cred: Credential, name: string): string {
    if name in cred.params then cred.params[name] else ""
  }

  function CredentialUserID(cfg: Config, cred: Credential): string {
    if Param(cred, "user") != "" then Param(cred, "user")
    else match BeforeDot(cred.id)
      case Some(user) => if HasUser(cfg, user) then user else cred.id
      case None => cred.id
  }

  predicate Prefixed(cfg: Config, user: string, credentialId: string) {
    cfg.kubernetes && HasUser(cfg, user) && credentialId != ""
  }

  // The key of a token field in a user's record, as the callback, the injector and the revocation
  // each work it out.

  function StorageTokenKey(cfg: Config, storageId: string, credentialId: string, field: string): string {
    if Prefixed(cfg, storageId, credentialId) then credentialId + "." + field else field
  }

  function CredentialSecretKey(cfg: Config, cred: Credential, user: string, field: string): string {
    if Prefixed(cfg, user, cred.id) then cred.id + "." + field else field
  }

  function AdminTokenKey(cfg: Config, storageId: string, credentialId: string, field: string): string {
    if Prefixed(cfg, storageId, credentialId) then credentialId + "." + field else field
  }

  function StorageUserID(cfg: Config, user: string, credentialId: string): string {
    if cfg.kubernetes then user
    else match CredentialByID(cfg, credentialId)
      case Some(cred) => CredentialUserID(cfg, cred)
      case None => credentialId
  }

  function CallbackEntry(cfg: Config, user: string, credentialId: string, field: string): Entry {
    var storageId := StorageUserID(cfg, user, credentialId);
    (storageId, StorageTokenKey(cfg, storageId, credentialId, field))
  }

  function InjectedEntry(cfg: Config, cred: Credential, field: string): Entry {
    var user := CredentialUserID(cfg, cred);
    (user, CredentialSecretKey(cfg, cred, user, field))
  }

  // ---------- Who reads, and whether it reads what was written ----------

  /**
   The record a reader takes for a credential: the providers with code of their own use the one
   that is found under its identifier; services with generic OAuth or inputs always make up an
   empty one, also when the configuration lists one.
   */
  datatype Reader = Provider | Generic

  function RecordRead(cfg: Config, reader: Reader, credentialId: string): Credential {
    var found := CredentialByID(cfg, credentialId);
    if reader.Provider? && found.Some? then found.value else Credential(credentialId, map[])
  }

  lemma {:induction false} FoundHasId(credentials: seq<Credential>, id: string)
    ensures FindCredential(credentials, id).Some? ==> FindCredential(credentials, id).value.id == id
  {
    if credentials != [] {
      FoundHasId(credentials[1..], id);
    }
  }

  predicate FirstWith(credentials: seq<Credential>, id: string, i: int) {
    0 <= i < |credentials| && credentials[i].id == id && forall j :: 0 <= j < i ==> credentials[j].id != id
  }

  /** The first record with the identifier is found, if there is one. */
  lemma {:induction false} FindMeans(credentials: seq<Credential>, id: string)
    ensures var r := FindCredential(credentials, id);
            && (r.None? <==> forall i :: 0 <= i < |credentials| ==> credentials[i].id != id)
            && forall i :: FirstWith(credentials, id, i) ==> r == Some(credentials[i])
  {
    if credentials != [] {
      var rest := credentials[1..];
      FindMeans(rest, id);
      assert forall i :: 0 < i < |credentials| ==> credentials[i] == rest[i - 1];
      assert forall i :: 0 <= i < |rest| ==> rest[i] == credentials[i + 1];
      forall i | FirstWith(credentials, id, i) && i > 0
        ensures FindCredential(credentials, id) == Some(credentials[i])
      {
        assert credentials[0].id != id && FirstWith(rest, id, i - 1);
      }
    }
  }

  /** A credential is known exactly when it is listed or implied, and a listed record goes before an implied one. */
  lemma KnownExactlyWhen(cfg: Config, id: string)
    ensures var listed := exists i :: 0 <= i < |cfg.credentials| && cfg.credentials[i].id == id;
            var r := CredentialByID(cfg, id);
            && (r.Some? <==> listed || id in cfg.implied)
            && (listed ==> r == FindCredential(cfg.credentials, id))
            && (!listed && id in cfg.implied ==> r == Some(Credential(id, map[])))
  {
    FindMeans(cfg.credentials, id);
  }

  lemma RecordHasId(cfg: Config, reader: Reader, credentialId: string)
    ensures RecordRead(cfg, reader, credentialId).id == credentialId
  {
    FoundHasId(cfg.credentials, credentialId);
  }

  /** A provider reads what the callback wrote exactly when, in Kubernetes mode, the callback's user is its record's. */
  lemma CallbackMeetsProvider(cfg: Config, user: string, credentialId: string, field: string)
    requires CredentialByID(cfg, credentialId).Some?
    ensures var cred := RecordRead(cfg, Provider, credentialId);
            CallbackEntry(cfg, user, credentialId, field) == InjectedEntry(cfg, cred, field)
            <==> (cfg.kubernetes ==> user == CredentialUserID(cfg, cred))
  {
    RecordHasId(cfg, Provider, credentialId);
  }

  /**
   A generic service reads what the callback wrote exactly when, in Kubernetes mode, the callback's
   user is the one its identifier implies, and otherwise the listed record, if any, names no other.
   */
  lemma CallbackMeetsGeneric(cfg: Config, user: string, credentialId: string, field: string)
    ensures var implied := CredentialUserID(cfg, Credential(credentialId, map[]));
            CallbackEntry(cfg, user, credentialId, field)
              == InjectedEntry(cfg, RecordRead(cfg, Generic, credentialId), field)
            <==> if cfg.kubernetes then user == implied
                 else match CredentialByID(cfg, credentialId)
                   case Some(listed) => Param(listed, "user") == "" || Param(listed, "user") == implied
                   case None => implied == credentialId
  {
    FoundHasId(cfg.credentials, credentialId);
  }

  /** The identifier implies itself as user exactly unless it starts with a user's name. */
  lemma ImpliedUser(cfg: Config, credentialId: string)
    ensures var before := BeforeDot(credentialId);
            CredentialUserID(cfg, Credential(credentialId, map[])) == credentialId
            <==> !(before.Some? && HasUser(cfg, before.value))
  {
    BeforeDotIsShorter(credentialId);
  }

  /** A listed record that names a user is where the callback writes, and not where its only reader looks. */
  lemma GenericReadsElsewhere()
    ensures var listed := Credential("svc", map["user" := "alice"]);
            var cfg := Config(true, {"alice"}, false, [listed], {"svc"});
            && CallbackEntry(cfg, "alice", "svc", "refresh_token") == ("alice", "svc.refresh_token")
            && InjectedEntry(cfg, RecordRead(cfg, Provider, "svc"), "refresh_token") == ("alice", "svc.refresh_token")
            && InjectedEntry(cfg, RecordRead(cfg, Generic, "svc"), "refresh_token") == ("svc", "refresh_token")
    ensures var listed := Credential("svc", map["user" := "bob"]);
            var cfg := Config(false, {}, false, [listed], {"svc"});
            && CallbackEntry(cfg, "", "svc", "refresh_token") == ("bob", "refresh_token")
            && InjectedEntry(cfg, RecordRead(cfg, Generic, "svc"), "refresh_token") == ("svc", "refresh_token")
  {
    assert BeforeDot("svc").None? by {
      assert "svc"[1..] == "vc" && "vc"[1..] == "c" && "c"[1..] == "";
    }
    assert "svc" + "." + "refresh_token" == "svc.refresh_token";
  }

  lemma {:induction false} BeforeDotIsShorter(s: string)
    ensures BeforeDot(s).Some? ==> |BeforeDot(s).value| < |s|
  {
    if s != "" {
      BeforeDotIsShorter(s[1..]);
    }
  }

  // ---------- Different tokens, different entries ----------

  /** The other identifier goes on, after a dot, with the start of this field, and its field is the rest. */
  predicate Continues(id: string, field: string, otherId: string, otherField: string) {
    id + "." <= otherId && field == otherId[|id| + 1..] + "." + otherField
  }

  /** Two fields of one user's record have one key. */
  predicate ShareKey(cfg: Config, user: string, id: string, field: string, otherId: string, otherField: string) {
    if Prefixed(cfg, user, id) then
      || (id == otherId && field == otherField)
      || Continues(id, field, otherId, otherField) || Continues(otherId, otherField, id, field)
    else field == otherField
  }

  lemma ContinuedKeysMeet(a: string, x: string, b: string, y: string)
    requires Continues(a, x, b, y)
    ensures a + "." + x == b + "." + y
  {
    var z := b[|a| + 1..];
    assert b == a + "." + z;
    assert a + "." + (z + "." + y) == (a + "." + z) + "." + y;
  }

  lemma LongerMeetsContinued(a: string, x: string, b: string, y: string)
    requires |a| < |b| && a + "." + x == b + "." + y
    ensures Continues(a, x, b, y)
  {
    var s, n := b + "." + y, |a| + 1;
    assert s[..n] == (a + "." + x)[..n] == a + ".";
    assert s[..n] == b[..n];
    assert x == (a + "." + x)[n..] == s[n..] == b[n..] + "." + y;
  }

  lemma DottedKeysMeetExactlyWhen(a: string, x: string, b: string, y: string)
    ensures a + "." + x == b + "." + y
            <==> (a == b && x == y) || Continues(a, x, b, y) || Continues(b, y, a, x)
  {
    var s, t := a + "." + x, b + "." + y;
    if s == t {
      if |a| < |b| {
        LongerMeetsContinued(a, x, b, y);
      } else if |b| < |a| {
        LongerMeetsContinued(b, y, a, x);
      } else {
        assert s[..|a|] == a && t[..|a|] == b && s[|a| + 1..] == x && t[|a| + 1..] == y;
      }
    } else if Continues(a, x, b, y) {
      ContinuedKeysMeet(a, x, b, y);
    } else if Continues(b, y, a, x) {
      ContinuedKeysMeet(b, y, a, x);
    }
  }

  /**
   The entries of two fields are one exactly when the records are of one user and the fields are
   the same, of one credential where keys are prefixed; or when, there, one identifier continues the
   other with the start of the other's field. Every configured credential has an identifier.
   */
  lemma EntriesMeetExactlyWhen(cfg: Config, c: Credential, x: string, d: Credential, y: string)
    requires c.id != "" && d.id != ""
    ensures var user := CredentialUserID(cfg, c);
            InjectedEntry(cfg, c, x) == InjectedEntry(cfg, d, y)
            <==> user == CredentialUserID(cfg, d) && ShareKey(cfg, user, c.id, x, d.id, y)
  {
    DottedKeysMeetExactlyWhen(c.id, x, d.id, y);
  }

  lemma ContinuedHasDot(id: string, field: string, otherId: string, otherField: string)
    ensures Continues(id, field, otherId, otherField) ==> '.' in field
  {
    if Continues(id, field, otherId, otherField) {
      var rest := otherId[|id| + 1..];
      assert field == rest + "." + otherField;
      assert field[|rest|] == '.';
    }
  }

  /** Fields without a dot share a key only as the same field, and where keys are prefixed of one credential. */
  lemma PlainFieldsShareExactlyWhen(cfg: Config, user: string, id: string, field: string,
                                    otherId: string, otherField: string)
    requires '.' !in field && '.' !in otherField
    ensures ShareKey(cfg, user, id, field, otherId, otherField)
            <==> field == otherField && (Prefixed(cfg, user, id) ==> id == otherId)
  {
    ContinuedHasDot(id, field, otherId, otherField);
    ContinuedHasDot(otherId, otherField, id, field);
  }

  // ---------- Reading a secret ----------

  /** What lies under the key, or, for the refresh token of a Google credential, under the bare key of old. */
  function Stored(m: Entries, user: string, credentialId: string, key: string, field: string): Option<string> {
    if (user, key) in m then Some(m[(user, key)])
    else if key != field && field == "refresh_token" && HasSuffix(credentialId, ".google") && (user, field) in m
    then Some(m[(user, field)])
    else None
  }

  /** A value may name a variable of the environment. */
  function FromEnv(getenv: string -> string, value: string): string {
    if "env:" <= value then getenv(value[4..]) else value
  }

  function Configured(getenv: string -> string, cred: Credential, field: string): string {
    FromEnv(getenv, Param(cred, field))
  }

  function StoredSecret(cfg: Config, m: Entries, cred: Credential, field: string): Option<string> {
    var user := CredentialUserID(cfg, cred);
    Stored(m, user, cred.id, CredentialSecretKey(cfg, cred, user, field), field)
  }

  /** A configured value goes before the stored one. */
  function SecretValue(getenv: string -> string, cfg: Config, m: Entries, cred: Credential, field: string): string {
    if Configured(getenv, cred, field) != "" then Configured(getenv, cred, field)
    else GetOr(StoredSecret(cfg, m, cred, field), "")
  }

  /** For tokens that rotate it is the other way round. */
  function RotatingSecretValue(getenv: string -> string, cfg: Config, m: Entries, cred: Credential,
                               field: string): string {
    GetOr(StoredSecret(cfg, m, cred, field), Configured(getenv, cred, field))
  }

  /** A configured value that starts so names a variable of the environment; any other is the value. */
  lemma ConfiguredMeans(getenv: string -> string, cred: Credential, field: string, variable: string)
    ensures Param(cred, field) == "env:" + variable ==> Configured(getenv, cred, field) == getenv(variable)
    ensures (forall rest :: Param(cred, field) != "env:" + rest)
            ==> Configured(getenv, cred, field) == Param(cred, field)
  {
    var value := Param(cred, field);
    if "env:" <= value {
      assert value == "env:" + value[4..];
    }
    if value == "env:" + variable {
      assert value[..4] == "env:" && value[4..] == variable;
    }
  }

  lemma PrefixChanges(credentialId: string, field: string)
    ensures credentialId + "." + field != field
  {
    assert |credentialId + "." + field| > |field|;
  }

  /** An entry of a token of this credential, in anyone's record, is never the bare key that a read falls back to. */
  lemma OwnEntryIsNotFallback(cfg: Config, cred: Credential, storageId: string, field: string)
    ensures var user := CredentialUserID(cfg, cred);
            CredentialSecretKey(cfg, cred, user, field) != field
            ==> (storageId, StorageTokenKey(cfg, storageId, cred.id, field)) != (user, field)
  {
    PrefixChanges(cred.id, field);
  }

  /**
   After a callback, either read gives the callback's token exactly in the cases above, unless a
   configured value goes before it; in all other cases reads are as before the callback.
   */
  lemma StoredTokenIsRead(getenv: string -> string, cfg: Config, m: Entries, reader: Reader, user: string,
                          credentialId: string, field: string, token: string)
    ensures var cred := RecordRead(cfg, reader, credentialId);
            var entry := CallbackEntry(cfg, user, credentialId, field);
            var after := m[entry := token];
            var meets := entry == InjectedEntry(cfg, cred, field);
            && RotatingSecretValue(getenv, cfg, after, cred, field)
                 == (if meets then token else RotatingSecretValue(getenv, cfg, m, cred, field))
            && SecretValue(getenv, cfg, after, cred, field)
                 == (if meets && Configured(getenv, cred, field) == "" then token
                     else SecretValue(getenv, cfg, m, cred, field))
            && (reader.Generic? ==> Configured(getenv, cred, field) == "")
  {
    RecordHasId(cfg, reader, credentialId);
    var cred := RecordRead(cfg, reader, credentialId);
    OwnEntryIsNotFallback(cfg, cred, StorageUserID(cfg, user, credentialId), field);
  }

  /** A refresh finds the rotated token it stored; a plain read does unless a configured value goes before it. */
  lemma RotatedTokenIsRead(getenv: string -> string, cfg: Config, m: Entries, cred: Credential, field: string,
                           token: string)
    ensures var after := m[InjectedEntry(cfg, cred, field) := token];
            && RotatingSecretValue(getenv, cfg, after, cred, field) == token
            && SecretValue(getenv, cfg, after, cred, field)
                 == (if Configured(getenv, cred, field) == "" then token else Configured(getenv, cred, field))
  {
  }

  // ---------- Revoking ----------

  function TokenFor(cfg: Config, m: Entries, user: string, credentialId: string, field: string): Option<string> {
    Stored(m, user, credentialId, AdminTokenKey(cfg, user, credentialId, field), field)
  }

  function FirstToken(cfg: Config, m: Entries, user: string, credentialId: string,
                      fields: seq<string>): Option<(string, string)> {
    if fields == [] then None
    else match TokenFor(cfg, m, user, credentialId, fields[0])
      case Some(token) => Some((fields[0], token))
      case None => FirstToken(cfg, m, user, credentialId, fields[1..])
  }

  /** The token to revoke is that of the first field that has one. */
  lemma {:induction false} FirstTokenMeans(cfg: Config, m: Entries, user: string, credentialId: string,
                                           fields: seq<string>)
    ensures var r := FirstToken(cfg, m, user, credentialId, fields);
            && (r.None? <==> forall i :: 0 <= i < |fields| ==> TokenFor(cfg, m, user, credentialId, fields[i]).None?)
            && (r.Some? ==> exists i :: 0 <= i < |fields| && fields[i] == r.value.0
                              && TokenFor(cfg, m, user, credentialId, fields[i]) == Some(r.value.1)
                              && forall j :: 0 <= j < i ==> TokenFor(cfg, m, user, credentialId, fields[j]).None?)
  {
    if fields != [] {
      var rest := fields[1..];
      FirstTokenMeans(cfg, m, user, credentialId, rest);
      assert forall i :: 0 < i < |fields| ==> fields[i] == rest[i - 1];
      assert forall i :: 0 <= i < |rest| ==> rest[i] == fields[i + 1];
      var r := FirstToken(cfg, m, user, credentialId, rest);
      if TokenFor(cfg, m, user, credentialId, fields[0]).None? && r.Some? {
        var i :| 0 <= i < |rest| && rest[i] == r.value.0
                 && TokenFor(cfg, m, user, credentialId, rest[i]) == Some(r.value.1)
                 && forall j :: 0 <= j < i ==> TokenFor(cfg, m, user, credentialId, rest[j]).None?;
        assert fields[i + 1] == r.value.0;
        assert forall j :: 0 <= j < i + 1 ==> TokenFor(cfg, m, user, credentialId, fields[j]).None?;
      }
    }
  }

  function RequestedFields(requested: string): seq<string> {
    if TrimSpace(requested) != "" then [TrimSpace(requested)] else ["refresh_token", "access_token"]
  }

  /** The record whose token is revoked: the requested user's, or the credential's own. */
  function RevokedFrom(cfg: Config, cred: Credential, requestedUser: string): string {
    if TrimSpace(requestedUser) != "" then TrimSpace(requestedUser) else CredentialUserID(cfg, cred)
  }

  /** A request that names a user, in more than white space, is about that user's record, whoever's credential it is. */
  lemma RevokedFromMeans(cfg: Config, cred: Credential, requestedUser: string)
    ensures TrimSpace(requestedUser) != "" ==> RevokedFrom(cfg, cred, requestedUser) == TrimSpace(requestedUser)
    ensures TrimSpace(requestedUser) == "" ==> RevokedFrom(cfg, cred, requestedUser) == CredentialUserID(cfg, cred)
  {
  }

  function AfterRevoke(cfg: Config, m: Entries, user: string, credentialId: string, field: string): Entries {
    m - {(user, AdminTokenKey(cfg, user, credentialId, field))}
  }

  datatype RevokeOutcome =
    | Revoked(field: string, token: string)
    | NotFound
    | ReadFailed
    | BrokerFailed(field: string, token: string)
    | DeleteFailed(field: string, token: string)

  class TokenStore {
    var entries: Entries

    constructor (m: Entries)
      ensures entries == m
    {
      entries := m;
    }

    method Read(entry: Entry) returns (r: Result<Option<string>, ()>)
      ensures r == Err(()) || r == Ok(if entry in entries then Some(entries[entry]) else None)
    {
      var up: bool := *;
      r := if !up then Err(()) else Ok(if entry in entries then Some(entries[entry]) else None);
    }

    method Delete(entry: Entry) returns (deleted: bool)
      modifies this
      ensures entries == if deleted then old(entries) - {entry} else old(entries)
    {
      deleted := *;
      if deleted {
        entries := entries - {entry};
      }
    }

    method ReadToken(cfg: Config, user: string, credentialId: string, field: string)
      returns (r: Result<Option<string>, ()>)
      ensures r == Err(()) || r == Ok(TokenFor(cfg, entries, user, credentialId, field))
    {
      var key := AdminTokenKey(cfg, user, credentialId, field);
      r := Read((user, key));
      if r == Ok(None) && key != field && field == "refresh_token" && HasSuffix(credentialId, ".google") {
        r := Read((user, field));
      }
    }

    /** The first of the requested fields that has a token, unless the store fails first. */
    method TokenToRevoke(cfg: Config, user: string, credentialId: string, requested: string)
      returns (found: Result<Option<(string, string)>, ()>)
      ensures found == Err(()) || found == Ok(FirstToken(cfg, entries, user, credentialId, RequestedFields(requested)))
    {
      var fields := [TrimSpace(requested)];
      if fields[0] == "" {
        fields := ["refresh_token", "access_token"];
      }
      var i := 0;
      while i < |fields|
        invariant i <= |fields|
        invariant FirstToken(cfg, entries, user, credentialId, fields)
                  == FirstToken(cfg, entries, user, credentialId, fields[i..])
      {
        var token := ReadToken(cfg, user, credentialId, fields[i]);
        if token.Err? {
          return Err(());
        }
        if token.value.Some? {
          return Ok(Some((fields[i], token.value.value)));
        }
        assert fields[i..][1..] == fields[i + 1..];
        i := i + 1;
      }
      found := Ok(None);
    }

    /**
     The token is revoked at its endpoint first, and then its entry goes, under the key it would be
     written to. A failed delete leaves a revoked token in the store.
     */
    method Revoke(cfg: Config, cred: Credential, requestedUser: string, requested: string,
                  broker: (string, string) -> bool)
      returns (outcome: RevokeOutcome)
      modifies this
      ensures var user := RevokedFrom(cfg, cred, requestedUser);
              var first := FirstToken(cfg, old(entries), user, cred.id, RequestedFields(requested));
              match outcome
              case Revoked(field, token) =>
                first == Some((field, token)) && broker(field, token)
                && entries == AfterRevoke(cfg, old(entries), user, cred.id, field)
              case NotFound => first == None && entries == old(entries)
              case ReadFailed => entries == old(entries)
              case BrokerFailed(field, token) =>
                first == Some((field, token)) && !broker(field, token) && entries == old(entries)
              case DeleteFailed(field, token) =>
                first == Some((field, token)) && broker(field, token) && entries == old(entries)
    {
      var user := RevokedFrom(cfg, cred, requestedUser);
      var found := TokenToRevoke(cfg, user, cred.id, requested);
      if found.Err? {
        return ReadFailed;
      }
      if found.value.None? {
        return NotFound;
      }
      var (field, token) := found.value.value;
      if !broker(field, token) {
        return BrokerFailed(field, token);
      }
      var deleted := Delete((user, AdminTokenKey(cfg, user, cred.id, field)));
      outcome := if deleted then Revoked(field, token) else DeleteFailed(field, token);
    }
  }

  /** A token lies under the bare key that only reads of Google refresh tokens still try. */
  predicate LiesUnderBareKey(cfg: Config, m: Entries, user: string, credentialId: string, field: string) {
    && Prefixed(cfg, user, credentialId)
    && field == "refresh_token" && HasSuffix(credentialId, ".google") && (user, field) in m
  }

  /**
   After a revoke from `user`'s record, a reader of the credential finds what lies under the bare
   key of old, if anything, when that record is the one it reads, and what it found before when it
   reads another. So the token is gone exactly when the record is its own and the bare key is free.
   */
  lemma RevokedIsGoneExactlyWhen(cfg: Config, m: Entries, reader: Reader, user: string, credentialId: string,
                                 field: string)
    ensures var cred := RecordRead(cfg, reader, credentialId);
            var after := AfterRevoke(cfg, m, user, credentialId, field);
            StoredSecret(cfg, after, cred, field) ==
              if user != CredentialUserID(cfg, cred) then StoredSecret(cfg, m, cred, field)
              else if LiesUnderBareKey(cfg, m, user, credentialId, field) then Some(m[(user, field)])
              else None
    ensures TokenFor(cfg, AfterRevoke(cfg, m, user, credentialId, field), user, credentialId, field).None?
            <==> !LiesUnderBareKey(cfg, m, user, credentialId, field)
  {
    RecordHasId(cfg, reader, credentialId);
    PrefixChanges(credentialId, field);
  }

  /** Revoking through the listed record leaves the token that the generic service goes on reading. */
  lemma RevokeMissesGeneric()
    ensures var listed := Credential("svc", map["user" := "alice"]);
            var cfg := Config(true, {"alice"}, false, [listed], {"svc"});
            var m: Entries := map[("svc", "refresh_token") := "token"];
            var generic := RecordRead(cfg, Generic, "svc");
            var after := AfterRevoke(cfg, m, RevokedFrom(cfg, listed, ""), "svc", "refresh_token");
            StoredSecret(cfg, after, generic, "refresh_token") == Some("token")
  {
    GenericReadsElsewhere();
    var listed := Credential("svc", map["user" := "alice"]);
    var cfg := Config(true, {"alice"}, false, [listed], {"svc"});
    RevokedIsGoneExactlyWhen(cfg, map[("svc", "refresh_token") := "token"], Generic, "alice", "svc", "refresh_token");
  }

  /** A token that was found under its bare key is revoked and stays where it is. */
  lemma LegacyTokenStays(cfg: Config, m: Entries, user: string, credentialId: string, field: string)
    requires TokenFor(cfg, m, user, credentialId, field).Some?
    ensures var entry := (user, AdminTokenKey(cfg, user, credentialId, field));
            && (AfterRevoke(cfg, m, user, credentialId, field) == m <==> entry !in m)
            && (entry !in m ==> LiesUnderBareKey(cfg, m, user, credentialId, field))
  {
    var key := (user, AdminTokenKey(cfg, user, credentialId, field));
    if key in m {
      assert key !in AfterRevoke(cfg, m, user, credentialId, field);
    }
  }

  /** One does: it is found, revoked, and found again. */
  lemma LegacyTokenExample()
    ensures var cfg := Config(true, {"alice"}, false, [], {"alice.google"});
            var m: Entries := map[("alice", "refresh_token") := "token"];
            && FirstToken(cfg, m, "alice", "alice.google", RequestedFields("")) == Some(("refresh_token", "token"))
            && AfterRevoke(cfg, m, "alice", "alice.google", "refresh_token") == m
  {
    var cfg := Config(true, {"alice"}, false, [], {"alice.google"});
    var m: Entries := map[("alice", "refresh_token") := "token"];
    assert HasSuffix("alice.google", ".google");
    PrefixChanges("alice.google", "refresh_token");
    assert RequestedFields("")[0] == "refresh_token";
    LegacyTokenStays(cfg, m, "alice", "alice.google", "refresh_token");
  }

  /**
   What a revoke does to a field of any credential: it takes the token exactly when both share the
   record and the key; the bare key of old, if there is one, stays. Everything else is read as before.
   A revoke names a credential, and every configured one has an identifier.
   */
  lemma RevokeTakesExactlyWhen(cfg: Config, m: Entries, user: string, credentialId: string, field: string,
                               other: Credential, otherField: string)
    requires credentialId != "" && other.id != ""
    ensures var otherUser := CredentialUserID(cfg, other);
            StoredSecret(cfg, AfterRevoke(cfg, m, user, credentialId, field), other, otherField) ==
              if !(user == otherUser && ShareKey(cfg, user, credentialId, field, other.id, otherField))
              then StoredSecret(cfg, m, other, otherField)
              else if LiesUnderBareKey(cfg, m, otherUser, other.id, otherField) then Some(m[(otherUser, otherField)])
              else None
  {
    DottedKeysMeetExactlyWhen(credentialId, field, other.id, otherField);
    PrefixChanges(other.id, otherField);
    var s := credentialId + "." + field;
    assert s[|credentialId|] == '.';
    assert '.' in s;
  }

  /** A field with a dot shares its key with a field of another credential, and revoking the one takes the other. */
  lemma DottedFieldsCanMeet()
    ensures var cfg := Config(true, {"alice"}, false, [], {});
            var (c, d) := (RecordRead(cfg, Generic, "alice.a"), RecordRead(cfg, Generic, "alice.a.b"));
            var m: Entries := map[("alice", "alice.a.b.c") := "token"];
            && InjectedEntry(cfg, c, "b.c") == InjectedEntry(cfg, d, "c") == ("alice", "alice.a.b.c")
            && StoredSecret(cfg, m, d, "c") == Some("token")
            && StoredSecret(cfg, AfterRevoke(cfg, m, "alice", "alice.a", "b.c"), d, "c") == None
  {
    AliceBeforeDot("a");
    AliceBeforeDot("a.b");
    assert "alice." + "a" == "alice.a" && "alice." + "a.b" == "alice.a.b";
    assert "alice.a" + "." + "b.c" == "alice.a.b" + "." + "c" == "alice.a.b.c";
  }

  /** Outside Kubernetes two credentials of one user share their entries: revoking one's token takes the other's. */
  lemma RevokeTakesAnothers()
    ensures var cfg := Config(false, {"alice"}, false, [], {});
            var m: Entries := map[("alice", "refresh_token") := "token"];
            var (c, d) := (Credential("alice.a", map[]), Credential("alice.b", map[]));
            && CredentialUserID(cfg, c) == CredentialUserID(cfg, d) == "alice"
            && StoredSecret(cfg, m, d, "refresh_token") == Some("token")
            && StoredSecret(cfg, AfterRevoke(cfg, m, "alice", "alice.a", "refresh_token"), d, "refresh_token") == None
  {
    AliceBeforeDot("a");
    AliceBeforeDot("b");
    assert "alice." + "a" == "alice.a" && "alice." + "b" == "alice.b";
  }

  lemma AliceBeforeDot(rest: string)
    ensures BeforeDot("alice." + rest) == Some("alice")
  {
    BeforeDotOf("alice", rest);
    assert "alice" + "." + rest == "alice." + rest;
  }

  lemma {:induction false} BeforeDotOf(a: string, rest: string)
    requires '.' !in a
    ensures BeforeDot(a + "." + rest) == Some(a)
  {
    if a == "" {
      assert (a + "." + rest)[0] == '.';
    } else {
      assert (a + "." + rest)[1..] == a[1..] + "." + rest;
      BeforeDotOf(a[1..], rest);
      assert [a[0]] + a[1..] == a;
    }
  }
}

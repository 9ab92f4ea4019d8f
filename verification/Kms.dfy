/**
 The key management service, as an ideal table from wrapped data keys to the key and the
 encryption context they were wrapped under, and the two ways a store reaches it: directly, or
 through the broker endpoint of the integration server.
 */
module Kms {
  import opened Wrappers
  import opened Base64
  import opened Buffers

  type Context = map<string, string>

  const CREDENTIAL_ENTRY := "scia_credential_id"
  const SECRET_ENTRY := "scia_secret_key"
  const DATA_KEY_SIZE := 32

  /** The context of one record: the configured one with the record's two entries written over it. */
  function RecordContext(base: Context, credentialId: string, key: string): Context {
    base[CREDENTIAL_ENTRY := credentialId][SECRET_ENTRY := key]
  }

  datatype Wrapped = Wrapped(keyId: string, context: Context, dek: Bytes)
  type Table = map<Bytes, Wrapped>

  /** What the service answers to one request for a data key; it may also refuse. */
  datatype Draw = Refused | Drawn(dek: Bytes, blob: Bytes)

  datatype DataKey = DataKey(dek: Bytes, blob: Bytes)

  function Wrap(table: Table, keyId: string, context: Context, draw: Draw): Table {
    match draw
    case Refused => table
    case Drawn(dek, blob) => table[blob := Wrapped(keyId, context, dek)]
  }

  function Unwrap(table: Table, keyId: string, context: Context, blob: Bytes): Option<Bytes> {
    if blob in table && table[blob].keyId == keyId && table[blob].context == context
    then Some(table[blob].dek)
    else None
  }

  /** The service hands out blobs it has not handed out before. */
  predicate FreshDraw(table: Table, draw: Draw) {
    draw.Drawn? ==> draw.blob !in table
  }

  class Service {
    var table: Table

    constructor (table: Table)
      ensures this.table == table
    {
      this.table := table;
    }

    method GenerateDataKey(keyId: string, context: Context, draw: Draw)
      returns (plaintext: array?<Byte>, blob: Bytes)
      modifies this
      ensures table == Wrap(old(table), keyId, context, draw)
      ensures plaintext != null <==> draw.Drawn?
      ensures plaintext != null ==> fresh(plaintext) && plaintext[..] == draw.dek && blob == draw.blob
    {
      plaintext, blob := null, [];
      match draw
      case Refused =>
      case Drawn(dek, wrapped) =>
        table := table[wrapped := Wrapped(keyId, context, dek)];
        plaintext := NewBuffer(dek);
        blob := wrapped;
    }

    method Decrypt(keyId: string, context: Context, blob: Bytes) returns (plaintext: array?<Byte>)
      ensures plaintext != null ==> fresh(plaintext)
      ensures Unwrap(table, keyId, context, blob) == if plaintext == null then None else Some(plaintext[..])
    {
      plaintext := null;
      if blob in table && table[blob].keyId == keyId && table[blob].context == context {
        plaintext := NewBuffer(table[blob].dek);
      }
    }
  }

  // ---------- The broker endpoint ----------

  /** The server's own token, key and context; callers choose none of them. Not every store can wrap keys. */
  datatype BrokerServer = BrokerServer(token: string, wraps: bool, keyId: string, context: Context)

  datatype BrokerPath = GeneratePath | DecryptPath | OtherPath
  datatype BrokerBody = BrokerBody(credentialId: string, key: string, encryptedDek: string)

  /** The body is absent when it is too long or cannot be read. */
  datatype BrokerRequest = BrokerRequest(verb: string, bearer: string, path: BrokerPath, body: Option<BrokerBody>)
  datatype BrokerReply = HttpError(status: int) | Reply(plaintextDek: string, encryptedDek: string)

  /** The endpoint without its buffers: what it answers, and the table it leaves behind. */
  function Serve(server: BrokerServer, table: Table, request: BrokerRequest, draw: Draw): (BrokerReply, Table) {
    if request.verb != "POST" then (HttpError(405), table)
    else if server.token == "" then (HttpError(404), table)
    else if request.bearer != server.token then (HttpError(401), table)
    else if !server.wraps then (HttpError(503), table)
    else if request.body.None? || request.body.value.credentialId == "" || request.body.value.key == "" then
      (HttpError(400), table)
    else
      var body := request.body.value;
      var context := RecordContext(server.context, body.credentialId, body.key);
      match request.path
      case OtherPath => (HttpError(404), table)
      case GeneratePath =>
        var after := Wrap(table, server.keyId, context, draw);
        if draw.Drawn? && |draw.dek| == DATA_KEY_SIZE
        then (Reply(Encode(Std, draw.dek), Encode(Std, draw.blob)), after)
        else (HttpError(502), after)
      case DecryptPath =>
        match Decode(Std, body.encryptedDek)
        case None => (HttpError(502), table)
        case Some(blob) =>
          match (if |blob| > 0 then Unwrap(table, server.keyId, context, blob) else None)
          case Some(dek) =>
            (if |dek| == DATA_KEY_SIZE then Reply(Encode(Std, dek), "") else HttpError(502), table)
          case None => (HttpError(502), table)
  }

  /** The endpoint as it runs: the plaintext key is wiped once its encoding is in the reply. */
  method HandleBroker(service: Service, server: BrokerServer, request: BrokerRequest, draw: Draw)
    returns (reply: BrokerReply)
    modifies service
    ensures (reply, service.table) == Serve(server, old(service.table), request, draw)
  {
    if request.verb != "POST" { return HttpError(405); }
    if server.token == "" { return HttpError(404); }
    if request.bearer != server.token { return HttpError(401); }
    if !server.wraps { return HttpError(503); }
    if request.body.None? || request.body.value.credentialId == "" || request.body.value.key == "" {
      return HttpError(400);
    }
    var body := request.body.value;
    var context := RecordContext(server.context, body.credentialId, body.key);
    var plaintext: array?<Byte> := null;
    var encryptedText := "";
    match request.path {
      case OtherPath => return HttpError(404);
      case GeneratePath =>
        var blob;
        plaintext, blob := service.GenerateDataKey(server.keyId, context, draw);
        encryptedText := Encode(Std, blob);
      case DecryptPath =>
        var encrypted := Decode(Std, body.encryptedDek);
        if encrypted.Some? && |encrypted.value| > 0 {
          plaintext := service.Decrypt(server.keyId, context, encrypted.value);
        }
    }
    if plaintext == null { return HttpError(502); }
    if plaintext.Length != DATA_KEY_SIZE {
      ZeroBytes(plaintext);
      return HttpError(502);
    }
    reply := Reply(Encode(Std, plaintext[..]), encryptedText);
    ZeroBytes(plaintext);
  }

  // ---------- The client ----------

  /** What the client sends; its bodies are well-formed. */
  function Post(bearer: string, path: BrokerPath, credentialId: string, key: string,
                encryptedDek: string): BrokerRequest {
    BrokerRequest("POST", bearer, path, Some(BrokerBody(credentialId, key, encryptedDek)))
  }

  datatype Client = Direct | Broker(bearer: string, server: BrokerServer)

  /** The record named by a context, when it names one. */
  function BrokerRecord(context: Context): Option<(string, string)> {
    var credentialId := if CREDENTIAL_ENTRY in context then context[CREDENTIAL_ENTRY] else "";
    var key := if SECRET_ENTRY in context then context[SECRET_ENTRY] else "";
    if credentialId == "" || key == "" then None else Some((credentialId, key))
  }

  function DecodeReply(reply: BrokerReply, requireEncrypted: bool): Option<DataKey> {
    match reply
    case HttpError(_) => None
    case Reply(plaintextDek, encryptedDek) =>
      match Decode(Std, plaintextDek)
      case None => None
      case Some(dek) =>
        if |dek| != DATA_KEY_SIZE then None
        else if !requireEncrypted then Some(DataKey(dek, []))
        else match Decode(Std, encryptedDek)
          case None => None
          case Some(blob) => if |blob| == 0 then None else Some(DataKey(dek, blob))
  }

  function ClientGenerate(client: Client, table: Table, keyId: string, context: Context, draw: Draw)
    : (Option<DataKey>, Table)
  {
    match client
    case Direct =>
      (if draw.Drawn? then Some(DataKey(draw.dek, draw.blob)) else None, Wrap(table, keyId, context, draw))
    case Broker(bearer, server) =>
      match BrokerRecord(context)
      case None => (None, table)
      case Some((credentialId, key)) =>
        var (reply, after) := Serve(server, table, Post(bearer, GeneratePath, credentialId, key, ""), draw);
        (DecodeReply(reply, true), after)
  }

  function ClientDecrypt(client: Client, table: Table, keyId: string, context: Context, blob: Bytes): Option<Bytes> {
    match client
    case Direct => Unwrap(table, keyId, context, blob)
    case Broker(bearer, server) =>
      match BrokerRecord(context)
      case None => None
      case Some((credentialId, key)) =>
        var request := Post(bearer, DecryptPath, credentialId, key, Encode(Std, blob));
        match DecodeReply(Serve(server, table, request, Refused).0, false)
        case None => None
        case Some(dataKey) => Some(dataKey.dek)
  }

  method DecodeBrokerResponse(reply: BrokerReply, requireEncrypted: bool)
    returns (plaintext: array?<Byte>, blob: Bytes)
    ensures plaintext != null ==> fresh(plaintext)
    ensures DecodeReply(reply, requireEncrypted)
            == if plaintext == null then None else Some(DataKey(plaintext[..], blob))
  {
    plaintext, blob := null, [];
    match reply
    case HttpError(_) =>
    case Reply(plaintextDek, encryptedDek) =>
      var dek := Decode(Std, plaintextDek);
      if dek.None? || |dek.value| != DATA_KEY_SIZE { return null, []; }
      plaintext := NewBuffer(dek.value);
      if !requireEncrypted { return; }
      var encrypted := Decode(Std, encryptedDek);
      if encrypted.None? || |encrypted.value| == 0 {
        ZeroBytes(plaintext);
        return null, [];
      }
      blob := encrypted.value;
  }

  method GenerateDataKey(client: Client, service: Service, keyId: string, context: Context, draw: Draw)
    returns (plaintext: array?<Byte>, blob: Bytes)
    modifies service
    ensures plaintext != null ==> fresh(plaintext)
    ensures ClientGenerate(client, old(service.table), keyId, context, draw)
            == (if plaintext == null then None else Some(DataKey(plaintext[..], blob)), service.table)
  {
    match client
    case Direct =>
      plaintext, blob := service.GenerateDataKey(keyId, context, draw);
    case Broker(bearer, server) =>
      var record := BrokerRecord(context);
      if record.None? { return null, []; }
      var request := Post(bearer, GeneratePath, record.value.0, record.value.1, "");
      var reply := HandleBroker(service, server, request, draw);
      plaintext, blob := DecodeBrokerResponse(reply, true);
  }

  method DecryptDataKey(client: Client, service: Service, keyId: string, context: Context, blob: Bytes)
    returns (plaintext: array?<Byte>)
    modifies service
    ensures service.table == old(service.table)
    ensures plaintext != null ==> fresh(plaintext)
    ensures ClientDecrypt(client, service.table, keyId, context, blob)
            == if plaintext == null then None else Some(plaintext[..])
  {
    match client
    case Direct =>
      plaintext := service.Decrypt(keyId, context, blob);
    case Broker(bearer, server) =>
      var record := BrokerRecord(context);
      if record.None? { return null; }
      var request := Post(bearer, DecryptPath, record.value.0, record.value.1, Encode(Std, blob));
      var reply := HandleBroker(service, server, request, Refused);
      var noBlob;
      plaintext, noBlob := DecodeBrokerResponse(reply, false);
  }

  // ---------- The broker refines the direct service ----------

  /** Who wraps the keys of a record for this client: the key and the context the service sees. */
  function EffectiveKeyId(client: Client, keyId: string): string {
    if client.Direct? then keyId else client.server.keyId
  }

  function EffectiveContext(client: Client, base: Context): Context {
    if client.Direct? then base else client.server.context
  }

  /** The broker answers only callers that hold its token, and only for named records. */
  predicate Admitted(client: Client, credentialId: string, key: string) {
    client.Broker? ==>
      && client.server.token != "" && client.bearer == client.server.token && client.server.wraps
      && credentialId != "" && key != ""
  }

  predicate UsableDraw(draw: Draw) {
    draw.Drawn? && |draw.dek| == DATA_KEY_SIZE && |draw.blob| > 0
  }

  lemma RecordOfContext(base: Context, credentialId: string, key: string)
    ensures BrokerRecord(RecordContext(base, credentialId, key))
            == if credentialId == "" || key == "" then None else Some((credentialId, key))
  {
  }

  lemma RecordContextInjective(base: Context, c1: string, k1: string, c2: string, k2: string)
    requires RecordContext(base, c1, k1) == RecordContext(base, c2, k2)
    ensures c1 == c2 && k1 == k2
  {
    var a, b := RecordContext(base, c1, k1), RecordContext(base, c2, k2);
    assert a[CREDENTIAL_ENTRY] == c1 && b[CREDENTIAL_ENTRY] == c2;
    assert a[SECRET_ENTRY] == k1 && b[SECRET_ENTRY] == k2;
  }

  /** Generating: the broker yields the direct service's key under the broker's own key and context,
      whatever key and context the caller configured, and only for usable keys and admitted callers. */
  lemma BrokerGenerates(client: Client, table: Table, keyId: string, base: Context,
                        credentialId: string, key: string, draw: Draw)
    requires client.Broker?
    ensures
      ClientGenerate(client, table, keyId, RecordContext(base, credentialId, key), draw)
      == if Admitted(client, credentialId, key)
         then (if UsableDraw(draw) then Some(DataKey(draw.dek, draw.blob)) else None,
               Wrap(table, client.server.keyId, RecordContext(client.server.context, credentialId, key), draw))
         else (None, table)
  {
    RecordOfContext(base, credentialId, key);
    if draw.Drawn? {
      RoundTrip(Std, draw.dek);
      RoundTrip(Std, draw.blob);
    }
  }

  lemma BrokerDecrypts(client: Client, table: Table, keyId: string, base: Context,
                       credentialId: string, key: string, blob: Bytes)
    requires client.Broker?
    ensures
      ClientDecrypt(client, table, keyId, RecordContext(base, credentialId, key), blob)
      == if !Admitted(client, credentialId, key) || |blob| == 0 then None
         else match Unwrap(table, client.server.keyId, RecordContext(client.server.context, credentialId, key), blob)
           case Some(dek) => if |dek| == DATA_KEY_SIZE then Some(dek) else None
           case None => None
  {
    RecordOfContext(base, credentialId, key);
    RoundTrip(Std, blob);
    match Unwrap(table, client.server.keyId, RecordContext(client.server.context, credentialId, key), blob)
    case Some(dek) => RoundTrip(Std, dek);
    case None =>
  }

  /** A key generated through either route is returned by decrypting its blob through the same
      route for the same record, and for no other record. */
  lemma GenerateThenDecrypt(client: Client, table: Table, keyId: string, base: Context, otherBase: Context,
                            credentialId: string, key: string, draw: Draw, otherCredential: string, otherKey: string)
    requires UsableDraw(draw)
    requires client.Direct? ==> otherBase == base
    requires Admitted(client, credentialId, key)
    ensures
      var (dataKey, after) := ClientGenerate(client, table, keyId, RecordContext(base, credentialId, key), draw);
      && dataKey == Some(DataKey(draw.dek, draw.blob))
      && ClientDecrypt(client, after, keyId, RecordContext(otherBase, otherCredential, otherKey), draw.blob)
         == if otherCredential == credentialId && otherKey == key then Some(draw.dek) else None
  {
    var own := RecordContext(EffectiveContext(client, base), credentialId, key);
    var other := RecordContext(EffectiveContext(client, base), otherCredential, otherKey);
    if own == other {
      RecordContextInjective(EffectiveContext(client, base), credentialId, key, otherCredential, otherKey);
    }
    if client.Broker? {
      BrokerGenerates(client, table, keyId, base, credentialId, key, draw);
      var after := Wrap(table, client.server.keyId, own, draw);
      BrokerDecrypts(client, after, keyId, otherBase, otherCredential, otherKey, draw.blob);
    }
  }

  // ---------- What the endpoint gives out ----------

  /** A request that the endpoint works on: posted, with the server's own token, and for a named record. */
  predicate Accepts(server: BrokerServer, request: BrokerRequest) {
    && request.verb == "POST" && server.wraps && server.token != "" && request.bearer == server.token
    && request.body.Some? && request.body.value.credentialId != "" && request.body.value.key != ""
  }

  /**
   A key is given out exactly to an accepted request, a new one under the server's own key and
   context for the record it names, or one that was wrapped under just these; and nothing else
   changes the table.
   */
  lemma GivesOutExactlyWhen(server: BrokerServer, table: Table, request: BrokerRequest, draw: Draw)
    ensures var (reply, after) := Serve(server, table, request, draw);
            && (reply.Reply? ==> Accepts(server, request))
            && (Accepts(server, request) ==>
                  var body := request.body.value;
                  var context := server.context[CREDENTIAL_ENTRY := body.credentialId][SECRET_ENTRY := body.key];
                  var blob := Decode(Std, body.encryptedDek);
                  match request.path
                  case OtherPath => reply.HttpError?
                  case GeneratePath =>
                    && (reply.Reply? <==> draw.Drawn? && |draw.dek| == 32)
                    && (reply.Reply? ==>
                          reply == Reply(Encode(Std, draw.dek), Encode(Std, draw.blob))
                          && after == table[draw.blob := Wrapped(server.keyId, context, draw.dek)])
                  case DecryptPath =>
                    && (reply.Reply? <==>
                          && blob.Some? && |blob.value| > 0 && blob.value in table
                          && table[blob.value].keyId == server.keyId && table[blob.value].context == context
                          && |table[blob.value].dek| == 32)
                    && (reply.Reply? ==> reply == Reply(Encode(Std, table[blob.value].dek), "")))
            && (!Accepts(server, request) || !request.path.GeneratePath? || draw.Refused? ==> after == table)
  {
  }

  /** How requests that are not accepted are turned away, first things first. */
  lemma TurnsAway(server: BrokerServer, table: Table, request: BrokerRequest, draw: Draw)
    requires !Accepts(server, request)
    ensures Serve(server, table, request, draw).0 == HttpError(
              if request.verb != "POST" then 405
              else if server.token == "" then 404
              else if request.bearer != server.token then 401
              else if !server.wraps then 503
              else 400)
  {
  }
}

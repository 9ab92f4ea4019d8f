/**
 The envelope store as a state machine over values: every secret is sealed under its own data
 key, and only the wrapped key and the sealed text are kept. Randomness and outside failures are
 inputs of each step. The steps are relations, because the cache may choose what to evict.
 */
module Envelope {
  import opened Wrappers
  import opened Base64
  import opened Kms
  import opened DekCache

  const NONCE_SIZE := 12

  datatype Record = Record(credentialId: string, key: string)

  datatype Payload = Payload(encryptedDek: string, ciphertext: string, nonce: string)

  /** A stored text: without the envelope prefix, with it but undecodable, or a decoded payload. */
  datatype Stored = Foreign | Undecodable | Sealed(payload: Payload)

  /** What a ciphertext was sealed from; sealing is ideal, so opening asks for exactly this. */
  datatype Secret = Secret(dek: Bytes, nonce: Bytes, aad: string, plaintext: string)
  type Vault = map<Bytes, Secret>

  datatype Error =
    | StoreFailed | NotEnvelope | BadEnvelope | BadWrappedKey | GenerateFailed | UnwrapFailed | InvalidDataKey
    | NoEntropy | BadCiphertext | BadNonce | NonceLengthPanic | OpenFailed

  datatype Outcome = Found(value: string) | Absent | Failed(error: Error)

  datatype Settings = Settings(client: Client, keyId: string, context: Context, limits: Limits)

  datatype World = World(
    table: Table, vault: Vault, records: map<Record, Stored>, cache: CacheView, clock: int)

  /** What the outside does to one call. */
  datatype Weather = Weather(storeUp: bool, kmsUp: bool, delay: nat)

  /** The randomness of one sealing: the nonce read, if any, and the ciphertext it results in. */
  datatype Entropy = NoRandom | Random(nonce: Bytes, ciphertext: Bytes)

  function Aad(r: Record): string {
    r.credentialId + "\0" + r.key
  }

  function KmsContext(settings: Settings, r: Record): Context {
    RecordContext(settings.context, r.credentialId, r.key)
  }

  // ---------- Reading ----------

  function Open(vault: Vault, dek: Bytes, nonce: Bytes, ciphertext: Bytes, aad: string): Option<string> {
    if ciphertext in vault && vault[ciphertext].dek == dek && vault[ciphertext].nonce == nonce
       && vault[ciphertext].aad == aad
    then Some(vault[ciphertext].plaintext)
    else None
  }

  function OpenPayload(vault: Vault, dek: Bytes, r: Record, payload: Payload): Outcome {
    match (Decode(Std, payload.ciphertext), Decode(Std, payload.nonce))
    case (None, _) => Failed(BadCiphertext)
    case (Some(_), None) => Failed(BadNonce)
    case (Some(ciphertext), Some(nonce)) =>
      if |nonce| != NONCE_SIZE then Failed(NonceLengthPanic)
      else match Open(vault, dek, nonce, ciphertext, Aad(r))
        case None => Failed(OpenFailed)
        case Some(value) => Found(value)
  }

  function WrappedKey(payload: Payload): Option<Bytes> {
    match Decode(Std, payload.encryptedDek)
    case None => None
    case Some(blob) => if |blob| == 0 then None else Some(blob)
  }

  function UnwrapKey(settings: Settings, table: Table, r: Record, blob: Bytes, kmsUp: bool): Result<Bytes, Error> {
    if !kmsUp then Err(UnwrapFailed)
    else match ClientDecrypt(settings.client, table, settings.keyId, KmsContext(settings, r), blob)
      case None => Err(UnwrapFailed)
      case Some(dek) => if |dek| == DATA_KEY_SIZE then Ok(dek) else Err(InvalidDataKey)
  }

  function OpenWithKey(w: World, key: Result<Bytes, Error>, r: Record, payload: Payload): Outcome {
    match key
    case Err(e) => Failed(e)
    case Ok(dek) => OpenPayload(w.vault, dek, r, payload)
  }

  /** The answer when the data key comes from the service. */
  function DecryptMiss(settings: Settings, w: World, r: Record, payload: Payload, kmsUp: bool): Outcome {
    match WrappedKey(payload)
    case None => Failed(BadWrappedKey)
    case Some(blob) => OpenWithKey(w, UnwrapKey(settings, w.table, r, blob, kmsUp), r, payload)
  }

  /** The data key of a payload: the cached one, or the one the service unwraps. */
  function FetchKey(settings: Settings, w: World, r: Record, text: string, blob: Bytes, kmsUp: bool)
    : Result<Bytes, Error>
  {
    match Lookup(settings.limits, w.cache, text, w.clock)
    case Some(dek) => Ok(dek)
    case None => UnwrapKey(settings, w.table, r, blob, kmsUp)
  }

  function Decrypt(settings: Settings, w: World, r: Record, payload: Payload, kmsUp: bool): Outcome {
    match WrappedKey(payload)
    case None => Failed(BadWrappedKey)
    case Some(blob) => OpenWithKey(w, FetchKey(settings, w, r, payload.encryptedDek, blob, kmsUp), r, payload)
  }

  function Read(settings: Settings, w: World, r: Record, weather: Weather): Outcome {
    if !weather.storeUp then Failed(StoreFailed)
    else if r !in w.records then Absent
    else match w.records[r]
      case Foreign => Failed(NotEnvelope)
      case Undecodable => Failed(BadEnvelope)
      case Sealed(payload) => Decrypt(settings, w, r, payload, weather.kmsUp)
  }

  /** The cache after a read: a hit leaves it (less an expired entry); a miss puts the unwrapped key. */
  ghost predicate CacheAfterFetch(limits: Limits, cache: CacheView, text: string, start: int,
                                  unwrapped: Result<Bytes, Error>, end: int, after: CacheView)
  {
    var swept := AfterGet(limits, cache, text, start);
    if Lookup(limits, cache, text, start).None? && unwrapped.Ok?
    then AfterPut(limits, swept, text, unwrapped.value, end, after)
    else after == swept
  }

  ghost predicate CacheAfterRead(settings: Settings, w: World, r: Record, weather: Weather, after: CacheView) {
    if weather.storeUp && r in w.records && w.records[r].Sealed? && WrappedKey(w.records[r].payload).Some?
    then
      var payload := w.records[r].payload;
      var unwrapped := UnwrapKey(settings, w.table, r, WrappedKey(payload).value, weather.kmsUp);
      CacheAfterFetch(settings.limits, w.cache, payload.encryptedDek, w.clock,
                      unwrapped, w.clock + weather.delay, after)
    else after == w.cache
  }

  ghost predicate GetStep(settings: Settings, w: World, r: Record, weather: Weather, w': World, outcome: Outcome) {
    && outcome == Read(settings, w, r, weather)
    && w' == w.(cache := w'.cache, clock := w.clock + weather.delay)
    && CacheAfterRead(settings, w, r, weather, w'.cache)
  }

  // ---------- Writing ----------

  function Generated(settings: Settings, w: World, r: Record, draw: Draw): (Option<DataKey>, Table) {
    ClientGenerate(settings.client, w.table, settings.keyId, KmsContext(settings, r), draw)
  }

  function PutError(settings: Settings, w: World, r: Record, draw: Draw, entropy: Entropy,
                    storeUp: bool): Option<Error> {
    match Generated(settings, w, r, draw).0
    case None => Some(GenerateFailed)
    case Some(dataKey) =>
      if |dataKey.dek| != DATA_KEY_SIZE || |dataKey.blob| == 0 then Some(InvalidDataKey)
      else if entropy.NoRandom? then Some(NoEntropy)
      else if !storeUp then Some(StoreFailed)
      else None
  }

  ghost predicate PutStep(settings: Settings, w: World, r: Record, value: string, draw: Draw, entropy: Entropy,
                          storeUp: bool, w': World, error: Option<Error>)
  {
    var (generated, table) := Generated(settings, w, r, draw);
    && error == PutError(settings, w, r, draw, entropy, storeUp)
    && w'.table == table && w'.clock == w.clock
    && if error.Some? && error.value != StoreFailed
       then w' == w.(table := table)
       else
         var dataKey := generated.value;
         var text := Encode(Std, dataKey.blob);
         && w'.vault == w.vault[entropy.ciphertext := Secret(dataKey.dek, entropy.nonce, Aad(r), value)]
         && AfterPut(settings.limits, w.cache, text, dataKey.dek, w.clock, w'.cache)
         && w'.records == if error.Some? then w.records
              else w.records[r := Sealed(Payload(text, Encode(Std, entropy.ciphertext), Encode(Std, entropy.nonce)))]
  }

  // ---------- Runs ----------

  datatype Op =
    | Put(r: Record, value: string, draw: Draw, entropy: Entropy, storeUp: bool)
    | Get(r: Record, weather: Weather)
    | Delete(r: Record, storeUp: bool)
    | Tick(delay: nat)
    | ClearCache
    /** Not an operation of the store: somebody else writes the record, for instance a copy of another one. */
    | Overwrite(r: Record, stored: Stored)

  datatype Event = Event(op: Op, outcome: Outcome, error: Option<Error>)

  /** Service and sealer answer with blobs and ciphertexts they have not produced before. */
  predicate FreshInputs(w: World, op: Op) {
    op.Put? ==>
      && FreshDraw(w.table, op.draw)
      && (op.entropy.Random? ==> op.entropy.ciphertext !in w.vault && |op.entropy.nonce| == NONCE_SIZE)
  }

  ghost predicate Step(settings: Settings, w: World, e: Event, w': World) {
    && FreshInputs(w, e.op)
    && match e.op
       case Put(r, value, draw, entropy, storeUp) =>
         PutStep(settings, w, r, value, draw, entropy, storeUp, w', e.error)
       case Get(r, weather) => GetStep(settings, w, r, weather, w', e.outcome)
       case Delete(r, storeUp) =>
         && e.error == (if storeUp then None else Some(StoreFailed))
         && w' == if storeUp then w.(records := w.records - {r}) else w
       case Tick(delay) => w' == w.(clock := w.clock + delay)
       case ClearCache => w' == w.(cache := map[])
       case Overwrite(r, stored) => w' == w.(records := w.records[r := stored])
  }

  /** A new store over an empty backend; the service may already have wrapped keys for others. */
  predicate Initial(w: World) {
    w.records == map[] && w.cache == map[] && w.vault == map[]
  }

  ghost predicate Run(settings: Settings, worlds: seq<World>, events: seq<Event>) {
    && |worlds| == |events| + 1
    && Initial(worlds[0])
    && forall i :: 0 <= i < |events| ==> Step(settings, worlds[i], events[i], worlds[i + 1])
  }

  // ---------- What the cache holds, in every run ----------

  ghost predicate HoldsUnwrapped(table: Table, text: string, cached: Cached) {
    var blob := Decode(Std, text);
    && blob.Some? && |blob.value| > 0 && blob.value in table
    && cached.dek == table[blob.value].dek && |cached.dek| == DATA_KEY_SIZE
  }

  /** Every cached key is the one its text unwraps to, and the cache is within its bound. */
  ghost predicate CacheSound(settings: Settings, w: World) {
    && (forall text :: text in w.cache ==> HoldsUnwrapped(w.table, text, w.cache[text]))
    && (settings.limits.Enabled() ==> |w.cache.Keys| <= settings.limits.maxEntries)
    && (!settings.limits.Enabled() ==> w.cache == map[])
  }

  lemma SoundAfterPut(settings: Settings, w: World, text: string, dek: Bytes, now: int, after: CacheView)
    requires CacheSound(settings, w)
    requires HoldsUnwrapped(w.table, text, Cached(dek, now, now))
    requires AfterPut(settings.limits, w.cache, text, dek, now, after)
    ensures CacheSound(settings, w.(cache := after))
  {
    if settings.limits.Enabled() {
      PutKeepsBound(settings.limits, w.cache, text, dek, now, after);
    }
  }

  /** A key obtained for a record through either route is the one its blob stands for. */
  lemma UnwrapIsTableKey(settings: Settings, table: Table, r: Record, blob: Bytes, kmsUp: bool)
    requires |blob| > 0
    ensures
      var unwrapped := UnwrapKey(settings, table, r, blob, kmsUp);
      unwrapped.Ok? <==>
        && kmsUp && Admitted(settings.client, r.credentialId, r.key) && blob in table
        && BoundTo(settings, table[blob], r) && |table[blob].dek| == DATA_KEY_SIZE
    ensures
      var unwrapped := UnwrapKey(settings, table, r, blob, kmsUp);
      unwrapped.Ok? ==> unwrapped.value == table[blob].dek
  {
    if settings.client.Broker? {
      BrokerDecrypts(settings.client, table, settings.keyId, settings.context, r.credentialId, r.key, blob);
    }
  }

  predicate BoundTo(settings: Settings, wrapped: Wrapped, r: Record) {
    && wrapped.keyId == EffectiveKeyId(settings.client, settings.keyId)
    && wrapped.context == RecordContext(EffectiveContext(settings.client, settings.context), r.credentialId, r.key)
  }

  lemma GeneratedKey(settings: Settings, w: World, r: Record, draw: Draw)
    ensures
      var (generated, table) := Generated(settings, w, r, draw);
      && (generated.Some? ==>
            && Admitted(settings.client, r.credentialId, r.key)
            && draw == Drawn(generated.value.dek, generated.value.blob)
            && draw.blob in table && BoundTo(settings, table[draw.blob], r) && table[draw.blob].dek == draw.dek)
      && (forall blob :: blob in w.table && (draw.Drawn? ==> blob != draw.blob) ==>
            blob in table && table[blob] == w.table[blob])
      && (forall blob :: blob in table && blob !in w.table ==>
            && draw == Drawn(table[blob].dek, blob)
            && BoundTo(settings, table[blob], r) && Admitted(settings.client, r.credentialId, r.key))
      && (Admitted(settings.client, r.credentialId, r.key) && UsableDraw(draw) ==> generated.Some?)
  {
    if settings.client.Broker? {
      BrokerGenerates(settings.client, w.table, settings.keyId, settings.context, r.credentialId, r.key, draw);
    }
  }

  lemma SoundInLargerTable(settings: Settings, w: World, table: Table)
    requires CacheSound(settings, w)
    requires forall blob :: blob in w.table ==> blob in table && table[blob] == w.table[blob]
    ensures CacheSound(settings, w.(table := table))
  {
    forall text | text in w.cache ensures HoldsUnwrapped(table, text, w.cache[text]) {
      assert HoldsUnwrapped(w.table, text, w.cache[text]);
    }
  }

  lemma StepKeepsCacheSound(settings: Settings, w: World, e: Event, w': World)
    requires CacheSound(settings, w) && Step(settings, w, e, w')
    ensures CacheSound(settings, w')
  {
    match e.op
    case Put(r, value, draw, entropy, storeUp) =>
      GeneratedKey(settings, w, r, draw);
      var (generated, table) := Generated(settings, w, r, draw);
      SoundInLargerTable(settings, w, table);
      if e.error.None? || e.error.value == StoreFailed {
        var dataKey := generated.value;
        RoundTrip(Std, dataKey.blob);
        SoundAfterPut(settings, w.(table := table), Encode(Std, dataKey.blob), dataKey.dek, w.clock, w'.cache);
      }
    case Get(r, weather) => GetKeepsCacheSound(settings, w, r, weather, w');
    case Delete(_, _) =>
    case Tick(_) =>
    case ClearCache =>
    case Overwrite(_, _) =>
  }

  lemma SweepKeepsCacheSound(settings: Settings, w: World, text: string)
    requires CacheSound(settings, w)
    ensures CacheSound(settings, w.(cache := AfterGet(settings.limits, w.cache, text, w.clock)))
  {
    var swept := AfterGet(settings.limits, w.cache, text, w.clock);
    assert swept.Keys <= w.cache.Keys;
    SubsetIsSmaller(swept.Keys, w.cache.Keys);
  }

  lemma FetchKeepsCacheSound(settings: Settings, w: World, text: string, unwrapped: Result<Bytes, Error>,
                             end: int, after: CacheView)
    requires CacheSound(settings, w)
    requires unwrapped.Ok? ==> HoldsUnwrapped(w.table, text, Cached(unwrapped.value, end, end))
    requires CacheAfterFetch(settings.limits, w.cache, text, w.clock, unwrapped, end, after)
    ensures CacheSound(settings, w.(cache := after))
  {
    SweepKeepsCacheSound(settings, w, text);
    var swept := w.(cache := AfterGet(settings.limits, w.cache, text, w.clock));
    if Lookup(settings.limits, w.cache, text, w.clock).None? && unwrapped.Ok? {
      SoundAfterPut(settings, swept, text, unwrapped.value, end, after);
    }
  }

  /** A key that was unwrapped for a record is what its text stands for. */
  lemma UnwrappedIsHeld(settings: Settings, table: Table, r: Record, text: string, blob: Bytes, kmsUp: bool, at: int)
    requires Decode(Std, text) == Some(blob) && |blob| > 0 && UnwrapKey(settings, table, r, blob, kmsUp).Ok?
    ensures HoldsUnwrapped(table, text, Cached(UnwrapKey(settings, table, r, blob, kmsUp).value, at, at))
  {
    UnwrapIsTableKey(settings, table, r, blob, kmsUp);
  }

  /** A read that comes to a wrapped key fetches it. */
  lemma ReadFetches(settings: Settings, w: World, r: Record, weather: Weather, after: CacheView, payload: Payload,
                    blob: Bytes, end: int)
    requires CacheAfterRead(settings, w, r, weather, after) && end == w.clock + weather.delay
    requires weather.storeUp && r in w.records && w.records[r] == Sealed(payload) && WrappedKey(payload) == Some(blob)
    ensures CacheAfterFetch(settings.limits, w.cache, payload.encryptedDek, w.clock,
                            UnwrapKey(settings, w.table, r, blob, weather.kmsUp), end, after)
  {
  }

  lemma GetKeepsCacheSound(settings: Settings, w: World, r: Record, weather: Weather, w': World)
    requires CacheSound(settings, w) && CacheAfterRead(settings, w, r, weather, w'.cache)
    requires w'.table == w.table
    ensures CacheSound(settings, w')
  {
    if weather.storeUp && r in w.records && w.records[r].Sealed? && WrappedKey(w.records[r].payload).Some? {
      var payload := w.records[r].payload;
      var blob, end := WrappedKey(payload).value, w.clock + weather.delay;
      var unwrapped := UnwrapKey(settings, w.table, r, blob, weather.kmsUp);
      ReadFetches(settings, w, r, weather, w'.cache, payload, blob, end);
      if unwrapped.Ok? {
        UnwrappedIsHeld(settings, w.table, r, payload.encryptedDek, blob, weather.kmsUp, end);
      }
      FetchKeepsCacheSound(settings, w, payload.encryptedDek, unwrapped, end, w'.cache);
    }
  }

  // ---------- What the cache drops, in every run ----------

  /** A cached text stands for a wrapped key; so it is not the empty one, with which the scan for the oldest starts. */
  lemma CachedTextDecodes(settings: Settings, w: World, text: string)
    requires CacheSound(settings, w)
    ensures text in w.cache ==> text != "" && Decode(Std, text).Some? && Decode(Std, text).value in w.table
  {
    if text in w.cache {
      assert HoldsUnwrapped(w.table, text, w.cache[text]);
    }
  }

  /** An entry that is dropped before it expires is no younger than any that stays, and none is while there is room. */
  ghost predicate DropsOldest(limits: Limits, before: CacheView, now: int, after: CacheView) {
    && (forall d, k :: d in before && d !in after && now < before[d].expiresAt
                       && k in before && k in after && after[k] == before[k] ==>
          before[d].createdAt <= before[k].createdAt)
    && (|Live(before, now).Keys| < limits.maxEntries ==> Live(before, now).Keys <= after.Keys)
  }

  lemma PutIsInOrder(limits: Limits, before: CacheView, text: string, dek: Bytes, now: int, after: CacheView)
    requires AfterPut(limits, before, text, dek, now, after) && "" !in before && text !in before
    ensures DropsOldest(limits, before, now, after)
  {
    if limits.Enabled() {
      PutDropsOldest(limits, before, text, dek, now, after);
    }
  }

  lemma SweepKeepsLive(limits: Limits, cache: CacheView, text: string, start: int, end: int)
    requires start <= end
    ensures Live(AfterGet(limits, cache, text, start), end) == Live(cache, end)
  {
  }

  lemma FetchIsInOrder(limits: Limits, cache: CacheView, text: string, start: int,
                       unwrapped: Result<Bytes, Error>, end: int, after: CacheView)
    requires CacheAfterFetch(limits, cache, text, start, unwrapped, end, after) && "" !in cache && start <= end
    requires !limits.Enabled() ==> cache == map[]
    ensures DropsOldest(limits, cache, end, after)
  {
    var swept := AfterGet(limits, cache, text, start);
    SweepKeepsLive(limits, cache, text, start, end);
    if Lookup(limits, cache, text, start).None? && unwrapped.Ok? {
      PutIsInOrder(limits, swept, text, unwrapped.value, end, after);
    }
  }

  lemma StepDropsOldest(settings: Settings, w: World, e: Event, w': World)
    requires CacheSound(settings, w) && Step(settings, w, e, w') && !e.op.ClearCache?
    ensures DropsOldest(settings.limits, w.cache, w'.clock, w'.cache)
  {
    CachedTextDecodes(settings, w, "");
    match e.op
    case Put(r, value, draw, entropy, storeUp) =>
      if e.error.None? || e.error.value == StoreFailed {
        GeneratedKey(settings, w, r, draw);
        var dataKey := Generated(settings, w, r, draw).0.value;
        var text := Encode(Std, dataKey.blob);
        RoundTrip(Std, dataKey.blob);
        CachedTextDecodes(settings, w, text);
        PutIsInOrder(settings.limits, w.cache, text, dataKey.dek, w.clock, w'.cache);
      }
    case Get(r, weather) => GetDropsOldest(settings, w, r, weather, w');
    case Delete(_, _) =>
    case Tick(_) =>
    case Overwrite(_, _) =>
  }

  lemma GetDropsOldest(settings: Settings, w: World, r: Record, weather: Weather, w': World)
    requires CacheSound(settings, w) && "" !in w.cache && CacheAfterRead(settings, w, r, weather, w'.cache)
    requires w'.clock == w.clock + weather.delay
    ensures DropsOldest(settings.limits, w.cache, w'.clock, w'.cache)
  {
    if weather.storeUp && r in w.records && w.records[r].Sealed? && WrappedKey(w.records[r].payload).Some? {
      var payload := w.records[r].payload;
      var blob, end := WrappedKey(payload).value, w'.clock;
      ReadFetches(settings, w, r, weather, w'.cache, payload, blob, end);
      FetchIsInOrder(settings.limits, w.cache, payload.encryptedDek, w.clock,
                     UnwrapKey(settings, w.table, r, blob, weather.kmsUp), end, w'.cache);
    }
  }

  lemma {:induction false} RunKeepsCacheSound(settings: Settings, worlds: seq<World>, events: seq<Event>, i: nat)
    requires Run(settings, worlds, events) && i <= |events|
    ensures CacheSound(settings, worlds[i])
  {
    if i > 0 {
      RunKeepsCacheSound(settings, worlds, events, i - 1);
      assert Step(settings, worlds[i - 1], events[i - 1], worlds[i - 1 + 1]);
      StepKeepsCacheSound(settings, worlds[i - 1], events[i - 1], worlds[i]);
    }
  }

  /** In every run, and whatever others write into the backend, only clearing drops a key that has not expired
      and is younger than one that stays. */
  lemma RunDropsOldest(settings: Settings, worlds: seq<World>, events: seq<Event>, i: nat)
    requires Run(settings, worlds, events) && i < |events| && !events[i].op.ClearCache?
    ensures DropsOldest(settings.limits, worlds[i].cache, worlds[i + 1].clock, worlds[i + 1].cache)
    ensures settings.limits.Enabled() ==> |worlds[i + 1].cache.Keys| <= settings.limits.maxEntries
  {
    RunKeepsCacheSound(settings, worlds, events, i);
    RunKeepsCacheSound(settings, worlds, events, i + 1);
    assert Step(settings, worlds[i], events[i], worlds[i + 1]);
    StepDropsOldest(settings, worlds[i], events[i], worlds[i + 1]);
  }

  lemma SubsetIsSmaller<T>(a: set<T>, b: set<T>)
    requires a <= b
    ensures |a| <= |b|
  {
    assert b == a + (b - a);
    assert |b| == |a| + |b - a|;
  }
}

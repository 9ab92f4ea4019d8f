/**
 The envelope store as it runs: the cache, the service and the sealer are objects, key material is
 in buffers, and every buffer a call obtained is wiped before the call returns. Each method takes
 exactly the step `Envelope` describes, so everything `EnvelopeRuns` proves holds of it.
 */
module EnvelopeStore {
  import opened Wrappers
  import opened Base64
  import opened Buffers
  import opened Kms
  import DekCache
  import opened E = Envelope

  /** Authenticated encryption, ideal: opening finds only what was sealed. */
  class Sealer {
    var vault: Vault

    constructor ()
      ensures vault == map[]
    {
      vault := map[];
    }

    method Seal(dek: array<Byte>, nonce: Bytes, plaintext: string, aad: string, ciphertext: Bytes)
      modifies this
      ensures vault == old(vault)[ciphertext := Secret(dek[..], nonce, aad, plaintext)]
    {
      vault := vault[ciphertext := Secret(dek[..], nonce, aad, plaintext)];
    }

    method Unseal(dek: array<Byte>, nonce: Bytes, ciphertext: Bytes, aad: string) returns (plaintext: Option<string>)
      ensures plaintext == E.Open(vault, dek[..], nonce, ciphertext, aad)
    {
      if ciphertext !in vault { return None; }
      var secret := vault[ciphertext];
      if secret.dek != dek[..] || secret.nonce != nonce || secret.aad != aad { return None; }
      return Some(secret.plaintext);
    }
  }

  /** The inner store: a map of records, any of whose calls may fail without effect. */
  class Backend {
    var records: map<Record, Stored>

    constructor ()
      ensures records == map[]
    {
      records := map[];
    }
  }

  lemma GetStepOfPayload(settings: Settings, w: World, r: Record, weather: Weather, outcome: Outcome, payload: Payload,
                         blob: Bytes, unwrapped: Result<Bytes, Error>, end: int, after: DekCache.CacheView)
    requires weather.storeUp && r in w.records && w.records[r] == Sealed(payload) && WrappedKey(payload) == Some(blob)
    requires unwrapped == UnwrapKey(settings, w.table, r, blob, weather.kmsUp) && end == w.clock + weather.delay
    requires var key := KeyOf(settings.limits, w.cache, payload.encryptedDek, w.clock, unwrapped);
             outcome == OpenedWith(w.vault, key, r, payload)
    requires CacheAfterFetch(settings.limits, w.cache, payload.encryptedDek, w.clock, unwrapped, end, after)
    ensures GetStep(settings, w, r, weather, w.(cache := after, clock := end), outcome)
  {
  }

  lemma GetStepWithoutKey(settings: Settings, w: World, r: Record, weather: Weather, w': World, outcome: Outcome)
    requires weather.storeUp && r in w.records && w.records[r].Sealed? ==> WrappedKey(w.records[r].payload).None?
    requires outcome == Read(settings, w, r, weather) && w' == w.(clock := w.clock + weather.delay)
    ensures GetStep(settings, w, r, weather, w', outcome)
  {
  }

  /** The data key for a text: the cached one, or the one that is unwrapped. */
  function KeyOf(limits: DekCache.Limits, view: DekCache.CacheView, text: string, now: int,
                 unwrapped: Result<Bytes, Error>): Result<Bytes, Error> {
    match DekCache.Lookup(limits, view, text, now)
    case Some(dek) => Ok(dek)
    case None => unwrapped
  }

  function OpenedWith(vault: Vault, key: Result<Bytes, Error>, r: Record, payload: Payload): Outcome {
    match key
    case Err(e) => Failed(e)
    case Ok(dek) => OpenPayload(vault, dek, r, payload)
  }

  lemma HitIsFetch(limits: DekCache.Limits, view: DekCache.CacheView, text: string, start: int,
                   unwrapped: Result<Bytes, Error>, end: int, after: DekCache.CacheView)
    requires DekCache.Lookup(limits, view, text, start).Some? && after == DekCache.AfterGet(limits, view, text, start)
    ensures CacheAfterFetch(limits, view, text, start, unwrapped, end, after)
  {
  }

  /** A miss: what the service unwraps, if anything, is cached. */
  lemma MissIsFetch(limits: DekCache.Limits, view: DekCache.CacheView, swept: DekCache.CacheView, text: string,
                    start: int,
                    dek: Bytes, end: int, after: DekCache.CacheView)
    requires DekCache.Lookup(limits, view, text, start).None? && swept == DekCache.AfterGet(limits, view, text, start)
    requires DekCache.AfterPut(limits, swept, text, dek, end, after)
    ensures CacheAfterFetch(limits, view, text, start, Ok(dek), end, after)
  {
  }

  lemma FailedMissIsFetch(limits: DekCache.Limits, view: DekCache.CacheView, text: string, start: int, error: Error,
                          end: int)
    requires DekCache.Lookup(limits, view, text, start).None?
    ensures CacheAfterFetch(limits, view, text, start, Err(error), end, DekCache.AfterGet(limits, view, text, start))
  {
  }

  class Store {
    const settings: Settings
    const service: Service
    const sealer: Sealer
    const backend: Backend
    const cache: DekCache.Cache

    ghost predicate Valid()
      reads cache, cache.Buffers
    {
      cache.Valid() && cache.limits == settings.limits
    }

    ghost function State(now: int): World
      reads service, sealer, backend, cache
    {
      World(service.table, sealer.vault, backend.records, cache.Contents, now)
    }

    constructor (settings: Settings, service: Service, sealer: Sealer, backend: Backend)
      ensures Valid() && fresh(cache) && cache.Contents == map[]
      ensures this.settings == settings && this.service == service
      ensures this.sealer == sealer && this.backend == backend
    {
      this.settings := settings;
      this.service := service;
      this.sealer := sealer;
      this.backend := backend;
      this.cache := new DekCache.Cache(settings.limits);
    }

    method Get(r: Record, weather: Weather, now: int) returns (outcome: Outcome)
      requires Valid()
      modifies service, cache, cache.Buffers
      ensures Valid() && fresh(cache.Buffers - old(cache.Buffers))
      ensures GetStep(settings, old(State(now)), r, weather, State(now + weather.delay), outcome)
    {
      ghost var before := State(now);
      var stored := if weather.storeUp && r in backend.records then Some(backend.records[r]) else None;
      var blob := if stored.Some? && stored.value.Sealed? then WrappedKey(stored.value.payload) else None;
      if blob.Some? {
        outcome := GetSealed(r, stored.value.payload, blob.value, weather, now, now + weather.delay);
      } else {
        outcome := if !weather.storeUp then Failed(StoreFailed)
                   else if stored.None? then Absent
                   else if stored.value.Foreign? then Failed(NotEnvelope)
                   else if stored.value.Undecodable? then Failed(BadEnvelope)
                   else Failed(BadWrappedKey);
        GetStepWithoutKey(settings, before, r, weather, State(now + weather.delay), outcome);
      }
    }

    method GetSealed(r: Record, payload: Payload, blob: Bytes, weather: Weather, now: int, end: int)
      returns (outcome: Outcome)
      requires Valid() && WrappedKey(payload) == Some(blob) && end == now + weather.delay
      requires weather.storeUp && r in backend.records && backend.records[r] == Sealed(payload)
      modifies service, cache, cache.Buffers
      ensures Valid() && fresh(cache.Buffers - old(cache.Buffers))
      ensures GetStep(settings, old(State(now)), r, weather, State(end), outcome)
    {
      ghost var before := State(now);
      ghost var unwrapped := UnwrapKey(settings, before.table, r, blob, weather.kmsUp);
      ghost var used;
      outcome, used := DecryptPayload(r, payload, blob, weather.kmsUp, now, end, before.cache, unwrapped);
      GetStepOfPayload(settings, before, r, weather, outcome, payload, blob, unwrapped, end, cache.Contents);
      assert State(end) == before.(cache := cache.Contents, clock := end);
    }

    method Unwrap(r: Record, blob: Bytes, kmsUp: bool) returns (dek: array?<Byte>, error: Error)
      modifies service
      ensures service.table == old(service.table) && cache.Contents == old(cache.Contents)
      ensures dek != null ==> fresh(dek)
      ensures UnwrapKey(settings, service.table, r, blob, kmsUp) == if dek == null then Err(error) else Ok(dek[..])
    {
      if !kmsUp { return null, UnwrapFailed; }
      dek := DecryptDataKey(settings.client, service, settings.keyId, KmsContext(settings, r), blob);
      if dek == null { return null, UnwrapFailed; }
      if dek.Length != DATA_KEY_SIZE {
        ZeroBytes(dek);
        return null, InvalidDataKey;
      }
      error := UnwrapFailed;
    }

    /** A key from the service, a copy of which is cached. */
    method FetchMiss(r: Record, text: string, blob: Bytes, kmsUp: bool, now: int, end: int,
                     ghost view: DekCache.CacheView, ghost unwrapped: Result<Bytes, Error>)
      returns (dek: array?<Byte>, error: Error)
      requires Valid() && unwrapped == UnwrapKey(settings, service.table, r, blob, kmsUp)
      requires DekCache.Lookup(settings.limits, view, text, now).None?
      requires cache.Contents == DekCache.AfterGet(settings.limits, view, text, now)
      modifies service, cache, cache.Buffers
      ensures Valid() && fresh(cache.Buffers - old(cache.Buffers))
      ensures service.table == old(service.table)
      ensures dek != null ==> fresh(dek) && dek !in cache.Buffers
      ensures unwrapped == if dek == null then Err(error) else Ok(dek[..])
      ensures CacheAfterFetch(settings.limits, view, text, now, unwrapped, end, cache.Contents)
    {
      ghost var swept := cache.Contents;
      dek, error := Unwrap(r, blob, kmsUp);
      if dek == null {
        FailedMissIsFetch(settings.limits, view, text, now, error, end);
      } else {
        ghost var bytes := dek[..];
        cache.Put(text, dek, end);
        assert DekCache.AfterPut(settings.limits, swept, text, bytes, end, cache.Contents);
        MissIsFetch(settings.limits, view, swept, text, now, bytes, end, cache.Contents);
      }
    }

    /** The key comes from the cache as a copy, or from the service and is copied into the cache. */
    method Fetch(r: Record, text: string, blob: Bytes, kmsUp: bool, now: int, end: int,
                 ghost view: DekCache.CacheView, ghost unwrapped: Result<Bytes, Error>)
      returns (dek: array?<Byte>, error: Error)
      requires Valid() && view == cache.Contents
      requires unwrapped == UnwrapKey(settings, service.table, r, blob, kmsUp)
      modifies service, cache, cache.Buffers
      ensures Valid() && fresh(cache.Buffers - old(cache.Buffers))
      ensures service.table == old(service.table)
      ensures dek != null ==> fresh(dek) && dek !in cache.Buffers
      ensures KeyOf(settings.limits, view, text, now, unwrapped) == if dek == null then Err(error) else Ok(dek[..])
      ensures CacheAfterFetch(settings.limits, view, text, now, unwrapped, end, cache.Contents)
    {
      error := UnwrapFailed;
      dek := cache.Get(text, now);
      if dek == null {
        dek, error := FetchMiss(r, text, blob, kmsUp, now, end, view, unwrapped);
      } else {
        HitIsFetch(settings.limits, view, text, now, unwrapped, end, cache.Contents);
      }
    }

    /** Whichever way the key came, it is in this call's own buffer, and wiping that buffer leaves
        every cached key as it was. */
    method DecryptPayload(r: Record, payload: Payload, blob: Bytes, kmsUp: bool, now: int, end: int,
                          ghost view: DekCache.CacheView, ghost unwrapped: Result<Bytes, Error>)
      returns (outcome: Outcome, ghost used: array?<Byte>)
      requires Valid() && WrappedKey(payload) == Some(blob) && view == cache.Contents
      requires unwrapped == UnwrapKey(settings, service.table, r, blob, kmsUp)
      modifies service, cache, cache.Buffers
      ensures Valid() && fresh(cache.Buffers - old(cache.Buffers))
      ensures service.table == old(service.table)
      ensures used != null ==> fresh(used) && used !in cache.Buffers && used[..] == Zeros(used.Length)
      ensures var key := KeyOf(settings.limits, view, payload.encryptedDek, now, unwrapped);
              outcome == OpenedWith(sealer.vault, key, r, payload)
      ensures CacheAfterFetch(settings.limits, view, payload.encryptedDek, now, unwrapped, end, cache.Contents)
    {
      var dek, error := Fetch(r, payload.encryptedDek, blob, kmsUp, now, end, view, unwrapped);
      used := dek;
      if dek == null { return Failed(error), null; }
      outcome := OpenWith(dek, r, payload);
      ghost var after := cache.Contents;
      ZeroBytes(dek);
      assert cache.Contents == after;
    }

    method OpenWith(dek: array<Byte>, r: Record, payload: Payload) returns (outcome: Outcome)
      ensures outcome == E.OpenPayload(sealer.vault, dek[..], r, payload)
    {
      var ciphertext := Decode(Std, payload.ciphertext);
      if ciphertext.None? { return Failed(BadCiphertext); }
      var nonce := Decode(Std, payload.nonce);
      if nonce.None? { return Failed(BadNonce); }
      if |nonce.value| != NONCE_SIZE { return Failed(NonceLengthPanic); }
      var plaintext := sealer.Unseal(dek, nonce.value, ciphertext.value, Aad(r));
      if plaintext.None? { return Failed(OpenFailed); }
      return Found(plaintext.value);
    }

    method Put(r: Record, value: string, draw: Draw, entropy: Entropy, storeUp: bool, now: int)
      returns (error: Option<Error>)
      requires Valid()
      modifies service, sealer, backend, cache, cache.Buffers
      ensures Valid() && fresh(cache.Buffers - old(cache.Buffers))
      ensures PutStep(settings, old(State(now)), r, value, draw, entropy, storeUp, State(now), error)
    {
      var dek, blob, keyError := NewKey(r, draw, now);
      if dek == null { return Some(keyError); }
      match entropy
      case NoRandom =>
        ZeroBytes(dek);
        error := Some(NoEntropy);
      case Random(nonce, ciphertext) =>
        var payload := SealValue(r, value, dek, blob, nonce, ciphertext, now);
        if !storeUp { return Some(StoreFailed); }
        backend.records := backend.records[r := Sealed(payload)];
        error := None;
    }

    /** A new data key, checked; an unusable one is wiped. */
    method NewKey(r: Record, draw: Draw, ghost now: int) returns (dek: array?<Byte>, blob: Bytes, error: Error)
      modifies service
      ensures dek != null ==> fresh(dek) && |blob| > 0
      ensures
        var (generated, table) := Generated(settings, old(State(now)), r, draw);
        && service.table == table
        && if dek != null then generated == Some(DataKey(dek[..], blob)) && |dek[..]| == DATA_KEY_SIZE
           else if generated == None then error == GenerateFailed
           else error == InvalidDataKey && (|generated.value.dek| != DATA_KEY_SIZE || |generated.value.blob| == 0)
    {
      error := GenerateFailed;
      dek, blob := GenerateDataKey(settings.client, service, settings.keyId, KmsContext(settings, r), draw);
      if dek != null && (dek.Length != DATA_KEY_SIZE || |blob| == 0) {
        ZeroBytes(dek);
        return null, [], InvalidDataKey;
      }
    }

    /** Seals the value and caches a copy of its key; the call's own copy is wiped. */
    method SealValue(r: Record, value: string, dek: array<Byte>, blob: Bytes, nonce: Bytes, ciphertext: Bytes, now: int)
      returns (payload: Payload)
      requires Valid() && dek !in cache.Buffers
      modifies sealer, cache, cache.Buffers, dek
      ensures Valid() && fresh(cache.Buffers - old(cache.Buffers))
      ensures payload == Payload(Encode(Std, blob), Encode(Std, ciphertext), Encode(Std, nonce))
      ensures sealer.vault == old(sealer.vault)[ciphertext := Secret(old(dek[..]), nonce, Aad(r), value)]
      ensures DekCache.AfterPut(settings.limits, old(cache.Contents), payload.encryptedDek, old(dek[..]), now,
                                cache.Contents)
      ensures dek !in cache.Buffers && dek[..] == Zeros(dek.Length)
    {
      sealer.Seal(dek, nonce, value, Aad(r), ciphertext);
      payload := Payload(Encode(Std, blob), Encode(Std, ciphertext), Encode(Std, nonce));
      cache.Put(payload.encryptedDek, dek, now);
      ghost var view := cache.Contents;
      ZeroBytes(dek);
      assert cache.Contents == view;
    }

    method Delete(r: Record, storeUp: bool) returns (error: Option<Error>)
      requires Valid()
      modifies backend
      ensures error == if storeUp then None else Some(StoreFailed)
      ensures backend.records == if storeUp then old(backend.records) - {r} else old(backend.records)
    {
      if !storeUp { return Some(StoreFailed); }
      backend.records := backend.records - {r};
      return None;
    }

    method ClearCache()
      requires Valid()
      modifies cache, cache.Buffers
      ensures Valid() && cache.Contents == map[]
      ensures forall k :: k in old(cache.entries) ==>
                old(cache.entries)[k].dek[..] == Zeros(old(cache.entries)[k].dek.Length)
    {
      cache.Clear();
    }
  }

  /** A configuration is accepted when it names a key and leaves the record entries to the store. */
  method NewStore(settings: Settings, service: Service, sealer: Sealer, backend: Backend) returns (store: Store?)
    ensures store != null <==>
              settings.keyId != "" && CREDENTIAL_ENTRY !in settings.context && SECRET_ENTRY !in settings.context
    ensures store != null ==>
              && fresh(store) && store.Valid() && store.settings == settings && store.service == service
              && store.sealer == sealer && store.backend == backend && store.cache.Contents == map[]
  {
    if settings.keyId == "" || CREDENTIAL_ENTRY in settings.context || SECRET_ENTRY in settings.context {
      return null;
    }
    store := new Store(settings, service, sealer, backend);
  }
}

/**
 How long a cached data key serves: an expired entry never matters, and what is read without the
 key service rests on a key that a call of this store had in hand less than a lifetime before.
 */
module EnvelopeExpiry {
  import opened Wrappers
  import opened Base64
  import opened Kms
  import opened DekCache
  import opened Envelope
  import opened EnvelopeRuns

  // ---------- Expired entries never matter ----------

  /** The world without the cached keys that have expired. */
  function OnlyLive(w: World): World {
    w.(cache := Live(w.cache, w.clock))
  }

  /** A read answers as if every expired key had been dropped before it. */
  lemma ReadIgnoresExpired(settings: Settings, w: World, r: Record, weather: Weather)
    ensures Read(settings, w, r, weather) == Read(settings, OnlyLive(w), r, weather)
    ensures forall text :: text in OnlyLive(w).cache <==> text in w.cache && w.clock < w.cache[text].expiresAt
  {
  }

  /** The keys a read may leave that are still good at its end. */
  ghost predicate MayLeave(settings: Settings, w: World, r: Record, weather: Weather, end: int, view: CacheView) {
    exists after :: CacheAfterRead(settings, w, r, weather, after) && Live(after, end) == view
  }

  lemma PutIgnoresExpired(limits: Limits, cache: CacheView, swept: CacheView, text: string, dek: Bytes, end: int,
                          after: CacheView)
    requires limits.Enabled() && Live(cache, end) == Live(swept, end) && "" !in cache && "" !in swept
    requires AfterPut(limits, cache, text, dek, end, after)
    ensures AfterPut(limits, swept, text, dek, end, after)
  {
    var survivors :| PutKeeping(limits, cache, text, dek, end, survivors, after);
    KeepLive(cache, end, survivors);
    KeepLive(swept, end, survivors);
    assert PutKeeping(limits, swept, text, dek, end, survivors, after);
  }

  /** One fetch from two caches that differ in expired entries alone. */
  lemma FetchIgnoresExpired(limits: Limits, cache: CacheView, other: CacheView, text: string, start: int,
                            unwrapped: Result<Bytes, Error>, end: int, after: CacheView) returns (after': CacheView)
    requires Live(cache, start) == Live(other, start) && "" !in cache && "" !in other && start <= end
    requires CacheAfterFetch(limits, cache, text, start, unwrapped, end, after)
    ensures CacheAfterFetch(limits, other, text, start, unwrapped, end, after')
    ensures Live(after', end) == Live(after, end)
  {
    SameLookup(limits, cache, other, text, start);
    LaterLive(cache, other, start, end);
    var (swept, swept') := (AfterGet(limits, cache, text, start), AfterGet(limits, other, text, start));
    SweepKeepsLive(limits, cache, text, start, end);
    SweepKeepsLive(limits, other, text, start, end);
    if Lookup(limits, cache, text, start).None? && unwrapped.Ok? && limits.Enabled() {
      PutIgnoresExpired(limits, swept, swept', text, unwrapped.value, end, after);
      after' := after;
    } else {
      after' := swept';
    }
  }

  lemma SameLookup(limits: Limits, cache: CacheView, other: CacheView, text: string, now: int)
    requires Live(cache, now) == Live(other, now)
    ensures Lookup(limits, cache, text, now) == Lookup(limits, other, text, now)
  {
    assert text in Live(cache, now) <==> text in Live(other, now);
    assert text in Live(cache, now) ==> Live(cache, now)[text] == cache[text] == other[text];
  }

  lemma LaterLive(cache: CacheView, other: CacheView, start: int, end: int)
    requires Live(cache, start) == Live(other, start) && start <= end
    ensures Live(cache, end) == Live(other, end)
  {
    assert Live(Live(cache, start), end) == Live(cache, end);
    assert Live(Live(other, start), end) == Live(other, end);
  }

  /** What a fetch of a read's key may leave, the read may leave. */
  lemma FetchIsRead(settings: Settings, w: World, r: Record, weather: Weather, after: CacheView, payload: Payload,
                    blob: Bytes, end: int)
    requires weather.storeUp && r in w.records && w.records[r] == Sealed(payload) && WrappedKey(payload) == Some(blob)
    requires CacheAfterFetch(settings.limits, w.cache, payload.encryptedDek, w.clock,
                             UnwrapKey(settings, w.table, r, blob, weather.kmsUp), end, after)
    requires end == w.clock + weather.delay
    ensures CacheAfterRead(settings, w, r, weather, after)
  {
  }

  /** Two worlds that differ in expired keys alone. */
  ghost predicate LiveAlike(w: World, u: World) {
    u == w.(cache := u.cache) && Live(w.cache, w.clock) == Live(u.cache, u.clock) && "" !in w.cache && "" !in u.cache
  }

  lemma ReadLeavesTheSame(settings: Settings, w: World, u: World, r: Record, weather: Weather, end: int,
                          after: CacheView) returns (after': CacheView)
    requires LiveAlike(w, u) && end == w.clock + weather.delay
    requires CacheAfterRead(settings, w, r, weather, after)
    ensures CacheAfterRead(settings, u, r, weather, after') && Live(after', end) == Live(after, end)
  {
    if weather.storeUp && r in w.records && w.records[r].Sealed? && WrappedKey(w.records[r].payload).Some? {
      var payload := w.records[r].payload;
      var blob := WrappedKey(payload).value;
      ReadFetches(settings, w, r, weather, after, payload, blob, end);
      var unwrapped := UnwrapKey(settings, w.table, r, blob, weather.kmsUp);
      after' := FetchIgnoresExpired(settings.limits, w.cache, u.cache, payload.encryptedDek, w.clock, unwrapped, end,
                                    after);
      FetchIsRead(settings, u, r, weather, after', payload, blob, end);
    } else {
      LaterLive(w.cache, u.cache, w.clock, end);
      after' := u.cache;
    }
  }

  lemma LeavesTheSame(settings: Settings, w: World, u: World, r: Record, weather: Weather, end: int, view: CacheView)
    requires LiveAlike(w, u) && end == w.clock + weather.delay && MayLeave(settings, w, r, weather, end, view)
    ensures MayLeave(settings, u, r, weather, end, view)
  {
    var after :| CacheAfterRead(settings, w, r, weather, after) && Live(after, end) == view;
    var after' := ReadLeavesTheSame(settings, w, u, r, weather, end, after);
  }

  /** And it leaves the same good keys. */
  lemma AfterReadIgnoresExpired(settings: Settings, w: World, r: Record, weather: Weather, end: int, view: CacheView)
    requires CacheSound(settings, w) && end == w.clock + weather.delay
    ensures MayLeave(settings, w, r, weather, end, view) <==> MayLeave(settings, OnlyLive(w), r, weather, end, view)
  {
    CachedTextDecodes(settings, w, "");
    assert Live(OnlyLive(w).cache, w.clock) == Live(w.cache, w.clock);
    if MayLeave(settings, w, r, weather, end, view) {
      LeavesTheSame(settings, w, OnlyLive(w), r, weather, end, view);
    }
    if MayLeave(settings, OnlyLive(w), r, weather, end, view) {
      LeavesTheSame(settings, OnlyLive(w), w, r, weather, end, view);
    }
  }

  /** In every run, a read and the good keys it leaves are those of the world without the expired keys. */
  lemma RunIgnoresExpired(settings: Settings, worlds: seq<World>, events: seq<Event>, i: nat)
    requires Run(settings, worlds, events) && i < |events| && events[i].op.Get?
    ensures var Get(r, weather) := events[i].op;
            && events[i].outcome == Read(settings, OnlyLive(worlds[i]), r, weather)
            && MayLeave(settings, OnlyLive(worlds[i]), r, weather, worlds[i + 1].clock,
                        Live(worlds[i + 1].cache, worlds[i + 1].clock))
  {
    var (w, w') := (worlds[i], worlds[i + 1]);
    var Get(r, weather) := events[i].op;
    assert Step(settings, w, events[i], w');
    ReadIgnoresExpired(settings, w, r, weather);
    RunKeepsCacheSound(settings, worlds, events, i);
    assert MayLeave(settings, w, r, weather, w'.clock, Live(w'.cache, w'.clock));
    AfterReadIgnoresExpired(settings, w, r, weather, w'.clock, Live(w'.cache, w'.clock));
  }

  // ---------- Time ----------

  /** Time passes by the delay of a tick or a read, and never goes back. */
  lemma {:induction false} TimePasses(settings: Settings, worlds: seq<World>, events: seq<Event>, i: nat, k: nat)
    requires Run(settings, worlds, events) && i <= k <= |events|
    ensures worlds[i].clock <= worlds[k].clock
    ensures k == i + 1 && events[i].op.Tick? ==> worlds[k].clock == worlds[i].clock + events[i].op.delay
    ensures k == i + 1 && events[i].op.Get? ==> worlds[k].clock == worlds[i].clock + events[i].op.weather.delay
  {
    if i < k {
      TimePasses(settings, worlds, events, i, k - 1);
      assert Step(settings, worlds[k - 1], events[k - 1], worlds[k - 1 + 1]);
    }
  }

  // ---------- Where a cached key comes from ----------

  /** The event gets hold of this key: the service has just made it, or unwrapped it, for the text. */
  ghost predicate HasInHand(settings: Settings, w: World, e: Event, text: string, dek: Bytes) {
    match e.op
    case Put(r, _, draw, _, _) => draw.Drawn? && draw.dek == dek && Encode(Std, draw.blob) == text
    case Get(r, weather) =>
      && weather.kmsUp && r in w.records && w.records[r].Sealed? && w.records[r].payload.encryptedDek == text
      && WrappedKey(w.records[r].payload).Some?
      && UnwrapKey(settings, w.table, r, WrappedKey(w.records[r].payload).value, true) == Ok(dek)
    case _ => false
  }

  /** An entry after a step was there before it, or is new and starts its lifetime at the step's end. */
  ghost predicate OldOrNew(settings: Settings, w: World, e: Event, w': World, text: string)
    requires text in w'.cache
  {
    var cached := w'.cache[text];
    || (text in w.cache && w.cache[text] == cached && !e.op.ClearCache?)
    || (HasInHand(settings, w, e, text, cached.dek)
        && cached == Cached(cached.dek, w'.clock + settings.limits.ttl, w'.clock))
  }

  lemma StepOldOrNew(settings: Settings, w: World, e: Event, w': World, text: string)
    requires Step(settings, w, e, w') && text in w'.cache && (!settings.limits.Enabled() ==> w.cache == map[])
    ensures OldOrNew(settings, w, e, w', text)
  {
    match e.op
    case Put(_, _, _, _, _) => PutOldOrNew(settings, w, e, w', text);
    case Get(r, weather) => GetOldOrNew(settings, w, r, weather, e, w', text);
    case Delete(_, _) =>
    case Tick(_) =>
    case ClearCache =>
    case Overwrite(_, _) =>
  }

  lemma PutOldOrNew(settings: Settings, w: World, e: Event, w': World, text: string)
    requires e.op.Put? && Step(settings, w, e, w') && text in w'.cache
    requires !settings.limits.Enabled() ==> w.cache == map[]
    ensures OldOrNew(settings, w, e, w', text)
  {
    var Put(r, value, draw, entropy, storeUp) := e.op;
    if settings.limits.Enabled() && (e.error.None? || e.error.value == StoreFailed) {
      GeneratedKey(settings, w, r, draw);
      var dataKey := Generated(settings, w, r, draw).0.value;
      PutKeepsBound(settings.limits, w.cache, Encode(Std, dataKey.blob), dataKey.dek, w.clock, w'.cache);
    }
  }

  lemma GetOldOrNew(settings: Settings, w: World, r: Record, weather: Weather, e: Event, w': World, text: string)
    requires e.op == Get(r, weather) && CacheAfterRead(settings, w, r, weather, w'.cache)
    requires w'.clock == w.clock + weather.delay && text in w'.cache
    requires !settings.limits.Enabled() ==> w.cache == map[]
    ensures OldOrNew(settings, w, e, w', text)
  {
    if weather.storeUp && r in w.records && w.records[r].Sealed? && WrappedKey(w.records[r].payload).Some? {
      var payload := w.records[r].payload;
      var blob, end := WrappedKey(payload).value, w'.clock;
      var unwrapped := UnwrapKey(settings, w.table, r, blob, weather.kmsUp);
      ReadFetches(settings, w, r, weather, w'.cache, payload, blob, end);
      FetchedOldOrNew(settings.limits, w.cache, payload.encryptedDek, w.clock, unwrapped, end, w'.cache, text);
    }
  }

  lemma FetchedOldOrNew(limits: Limits, cache: CacheView, fetched: string, start: int,
                        unwrapped: Result<Bytes, Error>, end: int, after: CacheView, text: string)
    requires CacheAfterFetch(limits, cache, fetched, start, unwrapped, end, after) && text in after
    requires !limits.Enabled() ==> cache == map[]
    ensures || (text in cache && cache[text] == after[text])
            || (text == fetched && unwrapped == Ok(after[text].dek)
                && after[text] == Cached(after[text].dek, end + limits.ttl, end))
  {
    var swept := AfterGet(limits, cache, fetched, start);
    if limits.Enabled() && Lookup(limits, cache, fetched, start).None? && unwrapped.Ok? {
      PutKeepsBound(limits, swept, fetched, unwrapped.value, end, after);
    }
  }

  /** The key was in hand at step `j`, its lifetime started there, and nothing cleared the cache since. */
  ghost predicate CachedAt(settings: Settings, worlds: seq<World>, events: seq<Event>, i: nat, text: string,
                           cached: Cached, j: nat)
    requires j < i <= |events| && |worlds| == |events| + 1
  {
    && HasInHand(settings, worlds[j], events[j], text, cached.dek)
    && cached == Cached(cached.dek, worlds[j + 1].clock + settings.limits.ttl, worlds[j + 1].clock)
    && forall k :: j < k < i ==> !events[k].op.ClearCache?
  }

  lemma CachedStays(settings: Settings, worlds: seq<World>, events: seq<Event>, n: nat, text: string, cached: Cached,
                    j: nat, i: nat)
    requires j < n < |events| && |worlds| == |events| + 1 && i == n + 1 && !events[n].op.ClearCache?
    requires CachedAt(settings, worlds, events, n, text, cached, j)
    ensures CachedAt(settings, worlds, events, i, text, cached, j)
  {
  }

  lemma {:induction false} CachedKeysWereInHand(settings: Settings, worlds: seq<World>, events: seq<Event>, i: nat,
                                                text: string, cached: Cached) returns (j: nat)
    requires Run(settings, worlds, events) && i <= |events|
    requires text in worlds[i].cache && worlds[i].cache[text] == cached
    ensures j < i && CachedAt(settings, worlds, events, i, text, cached, j)
  {
    j := i - 1;
    var (w, e) := (worlds[j], events[j]);
    assert Step(settings, w, e, worlds[j + 1]);
    RunKeepsCacheSound(settings, worlds, events, j);
    StepOldOrNew(settings, w, e, worlds[i], text);
    if text in w.cache && w.cache[text] == cached && !e.op.ClearCache? {
      var n := j;
      j := CachedKeysWereInHand(settings, worlds, events, n, text, cached);
      CachedStays(settings, worlds, events, n, text, cached, j, i);
    }
  }

  /** This key opens the payload, was in hand at step `j`, less than a lifetime ago, and nothing was cleared since. */
  ghost predicate OpenedWithKeyOf(settings: Settings, worlds: seq<World>, events: seq<Event>, i: nat, r: Record,
                                  payload: Payload, dek: Bytes, j: nat)
    requires j < i < |events| && |worlds| == |events| + 1
  {
    && events[i].outcome == OpenPayload(worlds[i].vault, dek, r, payload)
    && HasInHand(settings, worlds[j], events[j], payload.encryptedDek, dek)
    && worlds[i].clock < worlds[j + 1].clock + settings.limits.ttl
    && forall k :: j < k < i ==> !events[k].op.ClearCache?
  }

  /**
   In every run, and whatever others write into the backend: a secret that is read while the key
   service is down was opened with a key that an earlier step had in hand, less than a lifetime ago,
   and that no clearing came after.
   */
  lemma OfflineReadsAreRecent(settings: Settings, worlds: seq<World>, events: seq<Event>, i: nat)
    returns (payload: Payload, dek: Bytes, j: nat)
    requires Run(settings, worlds, events) && i < |events| && events[i].op.Get?
    requires !events[i].op.weather.kmsUp && events[i].outcome.Found?
    ensures settings.limits.ttl > 0 && settings.limits.maxEntries > 0
    ensures events[i].op.r in worlds[i].records && worlds[i].records[events[i].op.r] == Sealed(payload)
    ensures j < i && OpenedWithKeyOf(settings, worlds, events, i, events[i].op.r, payload, dek, j)
  {
    var w := worlds[i];
    var Get(r, weather) := events[i].op;
    assert Step(settings, w, events[i], worlds[i + 1]);
    payload := w.records[r].payload;
    var text := payload.encryptedDek;
    assert Lookup(settings.limits, w.cache, text, w.clock).Some?;
    dek := w.cache[text].dek;
    j := CachedKeysWereInHand(settings, worlds, events, i, text, w.cache[text]);
  }

  // ---------- Why there is a cache ----------

  /** The read succeeded with a key that the service unwrapped, and there is a cache. */
  ghost predicate FetchedAndFound(settings: Settings, w: World, e: Event, w': World, payload: Payload) {
    && settings.limits.Enabled() && Step(settings, w, e, w') && e.op.Get? && e.outcome.Found?
    && e.op.r in w.records && w.records[e.op.r] == Sealed(payload)
    && Lookup(settings.limits, w.cache, payload.encryptedDek, w.clock).None?
  }

  lemma FetchedIsCached(settings: Settings, w: World, e: Event, w': World, payload: Payload)
    requires FetchedAndFound(settings, w, e, w', payload)
    ensures var text := payload.encryptedDek;
            && WrappedKey(payload).Some? && text in w'.cache
            && w'.cache[text].expiresAt == w'.clock + settings.limits.ttl
            && OpenPayload(w.vault, w'.cache[text].dek, e.op.r, payload) == e.outcome
  {
    var Get(r, weather) := e.op;
    var blob, end := WrappedKey(payload).value, w'.clock;
    var unwrapped := UnwrapKey(settings, w.table, r, blob, weather.kmsUp);
    ReadFetches(settings, w, r, weather, w'.cache, payload, blob, end);
    var swept := AfterGet(settings.limits, w.cache, payload.encryptedDek, w.clock);
    PutKeepsBound(settings.limits, swept, payload.encryptedDek, unwrapped.value, end, w'.cache);
  }

  /**
   What a read has fetched is at hand: until the lifetime is over, the same read succeeds again
   without the key service, as long as nothing else happens to the store.
   */
  lemma ReadsAgainOffline(settings: Settings, w: World, e: Event, w': World, payload: Payload, later: int, delay: nat)
    requires FetchedAndFound(settings, w, e, w', payload) && later < w'.clock + settings.limits.ttl
    ensures Read(settings, w'.(clock := later), e.op.r, Weather(true, false, delay)) == e.outcome
  {
    FetchedIsCached(settings, w, e, w', payload);
  }

  /** Nor does a read need the service for what a Put has just stored. */
  lemma PutReadsOffline(settings: Settings, w: World, e: Event, w': World, later: int, delay: nat)
    requires CacheSound(settings, w) && settings.limits.Enabled() && Step(settings, w, e, w')
    requires e.op.Put? && e.error.None? && later < w'.clock + settings.limits.ttl
    ensures Read(settings, w'.(clock := later), e.op.r, Weather(true, false, delay)) == Found(e.op.value)
  {
    PutIsCached(settings, w, e, w');
    PutGrows(settings, w, e, w');
    GeneratedKey(settings, w, e.op.r, e.op.draw);
    var dek, text := e.op.draw.dek, PayloadOf(e.op).encryptedDek;
    PutKeepsBound(settings.limits, w.cache, text, dek, w.clock, w'.cache);
    RoundTrip(Std, e.op.draw.blob);
    CarriedPayloadOpens(settings, w', e.op.r, PayloadOf(e.op), e.op.value);
  }
}

/**
 What every run of the envelope store promises: it is a plain map, whatever the cache and the
 clock do; and an envelope answers the same whether its key comes from the cache or the service.
 */
module EnvelopeRuns {
  import opened Wrappers
  import opened Base64
  import opened Kms
  import opened DekCache
  import opened Envelope

  // ---------- The store is a map ----------

  /** The payload carries this value for this record. */
  predicate Carries(settings: Settings, w: World, r: Record, payload: Payload, value: string) {
    && WrappedKey(payload).Some?
    && WrappedKey(payload).value in w.table
    && var wrapped := w.table[WrappedKey(payload).value];
    && BoundTo(settings, wrapped, r) && |wrapped.dek| == DATA_KEY_SIZE
    && Admitted(settings.client, r.credentialId, r.key)
    && var (ciphertext, nonce) := (Decode(Std, payload.ciphertext), Decode(Std, payload.nonce));
    && ciphertext.Some? && nonce.Some? && |nonce.value| == NONCE_SIZE
    && ciphertext.value in w.vault
    && w.vault[ciphertext.value] == Secret(wrapped.dek, nonce.value, Aad(r), value)
  }

  ghost predicate Represents(settings: Settings, w: World, m: map<Record, string>) {
    && w.records.Keys == m.Keys
    && forall r :: r in m ==> w.records[r].Sealed? && Carries(settings, w, r, w.records[r].payload, m[r])
  }

  /** The plain map the store is meant to be. */
  function MapStep(m: map<Record, string>, e: Event): map<Record, string> {
    if e.op.Put? && e.error.None? then m[e.op.r := e.op.value]
    else if e.op.Delete? && e.error.None? then m - {e.op.r}
    else m
  }

  /** The map's answer to a read, or the one outside failure that could not be avoided. */
  predicate MapAnswers(m: map<Record, string>, r: Record, weather: Weather, outcome: Outcome) {
    if !weather.storeUp then outcome == Failed(StoreFailed)
    else if r !in m then outcome == Absent
    else outcome == Found(m[r]) || (!weather.kmsUp && outcome == Failed(UnwrapFailed))
  }

  lemma HitIsTableKey(settings: Settings, w: World, text: string)
    requires CacheSound(settings, w)
    ensures
      var hit := Lookup(settings.limits, w.cache, text, w.clock);
      hit.Some? ==>
        && Decode(Std, text).Some? && Decode(Std, text).value in w.table
        && hit.value == w.table[Decode(Std, text).value].dek && |hit.value| == DATA_KEY_SIZE
  {
    if text in w.cache {
      assert HoldsUnwrapped(w.table, text, w.cache[text]);
    }
  }

  lemma CarriedPayloadOpens(settings: Settings, w: World, r: Record, payload: Payload, value: string)
    requires Carries(settings, w, r, payload, value)
    ensures OpenPayload(w.vault, w.table[WrappedKey(payload).value].dek, r, payload) == Found(value)
  {
  }

  /** A stored record reads as its value, with a cached key or an unwrapped one, if the service is up for the latter. */
  lemma CarriedReadAnswers(settings: Settings, w: World, r: Record, payload: Payload, value: string, kmsUp: bool)
    requires CacheSound(settings, w) && Carries(settings, w, r, payload, value)
    ensures var outcome := Decrypt(settings, w, r, payload, kmsUp);
            outcome == Found(value) || (!kmsUp && outcome.Failed?)
  {
    HitIsTableKey(settings, w, payload.encryptedDek);
    CarriedPayloadOpens(settings, w, r, payload, value);
    UnwrapIsTableKey(settings, w.table, r, WrappedKey(payload).value, kmsUp);
  }

  lemma ReadAnswers(settings: Settings, w: World, m: map<Record, string>, r: Record, weather: Weather)
    requires CacheSound(settings, w) && Represents(settings, w, m)
    ensures MapAnswers(m, r, weather, Read(settings, w, r, weather))
  {
    if weather.storeUp && r in m {
      CarriedReadAnswers(settings, w, r, w.records[r].payload, m[r], weather.kmsUp);
    }
  }

  /** Service and sealer only learn new entries. */
  predicate Grows(w: World, w': World) {
    && (forall blob :: blob in w.table ==> blob in w'.table && w'.table[blob] == w.table[blob])
    && (forall c :: c in w.vault ==> c in w'.vault && w'.vault[c] == w.vault[c])
  }

  lemma CarriesInLargerWorld(settings: Settings, w: World, w': World, q: Record, payload: Payload, value: string)
    requires Carries(settings, w, q, payload, value) && Grows(w, w')
    ensures Carries(settings, w', q, payload, value)
  {
  }

  lemma RepresentsInLargerWorld(settings: Settings, w: World, w': World, m: map<Record, string>, r: Record)
    requires Represents(settings, w, m) && Grows(w, w')
    ensures w'.records == w.records ==> Represents(settings, w', m)
    ensures w'.records == w.records - {r} ==> Represents(settings, w', m - {r})
  {
    forall q | q in m ensures Carries(settings, w', q, w.records[q].payload, m[q]) {
      CarriesInLargerWorld(settings, w, w', q, w.records[q].payload, m[q]);
    }
  }

  lemma RepresentsWithNewRecord(settings: Settings, w: World, w': World, m: map<Record, string>,
                                r: Record, payload: Payload, value: string)
    requires Represents(settings, w, m) && Grows(w, w')
    requires w'.records == w.records[r := Sealed(payload)] && Carries(settings, w', r, payload, value)
    ensures Represents(settings, w', m[r := value])
  {
    forall q | q in m[r := value]
      ensures w'.records[q].Sealed? && Carries(settings, w', q, w'.records[q].payload, m[r := value][q])
    {
      if q != r {
        CarriesInLargerWorld(settings, w, w', q, w.records[q].payload, m[q]);
      }
    }
  }

  /** All that a Put does to the service and the sealer. */
  ghost predicate PutGrowth(settings: Settings, w: World, op: Op, w': World)
    requires op.Put?
  {
    && Grows(w, w')
    && (forall blob :: blob in w'.table && blob !in w.table ==>
          && op.draw == Drawn(w'.table[blob].dek, blob)
          && BoundTo(settings, w'.table[blob], op.r) && Admitted(settings.client, op.r.credentialId, op.r.key))
    && (w'.vault != w.vault ==>
          && UsableDraw(op.draw) && op.entropy.Random?
          && op.draw.blob in w'.table && op.draw.blob !in w.table && w'.table[op.draw.blob].dek == op.draw.dek
          && w'.vault == w.vault[op.entropy.ciphertext := Secret(op.draw.dek, op.entropy.nonce, Aad(op.r), op.value)]
          && op.entropy.ciphertext !in w.vault)
  }

  lemma PutGrows(settings: Settings, w: World, e: Event, w': World)
    requires Step(settings, w, e, w') && e.op.Put?
    ensures PutGrowth(settings, w, e.op, w')
    ensures e.error.None? <==>
            && Admitted(settings.client, e.op.r.credentialId, e.op.r.key) && UsableDraw(e.op.draw)
            && e.op.entropy.Random? && e.op.storeUp
    ensures e.error.None? ==>
              && w'.vault != w.vault
              && w'.records == w.records[e.op.r := Sealed(PayloadOf(e.op))]
    ensures e.error.Some? ==> w'.records == w.records
  {
    GeneratedKey(settings, w, e.op.r, e.op.draw);
    if e.error.None? {
      assert e.op.entropy.ciphertext in w'.vault;
    }
  }

  function PayloadOf(op: Op): Payload
    requires op.Put? && op.draw.Drawn? && op.entropy.Random?
  {
    Payload(Encode(Std, op.draw.blob), Encode(Std, op.entropy.ciphertext), Encode(Std, op.entropy.nonce))
  }

  lemma NewPayloadCarries(settings: Settings, w: World, op: Op, w': World)
    requires op.Put? && PutGrowth(settings, w, op, w') && w'.vault != w.vault && FreshInputs(w, op)
    ensures Carries(settings, w', op.r, PayloadOf(op), op.value)
  {
    RoundTrip(Std, op.draw.blob);
    RoundTrip(Std, op.entropy.ciphertext);
    RoundTrip(Std, op.entropy.nonce);
  }

  lemma PutRefines(settings: Settings, w: World, m: map<Record, string>, e: Event, w': World)
    requires Represents(settings, w, m) && Step(settings, w, e, w') && e.op.Put?
    ensures Represents(settings, w', MapStep(m, e))
  {
    PutGrows(settings, w, e, w');
    if e.error.None? {
      NewPayloadCarries(settings, w, e.op, w');
      RepresentsWithNewRecord(settings, w, w', m, e.op.r, PayloadOf(e.op), e.op.value);
    } else {
      RepresentsInLargerWorld(settings, w, w', m, e.op.r);
    }
  }

  lemma OtherStepRefines(settings: Settings, w: World, m: map<Record, string>, e: Event, w': World)
    requires Represents(settings, w, m) && Step(settings, w, e, w') && !e.op.Put? && !e.op.Overwrite?
    ensures Represents(settings, w', MapStep(m, e))
  {
    RepresentsInLargerWorld(settings, w, w', m, if e.op.Delete? then e.op.r else Record("", ""));
  }

  lemma StepRefines(settings: Settings, w: World, m: map<Record, string>, e: Event, w': World)
    requires CacheSound(settings, w) && Represents(settings, w, m)
    requires Step(settings, w, e, w') && !e.op.Overwrite?
    ensures CacheSound(settings, w') && Represents(settings, w', MapStep(m, e))
    ensures e.op.Get? ==> MapAnswers(m, e.op.r, e.op.weather, e.outcome)
  {
    StepKeepsCacheSound(settings, w, e, w');
    if e.op.Put? {
      PutRefines(settings, w, m, e, w');
    } else {
      OtherStepRefines(settings, w, m, e, w');
      if e.op.Get? {
        ReadAnswers(settings, w, m, e.op.r, e.op.weather);
      }
    }
  }

  function Replay(events: seq<Event>): map<Record, string> {
    if events == [] then map[] else MapStep(Replay(events[..|events| - 1]), events[|events| - 1])
  }

  lemma {:induction false} RunRefines(settings: Settings, worlds: seq<World>, events: seq<Event>, i: nat)
    requires Run(settings, worlds, events) && i <= |events|
    requires forall e :: e in events ==> !e.op.Overwrite?
    ensures CacheSound(settings, worlds[i]) && Represents(settings, worlds[i], Replay(events[..i]))
  {
    if i > 0 {
      RunRefines(settings, worlds, events, i - 1);
      assert events[..i][..i - 1] == events[..i - 1];
      assert Step(settings, worlds[i - 1], events[i - 1], worlds[i - 1 + 1]);
      StepRefines(settings, worlds[i - 1], Replay(events[..i - 1]), events[i - 1], worlds[i]);
    }
  }

  /** The value of the last successful Put of a record that no successful Delete follows. */
  function LastPut(events: seq<Event>, r: Record): Option<string> {
    if events == [] then None
    else
      var last := events[|events| - 1];
      if last.op.Put? && last.op.r == r && last.error.None? then Some(last.op.value)
      else if last.op.Delete? && last.op.r == r && last.error.None? then None
      else LastPut(events[..|events| - 1], r)
  }

  lemma {:induction false} ReplayIsLastPut(events: seq<Event>, r: Record)
    ensures LastPut(events, r) == if r in Replay(events) then Some(Replay(events)[r]) else None
  {
    if events != [] {
      ReplayIsLastPut(events[..|events| - 1], r);
    }
  }

  /** In every run, with any clock, expiry, eviction and clearing in between, a read that the backend
      and the service let through returns exactly the last value put since the last delete. */
  lemma StoreIsAMap(settings: Settings, worlds: seq<World>, events: seq<Event>, i: nat)
    requires Run(settings, worlds, events) && i < |events| && events[i].op.Get?
    requires forall e :: e in events ==> !e.op.Overwrite?
    ensures
      var Get(r, weather) := events[i].op;
      var last := LastPut(events[..i], r);
      && (weather.storeUp && weather.kmsUp ==>
            events[i].outcome == match last case Some(value) => Found(value) case None => Absent)
      && (events[i].outcome.Found? ==> last == Some(events[i].outcome.value))
      && (events[i].outcome == Absent ==> last == None)
  {
    RunRefines(settings, worlds, events, i);
    assert Step(settings, worlds[i], events[i], worlds[i + 1]);
    StepRefines(settings, worlds[i], Replay(events[..i]), events[i], worlds[i + 1]);
    ReplayIsLastPut(events[..i], events[i].op.r);
  }

  /** In every run a Put succeeds exactly when the caller is admitted, the service hands out a usable
      key, there is randomness and the backend is up: an empty credential id or key fails at a broker. */
  lemma PutSucceedsExactlyWhen(settings: Settings, worlds: seq<World>, events: seq<Event>, i: nat)
    requires Run(settings, worlds, events) && i < |events| && events[i].op.Put?
    requires forall e :: e in events ==> !e.op.Overwrite?
    ensures
      var Put(r, value, draw, entropy, storeUp) := events[i].op;
      events[i].error.None? <==>
        && (settings.client.Broker? ==>
              && settings.client.server.token != "" && settings.client.bearer == settings.client.server.token
              && settings.client.server.wraps
              && r.credentialId != "" && r.key != "")
        && draw.Drawn? && |draw.dek| == DATA_KEY_SIZE && |draw.blob| > 0
        && entropy.Random? && storeUp
  {
    RunRefines(settings, worlds, events, i);
    assert Step(settings, worlds[i], events[i], worlds[i + 1]);
    PutGrows(settings, worlds[i], events[i], worlds[i + 1]);
  }

  // ---------- Hit and miss agree ----------

  predicate NulFree(s: string) {
    '\0' !in s
  }

  /** The text that binds a ciphertext to its record is unambiguous when credential ids have no NUL. */
  lemma AadInjective(a: Record, b: Record)
    requires NulFree(a.credentialId) && NulFree(b.credentialId) && Aad(a) == Aad(b)
    ensures a == b
  {
    var n, k := |a.credentialId|, |b.credentialId|;
    assert Aad(a)[n] == '\0' && Aad(b)[k] == '\0';
    assert forall i :: 0 <= i < n ==> Aad(a)[i] == a.credentialId[i];
    assert forall i :: 0 <= i < k ==> Aad(b)[i] == b.credentialId[i];
    assert Aad(a)[..n] == a.credentialId && Aad(b)[..n] == b.credentialId;
    assert Aad(a)[n + 1..] == a.key && Aad(b)[n + 1..] == b.key;
  }

  /** Without that, two records can share it. */
  lemma AadAmbiguousWithNul()
    ensures Record("a\0b", "c") != Record("a", "b\0c")
    ensures Aad(Record("a\0b", "c")) == Aad(Record("a", "b\0c"))
  {
    assert Record("a\0b", "c").key != Record("a", "b\0c").key;
    assert "a\0b" + "\0" + "c" == "a" + "\0" + "b\0c";
  }

  /** The sealed text was sealed for this record, whose key is wrapped for this record. */
  ghost predicate SealedOnlyFor(settings: Settings, secret: Secret, wrapped: Wrapped, r: Record) {
    && secret.aad == Aad(r) && NulFree(r.credentialId)
    && BoundTo(settings, wrapped, r) && Admitted(settings.client, r.credentialId, r.key)
  }

  /** A data key is used for one record: whatever it sealed is bound to the record it is wrapped for. */
  ghost predicate KeysBound(settings: Settings, w: World) {
    && (forall c :: c in w.vault ==> exists blob :: blob in w.table && w.table[blob].dek == w.vault[c].dek)
    && (forall c, blob :: c in w.vault && blob in w.table && w.table[blob].dek == w.vault[c].dek ==>
          exists r :: SealedOnlyFor(settings, w.vault[c], w.table[blob], r))
  }

  /** The service does not hand out the same data key twice, and nothing is put under an id with a NUL. */
  predicate DistinctKeys(w: World, op: Op) {
    op.Put? ==>
      && NulFree(op.r.credentialId)
      && (op.draw.Drawn? ==> forall blob :: blob in w.table ==> w.table[blob].dek != op.draw.dek)
  }

  lemma GrowthKeepsKeysBound(settings: Settings, w: World, op: Op, w': World)
    requires KeysBound(settings, w) && op.Put? && PutGrowth(settings, w, op, w') && DistinctKeys(w, op)
    ensures KeysBound(settings, w')
  {
    forall c | c in w'.vault
      ensures exists blob :: blob in w'.table && w'.table[blob].dek == w'.vault[c].dek
    {
      if c in w.vault {
        var blob :| blob in w.table && w.table[blob].dek == w.vault[c].dek;
        assert blob in w'.table && w'.table[blob].dek == w'.vault[c].dek;
      } else {
        assert op.draw.blob in w'.table && w'.table[op.draw.blob].dek == w'.vault[c].dek;
      }
    }
    forall c, blob | c in w'.vault && blob in w'.table && w'.table[blob].dek == w'.vault[c].dek
      ensures exists q :: SealedOnlyFor(settings, w'.vault[c], w'.table[blob], q)
    {
      if c in w.vault {
        var known :| known in w.table && w.table[known].dek == w.vault[c].dek;
        assert blob in w.table;
        var q :| SealedOnlyFor(settings, w.vault[c], w.table[blob], q);
        assert SealedOnlyFor(settings, w'.vault[c], w'.table[blob], q);
      } else {
        assert blob !in w.table;
        assert SealedOnlyFor(settings, w'.vault[c], w'.table[blob], op.r);
      }
    }
  }

  lemma StepKeepsKeysBound(settings: Settings, w: World, e: Event, w': World)
    requires KeysBound(settings, w) && Step(settings, w, e, w') && DistinctKeys(w, e.op)
    ensures KeysBound(settings, w')
  {
    if e.op.Put? {
      PutGrows(settings, w, e, w');
      GrowthKeepsKeysBound(settings, w, e.op, w');
    }
  }

  /** The answer a hit gives for this payload at this record. */
  function DecryptHit(w: World, dek: Bytes, r: Record, payload: Payload): Outcome {
    OpenPayload(w.vault, dek, r, payload)
  }

  /** For any envelope at any NUL-free record, also one copied from elsewhere, a cached key and the
      service lead to the same value, or both fail. */
  lemma HitAgreesWithMiss(settings: Settings, w: World, r: Record, payload: Payload)
    requires CacheSound(settings, w) && KeysBound(settings, w) && NulFree(r.credentialId)
    requires WrappedKey(payload).Some?
    requires Lookup(settings.limits, w.cache, payload.encryptedDek, w.clock).Some?
    ensures
      var dek := Lookup(settings.limits, w.cache, payload.encryptedDek, w.clock).value;
      var (hit, miss) := (DecryptHit(w, dek, r, payload), DecryptMiss(settings, w, r, payload, true));
      hit == miss || (hit.Failed? && miss.Failed?)
  {
    var blob := WrappedKey(payload).value;
    HitIsTableKey(settings, w, payload.encryptedDek);
    UnwrapIsTableKey(settings, w.table, r, blob, true);
    var hit := DecryptHit(w, w.table[blob].dek, r, payload);
    if hit.Found? {
      var c := Decode(Std, payload.ciphertext).value;
      assert c in w.vault && w.table[blob].dek == w.vault[c].dek;
      var q :| SealedOnlyFor(settings, w.vault[c], w.table[blob], q);
      AadInjective(q, r);
    }
  }

  lemma {:induction false} RunKeepsKeysBound(settings: Settings, worlds: seq<World>, events: seq<Event>, i: nat)
    requires Run(settings, worlds, events) && i <= |events|
    requires forall j :: 0 <= j < |events| ==> DistinctKeys(worlds[j], events[j].op)
    ensures KeysBound(settings, worlds[i])
  {
    if i > 0 {
      RunKeepsKeysBound(settings, worlds, events, i - 1);
      assert Step(settings, worlds[i - 1], events[i - 1], worlds[i - 1 + 1]);
      assert DistinctKeys(worlds[i - 1], events[i - 1].op);
      StepKeepsKeysBound(settings, worlds[i - 1], events[i - 1], worlds[i]);
    }
  }

  /** In every run, records overwritten by others included, the cache never changes what a read answers:
      with the service up, a read equals the same read from an empty cache, or both fail. */
  lemma CacheIsTransparent(settings: Settings, worlds: seq<World>, events: seq<Event>, i: nat, r: Record, delay: nat)
    requires Run(settings, worlds, events) && i <= |events| && NulFree(r.credentialId)
    requires forall j :: 0 <= j < |events| ==> DistinctKeys(worlds[j], events[j].op)
    ensures
      var weather := Weather(true, true, delay);
      var cached := Read(settings, worlds[i], r, weather);
      var uncached := Read(settings, worlds[i].(cache := map[]), r, weather);
      cached == uncached || (cached.Failed? && uncached.Failed?)
  {
    RunKeepsCacheSound(settings, worlds, events, i);
    RunKeepsKeysBound(settings, worlds, events, i);
    var w := worlds[i];
    if r in w.records && w.records[r].Sealed? && WrappedKey(w.records[r].payload).Some? {
      var payload := w.records[r].payload;
      if Lookup(settings.limits, w.cache, payload.encryptedDek, w.clock).Some? {
        HitAgreesWithMiss(settings, w, r, payload);
      }
    }
  }

  /** Exactly when it holds for an envelope of one record read at another: the records are the same, or
      their binding texts differ. Records that share a binding text are told apart by the service alone. */
  lemma CopiedEnvelopeAgreesExactlyWhen(settings: Settings, w: World, r: Record, q: Record, payload: Payload,
                                        value: string)
    requires CacheSound(settings, w) && Carries(settings, w, r, payload, value)
    requires Lookup(settings.limits, w.cache, payload.encryptedDek, w.clock).Some?
    ensures
      var dek := Lookup(settings.limits, w.cache, payload.encryptedDek, w.clock).value;
      var (hit, miss) := (DecryptHit(w, dek, q, payload), DecryptMiss(settings, w, q, payload, true));
      && (hit == miss || (hit.Failed? && miss.Failed?) <==> q == r || Aad(q) != Aad(r))
      && (q != r && Aad(q) == Aad(r) ==> hit == Found(value) && miss == Failed(UnwrapFailed))
  {
    var blob := WrappedKey(payload).value;
    HitIsTableKey(settings, w, payload.encryptedDek);
    UnwrapIsTableKey(settings, w.table, q, blob, true);
    var base := EffectiveContext(settings.client, settings.context);
    if BoundTo(settings, w.table[blob], q) {
      RecordContextInjective(base, r.credentialId, r.key, q.credentialId, q.key);
    }
    CarriedPayloadOpens(settings, w, r, payload, value);
  }

  // ---------- An answer that depends on the cache ----------

  /** What a successful Put leaves behind: the record reads as its value, and its key is in the cache. */
  lemma PutIsCached(settings: Settings, w: World, e: Event, w': World)
    requires CacheSound(settings, w) && settings.limits.Enabled()
    requires Step(settings, w, e, w') && e.op.Put? && e.error.None?
    ensures e.op.draw.Drawn? && e.op.entropy.Random?
    ensures var payload := PayloadOf(e.op);
            && e.op.r in w'.records && w'.records[e.op.r] == Sealed(payload)
            && Carries(settings, w', e.op.r, payload, e.op.value)
            && Lookup(settings.limits, w'.cache, payload.encryptedDek, w'.clock).Some?
  {
    PutGrows(settings, w, e, w');
    NewPayloadCarries(settings, w, e.op, w');
    GeneratedKey(settings, w, e.op.r, e.op.draw);
    var dek, text := e.op.draw.dek, PayloadOf(e.op).encryptedDek;
    PutKeepsBound(settings.limits, w.cache, text, dek, w.clock, w'.cache);
  }

  /** Read at another record with the same binding text, a copied envelope opens from the cache alone. */
  lemma CopyOpensFromCacheOnly(settings: Settings, w: World, r: Record, q: Record, payload: Payload, value: string,
                               delay: nat)
    requires CacheSound(settings, w) && Carries(settings, w, r, payload, value)
    requires Lookup(settings.limits, w.cache, payload.encryptedDek, w.clock).Some?
    requires q in w.records && w.records[q] == Sealed(payload) && q != r && Aad(q) == Aad(r)
    ensures var weather := Weather(true, true, delay);
            && Read(settings, w, q, weather) == Found(value)
            && Read(settings, w.(cache := map[]), q, weather) == Failed(UnwrapFailed)
  {
    CopiedEnvelopeAgreesExactlyWhen(settings, w, r, q, payload, value);
  }

  /** After a Put of one record, a copy of its envelope over another with the same binding text is such a case. */
  lemma CopyAfterPut(settings: Settings, w: World, put: Event, w': World, copy: Event, w'': World,
                     q: Record, delay: nat)
    requires CacheSound(settings, w) && settings.limits.Enabled()
    requires Step(settings, w, put, w') && put.op.Put? && put.error.None?
    requires put.op.r in w'.records && copy.op == Overwrite(q, w'.records[put.op.r]) && Step(settings, w', copy, w'')
    requires q != put.op.r && Aad(q) == Aad(put.op.r)
    ensures var weather := Weather(true, true, delay);
            && Read(settings, w'', q, weather) == Found(put.op.value)
            && Read(settings, w''.(cache := map[]), q, weather) == Failed(UnwrapFailed)
  {
    PutIsCached(settings, w, put, w');
    StepKeepsCacheSound(settings, w, put, w');
    StepKeepsCacheSound(settings, w', copy, w'');
    CopyOpensFromCacheOnly(settings, w'', put.op.r, q, PayloadOf(put.op), put.op.value, delay);
  }

  /** A Put that nothing hinders can be taken. */
  lemma PutHappens(settings: Settings, w: World, op: Op) returns (w': World, e: Event)
    requires w.cache == map[] && settings.limits.Enabled() && op.Put? && FreshInputs(w, op)
    requires Admitted(settings.client, op.r.credentialId, op.r.key) && UsableDraw(op.draw)
    requires op.entropy.Random? && op.storeUp
    ensures e.op == op && e.error.None? && Step(settings, w, e, w')
  {
    GeneratedKey(settings, w, op.r, op.draw);
    var (generated, table) := Generated(settings, w, op.r, op.draw);
    var dek, text, now := generated.value.dek, Encode(Std, generated.value.blob), w.clock;
    var cached := Cached(dek, now + settings.limits.ttl, now);
    w' := World(
      table, w.vault[op.entropy.ciphertext := Secret(dek, op.entropy.nonce, Aad(op.r), op.value)],
      w.records[op.r := Sealed(PayloadOf(op))], map[text := cached], w.clock);
    e := Event(op, Absent, None);
    assert PutKeeping(settings.limits, w.cache, text, dek, now, {}, w'.cache);
  }

  /** So there is a run whose last read depends on the cache, for any settings under which the record can be put. */
  lemma CacheChangesAnAnswer(settings: Settings, value: string, delay: nat)
    returns (worlds: seq<World>, events: seq<Event>)
    requires settings.limits.Enabled() && Admitted(settings.client, "a\0b", "c")
    ensures Run(settings, worlds, events) && |events| == 2
    ensures var (q, weather) := (Record("a", "b\0c"), Weather(true, true, delay));
            && Read(settings, worlds[2], q, weather) == Found(value)
            && Read(settings, worlds[2].(cache := map[]), q, weather) == Failed(UnwrapFailed)
  {
    AadAmbiguousWithNul();
    worlds, events := CacheChangesAnAnswerAt(settings, Record("a\0b", "c"), Record("a", "b\0c"), value, delay);
  }

  lemma CacheChangesAnAnswerAt(settings: Settings, r: Record, q: Record, value: string, delay: nat)
    returns (worlds: seq<World>, events: seq<Event>)
    requires settings.limits.Enabled() && Admitted(settings.client, r.credentialId, r.key)
    requires q != r && Aad(q) == Aad(r)
    ensures Run(settings, worlds, events) && |events| == 2
    ensures var weather := Weather(true, true, delay);
            && Read(settings, worlds[2], q, weather) == Found(value)
            && Read(settings, worlds[2].(cache := map[]), q, weather) == Failed(UnwrapFailed)
  {
    var start := World(map[], map[], map[], map[], 0);
    var draw := Drawn(seq(DATA_KEY_SIZE, _ => 0), [0]);
    var entropy := Random(seq(NONCE_SIZE, _ => 0), [0]);
    var sealed, put := PutHappens(settings, start, Put(r, value, draw, entropy, true));
    PutGrows(settings, start, put, sealed);
    var stored := sealed.records[r];
    var copied := sealed.(records := sealed.records[q := stored]);
    var copy := Event(Overwrite(q, stored), Absent, None);
    CopyAfterPut(settings, start, put, sealed, copy, copied, q, delay);
    worlds, events := [start, sealed, copied], [put, copy];
  }
}

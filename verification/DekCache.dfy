/**
 The bounded, expiring cache of unwrapped data keys. Entries own their buffers: `Put` copies the
 key in, `Get` copies it out, and an entry's buffer is wiped when the entry is dropped.
 */
module DekCache {
  import opened Wrappers
  import opened Base64
  import opened Buffers

  /** What an entry holds, without the buffer it holds it in. */
  datatype Cached = Cached(dek: Bytes, expiresAt: int, createdAt: int)
  type CacheView = map<string, Cached>

  datatype Limits = Limits(ttl: int, maxEntries: int) {
    predicate Enabled() {
      ttl > 0 && maxEntries > 0
    }
  }

  function Live(view: CacheView, now: int): CacheView {
    map k | k in view && now < view[k].expiresAt :: view[k]
  }

  function Lookup(limits: Limits, view: CacheView, key: string, now: int): Option<Bytes> {
    if limits.Enabled() && key in view && now < view[key].expiresAt then Some(view[key].dek) else None
  }

  function AfterGet(limits: Limits, view: CacheView, key: string, now: int): CacheView {
    if limits.Enabled() && key in view && now >= view[key].expiresAt then view - {key} else view
  }

  /** Which live entries a `Put` may keep: as many as leave room for one more, and, as long as no
      entry has the empty key (the scan's start marker), none that is older than a dropped one. */
  ghost predicate Survivors(limits: Limits, view: CacheView, now: int, survivors: set<string>) {
    var live := Live(view, now);
    && survivors <= live.Keys
    && |survivors| == RoomFor(limits, |live.Keys|)
    && ("" !in view ==> NoOlderDropped(live, survivors))
  }

  ghost predicate NoOlderDropped(view: CacheView, kept: set<string>)
    requires kept <= view.Keys
  {
    forall d, k :: d in view && d !in kept && k in kept ==> view[d].createdAt <= view[k].createdAt
  }

  function Keep(view: CacheView, survivors: set<string>): CacheView {
    map k | k in view && k in survivors :: view[k]
  }

  function RoomFor(limits: Limits, size: nat): int {
    if size >= limits.maxEntries then limits.maxEntries - 1 else size
  }

  lemma EvictStep(limits: Limits, view: CacheView, kept: set<string>, oldest: string)
    requires kept <= view.Keys && oldest in kept && |kept| >= limits.maxEntries
    ensures Keep(view, kept) - {oldest} == Keep(view, kept - {oldest})
    ensures |kept - {oldest}| == |kept| - 1
    ensures RoomFor(limits, |kept - {oldest}|) == RoomFor(limits, |kept|)
    ensures (forall k :: k in kept ==> view[oldest].createdAt <= view[k].createdAt) && NoOlderDropped(view, kept)
            ==> NoOlderDropped(view, kept - {oldest})
  {
  }

  lemma KeepLive(view: CacheView, now: int, survivors: set<string>)
    requires survivors <= Live(view, now).Keys
    ensures Keep(Live(view, now), survivors) == Keep(view, survivors)
  {
  }

  ghost predicate PutKeeping(limits: Limits, before: CacheView, key: string, dek: Bytes, now: int,
                             survivors: set<string>, after: CacheView)
  {
    && Survivors(limits, before, now, survivors)
    && after == Keep(before, survivors)[key := Cached(dek, now + limits.ttl, now)]
  }

  ghost predicate AfterPut(limits: Limits, before: CacheView, key: string, dek: Bytes, now: int, after: CacheView) {
    if !limits.Enabled() then after == before
    else exists survivors :: PutKeeping(limits, before, key, dek, now, survivors, after)
  }

  /** After a `Put` the cache is within its bound; what is left besides the new entry is what it was,
      and none of it had expired. */
  lemma PutKeepsBound(limits: Limits, before: CacheView, key: string, dek: Bytes, now: int, after: CacheView)
    requires limits.Enabled() && AfterPut(limits, before, key, dek, now, after)
    ensures key in after && after[key] == Cached(dek, now + limits.ttl, now)
    ensures |after.Keys| <= limits.maxEntries
    ensures forall k :: k in after && k != key ==> k in before && after[k] == before[k] && now < before[k].expiresAt
  {
    var survivors :| PutKeeping(limits, before, key, dek, now, survivors, after);
    assert after.Keys == survivors + {key};
    OneMore(survivors, key);
  }

  lemma OneMore(keys: set<string>, key: string)
    ensures |keys + {key}| <= |keys| + 1
  {
    assert keys + {key} == if key in keys then keys else keys + {key};
  }

  /** A live entry that a `Put` dropped is no younger than any that stayed, and none is dropped
      while there is room. */
  lemma PutDropsOldest(limits: Limits, before: CacheView, key: string, dek: Bytes, now: int, after: CacheView)
    requires limits.Enabled() && AfterPut(limits, before, key, dek, now, after)
    ensures "" !in before ==>
              forall d, k :: d in before && d !in after && now < before[d].expiresAt && k in after && k != key ==>
                before[d].createdAt <= before[k].createdAt
    ensures |Live(before, now).Keys| < limits.maxEntries ==> Live(before, now).Keys <= after.Keys
  {
    var survivors :| PutKeeping(limits, before, key, dek, now, survivors, after);
    var live := Live(before, now);
    assert after.Keys == survivors + {key};
    if |live.Keys| < limits.maxEntries {
      SubsetOfEqualSize(survivors, live.Keys);
    }
  }

  lemma SubsetOfEqualSize<T>(a: set<T>, b: set<T>)
    requires a <= b && |a| == |b|
    ensures a == b
  {
    assert b == a + (b - a);
    assert |b| == |a| + |b - a|;
  }

  datatype Entry = Entry(dek: array<Byte>, expiresAt: int, createdAt: int)

  class Cache {
    const limits: Limits
    var entries: map<string, Entry>

    /** What the entries hold, and the buffers they hold it in. */
    ghost var Contents: CacheView
    ghost var Buffers: set<array<Byte>>

    /** Each entry has a buffer of its own, which holds its key. */
    ghost predicate Valid()
      reads this, Buffers
    {
      && Contents.Keys == entries.Keys
      && (forall k :: k in entries ==>
            && entries[k].dek in Buffers
            && Contents[k] == Cached(entries[k].dek[..], entries[k].expiresAt, entries[k].createdAt))
      && (forall j, k :: j in entries && k in entries && j != k ==> entries[j].dek != entries[k].dek)
    }

    constructor (limits: Limits)
      ensures Valid() && this.limits == limits
      ensures Contents == map[] && Buffers == {}
    {
      this.limits := limits;
      entries, Contents, Buffers := map[], map[], {};
    }

    /** Wipes and removes one entry. */
    method Drop(key: string)
      requires Valid() && key in entries
      modifies this, entries[key].dek
      ensures Valid()
      ensures entries == old(entries) - {key} && Contents == old(Contents) - {key}
      ensures Buffers == old(Buffers) - {old(entries[key].dek)}
      ensures old(entries[key].dek)[..] == Zeros(old(entries[key].dek.Length))
    {
      ZeroBytes(entries[key].dek);
      Buffers, Contents := Buffers - {entries[key].dek}, Contents - {key};
      entries := entries - {key};
    }

    /** A hit is an entry that has not expired; the caller gets its own copy, which it may wipe. */
    method Get(key: string, now: int) returns (dek: array?<Byte>)
      requires Valid()
      modifies this, Buffers
      ensures Valid() && Buffers <= old(Buffers)
      ensures Contents == AfterGet(limits, old(Contents), key, now)
      ensures dek != null <==> limits.ttl > 0 && limits.maxEntries > 0
                               && key in old(entries) && now < old(entries)[key].expiresAt
      ensures dek != null ==> fresh(dek) && dek[..] == old(entries[key].dek[..]) && entries == old(entries)
      ensures limits.Enabled() && dek == null ==> entries == old(entries) - {key}
      ensures Lookup(limits, old(Contents), key, now) == if dek == null then None else Some(dek[..])
    {
      if !limits.Enabled() || key !in entries { return null; }
      var entry := entries[key];
      if !(now < entry.expiresAt) {
        Drop(key);
        return null;
      }
      dek := NewBuffer(entry.dek[..]);
    }

    /** Drops every entry that has expired. */
    method DropExpired(now: int)
      requires Valid()
      modifies this, Buffers
      ensures Valid() && Buffers <= old(Buffers)
      ensures Contents == Live(old(Contents), now)
    {
      ghost var before := Contents;
      var pending := entries.Keys;
      while pending != {}
        invariant Valid() && Buffers <= old(Buffers)
        invariant pending <= Contents.Keys <= before.Keys
        invariant forall k :: k in Contents ==> Contents[k] == before[k]
        invariant forall k :: k in before && k !in pending ==> (k in Contents <==> now < before[k].expiresAt)
        decreases pending
      {
        var key :| key in pending;
        if !(now < entries[key].expiresAt) {
          Drop(key);
        }
        pending := pending - {key};
      }
    }

    /** One pass over the entries, in any order, for one that no other entry is older than. */
    method Oldest() returns (oldestKey: string)
      requires entries != map[]
      ensures oldestKey in entries
      ensures "" !in entries ==>
                forall k :: k in entries ==> entries[oldestKey].createdAt <= entries[k].createdAt
    {
      oldestKey := "";
      var oldest := 0;
      var pending := entries.Keys;
      while pending != {}
        invariant pending <= entries.Keys
        invariant pending == entries.Keys ==> oldestKey == ""
        invariant pending != entries.Keys ==> oldestKey in entries && oldest == entries[oldestKey].createdAt
        invariant "" !in entries ==>
                    forall k :: k in entries.Keys - pending ==> oldest <= entries[k].createdAt
        decreases pending
      {
        var key :| key in pending;
        if oldestKey == "" || entries[key].createdAt < oldest {
          oldestKey, oldest := key, entries[key].createdAt;
        }
        pending := pending - {key};
      }
    }

    /** Evicts one entry that no other is older than. */
    method EvictOne() returns (ghost dropped: string)
      requires Valid() && entries != map[]
      modifies this, Buffers
      ensures Valid() && Buffers <= old(Buffers)
      ensures dropped in old(Contents) && Contents == old(Contents) - {dropped}
      ensures "" !in old(Contents) ==>
                forall k :: k in old(Contents) ==> old(Contents)[dropped].createdAt <= old(Contents)[k].createdAt
    {
      var oldestKey := Oldest();
      Drop(oldestKey);
      dropped := oldestKey;
    }

    /** Evicts until there is room for one more. */
    method Evict()
      requires Valid() && limits.Enabled()
      modifies this, Buffers
      ensures Valid() && Buffers <= old(Buffers)
      ensures Contents.Keys <= old(Contents).Keys && Contents == Keep(old(Contents), Contents.Keys)
      ensures |Contents.Keys| == RoomFor(limits, |old(Contents).Keys|)
      ensures "" !in old(Contents) ==> NoOlderDropped(old(Contents), Contents.Keys)
    {
      ghost var before := Contents;
      assert |entries| == |entries.Keys|;
      while |entries| >= limits.maxEntries
        invariant Valid() && Buffers <= old(Buffers)
        invariant Contents.Keys <= before.Keys && Contents == Keep(before, Contents.Keys)
        invariant RoomFor(limits, |Contents.Keys|) == RoomFor(limits, |before.Keys|)
        invariant |entries| == |Contents.Keys| <= |before.Keys|
        invariant "" !in before ==> NoOlderDropped(before, Contents.Keys)
        decreases |entries|
      {
        ghost var keys := Contents.Keys;
        ghost var oldest := EvictOne();
        EvictStep(limits, before, keys, oldest);
        assert Contents.Keys == keys - {oldest};
        assert |entries| == |entries.Keys|;
      }
    }

    method Insert(key: string, dek: array<Byte>, now: int)
      requires Valid()
      modifies this
      ensures Valid() && fresh(Buffers - old(Buffers))
      ensures Contents == old(Contents)[key := Cached(dek[..], now + limits.ttl, now)]
    {
      var copy := NewBuffer(dek[..]);
      entries := entries[key := Entry(copy, now + limits.ttl, now)];
      Contents := Contents[key := Cached(dek[..], now + limits.ttl, now)];
      Buffers := Buffers + {copy};
    }

    method Put(key: string, dek: array<Byte>, now: int)
      requires Valid() && dek !in Buffers
      modifies this, Buffers
      ensures Valid() && fresh(Buffers - old(Buffers))
      ensures AfterPut(limits, old(Contents), key, dek[..], now, Contents)
    {
      if !limits.Enabled() { return; }
      ghost var before := Contents;
      DropExpired(now);
      Evict();
      ghost var survivors := Contents.Keys;
      KeepLive(before, now, survivors);
      Insert(key, dek, now);
      assert PutKeeping(limits, before, key, dek[..], now, survivors, Contents);
    }

    method Clear()
      requires Valid()
      modifies this, Buffers
      ensures Valid() && entries == map[] && Contents == map[]
      ensures forall k :: k in old(entries) ==> old(entries)[k].dek[..] == Zeros(old(entries)[k].dek.Length)
    {
      var pending := entries.Keys;
      while pending != {}
        invariant Valid() && Buffers <= old(Buffers)
        invariant pending == entries.Keys
        invariant forall k :: k in entries ==> k in old(entries) && entries[k] == old(entries)[k]
        invariant forall k :: k in old(entries) && k !in entries ==>
                    old(entries)[k].dek[..] == Zeros(old(entries)[k].dek.Length)
        decreases pending
      {
        var key :| key in pending;
        Drop(key);
        pending := pending - {key};
      }
    }
  }
}

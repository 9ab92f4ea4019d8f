/**
 Descriptions of services kept in the secret store, one entry each, and the entry that lists
 their identifiers.
 */
module ServiceIndex {
  import opened Distinct
  import opened Services
  import opened Text
  import opened Wrappers

  type Entry = (string, string)

  /** What an entry holds, as far as it can be read. */
  datatype Payload = ServiceText(id: string, service: Service) | IdsText(ids: seq<string>) | OtherText(text: string)

  type Entries = map<Entry, Payload>

  const SECRET_KEY := "_scia_service_config_v1"
  const INDEX: Entry := ("scia-service-metadata", "service_ids_v1")

  datatype IndexError = NoId | Refused(reason: ServiceError) | Unreadable | WrongId | FetchFailed | StoreFailed

  // ---------- What the operations mean ----------

  function ListIDs(m: Entries): Result<seq<string>, IndexError> {
    if INDEX !in m then Ok([])
    else match m[INDEX]
      case IdsText(ids) => Ok(DistinctNames(ids))
      case _ => Err(Unreadable)
  }

  function Get(validUrl: string -> bool, m: Entries, id: string): Result<Option<Service>, IndexError> {
    var key := (TrimSpace(id), SECRET_KEY);
    if key.0 == "" || key !in m then Ok(None)
    else match m[key]
      case ServiceText(storedId, service) =>
        if storedId != "" && storedId != key.0 then Err(WrongId)
        else (match Normalize(validUrl, key.0, service)
              case Err(e) => Err(Refused(e))
              case Ok(n) => Ok(Some(n)))
      case _ => Err(Unreadable)
  }

  function AddToIndex(m: Entries, id: string): Result<Entries, IndexError> {
    var name := TrimSpace(id);
    if name == "" then Err(NoId)
    else match ListIDs(m)
      case Err(e) => Err(e)
      case Ok(ids) => Ok(if name in ids then m else m[INDEX := IdsText(ids + [name])])
  }

  /** The entries after a call, and its error. */
  datatype Written = Written(entries: Entries, error: Option<IndexError>)

  function Put(validUrl: string -> bool, m: Entries, id: string, service: Service): Written {
    var name := TrimSpace(id);
    if name == "" then Written(m, Some(NoId))
    else match Normalize(validUrl, name, service)
      case Err(e) => Written(m, Some(Refused(e)))
      case Ok(n) =>
        var stored := m[(name, SECRET_KEY) := ServiceText(name, SanitizeForClient(n))];
        match AddToIndex(stored, name)
        case Err(e) => Written(stored, Some(e))
        case Ok(indexed) => Written(indexed, None)
  }

  // ---------- Runs of Put ----------

  datatype Item = Item(id: string, service: Service)

  predicate Accepted(validUrl: string -> bool, item: Item) {
    TrimSpace(item.id) != "" && Normalize(validUrl, TrimSpace(item.id), item.service).Ok?
  }

  function Puts(validUrl: string -> bool, m: Entries, items: seq<Item>): Entries {
    if items == [] then m
    else
      var last := items[|items| - 1];
      Put(validUrl, Puts(validUrl, m, items[..|items| - 1]), last.id, last.service).entries
  }

  lemma PutsOne(validUrl: string -> bool, m: Entries, item: Item)
    ensures Puts(validUrl, m, [item]) == Put(validUrl, m, item.id, item.service).entries
  {
    assert [item][..0] == [];
    assert Puts(validUrl, m, [item][..0]) == m;
  }

  function AcceptedIds(validUrl: string -> bool, items: seq<Item>): seq<string> {
    if items == [] then []
    else
      var before, last := AcceptedIds(validUrl, items[..|items| - 1]), items[|items| - 1];
      if Accepted(validUrl, last) then before + [TrimSpace(last.id)] else before
  }

  /** What the last accepted call for a name stored: the normalized description, without client secrets. */
  function LastPut(validUrl: string -> bool, items: seq<Item>, name: string): Option<Service> {
    if items == [] then None
    else
      var last := items[|items| - 1];
      if Accepted(validUrl, last) && TrimSpace(last.id) == name
      then Some(SanitizeForClient(Normalize(validUrl, name, last.service).value))
      else LastPut(validUrl, items[..|items| - 1], name)
  }

  lemma ListedNames(m: Entries)
    requires ListIDs(m).Ok?
    ensures forall id :: id in ListIDs(m).value ==> id != "" && Trimmed(id)
    ensures NoRepeats(ListIDs(m).value)
  {
    if INDEX in m {
      NamesAreTrimmed(m[INDEX].ids);
    }
  }

  lemma ListedWith(m: Entries, name: string)
    requires ListIDs(m).Ok? && name != "" && Trimmed(name)
    ensures AddToIndex(m, name).Ok? && ListIDs(AddToIndex(m, name).value) == Ok(Firsts(ListIDs(m).value + [name]))
  {
    var ids := ListIDs(m).value;
    ListedNames(m);
    TrimSpaceFixes(name);
    if name in ids {
      FirstsAfter(ids, name);
      FirstsOfNoRepeats(ids);
    } else {
      NewNameListed(m, ids, name);
    }
  }

  lemma NewNameListed(m: Entries, ids: seq<string>, name: string)
    requires NoRepeats(ids) && (forall id :: id in ids ==> id != "" && Trimmed(id))
    requires name !in ids && name != "" && Trimmed(name)
    ensures ListIDs(m[INDEX := IdsText(ids + [name])]) == Ok(Firsts(ids + [name]))
  {
    assert NoRepeats(ids + [name]);
    NamesFixed(ids + [name]);
  }

  /** One call: the listed names gain the new one at the end, unless they have it. */
  lemma PutListed(validUrl: string -> bool, m: Entries, item: Item)
    requires ListIDs(m).Ok?
    ensures var w := Put(validUrl, m, item.id, item.service);
            && (w.error.None? <==> Accepted(validUrl, item))
            && ListIDs(w.entries) ==
                 (if Accepted(validUrl, item) then Ok(Firsts(ListIDs(m).value + [TrimSpace(item.id)])) else ListIDs(m))
  {
    if Accepted(validUrl, item) {
      var name := TrimSpace(item.id);
      var stored := ServiceText(name, SanitizeForClient(Normalize(validUrl, name, item.service).value));
      TrimSpaceTrims(item.id);
      assert ListIDs(m[(name, SECRET_KEY) := stored]) == ListIDs(m);
      ListedWith(m[(name, SECRET_KEY) := stored], name);
    }
  }

  /** One call: the description of its name, and no other, is replaced. */
  lemma PutStored(validUrl: string -> bool, m: Entries, item: Item, id: string)
    ensures var w := Put(validUrl, m, item.id, item.service);
            Get(validUrl, w.entries, id) ==
              if Accepted(validUrl, item) && TrimSpace(item.id) == TrimSpace(id)
              then Ok(Some(SanitizeForClient(Normalize(validUrl, TrimSpace(id), item.service).value)))
              else Get(validUrl, m, id)
  {
    TrimSpaceTwice(item.id);
    if Accepted(validUrl, item) {
      NormalizedIsFixed(validUrl, TrimSpace(item.id), item.service);
    }
  }

  /**
   What is read under an identifier: nothing without a name or an entry; otherwise the normal form
   of the entry's description, if it is one, is kept under this name or under none, and is accepted.
   */
  lemma GetMeans(validUrl: string -> bool, m: Entries, id: string)
    ensures var (name, r) := (TrimSpace(id), Get(validUrl, m, id));
            && (r == Ok(None) <==> name == "" || (name, SECRET_KEY) !in m)
            && (r.Ok? && r.value.Some? <==>
                  && name != "" && (name, SECRET_KEY) in m && m[(name, SECRET_KEY)].ServiceText?
                  && m[(name, SECRET_KEY)].id in ["", name]
                  && Normalize(validUrl, name, m[(name, SECRET_KEY)].service).Ok?)
            && (r.Ok? && r.value.Some? ==>
                  Normalize(validUrl, name, m[(name, SECRET_KEY)].service) == Ok(r.value.value))
  {
  }

  /** One more call, when the list so far is the distinct names of `all`. */
  lemma PutListedOnward(validUrl: string -> bool, m: Entries, item: Item, all: seq<string>)
    requires ListIDs(m) == Ok(Firsts(all))
    ensures ListIDs(Put(validUrl, m, item.id, item.service).entries) ==
              Ok(Firsts(if Accepted(validUrl, item) then all + [TrimSpace(item.id)] else all))
  {
    PutListed(validUrl, m, item);
    FirstsOnward(all, TrimSpace(item.id));
  }

  /** After any run of calls, the list has the distinct accepted names in the order of their first call. */
  lemma {:induction false} RunListed(validUrl: string -> bool, m: Entries, items: seq<Item>)
    requires ListIDs(m).Ok?
    ensures ListIDs(Puts(validUrl, m, items)) == Ok(Firsts(ListIDs(m).value + AcceptedIds(validUrl, items)))
  {
    var listed := ListIDs(m).value;
    if items == [] {
      ListedNames(m);
      FirstsOfNoRepeats(listed);
      assert listed + AcceptedIds(validUrl, items) == listed;
    } else {
      var init, last := items[..|items| - 1], items[|items| - 1];
      var all := listed + AcceptedIds(validUrl, init);
      RunListed(validUrl, m, init);
      PutListedOnward(validUrl, Puts(validUrl, m, init), last, all);
      assert all + [TrimSpace(last.id)] == listed + (AcceptedIds(validUrl, init) + [TrimSpace(last.id)]);
    }
  }

  /** And every name reads back as what its last accepted call stored. */
  lemma {:induction false} RunStored(validUrl: string -> bool, m: Entries, items: seq<Item>, id: string)
    ensures Get(validUrl, Puts(validUrl, m, items), id) ==
              match LastPut(validUrl, items, TrimSpace(id))
              case Some(service) => Ok(Some(service))
              case None => Get(validUrl, m, id)
  {
    if items != [] {
      var init, last := items[..|items| - 1], items[|items| - 1];
      RunStored(validUrl, m, init, id);
      PutStored(validUrl, Puts(validUrl, m, init), last, id);
    }
  }

  /** From an empty store: what is listed, in the order of first calls, and that every listed name can be read. */
  lemma IndexIsComplete(validUrl: string -> bool, items: seq<Item>)
    ensures var m := Puts(validUrl, map[], items);
            var accepted := AcceptedIds(validUrl, items);
            && ListIDs(m).Ok? && NoRepeats(ListIDs(m).value)
            && (forall id :: id in ListIDs(m).value <==> id in accepted)
            && (forall i, j :: 0 <= i < j < |ListIDs(m).value| ==>
                  FirstIndex(accepted, ListIDs(m).value[i]) < FirstIndex(accepted, ListIDs(m).value[j]))
            && (forall id :: id in ListIDs(m).value ==>
                  LastPut(validUrl, items, id).Some?
                  && Get(validUrl, m, id) == Ok(Some(LastPut(validUrl, items, id).value)))
  {
    var accepted := AcceptedIds(validUrl, items);
    RunListed(validUrl, map[], items);
    assert [] + accepted == accepted;
    forall i, j | 0 <= i < j < |Firsts(accepted)|
      ensures FirstIndex(accepted, Firsts(accepted)[i]) < FirstIndex(accepted, Firsts(accepted)[j])
    {
      FirstsInOrder(accepted, i, j);
    }
    forall id | id in accepted
      ensures LastPut(validUrl, items, id).Some?
              && Get(validUrl, Puts(validUrl, map[], items), id) == Ok(Some(LastPut(validUrl, items, id).value))
    {
      LastPutExists(validUrl, items, id);
      RunStored(validUrl, map[], items, id);
    }
  }

  lemma {:induction false} LastPutExists(validUrl: string -> bool, items: seq<Item>, name: string)
    ensures name in AcceptedIds(validUrl, items) <==> LastPut(validUrl, items, name).Some?
    ensures name in AcceptedIds(validUrl, items) ==> TrimSpace(name) == name && name != ""
  {
    if items != [] {
      LastPutExists(validUrl, items[..|items| - 1], name);
      TrimSpaceTwice(items[|items| - 1].id);
    }
  }

  /** One accepted call on an empty store. */
  lemma OneStored(validUrl: string -> bool, item: Item, name: string)
    requires Accepted(validUrl, item) && TrimSpace(item.id) == name && TrimSpace(name) == name
    ensures var m := Puts(validUrl, map[], [item]);
            && ListIDs(m) == Ok([name])
            && Get(validUrl, m, name) == Ok(Some(SanitizeForClient(Normalize(validUrl, name, item.service).value)))
  {
    PutsOne(validUrl, map[], item);
    PutStored(validUrl, map[], item, name);
    PutListedOnward(validUrl, map[], item, []);
    assert [] + [name] == [name];
    FirstsOfNoRepeats([name]);
  }

  // ---------- Over a store that may fail ----------

  class SecretStore {
    var entries: Entries

    constructor (m: Entries)
      ensures entries == m
    {
      entries := m;
    }

    method Read(key: Entry) returns (r: Result<Option<Payload>, IndexError>)
      ensures r == Err(StoreFailed) || r == Ok(if key in entries then Some(entries[key]) else None)
    {
      var up: bool := *;
      r := if !up then Err(StoreFailed) else Ok(if key in entries then Some(entries[key]) else None);
    }

    method Write(key: Entry, payload: Payload) returns (written: bool)
      modifies this
      ensures entries == if written then old(entries)[key := payload] else old(entries)
    {
      written := *;
      if written {
        entries := entries[key := payload];
      }
    }
  }

  /**
   Drops blanks and repetitions from a list in its own array: the part that is kept is written
   over the part that has been read.
   */
  method Compact(ids: array<string>) returns (kept: nat)
    modifies ids
    ensures kept <= ids.Length && ids[..kept] == DistinctNames(old(ids[..]))
  {
    ghost var was := ids[..];
    ghost var done: seq<string> := [];
    var seen: set<string> := {};
    kept := 0;
    for i := 0 to ids.Length
      invariant kept == |done| <= i && done == DistinctNames(was[..i])
      invariant forall j :: 0 <= j < kept ==> ids[j] == done[j]
      invariant forall j :: i <= j < ids.Length ==> ids[j] == was[j]
      invariant forall name :: name in seen <==> name in done
    {
      var id := TrimSpace(ids[i]);
      ghost var more := if id == "" || id in done then done else done + [id];
      assert more == DistinctNames(was[..i + 1]) by {
        OneMoreName(was, i);
      }
      if id != "" && id !in seen {
        seen := seen + {id};
        ids[kept] := id;
        kept := kept + 1;
      }
      done := more;
    }
    assert was[..|was|] == was;
  }

  method ListStored(store: SecretStore) returns (r: Result<seq<string>, IndexError>)
    ensures r == Err(StoreFailed) || r == ListIDs(store.entries)
  {
    var raw := store.Read(INDEX);
    match raw
    case Err(e) => return Err(e);
    case Ok(None) => return Ok([]);
    case Ok(Some(payload)) =>
      if !payload.IdsText? {
        return Err(Unreadable);
      }
      var list := payload.ids;
      var ids := new string[|list|](i requires 0 <= i < |list| => list[i]);
      assert ids[..] == list;
      var kept := Compact(ids);
      r := Ok(ids[..kept]);
  }

  method GetStored(validUrl: string -> bool, store: SecretStore, id: string)
    returns (r: Result<Option<Service>, IndexError>)
    ensures r == Err(StoreFailed) || r == Get(validUrl, store.entries, id)
  {
    var name := TrimSpace(id);
    if name == "" {
      return Ok(None);
    }
    var raw := store.Read((name, SECRET_KEY));
    match raw
    case Err(e) => return Err(e);
    case Ok(None) => return Ok(None);
    case Ok(Some(payload)) =>
      if !payload.ServiceText? {
        return Err(Unreadable);
      }
      if payload.id != "" && payload.id != name {
        return Err(WrongId);
      }
      match Normalize(validUrl, name, payload.service) {
        case Err(e) => r := Err(Refused(e));
        case Ok(n) => r := Ok(Some(n));
      }
  }

  method AddToStoredIndex(store: SecretStore, id: string) returns (error: Option<IndexError>)
    modifies store
    ensures error == Some(StoreFailed) || AddToIndex(old(store.entries), id) ==
              (if error.None? then Ok(store.entries) else Err(error.value))
    ensures error.Some? ==> store.entries == old(store.entries)
  {
    var name := TrimSpace(id);
    if name == "" {
      return Some(NoId);
    }
    var listed := ListStored(store);
    if listed.Err? {
      return Some(listed.error);
    }
    var ids := listed.value;
    for i := 0 to |ids|
      invariant name !in ids[..i]
    {
      if ids[i] == name {
        return None;
      }
    }
    assert ids[..|ids|] == ids;
    var written := store.Write(INDEX, IdsText(ids + [name]));
    error := if written then None else Some(StoreFailed);
  }

  /** The entries with the item's description, and the list as it was. */
  function WithDescription(validUrl: string -> bool, m: Entries, item: Item): Entries
    requires Accepted(validUrl, item)
  {
    var name := TrimSpace(item.id);
    m[(name, SECRET_KEY) := ServiceText(name, SanitizeForClient(Normalize(validUrl, name, item.service).value))]
  }

  /** A failing store leaves the old entries, or the description without its place in the list. */
  method PutStoredService(validUrl: string -> bool, store: SecretStore, id: string, service: Service)
    returns (error: Option<IndexError>)
    modifies store
    ensures error != Some(StoreFailed) ==>
              Put(validUrl, old(store.entries), id, service) == Written(store.entries, error)
    ensures error == Some(StoreFailed) ==>
              || store.entries == old(store.entries)
              || (Accepted(validUrl, Item(id, service))
                  && store.entries == WithDescription(validUrl, old(store.entries), Item(id, service)))
  {
    var name := TrimSpace(id);
    if name == "" {
      return Some(NoId);
    }
    var normalized := Normalize(validUrl, name, service);
    if normalized.Err? {
      return Some(Refused(normalized.error));
    }
    var written := store.Write((name, SECRET_KEY), ServiceText(name, SanitizeForClient(normalized.value)));
    if !written {
      return Some(StoreFailed);
    }
    error := AddToStoredIndex(store, name);
  }
}

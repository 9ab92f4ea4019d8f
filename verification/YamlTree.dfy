/**
 Merging parsed configuration files, on trees: mappings are merged key by key, anything else is
 replaced. What the merge means is stated path by path, and when grouping matters exactly.
 */
module YamlTree {
  import opened Distinct
  import opened Wrappers

  /** A mapping with its keys in order, a list, or any other node. */
  datatype Node = Leaf(kind: int, value: string) | Sequence(items: seq<Node>) | Mapping(entries: seq<Entry>)
  datatype Entry = Entry(key: string, value: Node)

  // ---------- The merge, as the code computes it ----------

  function Keys(entries: seq<Entry>): (keys: seq<string>)
    ensures |keys| == |entries| && forall i :: 0 <= i < |keys| ==> keys[i] == entries[i].key
  {
    seq(|entries|, i requires 0 <= i < |entries| => entries[i].key)
  }

  function IndexOf(entries: seq<Entry>, key: string): (i: int)
    ensures -1 <= i < |entries|
    ensures 0 <= i ==> entries[i].key == key && forall j :: 0 <= j < i ==> entries[j].key != key
    ensures i < 0 ==> forall j :: 0 <= j < |entries| ==> entries[j].key != key
  {
    if entries == [] then -1
    else if entries[0].key == key then 0
    else
      var i := IndexOf(entries[1..], key);
      if i < 0 then -1 else i + 1
  }

  function Merge(base: Node, over: Node): Node
    decreases over, 1
  {
    if base.Mapping? && over.Mapping? then Mapping(MergeEntries(base.entries, over.entries)) else over
  }

  function MergeEntries(out: seq<Entry>, over: seq<Entry>): seq<Entry>
    decreases over, 0
  {
    if over == [] then out else MergeEntries(PutEntry(out, over[0]), over[1..])
  }

  function PutEntry(out: seq<Entry>, e: Entry): seq<Entry>
    decreases e, 2
  {
    var i := IndexOf(out, e.key);
    if i < 0 then out + [e] else out[i := Entry(out[i].key, Merge(out[i].value, e.value))]
  }

  /** The fold over the configuration files, the first one being the base. */
  function MergeAll(docs: seq<Node>): Node
    requires docs != []
  {
    if |docs| == 1 then docs[0] else Merge(MergeAll(docs[..|docs| - 1]), docs[|docs| - 1])
  }

  // ---------- Trees without repeated keys ----------

  predicate UniqueKeys(entries: seq<Entry>) {
    forall i, j :: 0 <= i < j < |entries| ==> entries[i].key != entries[j].key
  }

  predicate Unique(n: Node) {
    n.Mapping? ==> UniqueKeys(n.entries) && forall e :: e in n.entries ==> Unique(e.value)
  }

  function Find(entries: seq<Entry>, key: string): (r: Option<Node>)
    ensures r.Some? ==> Entry(key, r.value) in entries
  {
    var i := IndexOf(entries, key);
    if i < 0 then None else Some(entries[i].value)
  }

  // ---------- A closed form ----------

  function Combined(base: Option<Node>, over: Option<Node>): Option<Node> {
    if base.Some? && over.Some? then Some(Merge(base.value, over.value))
    else if over.Some? then over else base
  }

  /** The base's entries, each with the overriding value merged in. */
  function Overlaid(base: seq<Entry>, over: seq<Entry>): (r: seq<Entry>)
    ensures |r| == |base|
  {
    seq(|base|, i requires 0 <= i < |base| =>
      Entry(base[i].key, Combined(Some(base[i].value), Find(over, base[i].key)).value))
  }

  /** The overriding entries whose keys the base lacks, in their order. */
  function Added(base: seq<Entry>, over: seq<Entry>): seq<Entry> {
    if over == [] then []
    else if IndexOf(base, over[0].key) >= 0 then Added(base, over[1..])
    else [over[0]] + Added(base, over[1..])
  }

  function Closed(base: seq<Entry>, over: seq<Entry>): seq<Entry> {
    Overlaid(base, over) + Added(base, over)
  }

  lemma FindAfterHead(over: seq<Entry>, key: string)
    requires over != []
    ensures Find(over, key) == if over[0].key == key then Some(over[0].value) else Find(over[1..], key)
  {
  }

  lemma KeyIndex(entries: seq<Entry>, key: string)
    ensures IndexOf(entries, key) >= 0 <==> key in Keys(entries)
  {
    var i := IndexOf(entries, key);
    if i >= 0 {
      assert Keys(entries)[i] == key;
    }
  }

  lemma {:induction false} AddedDependsOnKeys(base: seq<Entry>, base': seq<Entry>, over: seq<Entry>)
    requires forall e :: e in over ==> (e.key in Keys(base) <==> e.key in Keys(base'))
    ensures Added(base, over) == Added(base', over)
  {
    if over != [] {
      KeyIndex(base, over[0].key);
      KeyIndex(base', over[0].key);
      AddedDependsOnKeys(base, base', over[1..]);
    }
  }

  lemma ReplacedIsClosed(base: seq<Entry>, over: seq<Entry>)
    requires UniqueKeys(base) && UniqueKeys(over) && over != [] && IndexOf(base, over[0].key) >= 0
    ensures Closed(PutEntry(base, over[0]), over[1..]) == Closed(base, over)
    ensures UniqueKeys(PutEntry(base, over[0]))
  {
    var e, rest := over[0], over[1..];
    var next, i := PutEntry(base, e), IndexOf(base, e.key);
    assert IndexOf(rest, e.key) < 0;
    forall j | 0 <= j < |base| ensures Overlaid(next, rest)[j] == Overlaid(base, over)[j] {
      FindAfterHead(over, base[j].key);
    }
    assert Overlaid(next, rest) == Overlaid(base, over);
    assert Keys(next) == Keys(base);
    AddedDependsOnKeys(base, next, rest);
  }

  lemma OverlaidAppended(base: seq<Entry>, e: Entry, rest: seq<Entry>)
    requires IndexOf(base, e.key) < 0 && IndexOf(rest, e.key) < 0
    ensures Overlaid(base + [e], rest) == Overlaid(base, [e] + rest) + [e]
  {
    forall j | 0 <= j < |base| ensures Overlaid(base + [e], rest)[j] == Overlaid(base, [e] + rest)[j] {
      FindAfterHead([e] + rest, base[j].key);
      assert ([e] + rest)[1..] == rest;
    }
  }

  lemma AddedAppended(base: seq<Entry>, e: Entry, rest: seq<Entry>)
    requires IndexOf(base, e.key) < 0 && IndexOf(rest, e.key) < 0
    ensures Added(base, [e] + rest) == [e] + Added(base + [e], rest)
  {
    assert ([e] + rest)[1..] == rest;
    assert Keys(base + [e]) == Keys(base) + [e.key];
    AddedDependsOnKeys(base, base + [e], rest);
  }

  lemma AppendedIsClosed(base: seq<Entry>, e: Entry, rest: seq<Entry>)
    requires IndexOf(base, e.key) < 0 && IndexOf(rest, e.key) < 0
    ensures Closed(base + [e], rest) == Closed(base, [e] + rest)
  {
    OverlaidAppended(base, e, rest);
    AddedAppended(base, e, rest);
    Regroup(Overlaid(base, [e] + rest), e, Added(base + [e], rest));
  }

  lemma Regroup<T>(a: seq<T>, x: T, b: seq<T>)
    ensures a + [x] + b == a + ([x] + b)
  {
  }

  lemma {:induction false} MergeIsClosed(base: seq<Entry>, over: seq<Entry>)
    requires UniqueKeys(base) && UniqueKeys(over)
    ensures MergeEntries(base, over) == Closed(base, over)
    decreases |over|
  {
    if over == [] {
      assert Overlaid(base, over) == base;
    } else {
      if IndexOf(base, over[0].key) >= 0 {
        ReplacedIsClosed(base, over);
      } else {
        assert over == [over[0]] + over[1..];
        AppendedIsClosed(base, over[0], over[1..]);
      }
      MergeIsClosed(PutEntry(base, over[0]), over[1..]);
    }
  }

  // ---------- What the closed form says ----------

  lemma {:induction false} FindInAdded(base: seq<Entry>, over: seq<Entry>, key: string)
    ensures Find(Added(base, over), key) == if IndexOf(base, key) >= 0 then None else Find(over, key)
  {
    if over != [] {
      FindInAdded(base, over[1..], key);
      FindAfterHead(over, key);
      if IndexOf(base, over[0].key) < 0 {
        FindAfterHead(Added(base, over), key);
        assert Added(base, over)[1..] == Added(base, over[1..]);
      }
    }
  }

  lemma FindInConcat(a: seq<Entry>, b: seq<Entry>, key: string)
    ensures Find(a + b, key) == if IndexOf(a, key) >= 0 then Find(a, key) else Find(b, key)
  {
    var i := IndexOf(a + b, key);
    if 0 <= i < |a| {
      assert a[i].key == key;
      assert forall j :: 0 <= j < i ==> (a + b)[j] == a[j];
      assert IndexOf(a, key) == i;
    } else if i >= |a| {
      assert forall j :: 0 <= j < |a| ==> (a + b)[j] == a[j];
      assert b[i - |a|].key == key;
      assert forall j :: 0 <= j < i - |a| ==> b[j] == (a + b)[j + |a|];
      assert IndexOf(b, key) == i - |a|;
    } else {
      assert forall j :: 0 <= j < |a| ==> (a + b)[j] == a[j];
      assert forall j :: 0 <= j < |b| ==> b[j] == (a + b)[j + |a|];
    }
  }

  lemma FindInOverlaid(base: seq<Entry>, over: seq<Entry>, key: string)
    ensures IndexOf(Overlaid(base, over), key) == IndexOf(base, key)
    ensures Find(base, key).Some? ==> Find(Overlaid(base, over), key) == Combined(Find(base, key), Find(over, key))
  {
    var o := Overlaid(base, over);
    assert forall i :: 0 <= i < |base| ==> o[i].key == base[i].key;
  }

  /** The value of a key after a merge: merged, overriding, or the base's. */
  lemma FindMerged(base: seq<Entry>, over: seq<Entry>, key: string)
    requires UniqueKeys(base) && UniqueKeys(over)
    ensures Find(MergeEntries(base, over), key) == Combined(Find(base, key), Find(over, key))
  {
    MergeIsClosed(base, over);
    FindInConcat(Overlaid(base, over), Added(base, over), key);
    FindInOverlaid(base, over, key);
    FindInAdded(base, over, key);
  }

  /** The keys in the second list that are not known, in order. */
  function NewKeys(known: seq<string>, keys: seq<string>): seq<string> {
    if keys == [] then []
    else if keys[0] in known then NewKeys(known, keys[1..])
    else [keys[0]] + NewKeys(known, keys[1..])
  }

  lemma {:induction false} KeysOfAdded(base: seq<Entry>, over: seq<Entry>)
    ensures Keys(Added(base, over)) == NewKeys(Keys(base), Keys(over))
  {
    if over != [] {
      KeysOfAdded(base, over[1..]);
      assert Keys(over)[1..] == Keys(over[1..]);
      var i := IndexOf(base, over[0].key);
      assert i >= 0 ==> Keys(base)[i] == over[0].key;
      assert i < 0 ==> Keys(over)[0] !in Keys(base);
    }
  }

  lemma KeysOfConcat(a: seq<Entry>, b: seq<Entry>)
    ensures Keys(a + b) == Keys(a) + Keys(b)
  {
  }

  /** The base's keys keep their order; new keys follow in the order of the overriding mapping. */
  lemma KeyOrder(base: seq<Entry>, over: seq<Entry>)
    requires UniqueKeys(base) && UniqueKeys(over)
    ensures Keys(MergeEntries(base, over)) == Keys(base) + NewKeys(Keys(base), Keys(over))
  {
    MergeIsClosed(base, over);
    KeysOfAdded(base, over);
    assert Keys(Overlaid(base, over)) == Keys(base);
    KeysOfConcat(Overlaid(base, over), Added(base, over));
  }

  lemma {:induction false} NewKeysAre(known: seq<string>, keys: seq<string>)
    ensures forall k :: k in NewKeys(known, keys) <==> k in keys && k !in known
    ensures NoRepeats(keys) ==> NoRepeats(NewKeys(known, keys))
  {
    if keys != [] {
      NewKeysAre(known, keys[1..]);
    }
  }

  lemma DistinctConcat(a: seq<string>, b: seq<string>)
    requires NoRepeats(a) && NoRepeats(b) && forall k :: k in b ==> k !in a
    ensures NoRepeats(a + b)
  {
    forall i, j | 0 <= i < j < |a + b| ensures (a + b)[i] != (a + b)[j] {
      if i < |a| <= j {
        assert (a + b)[j] == b[j - |a|] && b[j - |a|] in b && a[i] in a;
      }
    }
  }

  lemma FindMeansKey(entries: seq<Entry>, key: string)
    ensures Find(entries, key).Some? <==> key in Keys(entries)
    ensures Find(entries, key).Some? ==> Entry(key, Find(entries, key).value) in entries
  {
    var i := IndexOf(entries, key);
    if i >= 0 {
      assert Keys(entries)[i] == key && entries[i] == Entry(key, entries[i].value);
    }
  }

  lemma FindUnique(entries: seq<Entry>, i: nat)
    requires UniqueKeys(entries) && i < |entries|
    ensures Find(entries, entries[i].key) == Some(entries[i].value)
  {
    var j := IndexOf(entries, entries[i].key);
  }

  /** Two mappings with the same keys in the same order and the same value for each are equal. */
  lemma SameEntries(a: seq<Entry>, b: seq<Entry>)
    requires UniqueKeys(a) && Keys(a) == Keys(b)
    requires forall k :: k in Keys(a) ==> Find(a, k) == Find(b, k)
    ensures a == b
  {
    assert UniqueKeys(b) by {
      forall i, j | 0 <= i < j < |b| ensures b[i].key != b[j].key {
        assert Keys(b)[i] == Keys(a)[i] && Keys(b)[j] == Keys(a)[j];
      }
    }
    forall i | 0 <= i < |a| ensures a[i] == b[i] {
      assert Keys(a)[i] == Keys(b)[i];
      FindUnique(a, i);
      FindUnique(b, i);
      assert a[i].key in Keys(a);
    }
  }

  lemma UniqueByKeys(entries: seq<Entry>)
    ensures UniqueKeys(entries) <==> NoRepeats(Keys(entries))
  {
    assert forall i :: 0 <= i < |entries| ==> Keys(entries)[i] == entries[i].key;
  }

  /** Merging keeps keys unique, at every level. */
  lemma {:induction false} MergeKeepsUnique(base: Node, over: Node)
    requires Unique(base) && Unique(over)
    ensures Unique(Merge(base, over))
    decreases over
  {
    if base.Mapping? && over.Mapping? {
      var merged := MergeEntries(base.entries, over.entries);
      KeyOrder(base.entries, over.entries);
      NewKeysAre(Keys(base.entries), Keys(over.entries));
      UniqueByKeys(base.entries);
      UniqueByKeys(over.entries);
      DistinctConcat(Keys(base.entries), NewKeys(Keys(base.entries), Keys(over.entries)));
      UniqueByKeys(merged);
      forall e | e in merged ensures Unique(e.value) {
        var i :| 0 <= i < |merged| && merged[i] == e;
        FindUnique(merged, i);
        FindMerged(base.entries, over.entries, e.key);
        FindMeansKey(base.entries, e.key);
        FindMeansKey(over.entries, e.key);
        var (b, o) := (Find(base.entries, e.key), Find(over.entries, e.key));
        if b.Some? && o.Some? {
          assert Entry(e.key, o.value) in over.entries;
          MergeKeepsUnique(b.value, o.value);
        }
      }
    }
  }
}

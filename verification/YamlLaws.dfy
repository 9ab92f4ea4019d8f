/** The laws of merging configuration trees. */
module YamlLaws {
  import opened Distinct
  import opened Wrappers
  import opened YamlTree

  // ---------- Path by path ----------

  function At(n: Node, path: seq<string>): Option<Node> {
    if path == [] then Some(n)
    else if !n.Mapping? then None
    else match Find(n.entries, path[0])
      case None => None
      case Some(child) => At(child, path[1..])
  }

  predicate IsMapping(n: Option<Node>) {
    n.Some? && n.value.Mapping?
  }

  /** The overriding tree has something here that is not merged into a mapping of the base. */
  predicate Decides(base: Node, over: Node, path: seq<string>) {
    At(over, path).Some? && !(IsMapping(At(over, path)) && IsMapping(At(base, path)))
  }

  predicate Decided(base: Node, over: Node, path: seq<string>) {
    exists n :: 0 <= n <= |path| && Decides(base, over, path[..n])
  }

  lemma DecidesBelow(base: Node, over: Node, path: seq<string>, n: nat)
    requires base.Mapping? && over.Mapping? && n < |path|
    ensures
      var (b, o) := (Find(base.entries, path[0]), Find(over.entries, path[0]));
      Decides(base, over, path[..n + 1]) == (o.Some? && if b.Some? then Decides(b.value, o.value, path[1..][..n])
                                                           else At(o.value, path[1..][..n]).Some?)
  {
    assert path[..n + 1][0] == path[0] && path[..n + 1][1..] == path[1..][..n];
  }

  lemma DecidedBelow(base: Node, over: Node, path: seq<string>)
    requires base.Mapping? && over.Mapping? && path != []
    ensures
      var (b, o) := (Find(base.entries, path[0]), Find(over.entries, path[0]));
      Decided(base, over, path) == (o.Some? && (b.Some? ==> Decided(b.value, o.value, path[1..])))
  {
    var (b, o) := (Find(base.entries, path[0]), Find(over.entries, path[0]));
    assert !Decides(base, over, path[..0]);
    forall n | 0 <= n < |path|
      ensures Decides(base, over, path[..n + 1])
              == (o.Some? && if b.Some? then Decides(b.value, o.value, path[1..][..n])
                             else At(o.value, path[1..][..n]).Some?)
    {
      DecidesBelow(base, over, path, n);
    }
    if o.Some? && b.None? {
      assert At(o.value, path[1..][..0]).Some?;
      assert Decides(base, over, path[..0 + 1]);
    } else {
      if Decided(base, over, path) {
        var n :| 0 <= n <= |path| && Decides(base, over, path[..n]);
        assert path[..n - 1 + 1] == path[..n];
        assert b.Some? ==> Decides(b.value, o.value, path[1..][..n - 1]);
      }
      if o.Some? && Decided(b.value, o.value, path[1..]) {
        var n :| 0 <= n <= |path[1..]| && Decides(b.value, o.value, path[1..][..n]);
        assert Decides(base, over, path[..n + 1]);
      }
    }
  }

  /** The last writer wins at every path: from the first place on the way where the overriding tree
      has something other than a mapping over a mapping, its subtree is taken whole; elsewhere the
      base's value stays, and mapping meets mapping in their merge. */
  lemma {:induction false} LastWriterWins(base: Node, over: Node, path: seq<string>)
    requires Unique(base) && Unique(over)
    ensures At(Merge(base, over), path)
            == if Decided(base, over, path) then At(over, path) else Combined(At(base, path), At(over, path))
    decreases |path|
  {
    if !base.Mapping? || !over.Mapping? {
      assert Decides(base, over, path[..0]);
    } else if path == [] {
      assert path[..0] == path;
    } else {
      FindMerged(base.entries, over.entries, path[0]);
      DecidedBelow(base, over, path);
      var (b, o) := (Find(base.entries, path[0]), Find(over.entries, path[0]));
      if b.Some? && o.Some? {
        LastWriterWins(b.value, o.value, path[1..]);
      }
    }
  }

  /** At every path where the merge is a mapping made of two, the base's keys come first and in their
      order, then the new ones in theirs. */
  lemma MergedKeyOrder(base: Node, over: Node, path: seq<string>)
    requires Unique(base) && Unique(over) && !Decided(base, over, path)
    requires IsMapping(At(base, path)) && IsMapping(At(over, path))
    ensures
      var (b, o) := (At(base, path).value.entries, At(over, path).value.entries);
      var m := At(Merge(base, over), path);
      IsMapping(m) && Keys(m.value.entries) == Keys(b) + NewKeys(Keys(b), Keys(o))
  {
    LastWriterWins(base, over, path);
    SubtreeUnique(base, path);
    SubtreeUnique(over, path);
    KeyOrder(At(base, path).value.entries, At(over, path).value.entries);
  }

  lemma {:induction false} SubtreeUnique(n: Node, path: seq<string>)
    requires Unique(n) && At(n, path).Some?
    ensures Unique(At(n, path).value)
    decreases |path|
  {
    if path != [] {
      SubtreeUnique(Find(n.entries, path[0]).value, path[1..]);
    }
  }

  // ---------- Merging what is already there ----------

  /** The second tree repeats the keys of the first one's mappings, first and in the same order. */
  predicate Absorbs(base: Node, over: Node)
    decreases over
  {
    base.Mapping? && over.Mapping? ==>
      && |base.entries| <= |over.entries|
      && forall i :: 0 <= i < |base.entries| ==>
           base.entries[i].key == over.entries[i].key && Absorbs(base.entries[i].value, over.entries[i].value)
  }

  lemma {:induction false} NewKeysAfterPrefix(known: seq<string>, keys: seq<string>)
    requires NoRepeats(known + keys)
    ensures NewKeys(known, known + keys) == keys
  {
    NewKeysOfKnown(known, known, keys);
    NewKeysOfFresh(known, keys);
  }

  lemma {:induction false} NewKeysOfKnown(known: seq<string>, a: seq<string>, b: seq<string>)
    requires forall k :: k in a ==> k in known
    ensures NewKeys(known, a + b) == NewKeys(known, b)
  {
    if a == [] {
      assert a + b == b;
    } else {
      assert (a + b)[1..] == a[1..] + b;
      NewKeysOfKnown(known, a[1..], b);
    }
  }

  lemma {:induction false} NewKeysOfFresh(known: seq<string>, keys: seq<string>)
    requires NoRepeats(known + keys)
    ensures NewKeys(known, keys) == keys
  {
    if keys != [] {
      assert (known + keys)[|known|] == keys[0];
      assert forall i :: 0 <= i < |known| ==> (known + keys)[i] == known[i];
      forall i, j | 0 <= i < j < |known + keys[1..]| ensures (known + keys[1..])[i] != (known + keys[1..])[j] {
        assert (known + keys)[if i < |known| then i else i + 1] != (known + keys)[if j < |known| then j else j + 1];
      }
      NewKeysOfFresh(known, keys[1..]);
    }
  }

  /** Exactly when an overriding tree takes nothing from the base. */
  lemma {:induction false} MergeIsOverExactlyWhen(base: Node, over: Node)
    requires Unique(base) && Unique(over)
    ensures Merge(base, over) == over <==> Absorbs(base, over)
    decreases over
  {
    if base.Mapping? && over.Mapping? {
      var (b, o) := (base.entries, over.entries);
      var merged := MergeEntries(b, o);
      KeyOrder(b, o);
      if merged == o {
        assert Keys(o)[..|b|] == Keys(b);
        forall i | 0 <= i < |b| ensures b[i].key == o[i].key && Absorbs(b[i].value, o[i].value) {
          assert Keys(o)[i] == Keys(b)[i];
          FindUnique(b, i);
          FindUnique(o, i);
          FindMerged(b, o, b[i].key);
          assert b[i] in b && o[i] in o;
          MergeIsOverExactlyWhen(b[i].value, o[i].value);
        }
      } else if Absorbs(base, over) {
        AbsorbedEntries(b, o);
      }
    }
  }

  lemma AbsorbedKeys(b: seq<Entry>, o: seq<Entry>)
    requires UniqueKeys(b) && UniqueKeys(o) && Absorbs(Mapping(b), Mapping(o))
    ensures Keys(MergeEntries(b, o)) == Keys(o)
    ensures forall k :: k in Keys(b) ==> exists i :: 0 <= i < |b| && b[i].key == k
  {
    KeyOrder(b, o);
    UniqueByKeys(o);
    assert Keys(o)[..|b|] == Keys(b);
    assert Keys(o) == Keys(b) + Keys(o)[|b|..];
    NewKeysAfterPrefix(Keys(b), Keys(o)[|b|..]);
    forall k | k in Keys(b) ensures exists i :: 0 <= i < |b| && b[i].key == k {
      var i :| 0 <= i < |b| && Keys(b)[i] == k;
    }
  }

  lemma {:induction false} AbsorbedValue(b: seq<Entry>, o: seq<Entry>, k: string)
    requires Unique(Mapping(b)) && Unique(Mapping(o)) && Absorbs(Mapping(b), Mapping(o))
    requires k in Keys(o)
    ensures Find(MergeEntries(b, o), k) == Find(o, k)
    decreases o, 0
  {
    FindMerged(b, o, k);
    FindMeansKey(o, k);
    FindMeansKey(b, k);
    AbsorbedKeys(b, o);
    if k in Keys(b) {
      var i :| 0 <= i < |b| && b[i].key == k;
      FindUnique(b, i);
      FindUnique(o, i);
      assert b[i] in b && o[i] in o;
      MergeIsOverExactlyWhen(b[i].value, o[i].value);
    }
  }

  lemma {:induction false} AbsorbedEntries(b: seq<Entry>, o: seq<Entry>)
    requires Unique(Mapping(b)) && Unique(Mapping(o)) && Absorbs(Mapping(b), Mapping(o))
    ensures MergeEntries(b, o) == o
    decreases o, 1
  {
    AbsorbedKeys(b, o);
    UniqueByKeys(o);
    UniqueByKeys(MergeEntries(b, o));
    forall k | k in Keys(o) ensures Find(MergeEntries(b, o), k) == Find(o, k) {
      AbsorbedValue(b, o, k);
    }
    SameEntries(MergeEntries(b, o), o);
  }

  lemma {:induction false} AbsorbsItself(n: Node)
    ensures Absorbs(n, n)
  {
    if n.Mapping? {
      forall i | 0 <= i < |n.entries| ensures Absorbs(n.entries[i].value, n.entries[i].value) {
        assert n.entries[i] in n.entries;
        AbsorbsItself(n.entries[i].value);
      }
    }
  }

  /** Merging a tree with itself changes nothing. */
  lemma Idempotent(n: Node)
    requires Unique(n)
    ensures Merge(n, n) == n
  {
    AbsorbsItself(n);
    MergeIsOverExactlyWhen(n, n);
  }

  /** Values merged one after the other onto a first. */
  function Folded(first: Node, values: seq<Node>): Node
    decreases |values|
  {
    if values == [] then first else Folded(Merge(first, values[0]), values[1..])
  }

  /** All values of a key that may repeat. */
  function ValuesOf(entries: seq<Entry>, key: string): seq<Node> {
    if entries == [] then []
    else if entries[0].key == key then [entries[0].value] + ValuesOf(entries[1..], key)
    else ValuesOf(entries[1..], key)
  }

  predicate IsFirst(entries: seq<Entry>, j: nat)
    requires j < |entries|
  {
    IndexOf(entries, entries[j].key) == j
  }

  lemma PutKnown(out: seq<Entry>, e: Entry, j: nat)
    requires j < |out| && e.key in Keys(out)
    ensures var next := PutEntry(out, e);
            && Keys(next) == Keys(out) && next[j].key == out[j].key && IsFirst(next, j) == IsFirst(out, j)
            && next[j].value == if IsFirst(out, j) && e.key == out[j].key then Merge(out[j].value, e.value)
                                else out[j].value
  {
    KeyIndex(out, e.key);
    var next := PutEntry(out, e);
    assert Keys(next) == Keys(out);
    SameIndex(out, next, out[j].key);
  }

  lemma SameIndex(a: seq<Entry>, b: seq<Entry>, key: string)
    requires Keys(a) == Keys(b)
    ensures IndexOf(a, key) == IndexOf(b, key)
  {
    assert forall i :: 0 <= i < |a| ==> a[i].key == Keys(a)[i] == b[i].key;
  }

  /** Where entry `j` ends up when entries with known keys are put over a list of entries. */
  predicate FoldsOnto(out: seq<Entry>, over: seq<Entry>, j: nat, merged: seq<Entry>)
    requires j < |out|
  {
    && Keys(merged) == Keys(out)
    && merged[j].value == if IsFirst(out, j) then Folded(out[j].value, ValuesOf(over, out[j].key)) else out[j].value
  }

  /** Entries whose keys are all known fold onto the first entry of their key, and later ones of it stay. */
  lemma {:induction false} KnownKeysFold(out: seq<Entry>, over: seq<Entry>, j: nat)
    requires j < |out| && forall e :: e in over ==> e.key in Keys(out)
    ensures FoldsOnto(out, over, j, MergeEntries(out, over))
    decreases |over|
  {
    if over != [] {
      assert over[0] in over;
      PutKnown(out, over[0], j);
      KnownKeysFold(PutEntry(out, over[0]), over[1..], j);
    }
  }

  /** Merging all values of entry `j`'s key onto it changes nothing, or the entry repeats an earlier key. */
  predicate FoldsAway(entries: seq<Entry>, j: nat)
    requires j < |entries|
  {
    IsFirst(entries, j) ==> Folded(entries[j].value, ValuesOf(entries, entries[j].key)) == entries[j].value
  }

  /** With or without repeated keys: exactly when folding all values of each key onto its first gives that first. */
  lemma IdempotentExactlyWhen(n: Node)
    ensures Merge(n, n) == n <==> (n.Mapping? ==> forall j :: 0 <= j < |n.entries| ==> FoldsAway(n.entries, j))
  {
    if n.Mapping? {
      var entries, merged := n.entries, MergeEntries(n.entries, n.entries);
      forall e | e in entries ensures e.key in Keys(entries) {
        var i :| 0 <= i < |entries| && entries[i] == e;
        assert Keys(entries)[i] == e.key;
      }
      forall j | 0 <= j < |entries|
        ensures |merged| == |entries| && (merged[j] == entries[j] <==> FoldsAway(entries, j))
      {
        KnownKeysFold(entries, entries, j);
        assert Keys(merged)[j] == Keys(entries)[j];
      }
      assert entries == [] ==> merged == entries;
    }
  }

  /** When keys repeat, a second pass can differ from the tree it started from. */
  lemma NotIdempotentWithRepeatedKeys()
    ensures
      var n := Mapping([Entry("k", Leaf(0, "a")), Entry("k", Leaf(0, "b"))]);
      Merge(n, n) != n
  {
    var a, b := Entry("k", Leaf(0, "a")), Entry("k", Leaf(0, "b"));
    var n := Mapping([a, b]);
    assert n.entries[1..] == [b] && [b][1..] == [];
    assert IndexOf([a, b], "k") == 0 && IndexOf([b, b], "k") == 0;
    assert PutEntry([a, b], a) == [a, b];
    assert PutEntry([a, b], b) == [b, b];
    assert MergeEntries([a, b], [a, b]) == MergeEntries([a, b], [b]) == MergeEntries([b, b], []) == [b, b];
    assert [a, b][0] != [b, b][0];
  }

  /** Loading the same overriding file twice is loading it once. */
  lemma {:induction false} OverridingTwice(base: Node, over: Node)
    requires Unique(base) && Unique(over)
    ensures Merge(Merge(base, over), over) == Merge(base, over)
    decreases over
  {
    if base.Mapping? && over.Mapping? {
      var (b, o) := (base.entries, over.entries);
      var once := MergeEntries(b, o);
      MergeKeepsUnique(base, over);
      MergeKeepsUnique(Mapping(once), over);
      var twice := MergeEntries(once, o);
      KeyOrder(b, o);
      KeyOrder(once, o);
      NewKeysAre(Keys(b), Keys(o));
      NewKeysOfKnown(Keys(once), Keys(o), []);
      assert Keys(o) + [] == Keys(o);
      assert Keys(twice) == Keys(once);
      forall k | k in Keys(twice) ensures Find(twice, k) == Find(once, k) {
        FindMerged(b, o, k);
        FindMerged(once, o, k);
        if Find(o, k).Some? {
          if Find(b, k).Some? {
            OverridingTwice(Find(b, k).value, Find(o, k).value);
          } else {
            Idempotent(Find(o, k).value);
          }
        }
      }
      SameEntries(twice, once);
    } else {
      Idempotent(over);
    }
  }

  // ---------- When grouping does not matter ----------

  /** A mapping, then something else, then a mapping again, in three files at one path. */
  predicate Interrupted(a: Node, b: Node, c: Node, path: seq<string>) {
    IsMapping(At(a, path)) && At(b, path).Some? && !At(b, path).value.Mapping? && IsMapping(At(c, path))
  }

  ghost predicate Associates(a: Node, b: Node, c: Node) {
    forall path :: Interrupted(a, b, c, path) ==> Absorbs(At(a, path).value, At(c, path).value)
  }

  lemma {:induction false} NewKeysConcat(known: seq<string>, x: seq<string>, y: seq<string>)
    ensures NewKeys(known, x + y) == NewKeys(known, x) + NewKeys(known, y)
  {
    if x == [] {
      assert x + y == y;
    } else {
      assert (x + y)[1..] == x[1..] + y;
      NewKeysConcat(known, x[1..], y);
    }
  }

  lemma {:induction false} NewKeysNested(x: seq<string>, y: seq<string>, both: seq<string>, z: seq<string>)
    requires forall k :: k in both <==> k in x || k in y
    ensures NewKeys(x, NewKeys(y, z)) == NewKeys(both, z)
  {
    if z != [] {
      NewKeysNested(x, y, both, z[1..]);
    }
  }

  lemma RegroupedNewKeys(x: seq<string>, y: seq<string>, z: seq<string>)
    ensures x + NewKeys(x, y) + NewKeys(x + NewKeys(x, y), z) == x + NewKeys(x, y + NewKeys(y, z))
  {
    NewKeysAre(x, y);
    NewKeysConcat(x, y, NewKeys(y, z));
    NewKeysNested(x, y, x + NewKeys(x, y), z);
  }

  lemma RegroupedKeys(a: seq<Entry>, b: seq<Entry>, c: seq<Entry>)
    requires Unique(Mapping(a)) && Unique(Mapping(b)) && Unique(Mapping(c))
    ensures Keys(MergeEntries(MergeEntries(a, b), c)) == Keys(MergeEntries(a, MergeEntries(b, c)))
  {
    MergeKeepsUnique(Mapping(a), Mapping(b));
    MergeKeepsUnique(Mapping(b), Mapping(c));
    KeyOrder(a, b);
    KeyOrder(b, c);
    KeyOrder(MergeEntries(a, b), c);
    KeyOrder(a, MergeEntries(b, c));
    RegroupedNewKeys(Keys(a), Keys(b), Keys(c));
  }

  lemma RegroupedValue(a: seq<Entry>, b: seq<Entry>, c: seq<Entry>, k: string)
    requires Unique(Mapping(a)) && Unique(Mapping(b)) && Unique(Mapping(c))
    ensures
      var (left, right) := (MergeEntries(MergeEntries(a, b), c), MergeEntries(a, MergeEntries(b, c)));
      && Find(left, k) == Combined(Combined(Find(a, k), Find(b, k)), Find(c, k))
      && Find(right, k) == Combined(Find(a, k), Combined(Find(b, k), Find(c, k)))
  {
    MergeKeepsUnique(Mapping(a), Mapping(b));
    MergeKeepsUnique(Mapping(b), Mapping(c));
    FindMerged(a, b, k);
    FindMerged(b, c, k);
    FindMerged(MergeEntries(a, b), c, k);
    FindMerged(a, MergeEntries(b, c), k);
  }

  lemma InterruptedBelow(a: Node, b: Node, c: Node, k: string, rest: seq<string>)
    requires a.Mapping? && b.Mapping? && c.Mapping?
    ensures
      var (x, y, z) := (Find(a.entries, k), Find(b.entries, k), Find(c.entries, k));
      Interrupted(a, b, c, [k] + rest) ==
      (x.Some? && y.Some? && z.Some? && Interrupted(x.value, y.value, z.value, rest))
  {
    assert ([k] + rest)[1..] == rest;
  }

  lemma AssociatesBelow(a: Node, b: Node, c: Node)
    requires a.Mapping? && b.Mapping? && c.Mapping?
    ensures Associates(a, b, c) <==>
            forall k :: AllHave(a, b, c, k) ==>
              Associates(Find(a.entries, k).value, Find(b.entries, k).value, Find(c.entries, k).value)
  {
    if Associates(a, b, c) {
      forall k | AllHave(a, b, c, k)
        ensures Associates(Find(a.entries, k).value, Find(b.entries, k).value, Find(c.entries, k).value)
      {
        var (x, y, z) := (Find(a.entries, k).value, Find(b.entries, k).value, Find(c.entries, k).value);
        forall rest | Interrupted(x, y, z, rest) ensures Absorbs(At(x, rest).value, At(z, rest).value) {
          InterruptedBelow(a, b, c, k, rest);
          assert ([k] + rest)[1..] == rest;
          assert Interrupted(a, b, c, [k] + rest);
        }
      }
    }
    if forall k :: AllHave(a, b, c, k) ==>
         Associates(Find(a.entries, k).value, Find(b.entries, k).value, Find(c.entries, k).value)
    {
      forall path | Interrupted(a, b, c, path) ensures Absorbs(At(a, path).value, At(c, path).value) {
        assert path == [path[0]] + path[1..];
        InterruptedBelow(a, b, c, path[0], path[1..]);
        assert AllHave(a, b, c, path[0]);
      }
    }
  }

  predicate AllHave(a: Node, b: Node, c: Node, k: string)
    requires a.Mapping? && b.Mapping? && c.Mapping?
  {
    Find(a.entries, k).Some? && Find(b.entries, k).Some? && Find(c.entries, k).Some?
  }

  /** Merging three files does not depend on the grouping exactly when, wherever a mapping is interrupted
      by something else and then taken up again, the last file repeats the first one's keys. */
  lemma {:induction false} AssociativeExactlyWhen(a: Node, b: Node, c: Node)
    requires Unique(a) && Unique(b) && Unique(c)
    ensures Merge(Merge(a, b), c) == Merge(a, Merge(b, c)) <==> Associates(a, b, c)
    decreases c
  {
    if a.Mapping? && b.Mapping? && c.Mapping? {
      var (left, right) := (MergeEntries(MergeEntries(a.entries, b.entries), c.entries),
                            MergeEntries(a.entries, MergeEntries(b.entries, c.entries)));
      RegroupedKeys(a.entries, b.entries, c.entries);
      MergeKeepsUnique(a, b);
      MergeKeepsUnique(Merge(a, b), c);
      forall k
        ensures Find(left, k) == Find(right, k) <==>
                (AllHave(a, b, c, k) ==>
                   Associates(Find(a.entries, k).value, Find(b.entries, k).value, Find(c.entries, k).value))
      {
        RegroupedValue(a.entries, b.entries, c.entries, k);
        if AllHave(a, b, c, k) {
          AssociativeExactlyWhen(Find(a.entries, k).value, Find(b.entries, k).value, Find(c.entries, k).value);
        }
      }
      AssociatesBelow(a, b, c);
      if forall k :: Find(left, k) == Find(right, k) {
        SameEntries(left, right);
      }
    } else if a.Mapping? && !b.Mapping? && c.Mapping? {
      MergeIsOverExactlyWhen(a, c);
      assert Interrupted(a, b, c, []) by {
        assert At(a, []) == Some(a);
      }
    } else {
      assert forall path :: !Interrupted(a, b, c, path);
    }
  }

  /** In particular when no mapping is ever interrupted. */
  lemma AssociativeWithoutInterruption(a: Node, b: Node, c: Node)
    requires Unique(a) && Unique(b) && Unique(c)
    requires forall path :: !Interrupted(a, b, c, path)
    ensures Merge(Merge(a, b), c) == Merge(a, Merge(b, c))
  {
    AssociativeExactlyWhen(a, b, c);
  }

  lemma GroupingCanMatter()
    ensures
      var a := Mapping([Entry("x", Leaf(0, "1"))]);
      var b := Leaf(0, "none");
      var c := Mapping([Entry("y", Leaf(0, "2"))]);
      Merge(Merge(a, b), c) != Merge(a, Merge(b, c))
  {
    var a := Mapping([Entry("x", Leaf(0, "1"))]);
    var b := Leaf(0, "none");
    var c := Mapping([Entry("y", Leaf(0, "2"))]);
    assert !Absorbs(a, c) by {
      assert a.entries[0].key != c.entries[0].key;
    }
    assert At(a, []) == Some(a) && At(c, []) == Some(c);
    assert Interrupted(a, b, c, []);
    AssociativeExactlyWhen(a, b, c);
  }

  /** Adding a file to the list of files: its values win at every path, and the result has unique keys. */
  lemma {:induction false} LoadedUnique(docs: seq<Node>)
    requires docs != [] && forall d :: d in docs ==> Unique(d)
    ensures Unique(MergeAll(docs))
  {
    if |docs| > 1 {
      LoadedUnique(docs[..|docs| - 1]);
      MergeKeepsUnique(MergeAll(docs[..|docs| - 1]), docs[|docs| - 1]);
    }
  }

  /** A scalar or list that the last file sets is what is loaded, whole, whatever the files before it say. */
  lemma LastFileWins(docs: seq<Node>, path: seq<string>)
    requires docs != [] && forall d :: d in docs ==> Unique(d)
    requires At(docs[|docs| - 1], path).Some? && !At(docs[|docs| - 1], path).value.Mapping?
    ensures At(MergeAll(docs), path) == At(docs[|docs| - 1], path)
  {
    if |docs| > 1 {
      LoadedUnique(docs[..|docs| - 1]);
      assert path[..|path|] == path;
      assert Decides(MergeAll(docs[..|docs| - 1]), docs[|docs| - 1], path[..|path|]);
      LastWriterWins(MergeAll(docs[..|docs| - 1]), docs[|docs| - 1], path);
    }
  }
}

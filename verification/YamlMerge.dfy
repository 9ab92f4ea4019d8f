/**
 The merge as it runs on parsed nodes: a mapping's content is an array of key and value nodes in
 turn, the result starts as a copy of the base's array, values are replaced in the copy, and new
 pairs are appended. Neither input changes, although the result shares nodes with both.
 */
module YamlMerge {
  import opened Wrappers
  import opened YamlTree

  const SEQUENCE_KIND := 2
  const MAPPING_KIND := 4

  class YamlNode {
    const kind: int
    const value: string
    const content: array<YamlNode>

    constructor (kind: int, value: string, content: array<YamlNode>)
      ensures this.kind == kind && this.value == value && this.content == content
    {
      this.kind := kind;
      this.value := value;
      this.content := content;
    }
  }

  /** The nodes reached from `n` spell the tree `t` and lie, with their arrays, in the footprint. */
  ghost predicate Spells(n: YamlNode, t: Node, footprint: set<object>)
    reads footprint
    decreases t, 1
  {
    && n in footprint
    && match t
       case Leaf(kind, value) =>
         n.kind == kind && n.kind != MAPPING_KIND && n.kind != SEQUENCE_KIND && n.value == value
       case Sequence(items) =>
         n.kind == SEQUENCE_KIND && n.content in footprint && SpellsItems(n.content, items, footprint)
       case Mapping(entries) =>
         n.kind == MAPPING_KIND && n.content in footprint && SpellsEntries(n.content, entries, footprint)
  }

  ghost predicate SpellsItems(content: array<YamlNode>, items: seq<Node>, footprint: set<object>)
    reads content, footprint
    decreases items, 0
  {
    && content.Length == |items|
    && forall i :: 0 <= i < |items| ==> Spells(content[i], items[i], footprint)
  }

  ghost predicate SpellsEntries(content: array<YamlNode>, entries: seq<Entry>, footprint: set<object>)
    reads content, footprint
    decreases entries, 0
  {
    && content.Length == 2 * |entries|
    && forall i :: 0 <= i < |entries| ==> SpellsEntry(content, i, entries[i], footprint)
  }

  ghost predicate SpellsEntry(content: array<YamlNode>, i: nat, e: Entry, footprint: set<object>)
    requires 2 * i + 1 < content.Length
    reads content, footprint
    decreases e
  {
    content[2 * i].value == e.key && Spells(content[2 * i + 1], e.value, footprint)
  }

  lemma {:induction false} SpellsInLarger(n: YamlNode, t: Node, small: set<object>, large: set<object>)
    requires Spells(n, t, small) && small <= large
    ensures Spells(n, t, large)
    decreases t
  {
    if t.Mapping? {
      forall i | 0 <= i < |t.entries| ensures SpellsEntry(n.content, i, t.entries[i], large) {
        assert SpellsEntry(n.content, i, t.entries[i], small);
        assert t.entries[i] in t.entries;
        SpellsInLarger(n.content[2 * i + 1], t.entries[i].value, small, large);
      }
    } else if t.Sequence? {
      forall i | 0 <= i < |t.items| ensures Spells(n.content[i], t.items[i], large) {
        SpellsInLarger(n.content[i], t.items[i], small, large);
      }
    }
  }

  lemma EntriesInLarger(content: array<YamlNode>, entries: seq<Entry>, small: set<object>, large: set<object>)
    requires SpellsEntries(content, entries, small) && small <= large
    ensures SpellsEntries(content, entries, large)
  {
    forall i | 0 <= i < |entries| ensures SpellsEntry(content, i, entries[i], large) {
      assert SpellsEntry(content, i, entries[i], small);
      SpellsInLarger(content[2 * i + 1], entries[i].value, small, large);
    }
  }

  method MappingValueIndex(content: array<YamlNode>, key: string, ghost entries: seq<Entry>,
                           ghost footprint: set<object>)
    returns (index: int)
    requires SpellsEntries(content, entries, footprint)
    ensures index == if IndexOf(entries, key) < 0 then -1 else 2 * IndexOf(entries, key) + 1
  {
    var i := 0;
    ghost var k := 0;
    while i + 1 < content.Length
      invariant i == 2 * k && 0 <= k <= |entries|
      invariant forall j :: 0 <= j < k ==> entries[j].key != key
    {
      assert SpellsEntry(content, k, entries[k], footprint);
      if content[i].value == key { return i + 1; }
      i, k := i + 2, k + 1;
    }
    return -1;
  }

  method CopyOf(content: array<YamlNode>) returns (copy: array<YamlNode>)
    ensures fresh(copy) && copy[..] == content[..]
  {
    copy := new YamlNode[content.Length](i requires 0 <= i < content.Length reads content => content[i]);
  }

  method AppendPair(content: array<YamlNode>, key: YamlNode, value: YamlNode) returns (longer: array<YamlNode>)
    ensures fresh(longer) && longer[..] == content[..] + [key, value]
  {
    longer := new YamlNode[content.Length + 2](i requires 0 <= i < content.Length + 2 reads content =>
      if i < content.Length then content[i] else if i == content.Length then key else value);
  }

  /** A missing side yields the other one; and what is not made of two mappings is the overriding node itself. */
  method MergeNodes(base: YamlNode?, over: YamlNode?, ghost b: Node, ghost o: Node, ghost footprint: set<object>)
    returns (merged: YamlNode?, ghost larger: set<object>)
    requires base != null ==> Spells(base, b, footprint)
    requires over != null ==> Spells(over, o, footprint)
    ensures footprint <= larger && fresh(larger - footprint)
    ensures base == null ==> merged == over
    ensures over == null ==> merged == base
    ensures base != null && over != null ==>
              if base.kind == MAPPING_KIND && over.kind == MAPPING_KIND
              then merged != null && merged !in footprint && merged.kind == base.kind && merged.value == base.value
              else merged == over
    ensures base != null && over != null ==> merged != null && Spells(merged, Merge(b, o), larger)
    decreases o, 1
  {
    larger := footprint;
    if base == null { return over, larger; }
    if over == null { return base, larger; }
    if base.kind != MAPPING_KIND || over.kind != MAPPING_KIND { return over, larger; }
    merged, larger := MergeMappings(base, over, b.entries, o.entries, footprint);
  }

  method MergeMappings(base: YamlNode, over: YamlNode, ghost b: seq<Entry>, ghost o: seq<Entry>,
                       ghost footprint: set<object>)
    returns (merged: YamlNode, ghost larger: set<object>)
    requires Spells(base, Mapping(b), footprint) && Spells(over, Mapping(o), footprint)
    ensures footprint <= larger && fresh(larger - footprint) && merged !in footprint
    ensures merged.kind == base.kind && merged.value == base.value
    ensures Spells(merged, Mapping(MergeEntries(b, o)), larger)
    decreases o, 0
  {
    var content := CopyOf(base.content);
    ghost var entries := b;
    larger := footprint;
    assert SpellsEntries(content, entries, larger) by {
      forall i | 0 <= i < |b| ensures SpellsEntry(content, i, b[i], larger) {
        assert SpellsEntry(base.content, i, b[i], larger);
      }
    }
    var i := 0;
    ghost var k := 0;
    while i + 1 < over.content.Length
      invariant i == 2 * k && 0 <= k <= |o|
      invariant footprint <= larger && fresh(larger - footprint)
      invariant fresh(content) && content !in larger
      invariant SpellsEntries(content, entries, larger)
      invariant Spells(over, Mapping(o), footprint)
      invariant MergeEntries(entries, o[k..]) == MergeEntries(b, o)
    {
      var key, value := over.content[i], over.content[i + 1];
      assert SpellsEntry(over.content, k, o[k], footprint);
      SpellsInLarger(value, o[k].value, footprint, larger);
      assert o[k..][0] == o[k] && o[k..][1..] == o[k + 1..];
      content, entries, larger := PutPair(content, entries, key, value, o[k], larger);
      i, k := i + 2, k + 1;
    }
    assert o[k..] == [];
    merged := new YamlNode(base.kind, base.value, content);
    EntriesInLarger(content, entries, larger, larger + {content, merged});
    larger := larger + {content, merged};
  }

  /** Replaces the value in place when the key is there, and otherwise moves to a longer array. */
  method PutPair(content: array<YamlNode>, ghost entries: seq<Entry>, key: YamlNode, value: YamlNode, ghost e: Entry,
                 ghost footprint: set<object>)
    returns (next: array<YamlNode>, ghost put: seq<Entry>, ghost larger: set<object>)
    requires SpellsEntries(content, entries, footprint) && content !in footprint
    requires key.value == e.key && Spells(value, e.value, footprint)
    modifies content
    ensures put == PutEntry(entries, e)
    ensures footprint <= larger && fresh(larger - footprint)
    ensures SpellsEntries(next, put, larger) && next !in larger
    ensures next == content || fresh(next)
    decreases e
  {
    put := PutEntry(entries, e);
    var index := MappingValueIndex(content, key.value, entries, footprint);
    if index >= 0 {
      ghost var j := IndexOf(entries, e.key);
      assert SpellsEntry(content, j, entries[j], footprint);
      var merged;
      merged, larger := MergeNodes(content[index], value, entries[j].value, e.value, footprint);
      EntriesInLarger(content, entries, footprint, larger);
      content[index] := merged;
      next := content;
    } else {
      larger := footprint;
      next := AppendPair(content, key, value);
    }
  }

  /** Loading the configuration files in order; with no file there is nothing to load. */
  method Load(roots: seq<YamlNode>, ghost trees: seq<Node>, ghost footprint: set<object>)
    returns (merged: YamlNode?, ghost larger: set<object>)
    requires |trees| == |roots| && forall i :: 0 <= i < |roots| ==> Spells(roots[i], trees[i], footprint)
    ensures footprint <= larger && fresh(larger - footprint)
    ensures merged == null <==> roots == []
    ensures merged != null ==> Spells(merged, MergeAll(trees), larger)
    ensures roots != [] && (|roots| == 1 || roots[|roots| - 1].kind != MAPPING_KIND) ==> merged == roots[|roots| - 1]
  {
    merged, larger := null, footprint;
    for i := 0 to |roots|
      invariant footprint <= larger && fresh(larger - footprint)
      invariant merged == null <==> i == 0
      invariant merged == null ==> larger == footprint
      invariant merged != null ==> Spells(merged, MergeAll(trees[..i]), larger)
      invariant i == 1 || (i > 0 && roots[i - 1].kind != MAPPING_KIND) ==> merged == roots[i - 1]
      invariant forall j :: 0 <= j < |roots| ==> Spells(roots[j], trees[j], footprint)
    {
      if merged == null {
        merged := roots[i];
        assert trees[..1] == [trees[0]];
      } else {
        SpellsInLarger(roots[i], trees[i], footprint, larger);
        assert trees[..i + 1][..i] == trees[..i];
        merged, larger := MergeNodes(merged, roots[i], MergeAll(trees[..i]), trees[i], larger);
      }
    }
    assert trees[..|roots|] == trees;
  }
}

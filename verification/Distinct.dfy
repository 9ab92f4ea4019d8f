/** Lists without repetitions: each element once, where it first occurred. */
module Distinct {

  function Firsts(xs: seq<string>): (firsts: seq<string>)
    ensures forall x :: x in firsts <==> x in xs
    ensures NoRepeats(firsts)
  {
    if xs == [] then []
    else
      var before, last := Firsts(xs[..|xs| - 1]), xs[|xs| - 1];
      assert xs == xs[..|xs| - 1] + [last];
      if last in before then before else before + [last]
  }

  ghost predicate NoRepeats(xs: seq<string>) {
    forall i, j :: 0 <= i < j < |xs| ==> xs[i] != xs[j]
  }

  lemma FirstsAfter(xs: seq<string>, x: string)
    ensures Firsts(xs + [x]) == if x in xs then Firsts(xs) else Firsts(xs) + [x]
  {
    assert (xs + [x])[..|xs|] == xs;
  }

  /** Where an element first occurs. */
  function FirstIndex(xs: seq<string>, x: string): (i: nat)
    requires x in xs
    ensures i < |xs| && xs[i] == x && x !in xs[..i]
  {
    if x in xs[..|xs| - 1] then
      assert forall i :: 0 <= i < |xs| ==> xs[..|xs| - 1][..i] == xs[..i] || i == |xs|;
      FirstIndex(xs[..|xs| - 1], x)
    else
      assert xs == xs[..|xs| - 1] + [xs[|xs| - 1]];
      |xs| - 1
  }

  /** Elements come in the order of their first occurrences. */
  lemma {:induction false} FirstsInOrder(xs: seq<string>, i: nat, j: nat)
    requires i < j < |Firsts(xs)|
    ensures FirstIndex(xs, Firsts(xs)[i]) < FirstIndex(xs, Firsts(xs)[j])
  {
    var init := xs[..|xs| - 1];
    var x, y := Firsts(xs)[i], Firsts(xs)[j];
    assert Firsts(init)[i] == x;
    assert x in init;
    FirstIndexOfPrefix(xs, x);
    if j < |Firsts(init)| {
      assert Firsts(init)[j] == y && y in init;
      FirstsInOrder(init, i, j);
      FirstIndexOfPrefix(xs, y);
    } else {
      assert y !in init;
    }
  }

  lemma FirstIndexOfPrefix(xs: seq<string>, x: string)
    requires xs != [] && x in xs[..|xs| - 1]
    ensures FirstIndex(xs, x) == FirstIndex(xs[..|xs| - 1], x)
  {
  }

  lemma {:induction false} FirstsOfNoRepeats(xs: seq<string>)
    requires NoRepeats(xs)
    ensures Firsts(xs) == xs
  {
    if xs != [] {
      var init, last := xs[..|xs| - 1], xs[|xs| - 1];
      FirstsOfNoRepeats(init);
      assert last !in init;
      assert xs == init + [last];
    }
  }

  lemma FirstsOnward(xs: seq<string>, x: string)
    ensures Firsts(Firsts(xs) + [x]) == Firsts(xs + [x])
  {
    FirstsAfter(xs, x);
    FirstsAfter(Firsts(xs), x);
    FirstsOfNoRepeats(Firsts(xs));
  }
}

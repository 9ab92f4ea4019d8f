/** Pieces of texts, white space at their ends, and lists of names. */
module Text {
  import opened Distinct

  predicate HasSuffix(s: string, suffix: string) {
    |suffix| <= |s| && s[|s| - |suffix|..] == suffix
  }

  // ---------- Pieces ----------

  /** The pieces between separators; there is always at least one. */
  function Split(separator: char, s: string): (pieces: seq<string>)
    ensures |pieces| > 0
    ensures forall p :: p in pieces ==> separator !in p
  {
    if s == "" then [""]
    else
      var rest := Split(separator, s[1..]);
      if s[0] == separator then [""] + rest else [[s[0]] + rest[0]] + rest[1..]
  }

  lemma {:induction false} SplitOfPiece(separator: char, piece: string)
    requires separator !in piece
    ensures Split(separator, piece) == [piece]
  {
    if piece != "" {
      SplitOfPiece(separator, piece[1..]);
      assert [piece[0]] + piece[1..] == piece;
    }
  }

  lemma {:induction false} SplitOfJoined(separator: char, a: string, b: string)
    ensures Split(separator, a + [separator] + b) == Split(separator, a) + Split(separator, b)
  {
    var whole := a + [separator] + b;
    if a == "" {
      assert whole[0] == separator && whole[1..] == b;
    } else {
      assert whole[0] == a[0] && whole[1..] == a[1..] + [separator] + b;
      SplitOfJoined(separator, a[1..], b);
    }
  }

  // ---------- White space ----------

  predicate IsSpace(c: char) {
    || '\t' <= c <= '\r' || c == ' ' || c == '\U{85}' || c == '\U{A0}' || c == '\U{1680}'
    || c == '\U{2028}' || c == '\U{2029}' || c == '\U{202F}' || c == '\U{205F}' || c == '\U{3000}'
    || '\U{2000}' <= c <= '\U{200A}'
  }

  function TrimLeft(s: string): (r: string)
    ensures r != "" ==> !IsSpace(r[0])
    ensures forall c :: c in r ==> c in s
  {
    if s != "" && IsSpace(s[0]) then TrimLeft(s[1..]) else s
  }

  function TrimRight(s: string): (r: string)
    ensures r != "" ==> !IsSpace(r[|r| - 1])
    ensures r <= s
  {
    if s != "" && IsSpace(s[|s| - 1]) then TrimRight(s[..|s| - 1]) else s
  }

  /** The text without white space at its ends. */
  function TrimSpace(s: string): string {
    TrimRight(TrimLeft(s))
  }

  lemma TrimSpaceTrims(s: string)
    ensures Trimmed(TrimSpace(s))
  {
    var left := TrimLeft(s);
    assert TrimRight(left) != "" ==> TrimRight(left)[0] == left[0];
  }

  predicate Trimmed(s: string) {
    s != "" ==> !IsSpace(s[0]) && !IsSpace(s[|s| - 1])
  }

  /** Trimming changes exactly the texts that start or end in white space. */
  lemma TrimSpaceFixes(s: string)
    ensures TrimSpace(s) == s <==> Trimmed(s)
  {
  }

  /** The pieces that are more than white space, trimmed. */
  function Names(pieces: seq<string>): seq<string> {
    if pieces == [] then []
    else
      var before, name := Names(pieces[..|pieces| - 1]), TrimSpace(pieces[|pieces| - 1]);
      if name == "" then before else before + [name]
  }

  lemma TrimSpaceTwice(s: string)
    ensures TrimSpace(TrimSpace(s)) == TrimSpace(s)
  {
    TrimSpaceTrims(s);
    TrimSpaceFixes(TrimSpace(s));
  }

  /** Names that are in order already stay what they are. */
  lemma {:induction false} NamesFixed(names: seq<string>)
    requires forall n :: n in names ==> n != "" && Trimmed(n)
    ensures Names(names) == names
  {
    if names != [] {
      var init, last := names[..|names| - 1], names[|names| - 1];
      assert last in names;
      TrimSpaceFixes(last);
      forall n | n in init ensures n != "" && Trimmed(n) {
        assert n in names;
      }
      NamesFixed(init);
      assert names == init + [last];
    }
  }

  lemma {:induction false} NamesAreTrimmed(pieces: seq<string>)
    ensures forall n :: n in Names(pieces) ==> n != "" && Trimmed(n)
  {
    if pieces != [] {
      TrimSpaceTrims(pieces[|pieces| - 1]);
      NamesAreTrimmed(pieces[..|pieces| - 1]);
    }
  }

  /** A name has no characters but those of its piece. */
  lemma {:induction false} NamesAreWithin(pieces: seq<string>, name: string)
    requires name in Names(pieces)
    ensures exists p :: p in pieces && forall c :: c in name ==> c in p
  {
    var init, last := pieces[..|pieces| - 1], pieces[|pieces| - 1];
    if name in Names(init) {
      NamesAreWithin(init, name);
      var p :| p in init && forall c :: c in name ==> c in p;
      assert p in pieces;
    } else {
      assert name == TrimSpace(last) && last in pieces;
    }
  }

  /** The names in a list, each once, in the order in which they first occur. */
  function DistinctNames(pieces: seq<string>): seq<string> {
    Firsts(Names(pieces))
  }

  lemma OneMoreName(pieces: seq<string>, i: nat)
    requires i < |pieces|
    ensures var before, name := DistinctNames(pieces[..i]), TrimSpace(pieces[i]);
            DistinctNames(pieces[..i + 1]) == if name == "" || name in before then before else before + [name]
  {
    assert pieces[..i + 1][..i] == pieces[..i];
    FirstsAfter(Names(pieces[..i]), TrimSpace(pieces[i]));
  }
}

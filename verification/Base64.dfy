/**
 Unpadded base64 (section 4 of RFC 4648, and its URL-safe alphabet of section 5) with the
 leniencies of Go's decoder: line breaks are skipped anywhere, and the unused low bits of the
 last digit are ignored. Decoding is therefore not injective, and callers that use the text as
 a key (the data key cache does) rely only on `RoundTrip` and on decoding being a function.
 */
module Base64 {
  import opened Wrappers

  type Byte = x: int | 0 <= x < 256
  type Bytes = seq<Byte>
  type Sextet = x: int | 0 <= x < 64

  datatype Alphabet = Std | Url

  function Digit(a: Alphabet, v: Sextet): char {
    if v < 26 then ('A' as int + v) as char
    else if v < 52 then ('a' as int + v - 26) as char
    else if v < 62 then ('0' as int + v - 52) as char
    else if v == 62 then (if a.Std? then '+' else '-')
    else (if a.Std? then '/' else '_')
  }

  function DigitValue(a: Alphabet, c: char): Option<Sextet> {
    if 'A' <= c <= 'Z' then Some(c as int - 'A' as int)
    else if 'a' <= c <= 'z' then Some(c as int - 'a' as int + 26)
    else if '0' <= c <= '9' then Some(c as int - '0' as int + 52)
    else if c == (if a.Std? then '+' else '-') then Some(62)
    else if c == (if a.Std? then '/' else '_') then Some(63)
    else None
  }

  /** The six-bit groups of a byte string, the last one filled up with zero bits. */
  function Split(b: Bytes): seq<Sextet> {
    if |b| == 0 then []
    else if |b| == 1 then [b[0] / 4, b[0] % 4 * 16]
    else if |b| == 2 then [b[0] / 4, b[0] % 4 * 16 + b[1] / 16, b[1] % 16 * 4]
    else [b[0] / 4, b[0] % 4 * 16 + b[1] / 16, b[1] % 16 * 4 + b[2] / 64, b[2] % 64] + Split(b[3..])
  }

  /** The bytes that a digit string spells; one left-over digit spells nothing. */
  function Join(v: seq<Sextet>): Option<Bytes> {
    if |v| == 0 then Some([])
    else if |v| == 1 then None
    else
      var b0: Byte := v[0] as int * 4 + v[1] as int / 16;
      if |v| == 2 then Some([b0])
      else
        var b1: Byte := v[1] as int % 16 * 16 + v[2] as int / 4;
        if |v| == 3 then Some([b0, b1])
        else
          var b2: Byte := v[2] as int % 4 * 64 + v[3] as int;
          match Join(v[4..])
          case None => None
          case Some(rest) => Some([b0, b1, b2] + rest)
  }

  function Text(a: Alphabet, v: seq<Sextet>): string {
    seq(|v|, i requires 0 <= i < |v| => Digit(a, v[i]))
  }

  function Symbols(a: Alphabet, s: string): Option<seq<Sextet>> {
    if s == "" then Some([])
    else if s[0] == '\r' || s[0] == '\n' then Symbols(a, s[1..])
    else match (DigitValue(a, s[0]), Symbols(a, s[1..]))
      case (Some(v), Some(rest)) => Some([v] + rest)
      case _ => None
  }

  function Encode(a: Alphabet, b: Bytes): string {
    Text(a, Split(b))
  }

  function Decode(a: Alphabet, s: string): Option<Bytes> {
    match Symbols(a, s)
    case None => None
    case Some(v) => Join(v)
  }

  lemma DigitRoundTrip(a: Alphabet, v: Sextet)
    ensures DigitValue(a, Digit(a, v)) == Some(v)
    ensures Digit(a, v) !in ['\r', '\n', '.', '=']
  {
  }

  lemma {:induction false} SymbolsOfText(a: Alphabet, v: seq<Sextet>)
    ensures Symbols(a, Text(a, v)) == Some(v)
  {
    if v != [] {
      DigitRoundTrip(a, v[0]);
      SymbolsOfText(a, v[1..]);
      assert Text(a, v)[1..] == Text(a, v[1..]);
      assert v == [v[0]] + v[1..];
    }
  }

  lemma {:induction false} JoinOfSplit(b: Bytes)
    ensures Join(Split(b)) == Some(b)
  {
    if |b| == 0 {
    } else if |b| == 1 {
      assert b == [b[0]];
    } else if |b| == 2 {
      assert b == [b[0], b[1]];
    } else {
      JoinOfSplit(b[3..]);
      assert Split(b)[4..] == Split(b[3..]);
      assert b == [b[0], b[1], b[2]] + b[3..];
    }
  }

  /** Every byte string survives encoding and decoding. */
  lemma RoundTrip(a: Alphabet, b: Bytes)
    ensures Decode(a, Encode(a, b)) == Some(b)
    ensures Encode(a, b) == "" <==> b == []
  {
    SymbolsOfText(a, Split(b));
    JoinOfSplit(b);
  }

  lemma EncodeInjective(a: Alphabet, b: Bytes, c: Bytes)
    requires Encode(a, b) == Encode(a, c)
    ensures b == c
  {
    RoundTrip(a, b);
    RoundTrip(a, c);
  }

  /** The encoded text never contains a dot, so dot-joined parts can be split again. */
  lemma EncodeHasNoDot(a: Alphabet, b: Bytes)
    ensures '.' !in Encode(a, b)
  {
    forall i | 0 <= i < |Encode(a, b)| ensures Encode(a, b)[i] != '.' {
      DigitRoundTrip(a, Split(b)[i]);
    }
  }

  function WithoutLineBreaks(s: string): string {
    if s == "" then ""
    else (if s[0] == '\r' || s[0] == '\n' then "" else [s[0]]) + WithoutLineBreaks(s[1..])
  }

  /** Line breaks do not count, wherever they are; and any other character outside the alphabet spoils the text. */
  lemma LineBreaksDoNotCount(a: Alphabet, s: string)
    ensures Decode(a, s) == Decode(a, WithoutLineBreaks(s))
    ensures Decode(a, s).Some? ==> forall c :: c in WithoutLineBreaks(s) ==> DigitValue(a, c).Some?
  {
    SymbolsWithoutLineBreaks(a, s);
  }

  lemma {:induction false} SymbolsWithoutLineBreaks(a: Alphabet, s: string)
    ensures Symbols(a, s) == Symbols(a, WithoutLineBreaks(s))
    ensures Symbols(a, s).Some? ==> forall c :: c in WithoutLineBreaks(s) ==> DigitValue(a, c).Some?
  {
    if s != "" {
      SymbolsWithoutLineBreaks(a, s[1..]);
      var rest := WithoutLineBreaks(s[1..]);
      assert "" + rest == rest && ([s[0]] + rest)[1..] == rest;
    }
  }

  lemma SextetsOfThreeBytes(x: Byte, y: Byte, z: Byte)
    ensures Split([x, y, z]) == [x / 4, x % 4 * 16 + y / 16, y % 16 * 4 + z / 64, z % 64]
  {
    var b := [x, y, z];
    assert b[3..] == [] && Split(b[3..]) == [];
  }

  /** Three bytes are four digits of six bits each, the first byte in the highest bits. */
  lemma DigitsOfThreeBytes(a: Alphabet, x: Byte, y: Byte, z: Byte) returns (p: Sextet, q: Sextet, r: Sextet, t: Sextet)
    ensures Encode(a, [x, y, z]) == [Digit(a, p), Digit(a, q), Digit(a, r), Digit(a, t)]
    ensures ((p * 64 + q) * 64 + r) * 64 + t == (x * 256 + y) * 256 + z
  {
    p, q, r, t := x / 4, x % 4 * 16 + y / 16, y % 16 * 4 + z / 64, z % 64;
    SextetsOfThreeBytes(x, y, z);
  }

  /** The vectors of section 10 of RFC 4648, without their padding, and the two digits that differ. */
  lemma Vectors()
    ensures Encode(Std, [0x66]) == "Zg" && Encode(Std, [0x66, 0x6f]) == "Zm8"
    ensures Encode(Std, [0x66, 0x6f, 0x6f]) == "Zm9v"
    ensures Encode(Std, [0xff, 0xef]) == "/+8" && Encode(Url, [0xff, 0xef]) == "_-8"
  {
    assert [0x66, 0x6f, 0x6f][3..] == [];
  }
}

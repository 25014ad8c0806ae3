/** Base64 (sections 4 and 5 of RFC 4648), unpadded and padded, as Go's
    encoding/base64 reads and writes it. */
module Base64 {
  import opened Wrappers

  type Sextet = x: int | 0 <= x < 64

  datatype Alphabet = Standard | Url

  function CharOf(a: Alphabet, v: Sextet): char {
    if v < 26 then 'A' + v as char
    else if v < 52 then 'a' + (v - 26) as char
    else if v < 62 then '0' + (v - 52) as char
    else if v == 62 then (if a.Standard? then '+' else '-')
    else (if a.Standard? then '/' else '_')
  }

  function ValueOf(a: Alphabet, c: char): Option<Sextet> {
    if 'A' <= c <= 'Z' then Some((c - 'A') as int)
    else if 'a' <= c <= 'z' then Some((c - 'a') as int + 26)
    else if '0' <= c <= '9' then Some((c - '0') as int + 52)
    else if c == (if a.Standard? then '+' else '-') then Some(62)
    else if c == (if a.Standard? then '/' else '_') then Some(63)
    else None
  }

  /** Tables 1 and 2 of RFC 4648: A to Z, a to z, 0 to 9, then the two characters in
      which the alphabets differ; and a character reads as its place there or not at
      all. */
  lemma CharsFollowTheTables(a: Alphabet, v: Sextet, c: char)
    ensures CharOf(a, 0) == 'A' && CharOf(a, 25) == 'Z' && CharOf(a, 26) == 'a' && CharOf(a, 51) == 'z'
    ensures CharOf(a, 52) == '0' && CharOf(a, 61) == '9'
    ensures CharOf(Standard, 62) == '+' && CharOf(Standard, 63) == '/'
    ensures CharOf(Url, 62) == '-' && CharOf(Url, 63) == '_'
    ensures v < 61 && v != 25 && v != 51 ==> CharOf(a, v + 1) as int == CharOf(a, v) as int + 1
    ensures ValueOf(a, c) == Some(v) <==> c == CharOf(a, v)
  {
  }

  function Group(base: int, d0: int, d1: int, d2: int, d3: int): int {
    ((d0 * base + d1) * base + d2) * base + d3
  }

  /** Each group of three bytes and the four sextets it becomes are one number, most
      significant first; a short last group is filled up with zeros, of which only
      those that carry bits are kept. */
  lemma SplitKeepsTheNumber(b: Bytes)
    requires 1 <= |b|
    ensures |b| >= 3 ==>
              && Group(64, Split(b)[0], Split(b)[1], Split(b)[2], Split(b)[3]) == Group(256, 0, b[0], b[1], b[2])
              && Split(b)[4..] == Split(b[3..])
    ensures |b| == 2 ==> Group(64, Split(b)[0], Split(b)[1], Split(b)[2], 0) == Group(256, 0, b[0], b[1], 0)
    ensures |b| == 1 ==> Group(64, Split(b)[0], Split(b)[1], 0, 0) == Group(256, 0, b[0], 0, 0)
  {
  }

  lemma CharsAreReadable(a: Alphabet, v: Sextet)
    ensures ValueOf(a, CharOf(a, v)) == Some(v)
  {
  }

  // ----- bytes and sextets -----

  /** Three bytes become four sextets; one becomes two, two become three. */
  function Split(b: Bytes): (v: seq<Sextet>)
    ensures |v| == (4 * |b| + 2) / 3
  {
    if |b| == 0 then []
    else if |b| == 1 then [b[0] / 4, b[0] % 4 * 16]
    else if |b| == 2 then [b[0] / 4, b[0] % 4 * 16 + b[1] / 16, b[1] % 16 * 4]
    else [b[0] / 4, b[0] % 4 * 16 + b[1] / 16, b[1] % 16 * 4 + b[2] / 64, b[2] % 64] + Split(b[3..])
  }

  /** The inverse; bits left over in a short last group are ignored, and a single
      left-over sextet is an error. */
  function Join(v: seq<Sextet>): Option<Bytes> {
    if |v| == 0 then Some([])
    else if |v| == 1 then None
    else if |v| == 2 then Some(Head(v[0], v[1], 0, 0, 1))
    else if |v| == 3 then Some(Head(v[0], v[1], v[2], 0, 2))
    else
      match Join(v[4..])
      case Some(rest) => Some(Head(v[0], v[1], v[2], v[3], 3) + rest)
      case None => None
  }

  /** The first `n` bytes of a group of sextets. */
  function Head(v0: Sextet, v1: Sextet, v2: Sextet, v3: Sextet, n: nat): Bytes
    requires n <= 3
  {
    var all: Bytes := [v0 * 4 + v1 / 16, v1 % 16 * 16 + v2 / 4, v2 % 4 * 64 + v3];
    all[..n]
  }

  lemma {:induction false} JoinUndoesSplit(b: Bytes)
    ensures Join(Split(b)) == Some(b)
  {
    var v := Split(b);
    if |b| >= 3 {
      JoinUndoesSplit(b[3..]);
      assert v[4..] == Split(b[3..]);
      assert Head(v[0], v[1], v[2], v[3], 3) == [b[0], b[1], b[2]];
      assert b == [b[0], b[1], b[2]] + b[3..];
    } else if |b| == 2 {
      assert Head(v[0], v[1], v[2], 0, 2) == [b[0], b[1]] == b;
    } else if |b| == 1 {
      assert Head(v[0], v[1], 0, 0, 1) == [b[0]] == b;
    }
  }

  // ----- sextets and text -----

  function Print(a: Alphabet, v: seq<Sextet>): (s: string)
    ensures |s| == |v|
    ensures forall i | 0 <= i < |s| :: s[i] == CharOf(a, v[i])
  {
    if v == [] then "" else [CharOf(a, v[0])] + Print(a, v[1..])
  }

  function Read(a: Alphabet, s: string): Option<seq<Sextet>> {
    if s == "" then Some([])
    else
      match (ValueOf(a, s[0]), Read(a, s[1..]))
      case (Some(v), Some(rest)) => Some([v] + rest)
      case _ => None
  }

  lemma {:induction false} ReadUndoesPrint(a: Alphabet, v: seq<Sextet>)
    ensures Read(a, Print(a, v)) == Some(v)
  {
    if v != [] {
      ReadUndoesPrint(a, v[1..]);
      ReadsOneMore(a, v[0], v[1..], Print(a, v[1..]));
      assert v == [v[0]] + v[1..];
    }
  }

  lemma ReadsOneMore(a: Alphabet, v: Sextet, rest: seq<Sextet>, s: string)
    requires Read(a, s) == Some(rest)
    ensures Read(a, [CharOf(a, v)] + s) == Some([v] + rest)
  {
    CharsAreReadable(a, v);
    assert ([CharOf(a, v)] + s)[1..] == s;
  }

  /** Line breaks are skipped wherever they stand. */
  function Strip(s: string): string {
    if s == "" then ""
    else if s[0] == '\r' || s[0] == '\n' then Strip(s[1..])
    else [s[0]] + Strip(s[1..])
  }

  lemma {:induction false} CleanTextStaysAsIs(s: string)
    requires forall i | 0 <= i < |s| :: s[i] != '\r' && s[i] != '\n'
    ensures Strip(s) == s
  {
    if s != "" {
      CleanTextStaysAsIs(s[1..]);
    }
  }

  // ----- the encodings -----

  function Encode(a: Alphabet, b: Bytes): string {
    Print(a, Split(b))
  }

  function Decode(a: Alphabet, s: string): Option<Bytes> {
    match Read(a, s)
    case Some(v) => Join(v)
    case None => None
  }

  function DecodeRaw(a: Alphabet, s: string): Option<Bytes> {
    Decode(a, Strip(s))
  }

  /** Groups of four, of which only the last may end in one or two '='. */
  function DecodePadded(a: Alphabet, s: string): Option<Bytes> {
    var t := Strip(s);
    var n := |t|;
    if n % 4 != 0 then None
    else if n > 0 && t[n - 1] == '=' && t[n - 2] == '=' then Decode(a, t[..n - 2])
    else if n > 0 && t[n - 1] == '=' then Decode(a, t[..n - 1])
    else Decode(a, t)
  }

  /** What separates fields or is skipped elsewhere never occurs in encoded text. */
  lemma EncodedTextIsClean(a: Alphabet, b: Bytes)
    ensures forall i | 0 <= i < |Encode(a, b)| :: Encode(a, b)[i] !in {'$', '\r', '\n', '='}
  {
    forall i | 0 <= i < |Encode(a, b)|
      ensures Encode(a, b)[i] !in {'$', '\r', '\n', '='}
    {
      CharsAreReadable(a, Split(b)[i]);
    }
  }

  /** Decoding undoes encoding, for either alphabet and every byte string. */
  lemma RawRoundTrip(a: Alphabet, b: Bytes)
    ensures DecodeRaw(a, Encode(a, b)) == Some(b)
  {
    EncodedTextIsClean(a, b);
    CleanTextStaysAsIs(Encode(a, b));
    ReadUndoesPrint(a, Split(b));
    JoinUndoesSplit(b);
  }

  // ----- exactly what decodes -----

  predicate InAlphabet(a: Alphabet, s: string) {
    forall i | 0 <= i < |s| :: ValueOf(a, s[i]).Some?
  }

  lemma {:induction false} ReadsIff(a: Alphabet, s: string)
    ensures Read(a, s).Some? <==> InAlphabet(a, s)
    ensures Read(a, s).Some? ==> |Read(a, s).value| == |s|
  {
    if s != "" {
      ReadsIff(a, s[1..]);
      assert InAlphabet(a, s) <==> ValueOf(a, s[0]).Some? && InAlphabet(a, s[1..]) by {
        assert forall i | 1 <= i < |s| :: s[i] == s[1..][i - 1];
      }
    }
  }

  lemma {:induction false} JoinsIff(v: seq<Sextet>)
    ensures Join(v).Some? <==> |v| % 4 != 1
    ensures Join(v).Some? ==> |Join(v).value| == |v| * 3 / 4
  {
    if |v| >= 4 {
      JoinsIff(v[4..]);
    }
  }

  /** Unpadded text decodes exactly when, line breaks aside, it is of the alphabet and
      has no single character left over. */
  lemma RawDecodesIff(a: Alphabet, s: string)
    ensures DecodeRaw(a, s).Some? <==> InAlphabet(a, Strip(s)) && |Strip(s)| % 4 != 1
    ensures DecodeRaw(a, s).Some? ==> |DecodeRaw(a, s).value| == |Strip(s)| * 3 / 4
  {
    ReadsIff(a, Strip(s));
    if Read(a, Strip(s)).Some? {
      JoinsIff(Read(a, Strip(s)).value);
    }
  }

  /** Line breaks may stand anywhere, and nothing else is skipped. */
  lemma {:induction false} LineBreaksAreSkipped(s: string, c: char, t: string)
    ensures Strip(s + [c] + t) == if c == '\r' || c == '\n' then Strip(s + t) else Strip(s) + [c] + Strip(t)
  {
    if s == "" {
      assert (s + [c] + t)[1..] == t && s + t == t;
    } else {
      LineBreaksAreSkipped(s[1..], c, t);
      assert (s + [c] + t)[1..] == s[1..] + [c] + t && (s + t)[1..] == s[1..] + t;
    }
  }

  /** Section 4 of RFC 4648: encoded text filled up to a multiple of four. */
  function Padded(a: Alphabet, b: Bytes): string {
    Encode(a, b) + Padding(b)
  }

  function Padding(b: Bytes): string {
    if |b| % 3 == 1 then "==" else if |b| % 3 == 2 then "=" else ""
  }

  lemma PaddedLength(a: Alphabet, b: Bytes)
    ensures |Padded(a, b)| == (|b| + 2) / 3 * 4 && |Padded(a, b)| % 4 == 0
    ensures |b| % 3 != 0 ==> |Encode(a, b)| % 4 != 0 && Encode(a, b) != ""
  {
    var q, rest := |b| / 3, |b| % 3;
    assert |b| == 3 * q + rest;
    assert |Encode(a, b)| == (4 * |b| + 2) / 3;
    if rest == 0 {
      assert |Encode(a, b)| == 4 * q;
    } else {
      assert |Encode(a, b)| == 4 * q + rest + 1;
    }
  }

  lemma PaddedTextIsClean(a: Alphabet, b: Bytes)
    ensures Strip(Padded(a, b)) == Padded(a, b)
  {
    EncodedTextIsClean(a, b);
    BothAreClean(Encode(a, b), Padding(b));
  }

  lemma BothAreClean(s: string, t: string)
    requires forall i | 0 <= i < |s| :: s[i] !in {'$', '\r', '\n', '='}
    requires forall i | 0 <= i < |t| :: t[i] == '='
    ensures Strip(s + t) == s + t
  {
    CleanTextStaysAsIs(s + t);
  }

  lemma DecodesWithoutPadding(a: Alphabet, e: string, p: string)
    requires p == "" || (e != "" && (p == "=" || p == "=="))
    requires e != "" ==> e[|e| - 1] != '='
    requires Strip(e + p) == e + p && |e + p| % 4 == 0
    ensures DecodePadded(a, e + p) == Decode(a, e)
  {
    var t := e + p;
    assert t[..|e|] == e;
    if p == "==" {
      assert t[|t| - 1] == '=' && t[|t| - 2] == '=';
    } else if p == "=" {
      assert t[|t| - 1] == '=' && t[|t| - 2] == e[|e| - 1];
    } else {
      assert t == e;
    }
  }

  /** Padded decoding undoes padded encoding, and insists on the padding. */
  lemma PaddedRoundTrip(a: Alphabet, b: Bytes)
    ensures DecodePadded(a, Padded(a, b)) == Some(b)
    ensures DecodePadded(a, Encode(a, b)) == if |b| % 3 == 0 then Some(b) else None
  {
    PaddedLength(a, b);
    PaddedTextIsClean(a, b);
    EncodedTextIsClean(a, b);
    CleanTextStaysAsIs(Encode(a, b));
    RawRoundTrip(a, b);
    DecodesWithoutPadding(a, Encode(a, b), Padding(b));
    if |b| % 3 == 0 {
      assert Padded(a, b) == Encode(a, b);
    }
  }
}

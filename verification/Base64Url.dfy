/** The unpadded base64url coding of section 5 of RFC 4648, as the strict engine decodes it. */
module Base64Url {
  import opened Utf8
  import opened Wrappers

  type sextet = x: int | 0 <= x < 64

  function Letter(v: sextet): (c: char) {
    if v < 26 then 'A' + v as char
    else if v < 52 then 'a' + (v - 26) as char
    else if v < 62 then '0' + (v - 52) as char
    else if v == 62 then '-'
    else '_'
  }

  predicate Alphabet(c: char) {
    'A' <= c <= 'Z' || 'a' <= c <= 'z' || '0' <= c <= '9' || c == '-' || c == '_'
  }

  function Value(c: char): (v: sextet)
    requires Alphabet(c)
  {
    if 'A' <= c <= 'Z' then c as int - 'A' as int
    else if 'a' <= c <= 'z' then c as int - 'a' as int + 26
    else if '0' <= c <= '9' then c as int - '0' as int + 52
    else if c == '-' then 62
    else 63
  }

  lemma LetterValue(v: sextet)
    ensures Alphabet(Letter(v)) && Value(Letter(v)) == v
  {
  }

  lemma ValueLetter(c: char)
    requires Alphabet(c)
    ensures Letter(Value(c)) == c
  {
  }

  // Three bytes as four sextets, and back.

  function S0(b0: byte): sextet { b0 / 4 }
  function S1(b0: byte, b1: byte): sextet { b0 % 4 * 16 + b1 / 16 }
  function S2(b1: byte, b2: byte): sextet { b1 % 16 * 4 + b2 / 64 }
  function S3(b2: byte): sextet { b2 % 64 }
  function B0(v0: sextet, v1: sextet): byte { v0 * 4 + v1 / 16 }
  function B1(v1: sextet, v2: sextet): byte { v1 % 16 * 16 + v2 / 4 }
  function B2(v2: sextet, v3: sextet): byte { v2 % 4 * 64 + v3 }

  lemma SplitThenJoin(b0: byte, b1: byte, b2: byte)
    ensures B0(S0(b0), S1(b0, b1)) == b0
    ensures B1(S1(b0, b1), S2(b1, b2)) == b1
    ensures B2(S2(b1, b2), S3(b2)) == b2
    ensures S1(b0, 0) % 16 == 0 && S2(b1, 0) % 4 == 0
  {
  }

  lemma JoinThenSplit(v0: sextet, v1: sextet, v2: sextet, v3: sextet)
    ensures S0(B0(v0, v1)) == v0
    ensures S1(B0(v0, v1), B1(v1, v2)) == v1
    ensures S2(B1(v1, v2), B2(v2, v3)) == v2
    ensures S3(B2(v2, v3)) == v3
    ensures v1 % 16 == 0 ==> S1(B0(v0, v1), 0) == v1
    ensures v2 % 4 == 0 ==> S2(B1(v1, v2), 0) == v2
  {
  }

  function Sextets(b: Bytes): seq<sextet> {
    if |b| == 0 then []
    else if |b| == 1 then [S0(b[0]), S1(b[0], 0)]
    else if |b| == 2 then [S0(b[0]), S1(b[0], b[1]), S2(b[1], 0)]
    else [S0(b[0]), S1(b[0], b[1]), S2(b[1], b[2]), S3(b[2])] + Sextets(b[3..])
  }

  /** Refuses a lone final sextet and nonzero leftover bits. */
  function Join(v: seq<sextet>): Option<Bytes> {
    if |v| == 0 then Some([])
    else if |v| == 1 then None
    else if |v| == 2 then
      if v[1] % 16 == 0 then Some([B0(v[0], v[1])]) else None
    else if |v| == 3 then
      if v[2] % 4 == 0 then Some([B0(v[0], v[1]), B1(v[1], v[2])]) else None
    else
      match Join(v[4..])
      case None => None
      case Some(rest) => Some([B0(v[0], v[1]), B1(v[1], v[2]), B2(v[2], v[3])] + rest)
  }

  lemma SplitOne(b0: byte)
    ensures S1(b0, 0) % 16 == 0 && B0(S0(b0), S1(b0, 0)) == b0
  {
  }

  lemma JoinOfTwo(v0: sextet, v1: sextet)
    ensures v1 % 16 == 0 ==> Join([v0, v1]) == Some([B0(v0, v1)])
  {
  }

  lemma JoinOne(b0: byte)
    ensures Join(Sextets([b0])) == Some([b0])
  {
    SplitOne(b0);
    JoinOfTwo(S0(b0), S1(b0, 0));
  }

  lemma JoinTwo(b0: byte, b1: byte)
    ensures Join(Sextets([b0, b1])) == Some([b0, b1])
  {
    SplitThenJoin(b0, b1, 0);
    assert Sextets([b0, b1]) == [S0(b0), S1(b0, b1), S2(b1, 0)];
  }

  lemma JoinGroup(b0: byte, b1: byte, b2: byte, v: seq<sextet>, rest: Bytes)
    requires Join(v) == Some(rest)
    ensures Join([S0(b0), S1(b0, b1), S2(b1, b2), S3(b2)] + v) == Some([b0, b1, b2] + rest)
  {
    SplitThenJoin(b0, b1, b2);
    var all := [S0(b0), S1(b0, b1), S2(b1, b2), S3(b2)] + v;
    assert all[4..] == v;
  }

  lemma SextetsGroup(b: Bytes)
    requires |b| > 2
    ensures Sextets(b) == [S0(b[0]), S1(b[0], b[1]), S2(b[1], b[2]), S3(b[2])] + Sextets(b[3..])
  {
  }

  lemma {:induction false} JoinSextets(b: Bytes)
    ensures Join(Sextets(b)) == Some(b)
    decreases |b|
  {
    if |b| == 0 {
    } else if |b| == 1 {
      JoinOne(b[0]);
      assert b == [b[0]];
    } else if |b| == 2 {
      JoinTwo(b[0], b[1]);
      assert b == [b[0], b[1]];
    } else {
      JoinSextets(b[3..]);
      SextetsGroup(b);
      JoinGroup(b[0], b[1], b[2], Sextets(b[3..]), b[3..]);
      assert b == [b[0], b[1], b[2]] + b[3..];
    }
  }

  lemma {:induction false} SextetsJoin(v: seq<sextet>)
    requires Join(v).Some?
    ensures Sextets(Join(v).value) == v
    decreases |v|
  {
    if |v| == 2 {
      JoinThenSplit(v[0], v[1], 0, 0);
    } else if |v| == 3 {
      JoinThenSplit(v[0], v[1], v[2], 0);
    } else if |v| > 3 {
      JoinThenSplit(v[0], v[1], v[2], v[3]);
      SextetsJoin(v[4..]);
      assert Join(v).value[3..] == Join(v[4..]).value;
      assert v == [v[0], v[1], v[2], v[3]] + v[4..];
    }
  }

  function Letters(v: seq<sextet>): (s: string)
    ensures |s| == |v| && forall i :: 0 <= i < |v| ==> s[i] == Letter(v[i])
  {
    seq(|v|, i requires 0 <= i < |v| => Letter(v[i]))
  }

  function Values(s: string): (v: seq<sextet>)
    requires forall i :: 0 <= i < |s| ==> Alphabet(s[i])
    ensures |v| == |s| && forall i :: 0 <= i < |s| ==> v[i] == Value(s[i])
  {
    seq(|s|, i requires 0 <= i < |s| => Value(s[i]))
  }

  function Encode(b: Bytes): string {
    Letters(Sextets(b))
  }

  /** Refuses characters outside the alphabet (padding among them) too. */
  function Decode(s: string): Option<Bytes> {
    if forall i :: 0 <= i < |s| ==> Alphabet(s[i]) then Join(Values(s)) else None
  }

  lemma EncodeUsesAlphabet(b: Bytes)
    ensures forall c :: c in Encode(b) ==> Alphabet(c)
  {
  }

  lemma DecodeEncode(b: Bytes)
    ensures Decode(Encode(b)) == Some(b)
  {
    var v := Sextets(b);
    forall i | 0 <= i < |v| ensures Alphabet(Letter(v[i])) && Value(Letter(v[i])) == v[i] {
      LetterValue(v[i]);
    }
    assert Values(Letters(v)) == v;
    JoinSextets(b);
  }

  /** The coding is canonical: only the text `Encode` prints is accepted. */
  lemma EncodeDecode(s: string)
    requires Decode(s).Some?
    ensures Encode(Decode(s).value) == s
  {
    forall i | 0 <= i < |s| ensures Letter(Value(s[i])) == s[i] {
      ValueLetter(s[i]);
    }
    assert Letters(Values(s)) == s;
    SextetsJoin(Values(s));
  }
}

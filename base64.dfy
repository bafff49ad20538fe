/** Octets, as the object store hands them over. */
module Bytes {
  type byte = x: int | 0 <= x < 256
}

/** Base64 as defined in section 4 of RFC 4648 (alphabet A-Z, a-z, 0-9, '+', '/',
    with '=' padding), which is what Node's `buffer.toString("base64")` writes.
    A decoder is given beside it so that the encoding can be shown lossless. */
module Base64 {
  import opened Bytes
  import opened Wrappers

  /** The value-to-character table of RFC 4648, section 4, Table 1. */
  function Alphabet(i: int): (c: char)
    requires 0 <= i < 64
    ensures c != '='
  {
    if i < 26 then ('A' as int + i) as char
    else if i < 52 then ('a' as int + (i - 26)) as char
    else if i < 62 then ('0' as int + (i - 52)) as char
    else if i == 62 then '+'
    else '/'
  }

  /** The inverse table: the value of a character of the alphabet, or -1. */
  function ValueOf(c: char): (v: int)
    ensures -1 <= v < 64
  {
    if 'A' <= c <= 'Z' then c as int - 'A' as int
    else if 'a' <= c <= 'z' then c as int - 'a' as int + 26
    else if '0' <= c <= '9' then c as int - '0' as int + 52
    else if c == '+' then 62
    else if c == '/' then 63
    else -1
  }

  lemma AlphabetValue(i: int)
    requires 0 <= i < 64
    ensures ValueOf(Alphabet(i)) == i
  {
  }

  /** Three octets give four characters. */
  function EncodeGroup(b0: byte, b1: byte, b2: byte): string {
    [Alphabet(b0 / 4), Alphabet((b0 % 4) * 16 + b1 / 16), Alphabet((b1 % 16) * 4 + b2 / 64), Alphabet(b2 % 64)]
  }

  /** The encoding of a whole octet sequence: full groups of three, then a
      final group of one or two octets padded with "==" or "=". */
  function Encode(b: seq<byte>): (s: string)
    ensures |s| == 4 * ((|b| + 2) / 3)
    decreases |b|
  {
    if |b| == 0 then ""
    else if |b| == 1 then [Alphabet(b[0] / 4), Alphabet((b[0] % 4) * 16), '=', '=']
    else if |b| == 2 then [Alphabet(b[0] / 4), Alphabet((b[0] % 4) * 16 + b[1] / 16), Alphabet((b[1] % 16) * 4), '=']
    else EncodeGroup(b[0], b[1], b[2]) + Encode(b[3..])
  }

  /** Every character of an encoding is in the alphabet or is padding. */
  lemma {:induction false} EncodeUsesAlphabet(b: seq<byte>)
    ensures forall k :: 0 <= k < |Encode(b)| ==> ValueOf(Encode(b)[k]) >= 0 || Encode(b)[k] == '='
  {
    if |b| > 2 {
      EncodeUsesAlphabet(b[3..]);
    }
  }

  /** Four characters back to three octets (the first `n` of them are kept). */
  function DecodeQuad(c0: int, c1: int, c2: int, c3: int): (r: seq<byte>)
    requires 0 <= c0 < 64 && 0 <= c1 < 64 && 0 <= c2 < 64 && 0 <= c3 < 64
    ensures |r| == 3
  {
    [c0 * 4 + c1 / 16, (c1 % 16) * 16 + c2 / 4, (c2 % 4) * 64 + c3]
  }

  /** The decoder: a text of four-character groups, padding only at the end. */
  function Decode(s: string): (r: Option<seq<byte>>)
    decreases |s|
  {
    if |s| == 0 then Some([])
    else if |s| < 4 then None
    else
      var v0, v1, v2, v3 := ValueOf(s[0]), ValueOf(s[1]), ValueOf(s[2]), ValueOf(s[3]);
      if v0 < 0 || v1 < 0 then None
      else if |s| == 4 && s[2] == '=' && s[3] == '=' then Some(DecodeQuad(v0, v1, 0, 0)[..1])
      else if v2 < 0 then None
      else if |s| == 4 && s[3] == '=' then Some(DecodeQuad(v0, v1, v2, 0)[..2])
      else if v3 < 0 then None
      else
        match Decode(s[4..])
        case Some(rest) => Some(DecodeQuad(v0, v1, v2, v3) + rest)
        case None => None
  }

  lemma GroupArithmetic(b0: byte, b1: byte, b2: byte)
    ensures ((b0 % 4) * 16 + b1 / 16) / 16 == b0 % 4
    ensures ((b0 % 4) * 16 + b1 / 16) % 16 == b1 / 16
    ensures ((b1 % 16) * 4 + b2 / 64) / 4 == b1 % 16
    ensures ((b1 % 16) * 4 + b2 / 64) % 4 == b2 / 64
    ensures (b0 / 4) * 4 + b0 % 4 == b0
    ensures (b1 / 16) * 16 + b1 % 16 == b1
    ensures (b2 / 64) * 64 + b2 % 64 == b2
  {
  }

  lemma {:induction false} DecodeGroup(b0: byte, b1: byte, b2: byte)
    ensures DecodeQuad(b0 / 4, (b0 % 4) * 16 + b1 / 16, (b1 % 16) * 4 + b2 / 64, b2 % 64) == [b0, b1, b2]
  {
    GroupArithmetic(b0, b1, b2);
  }

  /** How `Decode` reads a leading group of four alphabet characters. */
  lemma DecodeFullGroup(s: string, rest: seq<byte>)
    requires |s| >= 4
    requires ValueOf(s[0]) >= 0 && ValueOf(s[1]) >= 0 && ValueOf(s[2]) >= 0 && ValueOf(s[3]) >= 0
    requires Decode(s[4..]) == Some(rest)
    ensures Decode(s) == Some(DecodeQuad(ValueOf(s[0]), ValueOf(s[1]), ValueOf(s[2]), ValueOf(s[3])) + rest)
  {
  }

  lemma DecodeEncodeOne(b0: byte)
    ensures Decode(Encode([b0])) == Some([b0])
  {
    AlphabetValue(b0 / 4);
    AlphabetValue((b0 % 4) * 16);
    GroupArithmetic(b0, 0, 0);
    assert DecodeQuad(b0 / 4, (b0 % 4) * 16, 0, 0)[..1] == [b0];
  }

  lemma DecodeEncodeTwo(b0: byte, b1: byte)
    ensures Decode(Encode([b0, b1])) == Some([b0, b1])
  {
    AlphabetValue(b0 / 4);
    AlphabetValue((b0 % 4) * 16 + b1 / 16);
    AlphabetValue((b1 % 16) * 4);
    GroupArithmetic(b0, b1, 0);
    assert DecodeQuad(b0 / 4, (b0 % 4) * 16 + b1 / 16, (b1 % 16) * 4, 0)[..2] == [b0, b1];
  }

  lemma SplitThree(b: seq<byte>)
    requires |b| > 2
    ensures b == [b[0], b[1], b[2]] + b[3..]
  {
  }

  /** A group of four characters followed by a decodable text. */
  lemma DecodeOfGroup(b0: byte, b1: byte, b2: byte, t: string, rest: seq<byte>)
    requires Decode(t) == Some(rest)
    ensures Decode(EncodeGroup(b0, b1, b2) + t) == Some([b0, b1, b2] + rest)
  {
    var g := EncodeGroup(b0, b1, b2);
    var s := g + t;
    assert s[..4] == g && s[4..] == t;
    AlphabetValue(b0 / 4);
    AlphabetValue((b0 % 4) * 16 + b1 / 16);
    AlphabetValue((b1 % 16) * 4 + b2 / 64);
    AlphabetValue(b2 % 64);
    DecodeFullGroup(s, rest);
    DecodeGroup(b0, b1, b2);
  }

  lemma DecodeEncodeStep(b: seq<byte>)
    requires |b| > 2
    requires Decode(Encode(b[3..])) == Some(b[3..])
    ensures Decode(Encode(b)) == Some(b)
  {
    var t := Encode(b[3..]);
    assert Encode(b) == EncodeGroup(b[0], b[1], b[2]) + t;
    DecodeOfGroup(b[0], b[1], b[2], t, b[3..]);
    SplitThree(b);
  }

  /** Decoding undoes encoding, for every octet sequence. */
  lemma {:induction false} DecodeEncode(b: seq<byte>)
    ensures Decode(Encode(b)) == Some(b)
    decreases |b|
  {
    if |b| == 1 {
      assert b == [b[0]];
      DecodeEncodeOne(b[0]);
    } else if |b| == 2 {
      assert b == [b[0], b[1]];
      DecodeEncodeTwo(b[0], b[1]);
    } else if |b| > 2 {
      DecodeEncode(b[3..]);
      DecodeEncodeStep(b);
    }
  }

  /** Encoding is a concatenation of the encodings of whole groups. */
  lemma {:induction false} EncodeAppend(a: seq<byte>, b: seq<byte>)
    requires |a| % 3 == 0
    ensures Encode(a + b) == Encode(a) + Encode(b)
    decreases |a|
  {
    if |a| == 0 {
      assert a + b == b;
    } else {
      assert (a + b)[3..] == a[3..] + b;
      assert (a + b)[..3] == a[..3];
      EncodeAppend(a[3..], b);
    }
  }

  /** The test vectors of RFC 4648, section 10: "", "f", "fo", "foo", "foob",
      "fooba" and "foobar" as octets. */
  lemma TestVectors()
    ensures Encode([]) == ""
    ensures Encode([102]) == "Zg=="
    ensures Encode([102, 111]) == "Zm8="
    ensures Encode([102, 111, 111]) == "Zm9v"
    ensures Encode([102, 111, 111, 98]) == "Zm9vYg=="
    ensures Encode([102, 111, 111, 98, 97]) == "Zm9vYmE="
    ensures Encode([102, 111, 111, 98, 97, 114]) == "Zm9vYmFy"
  {
    assert [102, 111, 111, 98][3..] == [98];
    assert [102, 111, 111, 98, 97][3..] == [98, 97];
    assert [102, 111, 111, 98, 97, 114][3..] == [98, 97, 114];
  }

  /** Node's `toString("base64").substring(0, 100)`: the first hundred
      characters of the encoding, or all of it when it is shorter. */
  function Preview(data: seq<byte>): (p: string)
    ensures |p| == if |Encode(data)| < 100 then |Encode(data)| else 100
    ensures p == Encode(data)[..|p|]
  {
    var e := Encode(data);
    if |e| < 100 then e else e[..100]
  }

  /** The preview shows exactly the first 75 octets: a longer object gives the
      same preview as its 75-octet prefix, and that preview is 100 characters. */
  lemma PreviewOfPrefix(data: seq<byte>)
    requires |data| >= 75
    ensures Preview(data) == Preview(data[..75]) == Encode(data[..75])
  {
    var head, rest := data[..75], data[75..];
    assert data == head + rest;
    EncodeAppend(head, rest);
    var e, h := Encode(data), Encode(head);
    assert |h| == 100;
    assert e == h + Encode(rest);
    assert e[..100] == h;
    assert Preview(head) == h;
    assert Preview(data) == e[..100];
  }

  /** A shorter object is shown whole: its preview decodes back to it. */
  lemma PreviewShowsShortData(data: seq<byte>)
    requires |data| <= 75
    ensures Decode(Preview(data)) == Some(data)
  {
    assert (|data| + 2) / 3 <= 25;
    assert Preview(data) == Encode(data);
    DecodeEncode(data);
  }
}

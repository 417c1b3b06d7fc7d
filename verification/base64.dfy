/**
 * The base 64 encoding of section 4 of RFC 4648 (standard alphabet,
 * `=` padding), as `base64.b64encode` produces it and `base64.b64decode`
 * reads it back. The audit log stores the vent text, the username and the
 * display name in this form.
 */
module Base64 {
  import opened Types

  /** The symbol for a 6-bit value: `A`-`Z`, `a`-`z`, `0`-`9`, `+`, `/`. */
  function Symbol(i: nat): (c: char)
    requires i < 64
    ensures SymbolIndex(c) == Some(i)
    ensures c != '='
  {
    if i < 26 then (65 + i) as char
    else if i < 52 then (97 + i - 26) as char
    else if i < 62 then (48 + i - 52) as char
    else if i == 62 then '+'
    else '/'
  }

  /** The 6-bit value of a symbol of the alphabet, `None` for any other character. */
  function SymbolIndex(c: char): (r: Option<nat>)
    ensures r.Some? ==> r.value < 64
    ensures c == '=' ==> r.None?
  {
    if 'A' <= c <= 'Z' then Some(c as int - 65)
    else if 'a' <= c <= 'z' then Some(c as int - 97 + 26)
    else if '0' <= c <= '9' then Some(c as int - 48 + 52)
    else if c == '+' then Some(62)
    else if c == '/' then Some(63)
    else None
  }

  predicate IsEncodedChar(c: char)
  {
    SymbolIndex(c).Some? || c == '='
  }

  /** Three bytes, 24 bits, as four symbols of six bits each. */
  function EncodeGroup(b0: byte, b1: byte, b2: byte): string
  {
    [Symbol(b0 / 4), Symbol((b0 % 4) * 16 + b1 / 16), Symbol((b1 % 16) * 4 + b2 / 64), Symbol(b2 % 64)]
  }

  /** `base64.b64encode(b)`: whole groups, then a padded final group of one or two bytes. */
  function Encode(b: seq<byte>): (s: string)
    ensures |s| == 4 * ((|b| + 2) / 3)
    ensures forall i :: 0 <= i < |s| ==> IsEncodedChar(s[i])
    decreases |b|
  {
    if |b| == 0 then ""
    else if |b| == 1 then [Symbol(b[0] / 4), Symbol((b[0] % 4) * 16), '=', '=']
    else if |b| == 2 then [Symbol(b[0] / 4), Symbol((b[0] % 4) * 16 + b[1] / 16), Symbol((b[1] % 16) * 4), '=']
    else EncodeGroup(b[0], b[1], b[2]) + Encode(b[3..])
  }

  /** The test vectors of section 10 of RFC 4648 ("f", "fo", "foo", "foob", "fooba", "foobar"). */
  lemma RfcVectors()
    ensures Encode([]) == ""
    ensures Encode([102]) == "Zg=="
    ensures Encode([102, 111]) == "Zm8="
    ensures Encode([102, 111, 111]) == "Zm9v"
    ensures Encode([102, 111, 111, 98]) == "Zm9vYg=="
    ensures Encode([102, 111, 111, 98, 97]) == "Zm9vYmE="
    ensures Encode([102, 111, 111, 98, 97, 114]) == "Zm9vYmFy"
  {
    assert [102, 111, 111, 98][3..] == [98];
    assert [102, 111, 111, 98, 97][3..] == [98, 97];
    assert [102, 111, 111, 98, 97, 114][3..] == [98, 97, 114];
  }

  /** Four symbols, none of them padding, as three bytes. */
  function DecodeGroup(c0: char, c1: char, c2: char, c3: char): (r: Option<seq<byte>>)
    ensures r.Some? ==> |r.value| == 3
  {
    match (SymbolIndex(c0), SymbolIndex(c1), SymbolIndex(c2), SymbolIndex(c3))
    case (Some(i0), Some(i1), Some(i2), Some(i3)) =>
      Some([i0 * 4 + i1 / 16, (i1 % 16) * 16 + i2 / 4, (i2 % 4) * 64 + i3])
    case _ => None
  }

  /** The last four characters: `xx==` is one byte, `xxx=` two, `xxxx` three. */
  function DecodeFinal(c0: char, c1: char, c2: char, c3: char): (r: Option<seq<byte>>)
    ensures r.Some? ==> 1 <= |r.value| <= 3
  {
    if c2 == '=' && c3 == '=' then
      match (SymbolIndex(c0), SymbolIndex(c1))
      case (Some(i0), Some(i1)) => Some([i0 * 4 + i1 / 16])
      case _ => None
    else if c3 == '=' then
      match (SymbolIndex(c0), SymbolIndex(c1), SymbolIndex(c2))
      case (Some(i0), Some(i1), Some(i2)) => Some([i0 * 4 + i1 / 16, (i1 % 16) * 16 + i2 / 4])
      case _ => None
    else
      DecodeGroup(c0, c1, c2, c3)
  }

  /**
   * `base64.b64decode(s)` on well-formed input: groups of four characters,
   * padding only in the last group. Anything else is rejected (`None`).
   * A decoded value has exactly the length its encoding would have.
   */
  function Decode(s: string): (r: Option<seq<byte>>)
    decreases |s|
  {
    if |s| == 0 then Some([])
    else if |s| < 4 then None
    else if |s| == 4 then DecodeFinal(s[0], s[1], s[2], s[3])
    else
      match DecodeGroup(s[0], s[1], s[2], s[3])
      case None => None
      case Some(head) =>
        match Decode(s[4..])
        case None => None
        case Some(tail) => Some(head + tail)
  }

  /** The bit arithmetic of one group: the four 6-bit indices give back the three bytes. */
  lemma GroupBits(b0: byte, b1: byte, b2: byte)
    ensures (b0 / 4) * 4 + ((b0 % 4) * 16 + b1 / 16) / 16 == b0
    ensures (((b0 % 4) * 16 + b1 / 16) % 16) * 16 + ((b1 % 16) * 4 + b2 / 64) / 4 == b1
    ensures (((b1 % 16) * 4 + b2 / 64) % 4) * 64 + b2 % 64 == b2
  {
  }

  lemma FinalOne(b0: byte)
    ensures DecodeFinal(Symbol(b0 / 4), Symbol((b0 % 4) * 16), '=', '=') == Some([b0])
  {
    GroupBits(b0, 0, 0);
  }

  lemma FinalTwo(b0: byte, b1: byte)
    ensures DecodeFinal(Symbol(b0 / 4), Symbol((b0 % 4) * 16 + b1 / 16), Symbol((b1 % 16) * 4), '=') == Some([b0, b1])
  {
    GroupBits(b0, b1, 0);
  }

  /** A single group of four characters is decoded as the final group. */
  lemma DecodeFour(s: string)
    requires |s| == 4
    ensures Decode(s) == DecodeFinal(s[0], s[1], s[2], s[3])
  {
  }

  /** One byte: two symbols and two `=`. */
  lemma DecodeEncodeOne(b: seq<byte>)
    requires |b| == 1
    ensures Decode(Encode(b)) == Some(b)
  {
    var s := [Symbol(b[0] / 4), Symbol((b[0] % 4) * 16), '=', '='];
    assert Encode(b) == s;
    FinalOne(b[0]);
    DecodeFour(s);
    assert b == [b[0]];
  }

  /** Two bytes: three symbols and one `=`. */
  lemma DecodeEncodeTwo(b: seq<byte>)
    requires |b| == 2
    ensures Decode(Encode(b)) == Some(b)
  {
    EncodeTwo(b);
    var s := Encode(b);
    FinalTwo(b[0], b[1]);
    DecodeFour(s);
    assert b == [b[0], b[1]];
  }

  lemma EncodeTwo(b: seq<byte>)
    requires |b| == 2
    ensures Encode(b) == [Symbol(b[0] / 4), Symbol((b[0] % 4) * 16 + b[1] / 16), Symbol((b[1] % 16) * 4), '=']
  {
  }

  lemma DecodeEncodeGroup(b0: byte, b1: byte, b2: byte)
    ensures var g := EncodeGroup(b0, b1, b2);
      DecodeGroup(g[0], g[1], g[2], g[3]) == Some([b0, b1, b2])
  {
    GroupBits(b0, b1, b2);
    var i0, i1, i2, i3 := b0 / 4, (b0 % 4) * 16 + b1 / 16, (b1 % 16) * 4 + b2 / 64, b2 % 64;
    var g := EncodeGroup(b0, b1, b2);
    assert SymbolIndex(g[0]) == Some(i0);
    assert SymbolIndex(g[1]) == Some(i1);
    assert SymbolIndex(g[2]) == Some(i2);
    assert SymbolIndex(g[3]) == Some(i3);
  }

  /** A whole group at the end decodes as a final group without padding. */
  lemma DecodeEncodeLastGroup(b0: byte, b1: byte, b2: byte)
    ensures Decode(EncodeGroup(b0, b1, b2)) == Some([b0, b1, b2])
  {
    var g := EncodeGroup(b0, b1, b2);
    DecodeEncodeGroup(b0, b1, b2);
    assert g[3] != '=';
    assert Decode(g) == DecodeFinal(g[0], g[1], g[2], g[3]);
  }

  /** A string longer than one group decodes as its first group followed by the rest. */
  lemma DecodeCons(g: string, t: string, head: seq<byte>, tail: seq<byte>)
    requires |g| == 4 && |t| > 0
    requires DecodeGroup(g[0], g[1], g[2], g[3]) == Some(head)
    requires Decode(t) == Some(tail)
    ensures Decode(g + t) == Some(head + tail)
  {
    var s := g + t;
    assert s[4..] == t;
    assert s[0] == g[0] && s[1] == g[1] && s[2] == g[2] && s[3] == g[3];
  }

  /** Decoding the encoding of any byte string gives the bytes back. */
  lemma {:induction false} DecodeEncode(b: seq<byte>)
    ensures Decode(Encode(b)) == Some(b)
    decreases |b|
  {
    if |b| <= 3 {
      DecodeEncodeShort(b);
    } else {
      DecodeEncode(b[3..]);
      DecodeEncodeStep(b);
    }
  }

  /** Up to three bytes: one final group, padded as needed. */
  lemma DecodeEncodeShort(b: seq<byte>)
    requires |b| <= 3
    ensures Decode(Encode(b)) == Some(b)
  {
    if |b| == 1 {
      DecodeEncodeOne(b);
    } else if |b| == 2 {
      DecodeEncodeTwo(b);
    } else if |b| == 3 {
      DecodeEncodeThree(b);
    }
  }

  lemma DecodeEncodeThree(b: seq<byte>)
    requires |b| == 3
    ensures Decode(Encode(b)) == Some(b)
  {
    var g := EncodeGroup(b[0], b[1], b[2]);
    assert Encode(b) == g by {
      assert Encode(b[3..]) == "";
    }
    DecodeEncodeLastGroup(b[0], b[1], b[2]);
    assert b == [b[0], b[1], b[2]];
  }

  /** More than three bytes: the first group, then the round trip of the rest. */
  lemma DecodeEncodeStep(b: seq<byte>)
    requires |b| > 3
    requires Decode(Encode(b[3..])) == Some(b[3..])
    ensures Decode(Encode(b)) == Some(b)
  {
    FirstThree(b);
    var g := EncodeGroup(b[0], b[1], b[2]);
    assert Encode(b) == g + Encode(b[3..]);
    DecodeEncodeGroup(b[0], b[1], b[2]);
    DecodeCons(g, Encode(b[3..]), [b[0], b[1], b[2]], b[3..]);
  }

  lemma FirstThree(b: seq<byte>)
    requires |b| >= 3
    ensures b == [b[0], b[1], b[2]] + b[3..]
  {
  }

  /** Distinct byte strings have distinct encodings. */
  lemma EncodeInjective(a: seq<byte>, b: seq<byte>)
    requires Encode(a) == Encode(b)
    ensures a == b
  {
    DecodeEncode(a);
    DecodeEncode(b);
  }
}

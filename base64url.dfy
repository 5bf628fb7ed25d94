/** Base64 with the URL- and filename-safe alphabet and no padding
    (section 5 of RFC 4648), as used to carry the two 16-byte halves of an
    API key. Decoding is strict: a character outside the alphabet, a length
    that leaves a single character in the last group, or non-zero bits in the
    unused low end of the last character are errors. */
module Base64Url {
  import opened Wrappers

  type Byte = b: int | 0 <= b < 256

  /** One of the 64 characters of the URL-safe alphabet. */
  predicate IsSymbol(c: char)
  {
    ('A' <= c <= 'Z') || ('a' <= c <= 'z') || ('0' <= c <= '9') || c == '-' || c == '_'
  }

  predicate AllSymbols(s: string)
  {
    forall i :: 0 <= i < |s| ==> IsSymbol(s[i])
  }

  /** The 6-bit value a character stands for. */
  function Sextet(c: char): (v: nat)
    requires IsSymbol(c)
    ensures v < 64
  {
    if 'A' <= c <= 'Z' then c as int - 'A' as int
    else if 'a' <= c <= 'z' then c as int - 'a' as int + 26
    else if '0' <= c <= '9' then c as int - '0' as int + 52
    else if c == '-' then 62
    else 63
  }

  /** The character that stands for a 6-bit value; `Sextet` inverts it. */
  function Symbol(v: nat): (c: char)
    requires v < 64
    ensures IsSymbol(c) && Sextet(c) == v
  {
    if v < 26 then ('A' as int + v) as char
    else if v < 52 then ('a' as int + v - 26) as char
    else if v < 62 then ('0' as int + v - 52) as char
    else if v == 62 then '-'
    else '_'
  }

  lemma SymbolOfSextet(c: char)
    requires IsSymbol(c)
    ensures Symbol(Sextet(c)) == c
  {
  }

  datatype DecodeError = InvalidSymbol(index: nat) | InvalidLength | NonZeroTrailingBits

  /** The position of the first character outside the alphabet. */
  function FirstNonSymbol(s: string): (i: nat)
    requires !AllSymbols(s)
    ensures i < |s| && !IsSymbol(s[i]) && AllSymbols(s[..i])
  {
    if !IsSymbol(s[0]) then 0
    else
      var j := FirstNonSymbol(s[1..]);
      assert s[..j + 1] == [s[0]] + s[1..][..j];
      1 + j
  }

  /** Decodes `s`; the number of bytes is three quarters of the number of
      characters, rounded down. */
  function Decode(s: string): (r: Result<seq<Byte>, DecodeError>)
  {
    if !AllSymbols(s) then Err(InvalidSymbol(FirstNonSymbol(s)))
    else if |s| % 4 == 1 then Err(InvalidLength)
    else DecodeSymbols(s)
  }

  /** Four characters carry three bytes. */
  function DecodeQuad(a: nat, b: nat, c: nat, d: nat): seq<Byte>
    requires a < 64 && b < 64 && c < 64 && d < 64
  {
    [a * 4 + b / 16, (b % 16) * 16 + c / 4, (c % 4) * 64 + d]
  }

  function DecodeSymbols(s: string): Result<seq<Byte>, DecodeError>
    requires AllSymbols(s) && |s| % 4 != 1
    decreases |s|
  {
    if |s| >= 4 then
      match DecodeSymbols(s[4..])
      case Ok(rest) => Ok(DecodeQuad(Sextet(s[0]), Sextet(s[1]), Sextet(s[2]), Sextet(s[3])) + rest)
      case Err(e) => Err(e)
    else DecodeTail(s)
  }

  /** The last group: two characters carry one byte, three carry two, and
      the bits of the last character beyond them must be zero. */
  function DecodeTail(s: string): Result<seq<Byte>, DecodeError>
    requires AllSymbols(s) && |s| < 4 && |s| != 1
  {
    if |s| == 0 then Ok([])
    else if |s| == 2 then
      var a, b := Sextet(s[0]), Sextet(s[1]);
      if b % 16 == 0 then Ok([a * 4 + b / 16]) else Err(NonZeroTrailingBits)
    else
      var a, b, c := Sextet(s[0]), Sextet(s[1]), Sextet(s[2]);
      if c % 4 == 0 then Ok([a * 4 + b / 16, (b % 16) * 16 + c / 4]) else Err(NonZeroTrailingBits)
  }

  /** Three bytes become four characters. */
  function EncodeTriple(x: Byte, y: Byte, z: Byte): string
  {
    [Symbol(x / 4), Symbol((x % 4) * 16 + y / 16), Symbol((y % 16) * 4 + z / 64), Symbol(z % 64)]
  }

  /** The unpadded encoding of `bs`, the inverse of `Decode`. */
  function Encode(bs: seq<Byte>): string
  {
    if |bs| >= 3 then EncodeTriple(bs[0], bs[1], bs[2]) + Encode(bs[3..])
    else if |bs| == 0 then []
    else if |bs| == 1 then [Symbol(bs[0] / 4), Symbol((bs[0] % 4) * 16)]
    else [Symbol(bs[0] / 4), Symbol((bs[0] % 4) * 16 + bs[1] / 16), Symbol((bs[1] % 16) * 4)]
  }

  lemma QuadOfTriple(x: Byte, y: Byte, z: Byte)
    ensures (x % 4) * 16 + y / 16 < 64 && (y % 16) * 4 + z / 64 < 64
    ensures DecodeQuad(x / 4, (x % 4) * 16 + y / 16, (y % 16) * 4 + z / 64, z % 64) == [x, y, z]
  {
  }

  /** Re-encoding the three bytes of a group gives back its four characters. */
  lemma EncodeQuad(s: string)
    requires |s| >= 4 && AllSymbols(s)
    ensures var q := DecodeQuad(Sextet(s[0]), Sextet(s[1]), Sextet(s[2]), Sextet(s[3]));
      EncodeTriple(q[0], q[1], q[2]) == s[..4]
  {
    var a, b, c, d := Sextet(s[0]), Sextet(s[1]), Sextet(s[2]), Sextet(s[3]);
    var q := DecodeQuad(a, b, c, d);
    assert q[0] / 4 == a && (q[0] % 4) * 16 + q[1] / 16 == b;
    assert (q[1] % 16) * 4 + q[2] / 64 == c && q[2] % 64 == d;
    SymbolOfSextet(s[0]);
    SymbolOfSextet(s[1]);
    SymbolOfSextet(s[2]);
    SymbolOfSextet(s[3]);
  }

  lemma OneByteTail(x: Byte)
    ensures (x % 4) * 16 < 64 && ((x % 4) * 16) % 16 == 0
    ensures (x / 4) * 4 + ((x % 4) * 16) / 16 == x
  {
  }

  lemma TwoByteTail(x: Byte, y: Byte)
    ensures (x % 4) * 16 + y / 16 < 64 && (y % 16) * 4 < 64 && ((y % 16) * 4) % 4 == 0
    ensures (x / 4) * 4 + ((x % 4) * 16 + y / 16) / 16 == x
    ensures (((x % 4) * 16 + y / 16) % 16) * 16 + ((y % 16) * 4) / 4 == y
  {
  }

  lemma TailArith2(a: nat, b: nat)
    requires a < 64 && b < 64 && b % 16 == 0
    ensures (a * 4 + b / 16) / 4 == a && ((a * 4 + b / 16) % 4) * 16 == b
  {
  }

  lemma TailArith3(a: nat, b: nat, c: nat)
    requires a < 64 && b < 64 && c < 64 && c % 4 == 0
    ensures var x, y := a * 4 + b / 16, (b % 16) * 16 + c / 4;
      x < 256 && y < 256 && x / 4 == a && (x % 4) * 16 + y / 16 == b && (y % 16) * 4 == c
  {
  }

  lemma EncodeTail2(s: string)
    requires |s| == 2 && AllSymbols(s) && DecodeTail(s).Ok?
    ensures Encode(DecodeTail(s).value) == s
  {
    var a, b := Sextet(s[0]), Sextet(s[1]);
    var x: Byte := a * 4 + b / 16;
    assert DecodeTail(s).value == [x];
    TailArith2(a, b);
    SymbolOfSextet(s[0]);
    SymbolOfSextet(s[1]);
    assert Encode([x]) == [Symbol(a), Symbol(b)];
  }

  lemma EncodePair(x: Byte, y: Byte)
    ensures Encode([x, y]) == [Symbol(x / 4), Symbol((x % 4) * 16 + y / 16), Symbol((y % 16) * 4)]
  {
  }

  lemma EncodeTail3(s: string)
    requires |s| == 3 && AllSymbols(s) && DecodeTail(s).Ok?
    ensures Encode(DecodeTail(s).value) == s
  {
    var a, b, c := Sextet(s[0]), Sextet(s[1]), Sextet(s[2]);
    TailArith3(a, b, c);
    var x: Byte, y: Byte := a * 4 + b / 16, (b % 16) * 16 + c / 4;
    assert DecodeTail(s).value == [x, y];
    EncodePair(x, y);
    SymbolOfSextet(s[0]);
    SymbolOfSextet(s[1]);
    SymbolOfSextet(s[2]);
  }

  /** Every encoding consists of alphabet characters, never leaves a single
      character in its last group, and has 4n/3 characters rounded up. */
  lemma {:induction false} EncodeShape(bs: seq<Byte>)
    ensures AllSymbols(Encode(bs))
    ensures |Encode(bs)| == (4 * |bs| + 2) / 3 && |Encode(bs)| % 4 != 1
    decreases |bs|
  {
    if |bs| >= 3 {
      EncodeShape(bs[3..]);
      EncodeStep(bs);
      DecodeTriple(bs[0], bs[1], bs[2]);
      PrependGroup(EncodeTriple(bs[0], bs[1], bs[2]), Encode(bs[3..]));
    }
  }

  lemma DecodeEncodeTail1(x: Byte)
    ensures DecodeSymbols(Encode([x])) == Ok([x])
  {
    var s := Encode([x]);
    assert s == [Symbol(x / 4), Symbol((x % 4) * 16)];
    OneByteTail(x);
    assert Sextet(s[0]) == x / 4 && Sextet(s[1]) == (x % 4) * 16;
  }

  lemma DecodeEncodeTail2(x: Byte, y: Byte)
    ensures DecodeSymbols(Encode([x, y])) == Ok([x, y])
  {
    var s := Encode([x, y]);
    TwoByteTail(x, y);
    assert s == [Symbol(x / 4), Symbol((x % 4) * 16 + y / 16), Symbol((y % 16) * 4)];
    assert Sextet(s[0]) == x / 4 && Sextet(s[1]) == (x % 4) * 16 + y / 16 && Sextet(s[2]) == (y % 16) * 4;
  }

  /** Decoding proceeds one group of four characters at a time. */
  lemma DecodeStep(s: string)
    requires |s| >= 4 && AllSymbols(s) && |s| % 4 != 1 && DecodeSymbols(s[4..]).Ok?
    ensures DecodeSymbols(s)
      == Ok(DecodeQuad(Sextet(s[0]), Sextet(s[1]), Sextet(s[2]), Sextet(s[3])) + DecodeSymbols(s[4..]).value)
  {
  }

  lemma EncodeStep(bs: seq<Byte>)
    requires |bs| >= 3
    ensures Encode(bs) == EncodeTriple(bs[0], bs[1], bs[2]) + Encode(bs[3..])
  {
  }

  /** Decoding the four characters of an encoded triple gives back the triple. */
  lemma DecodeTriple(x: Byte, y: Byte, z: Byte)
    ensures var t := EncodeTriple(x, y, z);
      |t| == 4 && AllSymbols(t) &&
      DecodeQuad(Sextet(t[0]), Sextet(t[1]), Sextet(t[2]), Sextet(t[3])) == [x, y, z]
  {
    var t := EncodeTriple(x, y, z);
    QuadOfTriple(x, y, z);
    assert Sextet(t[0]) == x / 4 && Sextet(t[1]) == (x % 4) * 16 + y / 16;
    assert Sextet(t[2]) == (y % 16) * 4 + z / 64 && Sextet(t[3]) == z % 64;
  }

  /** Putting a group of four alphabet characters in front of a decodable
      string keeps it decodable in shape. */
  lemma PrependGroup(t: string, e: string)
    requires |t| == 4 && AllSymbols(t) && AllSymbols(e) && |e| % 4 != 1
    ensures AllSymbols(t + e) && |t + e| % 4 != 1 && (t + e)[4..] == e
  {
    var s := t + e;
    assert s[4..] == e;
    forall i | 0 <= i < |s| ensures IsSymbol(s[i]) {
      if i < 4 {
        assert s[i] == t[i];
      } else {
        assert s[i] == e[i - 4];
      }
    }
  }

  lemma DecodeEncodeStep(x: Byte, y: Byte, z: Byte, rest: seq<Byte>)
    requires AllSymbols(Encode(rest)) && |Encode(rest)| % 4 != 1
    requires DecodeSymbols(Encode(rest)) == Ok(rest)
    ensures var s := EncodeTriple(x, y, z) + Encode(rest);
      AllSymbols(s) && |s| % 4 != 1 && DecodeSymbols(s) == Ok([x, y, z] + rest)
  {
    var t, e := EncodeTriple(x, y, z), Encode(rest);
    var s := t + e;
    DecodeTriple(x, y, z);
    PrependGroup(t, e);
    assert s[0] == t[0] && s[1] == t[1] && s[2] == t[2] && s[3] == t[3];
    DecodeStep(s);
  }

  lemma {:induction false} DecodeSymbolsEncode(bs: seq<Byte>)
    ensures AllSymbols(Encode(bs)) && |Encode(bs)| % 4 != 1
    ensures DecodeSymbols(Encode(bs)) == Ok(bs)
    decreases |bs|
  {
    if |bs| >= 3 {
      var rest := bs[3..];
      DecodeSymbolsEncode(rest);
      EncodeStep(bs);
      DecodeEncodeStep(bs[0], bs[1], bs[2], rest);
      assert bs == [bs[0], bs[1], bs[2]] + rest;
    } else if |bs| == 1 {
      assert bs == [bs[0]];
      DecodeEncodeTail1(bs[0]);
    } else if |bs| == 2 {
      assert bs == [bs[0], bs[1]];
      DecodeEncodeTail2(bs[0], bs[1]);
    }
  }

  /** Decoding an encoding gives back the bytes. */
  lemma DecodeEncode(bs: seq<Byte>)
    ensures Decode(Encode(bs)) == Ok(bs)
  {
    DecodeSymbolsEncode(bs);
  }

  lemma EncodeDecodeStep(s: string, rest: seq<Byte>)
    requires |s| >= 4 && AllSymbols(s) && |s| % 4 != 1 && DecodeSymbols(s[4..]) == Ok(rest)
    requires Encode(rest) == s[4..]
    ensures Encode(DecodeSymbols(s).value) == s
  {
    var q := DecodeQuad(Sextet(s[0]), Sextet(s[1]), Sextet(s[2]), Sextet(s[3]));
    DecodeStep(s);
    var bs := q + rest;
    assert bs[0] == q[0] && bs[1] == q[1] && bs[2] == q[2] && bs[3..] == rest;
    EncodeStep(bs);
    EncodeQuad(s);
    assert s == s[..4] + s[4..];
  }

  /** A string that decodes is the encoding of what it decodes to, so the
      encoding of a byte string is unique. */
  lemma {:induction false} EncodeDecode(s: string)
    requires Decode(s).Ok?
    ensures Encode(Decode(s).value) == s
  {
    EncodeDecodeSymbols(s);
  }

  lemma SuffixDecodes(s: string)
    requires |s| >= 4 && AllSymbols(s) && |s| % 4 != 1 && DecodeSymbols(s).Ok?
    ensures AllSymbols(s[4..]) && |s[4..]| % 4 != 1 && DecodeSymbols(s[4..]).Ok?
  {
    assert |s[4..]| == |s| - 4;
    assert AllSymbols(s[4..]) by {
      forall i | 0 <= i < |s| - 4 ensures IsSymbol(s[4..][i]) {
        assert s[4..][i] == s[i + 4];
      }
    }
  }

  lemma {:induction false} EncodeDecodeSymbols(s: string)
    requires AllSymbols(s) && |s| % 4 != 1 && DecodeSymbols(s).Ok?
    ensures Encode(DecodeSymbols(s).value) == s
    decreases |s|
  {
    if |s| >= 4 {
      SuffixDecodes(s);
      EncodeDecodeSymbols(s[4..]);
      EncodeDecodeStep(s, DecodeSymbols(s[4..]).value);
    } else {
      EncodeDecodeTail(s);
    }
  }

  lemma EncodeDecodeTail(s: string)
    requires AllSymbols(s) && |s| < 4 && |s| != 1 && DecodeTail(s).Ok?
    ensures Encode(DecodeTail(s).value) == s
  {
    if |s| == 2 {
      EncodeTail2(s);
    } else if |s| == 3 {
      EncodeTail3(s);
    }
  }

  /** The decoded length is three quarters of the input length, rounded down. */
  lemma DecodeLength(s: string)
    requires Decode(s).Ok?
    ensures |Decode(s).value| == |s| * 3 / 4
  {
    DecodeSymbolsLength(s);
  }

  lemma {:induction false} DecodeSymbolsLength(s: string)
    requires AllSymbols(s) && |s| % 4 != 1 && DecodeSymbols(s).Ok?
    ensures |DecodeSymbols(s).value| == |s| * 3 / 4
    decreases |s|
  {
    if |s| >= 4 {
      SuffixDecodes(s);
      DecodeSymbolsLength(s[4..]);
      DecodeStep(s);
      assert |s| * 3 / 4 == 3 + (|s| - 4) * 3 / 4;
    }
  }

  /** A string decodes exactly when it is the encoding of some bytes. */
  lemma DecodableIffEncoding(s: string)
    ensures Decode(s).Ok? <==> exists bs :: Encode(bs) == s
  {
    if Decode(s).Ok? {
      EncodeDecode(s);
    }
    if bs :| Encode(bs) == s {
      DecodeEncode(bs);
    }
  }

  /** Exactly the 22-character strings can carry a 16-byte value. */
  lemma SixteenBytesIffLength22(s: string)
    requires Decode(s).Ok?
    ensures |Decode(s).value| == 16 <==> |s| == 22
  {
    DecodeLength(s);
  }
}

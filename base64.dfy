/** Base 64 encoding with the standard alphabet and '=' padding (section 4
    of RFC 4648), as the `base64` crate's `BASE64_STANDARD` engine does it:
    decoding requires canonical padding and zero trailing bits, so that
    exactly the strings the encoder produces are accepted. */
module Base64 {
  import opened Wrappers
  import opened Utf8

  /** The symbol for a six-bit value (Table 1 of RFC 4648). */
  function Symbol(i: nat): (c: char)
    requires i < 64
  {
    if i < 26 then ('A' as int + i) as char
    else if i < 52 then ('a' as int + (i - 26)) as char
    else if i < 62 then ('0' as int + (i - 52)) as char
    else if i == 62 then '+'
    else '/'
  }

  /** The six-bit value a symbol stands for, or None for any other character. */
  function ValueOf(c: char): (r: Option<nat>)
    ensures r.Some? ==> r.value < 64 && Symbol(r.value) == c
  {
    if 'A' <= c <= 'Z' then Some(c as int - 'A' as int)
    else if 'a' <= c <= 'z' then Some(c as int - 'a' as int + 26)
    else if '0' <= c <= '9' then Some(c as int - '0' as int + 52)
    else if c == '+' then Some(62)
    else if c == '/' then Some(63)
    else None
  }

  lemma ValueOfSymbol(i: nat)
    requires i < 64
    ensures ValueOf(Symbol(i)) == Some(i)
  {
  }

  predicate IsSymbol(c: char) {
    ValueOf(c).Some?
  }

  /** Three bytes as four symbols. */
  function EncodeBlock(b0: byte, b1: byte, b2: byte): string {
    [Symbol(b0 / 4), Symbol(b0 % 4 * 16 + b1 / 16), Symbol(b1 % 16 * 4 + b2 / 64), Symbol(b2 % 64)]
  }

  /** The last one or two bytes, padded with '=' to four characters. */
  function EncodeFinal(b: seq<byte>): (r: string)
    requires |b| < 3
    ensures |r| == if |b| == 0 then 0 else 4
  {
    if |b| == 0 then []
    else if |b| == 1 then [Symbol(b[0] / 4), Symbol(b[0] % 4 * 16), '=', '=']
    else [Symbol(b[0] / 4), Symbol(b[0] % 4 * 16 + b[1] / 16), Symbol(b[1] % 16 * 4), '=']
  }

  /** `BASE64_STANDARD.encode`: every group of three bytes becomes four
      symbols; a final group of one or two bytes is padded with '='. */
  function Encode(b: seq<byte>): (r: string)
    ensures |r| % 4 == 0 && (|r| == 0 <==> |b| == 0)
    decreases |b|
  {
    if |b| < 3 then EncodeFinal(b)
    else EncodeBlock(b[0], b[1], b[2]) + Encode(b[3..])
  }

  /** An encoding consists of symbols and '=' only. */
  lemma {:induction false} EncodingAlphabet(b: seq<byte>)
    ensures forall i :: 0 <= i < |Encode(b)| ==> Encode(b)[i] == '=' || IsSymbol(Encode(b)[i])
    decreases |b|
  {
    if |b| == 1 {
      ValueOfSymbol(b[0] / 4);
      ValueOfSymbol(b[0] % 4 * 16);
    } else if |b| == 2 {
      ValueOfSymbol(b[0] / 4);
      ValueOfSymbol(b[0] % 4 * 16 + b[1] / 16);
      ValueOfSymbol(b[1] % 16 * 4);
    } else if |b| >= 3 {
      var block := EncodeBlock(b[0], b[1], b[2]);
      BlockSymbols(b[0], b[1], b[2]);
      EncodingAlphabet(b[3..]);
      assert Encode(b) == block + Encode(b[3..]);
    }
  }

  lemma BlockSymbols(b0: byte, b1: byte, b2: byte)
    ensures forall i :: 0 <= i < 4 ==> IsSymbol(EncodeBlock(b0, b1, b2)[i])
  {
    ValueOfSymbol(b0 / 4);
    ValueOfSymbol(b0 % 4 * 16 + b1 / 16);
    ValueOfSymbol(b1 % 16 * 4 + b2 / 64);
    ValueOfSymbol(b2 % 64);
  }

  /** Four symbols without padding as three bytes. */
  function DecodeQuad(s: string): Option<seq<byte>>
    requires |s| == 4
  {
    if IsSymbol(s[0]) && IsSymbol(s[1]) && IsSymbol(s[2]) && IsSymbol(s[3]) then
      var c0, c1, c2, c3 := ValueOf(s[0]).value, ValueOf(s[1]).value, ValueOf(s[2]).value, ValueOf(s[3]).value;
      Some([c0 * 4 + c1 / 16, c1 % 16 * 16 + c2 / 4, c2 % 4 * 64 + c3])
    else None
  }

  /** The last group, which may carry one or two '=' of padding; the bits the
      padding leaves over must be zero. */
  function DecodeFinal(s: string): (r: Option<seq<byte>>)
    requires |s| == 4
    ensures r.Some? ==> 1 <= |r.value| <= 3
  {
    if !(IsSymbol(s[0]) && IsSymbol(s[1])) then None
    else
      var c0, c1 := ValueOf(s[0]).value, ValueOf(s[1]).value;
      if s[2] == '=' && s[3] == '=' then
        if c1 % 16 == 0 then Some([c0 * 4 + c1 / 16]) else None
      else if s[3] == '=' then
        if !IsSymbol(s[2]) then None
        else
          var c2 := ValueOf(s[2]).value;
          if c2 % 4 == 0 then Some([c0 * 4 + c1 / 16, c1 % 16 * 16 + c2 / 4]) else None
      else DecodeQuad(s)
  }

  /** `BASE64_STANDARD.decode`: None for a length that is not a multiple of
      four, a character outside the alphabet, misplaced padding or non-zero
      trailing bits. */
  function Decode(s: string): (r: Option<seq<byte>>)
    ensures r.Some? ==> |s| % 4 == 0 && (s == [] <==> r.value == [])
    decreases |s|
  {
    if |s| == 0 then Some([])
    else if |s| % 4 != 0 then None
    else if |s| == 4 then DecodeFinal(s)
    else
      match DecodeQuad(s[..4])
      case None => None
      case Some(head) =>
        match Decode(s[4..])
        case None => None
        case Some(tail) => Some(head + tail)
  }

  lemma Quarters(n: int, hi: int, lo: int)
    requires 0 <= lo < 4 && 0 <= hi && n == hi * 4 + lo
    ensures n / 4 == hi && n % 4 == lo
  {
  }

  lemma Sixteenths(n: int, hi: int, lo: int)
    requires 0 <= lo < 16 && 0 <= hi && n == hi * 16 + lo
    ensures n / 16 == hi && n % 16 == lo
  {
  }

  lemma DecodeQuadOfBlock(b0: byte, b1: byte, b2: byte)
    ensures DecodeQuad(EncodeBlock(b0, b1, b2)) == Some([b0, b1, b2])
  {
    var c0, c1, c2, c3 := b0 / 4, b0 % 4 * 16 + b1 / 16, b1 % 16 * 4 + b2 / 64, b2 % 64;
    ValueOfSymbol(c0);
    ValueOfSymbol(c1);
    ValueOfSymbol(c2);
    ValueOfSymbol(c3);
    Sixteenths(c1, b0 % 4, b1 / 16);
    Quarters(c2, b1 % 16, b2 / 64);
  }

  lemma DecodeFinalOfOneByte(b0: byte)
    ensures Decode(Encode([b0])) == Some([b0])
  {
    var c0, c1 := b0 / 4, b0 % 4 * 16;
    var s := Encode([b0]);
    assert s == [Symbol(c0), Symbol(c1), '=', '='];
    ValueOfSymbol(c0);
    ValueOfSymbol(c1);
    Sixteenths(c1, b0 % 4, 0);
    assert DecodeFinal(s) == Some([c0 * 4 + c1 / 16]);
  }

  lemma DecodeFinalOfTwoBytes(b0: byte, b1: byte)
    ensures Decode(Encode([b0, b1])) == Some([b0, b1])
  {
    var c0, c1, c2 := b0 / 4, b0 % 4 * 16 + b1 / 16, b1 % 16 * 4;
    var s := Encode([b0, b1]);
    assert s == [Symbol(c0), Symbol(c1), Symbol(c2), '='];
    ValueOfSymbol(c0);
    ValueOfSymbol(c1);
    ValueOfSymbol(c2);
    Sixteenths(c1, b0 % 4, b1 / 16);
    Quarters(c2, b1 % 16, 0);
    assert s[2] != '=';
    assert DecodeFinal(s) == Some([c0 * 4 + c1 / 16, c1 % 16 * 16 + c2 / 4]);
  }

  lemma DecodeFinalOfThreeBytes(b0: byte, b1: byte, b2: byte)
    ensures Decode(Encode([b0, b1, b2])) == Some([b0, b1, b2])
  {
    var s := EncodeBlock(b0, b1, b2);
    assert Encode([b0, b1, b2]) == s by {
      OneTwoThree([b0, b1, b2]);
      assert [b0, b1, b2][3..] == [];
    }
    DecodeQuadOfBlock(b0, b1, b2);
    ValueOfSymbol(b1 % 16 * 4 + b2 / 64);
    ValueOfSymbol(b2 % 64);
    assert s[2] != '=' && s[3] != '=';
    assert Decode(s) == DecodeFinal(s);
  }

  /** Every group of four characters gives three bytes, the final group
      one to three. */
  lemma {:induction false} DecodedLength(s: string)
    requires Decode(s).Some?
    ensures 4 * |Decode(s).value| <= 3 * |s| && (s != [] ==> 3 * |s| <= 4 * |Decode(s).value| + 8)
    decreases |s|
  {
    if |s| > 4 {
      DecodedLength(s[4..]);
    }
  }

  /** Decoding a full group followed by a non-empty well-formed rest. */
  lemma DecodeOfGroupAndRest(s: string)
    requires |s| > 4 && |s| % 4 == 0 && DecodeQuad(s[..4]).Some? && Decode(s[4..]).Some?
    ensures Decode(s) == Some(DecodeQuad(s[..4]).value + Decode(s[4..]).value)
  {
  }

  lemma CatSlices(q: string, t: string)
    ensures (q + t)[..|q|] == q && (q + t)[|q|..] == t
  {
  }

  /** Four characters for every started group of three bytes. */
  lemma {:induction false} EncodedLength(b: seq<byte>)
    ensures |Encode(b)| == (|b| + 2) / 3 * 4
    decreases |b|
  {
    if |b| >= 3 {
      EncodedLength(b[3..]);
      assert (|b| + 2) / 3 == (|b| - 3 + 2) / 3 + 1;
    }
  }

  /** A group that decodes, followed by a non-empty text that decodes. */
  lemma DecodeOfGroupAndEncoding(q: string, t: string, head: seq<byte>, rest: seq<byte>)
    requires |q| == 4 && DecodeQuad(q) == Some(head)
    requires |t| > 0 && |t| % 4 == 0 && Decode(t) == Some(rest)
    ensures Decode(q + t) == Some(head + rest)
  {
    CatSlices(q, t);
    FourMore(|t|);
    DecodeOfGroupAndRest(q + t);
  }

  lemma FourMore(n: nat)
    requires n % 4 == 0
    ensures (n + 4) % 4 == 0
  {
  }

  lemma DecodeOfBlockAndEncoding(b0: byte, b1: byte, b2: byte, t: string, rest: seq<byte>)
    requires |t| > 0 && |t| % 4 == 0 && Decode(t) == Some(rest)
    ensures Decode(EncodeBlock(b0, b1, b2) + t) == Some([b0, b1, b2] + rest)
  {
    DecodeQuadOfBlock(b0, b1, b2);
    DecodeOfGroupAndEncoding(EncodeBlock(b0, b1, b2), t, [b0, b1, b2], rest);
  }

  lemma OneTwoThree(b: seq<byte>)
    ensures |b| == 1 ==> b == [b[0]]
    ensures |b| == 2 ==> b == [b[0], b[1]]
    ensures |b| == 3 ==> b == [b[0], b[1], b[2]]
    ensures |b| >= 3 ==> b == [b[0], b[1], b[2]] + b[3..]
  {
  }

  lemma DecodeEncodeOne(b: seq<byte>)
    requires |b| == 1
    ensures Decode(Encode(b)) == Some(b)
  {
    OneTwoThree(b);
    DecodeFinalOfOneByte(b[0]);
  }

  lemma DecodeEncodeTwo(b: seq<byte>)
    requires |b| == 2
    ensures Decode(Encode(b)) == Some(b)
  {
    OneTwoThree(b);
    DecodeFinalOfTwoBytes(b[0], b[1]);
  }

  lemma DecodeEncodeThree(b: seq<byte>)
    requires |b| == 3
    ensures Decode(Encode(b)) == Some(b)
  {
    OneTwoThree(b);
    assert b[3..] == [];
    DecodeFinalOfThreeBytes(b[0], b[1], b[2]);
  }

  lemma DecodeEncodeStep(b: seq<byte>)
    requires |b| > 3 && Decode(Encode(b[3..])) == Some(b[3..])
    ensures Decode(Encode(b)) == Some(b)
  {
    assert Decode(Encode(b)) == Some([b[0], b[1], b[2]] + b[3..]) by {
      DecodeOfBlockAndEncoding(b[0], b[1], b[2], Encode(b[3..]), b[3..]);
    }
    OneTwoThree(b);
  }

  /** Every byte sequence survives the trip through its encoding. */
  lemma {:induction false} DecodeEncode(b: seq<byte>)
    ensures Decode(Encode(b)) == Some(b)
  {
    if |b| == 1 {
      DecodeEncodeOne(b);
    } else if |b| == 2 {
      DecodeEncodeTwo(b);
    } else if |b| == 3 {
      DecodeEncodeThree(b);
    } else if |b| > 3 {
      DecodeEncode(b[3..]);
      DecodeEncodeStep(b);
    }
  }

  /** Regrouping four six-bit values as three bytes and back. */
  lemma RegroupBits(c0: nat, c1: nat, c2: nat, c3: nat)
    requires c0 < 64 && c1 < 64 && c2 < 64 && c3 < 64
    ensures var d0, d1, d2 := c0 * 4 + c1 / 16, c1 % 16 * 16 + c2 / 4, c2 % 4 * 64 + c3;
      d0 < 256 && d1 < 256 && d2 < 256 &&
      d0 / 4 == c0 && d0 % 4 * 16 + d1 / 16 == c1 && d1 % 16 * 4 + d2 / 64 == c2 && d2 % 64 == c3
  {
    var d0, d1, d2 := c0 * 4 + c1 / 16, c1 % 16 * 16 + c2 / 4, c2 % 4 * 64 + c3;
    Quarters(d0, c0, c1 / 16);
    Sixteenths(d1, c1 % 16, c2 / 4);
    SixBitGroups(d2, c2 % 4, c3);
    Sixteenths(c1, c1 / 16, c1 % 16);
    Quarters(c2, c2 / 4, c2 % 4);
  }

  lemma EncodeBlockOfQuad(s: string)
    requires |s| == 4 && DecodeQuad(s).Some?
    ensures var d := DecodeQuad(s).value; EncodeBlock(d[0], d[1], d[2]) == s
  {
    var c0, c1, c2, c3 := ValueOf(s[0]).value, ValueOf(s[1]).value, ValueOf(s[2]).value, ValueOf(s[3]).value;
    var d := DecodeQuad(s).value;
    assert d == [c0 * 4 + c1 / 16, c1 % 16 * 16 + c2 / 4, c2 % 4 * 64 + c3];
    BlockOfValues(c0, c1, c2, c3);
    assert [Symbol(c0), Symbol(c1), Symbol(c2), Symbol(c3)] == [s[0], s[1], s[2], s[3]];
    FourChars(s);
  }

  lemma BlockOfValues(c0: nat, c1: nat, c2: nat, c3: nat)
    requires c0 < 64 && c1 < 64 && c2 < 64 && c3 < 64
    ensures c0 * 4 + c1 / 16 < 256 && c1 % 16 * 16 + c2 / 4 < 256 && c2 % 4 * 64 + c3 < 256
    ensures EncodeBlock(c0 * 4 + c1 / 16, c1 % 16 * 16 + c2 / 4, c2 % 4 * 64 + c3)
         == [Symbol(c0), Symbol(c1), Symbol(c2), Symbol(c3)]
  {
    RegroupBits(c0, c1, c2, c3);
  }

  lemma FourChars(s: string)
    requires |s| == 4
    ensures s == [s[0], s[1], s[2], s[3]]
  {
  }

  lemma EncodeOfFinal(s: string)
    requires |s| == 4 && DecodeFinal(s).Some?
    ensures Encode(DecodeFinal(s).value) == s
  {
    var d := DecodeFinal(s).value;
    var c0, c1 := ValueOf(s[0]).value, ValueOf(s[1]).value;
    Quarters(c0 * 4 + c1 / 16, c0, c1 / 16);
    if s[2] == '=' && s[3] == '=' {
      assert d == [c0 * 4 + c1 / 16];
      assert s == [s[0], s[1], '=', '='];
    } else if s[3] == '=' {
      var c2 := ValueOf(s[2]).value;
      Sixteenths(c1 % 16 * 16 + c2 / 4, c1 % 16, c2 / 4);
      assert d == [c0 * 4 + c1 / 16, c1 % 16 * 16 + c2 / 4];
      assert s == [s[0], s[1], s[2], '='];
    } else {
      EncodeBlockOfQuad(s);
      assert Encode(d) == EncodeBlock(d[0], d[1], d[2]) + Encode([]);
    }
  }

  lemma FourAndRest(s: string)
    requires |s| >= 4
    ensures s == s[..4] + s[4..]
  {
  }

  lemma DecodeSplit(s: string)
    requires |s| > 4 && Decode(s).Some?
    ensures DecodeQuad(s[..4]).Some? && Decode(s[4..]).Some?
    ensures Decode(s).value == DecodeQuad(s[..4]).value + Decode(s[4..]).value
  {
  }

  lemma EncodeCat(head: seq<byte>, tail: seq<byte>)
    requires |head| == 3 && tail != []
    ensures Encode(head + tail) == EncodeBlock(head[0], head[1], head[2]) + Encode(tail)
  {
    var b := head + tail;
    assert b[3..] == tail && b[0] == head[0] && b[1] == head[1] && b[2] == head[2];
  }

  lemma EncodeDecodeStep(s: string)
    requires |s| > 4 && Decode(s).Some?
    requires Encode(Decode(s[4..]).value) == s[4..]
    ensures Encode(Decode(s).value) == s
  {
    DecodeSplit(s);
    var head := DecodeQuad(s[..4]).value;
    var tail := Decode(s[4..]).value;
    assert |tail| > 0 by {
      assert |Encode(tail)| == |s| - 4;
    }
    EncodeCat(head, tail);
    EncodeBlockOfQuad(s[..4]);
    FourAndRest(s);
  }

  /** Decoding accepts only what encoding produces: a token that decodes is
      the encoding of what it decodes to. */
  lemma {:induction false} EncodeDecode(s: string)
    requires Decode(s).Some?
    ensures Encode(Decode(s).value) == s
  {
    if |s| == 4 {
      EncodeOfFinal(s);
    } else if |s| > 4 {
      assert Decode(s[4..]).Some? by {
        DecodeSplit(s);
      }
      EncodeDecode(s[4..]);
      EncodeDecodeStep(s);
    }
  }

  /** ':' is neither a symbol nor padding, so it never occurs in an encoding. */
  lemma NoColonInEncoding(b: seq<byte>)
    ensures ':' !in Encode(b)
  {
    var e := Encode(b);
    EncodingAlphabet(b);
    assert !IsSymbol(':');
    forall i | 0 <= i < |e| ensures e[i] != ':' {
    }
  }
}

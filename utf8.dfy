/** UTF-8 as defined in section 3 of RFC 3629: how a Rust `String` is laid
    out in bytes, and `String::from_utf8`, which accepts exactly the
    well-formed byte sequences of the table in section 4 of that RFC. */
module Utf8 {
  import opened Wrappers

  type byte = x: int | 0 <= x < 256

  predicate IsContinuation(b: byte) {
    0x80 <= b < 0xC0
  }

  /** The bytes of one Unicode scalar value, shortest form: the value's bits
      in groups of six, each below the first carried in a continuation byte. */
  function EncodeChar(c: char): (r: seq<byte>)
    ensures 1 <= |r| <= 4
    ensures |r| == 1 <==> c as int < 0x80
  {
    var n := c as int;
    var q1 := n / 64;
    var q2 := q1 / 64;
    var q3 := q2 / 64;
    if n < 0x80 then [n]
    else if n < 0x800 then [0xC0 + q1, 0x80 + n % 64]
    else if n < 0x1_0000 then [0xE0 + q2, 0x80 + q1 % 64, 0x80 + n % 64]
    else [0xF0 + q3, 0x80 + q2 % 64, 0x80 + q1 % 64, 0x80 + n % 64]
  }

  /** The bytes of a string: `String::as_bytes`. */
  function Encode(s: string): (r: seq<byte>)
    ensures |r| >= |s|
  {
    if s == [] then [] else EncodeChar(s[0]) + Encode(s[1..])
  }

  /** The first scalar value of `b` and the number of bytes it takes, or
      None when `b` does not start with a well-formed sequence. */
  function DecodeFirst(b: seq<byte>): (r: Option<(char, nat)>)
    requires |b| > 0
    ensures r.Some? ==> 1 <= r.value.1 <= |b| && r.value.1 <= 4
  {
    var b0: int := b[0];
    if b0 < 0x80 then Some((b0 as char, 1))
    else if 0xC2 <= b0 <= 0xDF then
      if |b| >= 2 && IsContinuation(b[1])
      then Some((((b0 - 0xC0) * 64 + (b[1] as int - 0x80)) as char, 2))
      else None
    else if 0xE0 <= b0 <= 0xEF then
      if |b| >= 3 && (if b0 == 0xE0 then 0xA0 else 0x80) <= b[1] <= (if b0 == 0xED then 0x9F else 0xBF)
         && IsContinuation(b[2])
      then Some((((b0 - 0xE0) * 4096 + (b[1] as int - 0x80) * 64 + (b[2] as int - 0x80)) as char, 3))
      else None
    else if 0xF0 <= b0 <= 0xF4 then
      if |b| >= 4 && (if b0 == 0xF0 then 0x90 else 0x80) <= b[1] <= (if b0 == 0xF4 then 0x8F else 0xBF)
         && IsContinuation(b[2]) && IsContinuation(b[3])
      then Some((((b0 - 0xF0) * 262144 + (b[1] as int - 0x80) * 4096 + (b[2] as int - 0x80) * 64
                  + (b[3] as int - 0x80)) as char, 4))
      else None
    else None
  }

  /** `String::from_utf8`: the string whose bytes these are, or None. */
  function Decode(b: seq<byte>): (r: Option<string>)
    ensures b == [] ==> r == Some([])
    ensures r.Some? ==> |r.value| <= |b| <= 4 * |r.value|
    decreases |b|
  {
    if b == [] then Some([])
    else match DecodeFirst(b)
      case None => None
      case Some((c, k)) =>
        match Decode(b[k..])
        case None => None
        case Some(rest) => Some([c] + rest)
  }

  lemma DecodeFirstOfEncodeChar(c: char, rest: seq<byte>)
    ensures DecodeFirst(EncodeChar(c) + rest) == Some((c, |EncodeChar(c)|))
  {
    var e := EncodeChar(c);
    var b := e + rest;
    var n := c as int;
    assert b[0] == e[0];
    if n < 0x80 {
    } else if n < 0x800 {
      assert b[1] == e[1];
    } else if n < 0x1_0000 {
      assert b[1] == e[1] && b[2] == e[2];
    } else {
      assert b[1] == e[1] && b[2] == e[2] && b[3] == e[3];
    }
  }

  /** Every string survives the trip through its bytes. */
  lemma {:induction false} DecodeEncode(s: string)
    ensures Decode(Encode(s)) == Some(s)
  {
    if s != [] {
      var e := EncodeChar(s[0]);
      DecodeFirstOfEncodeChar(s[0], Encode(s[1..]));
      assert (e + Encode(s[1..]))[|e|..] == Encode(s[1..]);
      DecodeEncode(s[1..]);
      assert [s[0]] + s[1..] == s;
    }
  }

  lemma SixBitGroups(n: int, hi: int, lo: int)
    requires 0 <= lo < 64 && 0 <= hi && n == hi * 64 + lo
    ensures n / 64 == hi && n % 64 == lo
  {
  }

  lemma TwoByteIsEncoding(b: seq<byte>)
    requires |b| > 0 && DecodeFirst(b).Some? && DecodeFirst(b).value.1 == 2
    ensures b[..2] == EncodeChar(DecodeFirst(b).value.0)
  {
    var n := DecodeFirst(b).value.0 as int;
    var x0: int := b[0];
    SixBitGroups(n, x0 - 0xC0, b[1] - 0x80);
  }

  lemma ThreeByteIsEncoding(b: seq<byte>)
    requires |b| > 0 && DecodeFirst(b).Some? && DecodeFirst(b).value.1 == 3
    ensures b[..3] == EncodeChar(DecodeFirst(b).value.0)
  {
    var n := DecodeFirst(b).value.0 as int;
    var x0: int := b[0];
    var q1 := (x0 - 0xE0) * 64 + (b[1] - 0x80);
    SixBitGroups(n, q1, b[2] - 0x80);
    SixBitGroups(q1, x0 - 0xE0, b[1] - 0x80);
  }

  lemma FourByteIsEncoding(b: seq<byte>)
    requires |b| > 0 && DecodeFirst(b).Some? && DecodeFirst(b).value.1 == 4
    ensures b[..4] == EncodeChar(DecodeFirst(b).value.0)
  {
    var n := DecodeFirst(b).value.0 as int;
    var x0: int := b[0];
    var q2 := (x0 - 0xF0) * 64 + (b[1] - 0x80);
    var q1 := q2 * 64 + (b[2] - 0x80);
    SixBitGroups(n, q1, b[3] - 0x80);
    SixBitGroups(q1, q2, b[2] - 0x80);
    SixBitGroups(q2, x0 - 0xF0, b[1] - 0x80);
  }

  /** A well-formed first sequence is the shortest-form encoding of the value
      it decodes to. */
  lemma DecodeFirstIsEncoding(b: seq<byte>)
    requires |b| > 0 && DecodeFirst(b).Some?
    ensures b[..DecodeFirst(b).value.1] == EncodeChar(DecodeFirst(b).value.0)
  {
    var k := DecodeFirst(b).value.1;
    if k == 2 {
      TwoByteIsEncoding(b);
    } else if k == 3 {
      ThreeByteIsEncoding(b);
    } else if k == 4 {
      FourByteIsEncoding(b);
    }
  }

  lemma EncodeCons(c: char, s: string)
    ensures Encode([c] + s) == EncodeChar(c) + Encode(s)
  {
    assert ([c] + s)[1..] == s;
  }

  /** The bytes of two strings put together are their bytes put together. */
  lemma {:induction false} EncodeAppend(a: string, b: string)
    ensures Encode(a + b) == Encode(a) + Encode(b)
    decreases |a|
  {
    if a == [] {
      assert a + b == b;
    } else {
      assert (a + b)[0] == a[0] && (a + b)[1..] == a[1..] + b;
      EncodeAppend(a[1..], b);
    }
  }

  /** Every byte of a character's encoding after the first is a
      continuation byte. */
  lemma EncodeCharTail(c: char)
    ensures forall k :: 1 <= k < |EncodeChar(c)| ==> IsContinuation(EncodeChar(c)[k])
  {
  }

  lemma {:induction false} EncodeSnoc(s: string, c: char)
    ensures Encode(s + [c]) == Encode(s) + EncodeChar(c)
  {
    if s == [] {
      assert s + [c] == [c];
      assert Encode([c]) == EncodeChar(c) + Encode([]);
    } else {
      assert (s + [c])[0] == s[0] && (s + [c])[1..] == s[1..] + [c];
      EncodeSnoc(s[1..], c);
    }
  }

  lemma DecodeCons(b: seq<byte>)
    requires b != [] && Decode(b).Some?
    ensures DecodeFirst(b).Some? && Decode(b[DecodeFirst(b).value.1..]).Some?
    ensures Decode(b).value == [DecodeFirst(b).value.0] + Decode(b[DecodeFirst(b).value.1..]).value
  {
  }

  lemma SplitAt(b: seq<byte>, k: nat)
    requires k <= |b|
    ensures b[..k] + b[k..] == b
  {
  }

  lemma EncodeDecodeStep(b: seq<byte>)
    requires b != [] && Decode(b).Some?
    requires DecodeFirst(b).Some? && Decode(b[DecodeFirst(b).value.1..]).Some?
    requires Encode(Decode(b[DecodeFirst(b).value.1..]).value) == b[DecodeFirst(b).value.1..]
    ensures Encode(Decode(b).value) == b
  {
    DecodeCons(b);
    var c := DecodeFirst(b).value.0;
    var k := DecodeFirst(b).value.1;
    var rest := Decode(b[k..]).value;
    assert EncodeChar(c) == b[..k] by {
      DecodeFirstIsEncoding(b);
    }
    EncodeCons(c, rest);
    SplitAt(b, k);
  }

  /** Decoding accepts only what encoding produces: only one byte
      sequence decodes to a given string. */
  lemma {:induction false} EncodeDecode(b: seq<byte>)
    requires Decode(b).Some?
    ensures Encode(Decode(b).value) == b
  {
    if b != [] {
      DecodeCons(b);
      EncodeDecode(b[DecodeFirst(b).value.1..]);
      EncodeDecodeStep(b);
    }
  }
}

/** UTF-8 as Rust's `String::from_utf8` checks it: a byte buffer is accepted
    exactly when it is the UTF-8 encoding of a sequence of Unicode scalar
    values (Dafny's `char`), with overlong forms, surrogates and values above
    U+10FFFF rejected (the well-formed byte sequences of the Unicode
    Standard, table 3-7). */
module Utf8 {
  import opened Base

  /** A continuation byte, `10xxxxxx`. */
  predicate IsCont(b: byte) {
    0x80 <= b < 0xC0
  }

  /** The range the second byte of a multi-byte sequence must fall in, given
      the leading byte: narrower after E0, ED, F0 and F4, which is what rules
      out overlong forms, surrogates and values above U+10FFFF. */
  predicate SecondOk(b0: byte, b1: byte) {
    if b0 == 0xE0 then 0xA0 <= b1 < 0xC0
    else if b0 == 0xED then 0x80 <= b1 < 0xA0
    else if b0 == 0xF0 then 0x90 <= b1 < 0xC0
    else if b0 == 0xF4 then 0x80 <= b1 < 0x90
    else IsCont(b1)
  }

  /** The value carried by a two-byte sequence `110aaaaa 10bbbbbb`. */
  function Scalar2(b0: byte, b1: byte): int {
    (b0 as int - 0xC0) * 0x40 + (b1 as int - 0x80)
  }

  /** The value carried by a three-byte sequence `1110aaaa 10bbbbbb 10cccccc`. */
  function Scalar3(b0: byte, b1: byte, b2: byte): int {
    (b0 as int - 0xE0) * 0x1000 + (b1 as int - 0x80) * 0x40 + (b2 as int - 0x80)
  }

  /** The value carried by a four-byte sequence `11110aaa 10bbbbbb 10cccccc 10dddddd`. */
  function Scalar4(b0: byte, b1: byte, b2: byte, b3: byte): int {
    (b0 as int - 0xF0) * 0x40000 + (b1 as int - 0x80) * 0x1000 + (b2 as int - 0x80) * 0x40 + (b3 as int - 0x80)
  }

  /** Decodes the scalar value at the front of `s`, with the number of bytes
      it occupies, or fails when the front of `s` is not well formed. */
  function DecodeOne(s: seq<byte>): (r: Option<(char, nat)>)
    requires |s| > 0
    ensures r.Some? ==> 1 <= r.value.1 <= 4 && r.value.1 <= |s|
  {
    var b0 := s[0];
    if b0 < 0x80 then
      Some((b0 as char, 1))
    else if 0xC2 <= b0 < 0xE0 then
      if |s| >= 2 && IsCont(s[1]) then Some((Scalar2(b0, s[1]) as char, 2)) else None
    else if 0xE0 <= b0 < 0xF0 then
      if |s| >= 3 && SecondOk(b0, s[1]) && IsCont(s[2]) then Some((Scalar3(b0, s[1], s[2]) as char, 3)) else None
    else if 0xF0 <= b0 < 0xF5 then
      if |s| >= 4 && SecondOk(b0, s[1]) && IsCont(s[2]) && IsCont(s[3]) then
        Some((Scalar4(b0, s[1], s[2], s[3]) as char, 4))
      else None
    else
      None
  }

  /** `String::from_utf8`: the text `s` encodes, or `None` when `s` is not
      well-formed UTF-8 anywhere. */
  function Decode(s: seq<byte>): (r: Option<string>)
    ensures s == [] ==> r == Some([])
    ensures r.Some? ==> |r.value| <= |s|
    decreases |s|
  {
    if s == [] then Some([])
    else
      match DecodeOne(s)
      case None => None
      case Some((c, n)) =>
        match Decode(s[n..])
        case None => None
        case Some(rest) => Some([c] + rest)
  }

  /** The UTF-8 encoding of one scalar value (shortest form). */
  function EncodeChar(c: char): (r: seq<byte>)
    ensures 1 <= |r| <= 4
  {
    var v := c as int;
    if v < 0x80 then [v]
    else if v < 0x800 then [0xC0 + v / 0x40, 0x80 + v % 0x40]
    else if v < 0x10000 then [0xE0 + v / 0x1000, 0x80 + v / 0x40 % 0x40, 0x80 + v % 0x40]
    else [0xF0 + v / 0x40000, 0x80 + v / 0x1000 % 0x40, 0x80 + v / 0x40 % 0x40, 0x80 + v % 0x40]
  }

  /** The UTF-8 encoding of a text (Rust's `String::into_bytes`). */
  function Encode(t: string): seq<byte>
  {
    if t == [] then [] else EncodeChar(t[0]) + Encode(t[1..])
  }

  /** The two-byte form of a value in U+0080..U+07FF decodes back to it. */
  lemma DecodeTwo(v: int)
    requires 0x80 <= v < 0x800
    ensures 0xC2 <= 0xC0 + v / 0x40 < 0xE0 && Scalar2(0xC0 + v / 0x40, 0x80 + v % 0x40) == v
  {
  }

  /** The three-byte form of a value in U+0800..U+FFFF decodes back to it. */
  lemma DecodeThree(v: int)
    requires 0x800 <= v < 0x10000
    ensures Scalar3(0xE0 + v / 0x1000, 0x80 + v / 0x40 % 0x40, 0x80 + v % 0x40) == v
  {
    assert v == v / 0x1000 * 0x1000 + v % 0x1000;
    assert v % 0x1000 == v / 0x40 % 0x40 * 0x40 + v % 0x40;
  }

  /** The four-byte form of a value in U+10000..U+10FFFF decodes back to it. */
  lemma DecodeFour(v: int)
    requires 0x10000 <= v < 0x110000
    ensures Scalar4(0xF0 + v / 0x40000, 0x80 + v / 0x1000 % 0x40, 0x80 + v / 0x40 % 0x40, 0x80 + v % 0x40) == v
  {
    assert v == v / 0x40000 * 0x40000 + v % 0x40000;
    assert v % 0x40000 == v / 0x1000 % 0x40 * 0x1000 + v % 0x1000;
    assert v % 0x1000 == v / 0x40 % 0x40 * 0x40 + v % 0x40;
  }

  /** Decoding the encoding of one scalar value gives it back, whatever follows. */
  lemma DecodeOneOfEncodeChar(c: char, rest: seq<byte>)
    ensures DecodeOne(EncodeChar(c) + rest) == Some((c, |EncodeChar(c)|))
  {
    var v := c as int;
    var e := EncodeChar(c);
    var s := e + rest;
    assert s[..|e|] == e;
    if v < 0x80 {
    } else if v < 0x800 {
      DecodeTwo(v);
    } else if v < 0x10000 {
      DecodeThree(v);
    } else {
      DecodeFour(v);
    }
  }

  /** Splitting `a * 0x40 + b` with a six-bit `b` recovers `a` and `b`. */
  lemma SplitSix(v: int, a: int, b: int)
    requires 0 <= b < 0x40 && v == a * 0x40 + b
    ensures v / 0x40 == a && v % 0x40 == b
  {
  }

  /** A two-byte sequence is the encoding of the value it carries. */
  lemma EncodeOfScalar2(b0: byte, b1: byte)
    requires 0xC2 <= b0 < 0xE0 && IsCont(b1)
    ensures 0x80 <= Scalar2(b0, b1) < 0x800
    ensures EncodeChar(Scalar2(b0, b1) as char) == [b0, b1]
  {
    SplitSix(Scalar2(b0, b1), b0 - 0xC0, b1 - 0x80);
  }

  /** A well-formed three-byte sequence is the encoding of the value it carries. */
  lemma EncodeOfScalar3(b0: byte, b1: byte, b2: byte)
    requires 0xE0 <= b0 < 0xF0 && SecondOk(b0, b1) && IsCont(b2)
    ensures 0x800 <= Scalar3(b0, b1, b2) < 0x10000
    ensures EncodeChar(Scalar3(b0, b1, b2) as char) == [b0, b1, b2]
  {
    var v := Scalar3(b0, b1, b2);
    var hi := (b0 - 0xE0) * 0x40 + (b1 - 0x80);
    SplitSix(v, hi, b2 - 0x80);
    SplitSix(hi, b0 - 0xE0, b1 - 0x80);
    assert v / 0x1000 == hi / 0x40;
  }

  /** A well-formed four-byte sequence is the encoding of the value it carries. */
  lemma EncodeOfScalar4(b0: byte, b1: byte, b2: byte, b3: byte)
    requires 0xF0 <= b0 < 0xF5 && SecondOk(b0, b1) && IsCont(b2) && IsCont(b3)
    ensures 0x10000 <= Scalar4(b0, b1, b2, b3) < 0x110000
    ensures EncodeChar(Scalar4(b0, b1, b2, b3) as char) == [b0, b1, b2, b3]
  {
    var v := Scalar4(b0, b1, b2, b3);
    var top := (b0 - 0xF0) * 0x40 + (b1 - 0x80);
    var mid := top * 0x40 + (b2 - 0x80);
    SplitSix(v, mid, b3 - 0x80);
    SplitSix(mid, top, b2 - 0x80);
    SplitSix(top, b0 - 0xF0, b1 - 0x80);
    assert v / 0x1000 == mid / 0x40;
    assert v / 0x40000 == top / 0x40;
  }

  /** Whatever `DecodeOne` accepts is exactly the shortest encoding of the
      value it returns: there is no second spelling of a scalar value. */
  lemma EncodeCharOfDecodeOne(s: seq<byte>)
    requires |s| > 0 && DecodeOne(s).Some?
    ensures s[..DecodeOne(s).value.1] == EncodeChar(DecodeOne(s).value.0)
  {
    var n := DecodeOne(s).value.1;
    if n == 2 {
      EncodeOfScalar2(s[0], s[1]);
    } else if n == 3 {
      EncodeOfScalar3(s[0], s[1], s[2]);
    } else if n == 4 {
      EncodeOfScalar4(s[0], s[1], s[2], s[3]);
    }
  }

  /** Every text survives an encode/decode round trip. */
  lemma {:induction false} DecodeOfEncode(t: string)
    ensures Decode(Encode(t)) == Some(t)
  {
    if t != [] {
      var rest := Encode(t[1..]);
      DecodeOneOfEncodeChar(t[0], rest);
      assert (EncodeChar(t[0]) + rest)[|EncodeChar(t[0])|..] == rest;
      DecodeOfEncode(t[1..]);
      assert [t[0]] + t[1..] == t;
    }
  }

  /** Every buffer `Decode` accepts is the encoding of the text it yields,
      so `Decode` accepts exactly the encodings of texts. */
  lemma {:induction false} EncodeOfDecode(s: seq<byte>)
    requires Decode(s).Some?
    ensures Encode(Decode(s).value) == s
    decreases |s|
  {
    if s != [] {
      var c := DecodeOne(s).value.0;
      var n := DecodeOne(s).value.1;
      var rest := Decode(s[n..]).value;
      var t := [c] + rest;
      assert Decode(s) == Some(t);
      assert s[..n] == EncodeChar(c) by {
        EncodeCharOfDecodeOne(s);
      }
      assert s[n..] == Encode(rest) by {
        EncodeOfDecode(s[n..]);
      }
      assert Encode(t) == EncodeChar(c) + Encode(rest) by {
        assert t[0] == c && t[1..] == rest;
      }
      assert s == s[..n] + s[n..];
    }
  }
}

/** The base64 encoding of section 4 of RFC 4648 (alphabet `A-Z a-z 0-9 + /`,
    `=` padding), as `Buffer.toString('base64')` writes it and `base64 -d`
    reads it. */
module Base64 {
  import opened Wrappers
  import Utf8

  type Byte = Utf8.Byte

  /** The character for a 6-bit value. */
  function Symbol(i: int): (c: char)
    requires 0 <= i < 64
  {
    if i < 26 then ('A' as int + i) as char
    else if i < 52 then ('a' as int + (i - 26)) as char
    else if i < 62 then ('0' as int + (i - 52)) as char
    else if i == 62 then '+'
    else '/'
  }

  /** The 6-bit value of an alphabet character; None for any other character. */
  function SymbolValue(c: char): (r: Option<int>)
    ensures r.Some? ==> 0 <= r.value < 64
  {
    if 'A' <= c <= 'Z' then Some(c as int - 'A' as int)
    else if 'a' <= c <= 'z' then Some(c as int - 'a' as int + 26)
    else if '0' <= c <= '9' then Some(c as int - '0' as int + 52)
    else if c == '+' then Some(62)
    else if c == '/' then Some(63)
    else None
  }

  predicate InAlphabet(c: char)
  {
    SymbolValue(c).Some?
  }

  lemma SymbolValueOfSymbol(i: int)
    requires 0 <= i < 64
    ensures SymbolValue(Symbol(i)) == Some(i)
  {
  }

  /** Every encoded character is an alphabet character or the pad `=`. */
  predicate IsPayload(s: string)
  {
    forall k :: 0 <= k < |s| ==> InAlphabet(s[k]) || s[k] == '='
  }

  function Encode(b: seq<Byte>): string
    decreases |b|
  {
    if |b| == 0 then ""
    else if |b| == 1 then
      [Symbol(b[0] / 4), Symbol((b[0] % 4) * 16), '=', '=']
    else if |b| == 2 then
      [Symbol(b[0] / 4), Symbol((b[0] % 4) * 16 + b[1] / 16), Symbol((b[1] % 16) * 4), '=']
    else
      [Symbol(b[0] / 4), Symbol((b[0] % 4) * 16 + b[1] / 16),
       Symbol((b[1] % 16) * 4 + b[2] / 64), Symbol(b[2] % 64)] + Encode(b[3..])
  }

  /** The encoding consists of alphabet characters and padding only. */
  lemma {:induction false} EncodeIsPayload(b: seq<Byte>)
    ensures IsPayload(Encode(b))
    decreases |b|
  {
    if |b| >= 3 {
      EncodeIsPayload(b[3..]);
    }
  }

  function Byte0(i0: int, i1: int): Byte
    requires 0 <= i0 < 64 && 0 <= i1 < 64
  {
    i0 * 4 + i1 / 16
  }

  function Byte1(i1: int, i2: int): Byte
    requires 0 <= i1 < 64 && 0 <= i2 < 64
  {
    (i1 % 16) * 16 + i2 / 4
  }

  function Byte2(i2: int, i3: int): Byte
    requires 0 <= i2 < 64 && 0 <= i3 < 64
  {
    (i2 % 4) * 64 + i3
  }

  /** Decodes groups of four characters; the last group may end in `=` or `==`.
      None for a length that is not a multiple of four or a foreign character. */
  function Decode(s: string): Option<seq<Byte>>
    decreases |s|
  {
    if s == [] then Some([])
    else if |s| < 4 then None
    else
      var v0, v1, v2, v3 := SymbolValue(s[0]), SymbolValue(s[1]), SymbolValue(s[2]), SymbolValue(s[3]);
      if v0.None? || v1.None? then None
      else if |s| == 4 && s[2] == '=' && s[3] == '=' then
        Some([Byte0(v0.value, v1.value)])
      else if v2.None? then None
      else if |s| == 4 && s[3] == '=' then
        Some([Byte0(v0.value, v1.value), Byte1(v1.value, v2.value)])
      else if v3.None? then None
      else
        Prepend([Byte0(v0.value, v1.value), Byte1(v1.value, v2.value), Byte2(v2.value, v3.value)],
                Decode(s[4..]))
  }

  /** `g` ahead of the decoded rest; None when the rest fails. */
  function Prepend(g: seq<Byte>, rest: Option<seq<Byte>>): Option<seq<Byte>>
  {
    match rest
    case None => None
    case Some(r) => Some(g + r)
  }

  /** The three bytes of a group are recovered from its four 6-bit values. */
  lemma GroupRoundTrip(b0: Byte, b1: Byte, b2: Byte)
    ensures Byte0(b0 / 4, (b0 % 4) * 16 + b1 / 16) == b0
    ensures Byte1((b0 % 4) * 16 + b1 / 16, (b1 % 16) * 4 + b2 / 64) == b1
    ensures Byte2((b1 % 16) * 4 + b2 / 64, b2 % 64) == b2
  {
    var i1 := (b0 % 4) * 16 + b1 / 16;
    var i2 := (b1 % 16) * 4 + b2 / 64;
    assert i1 / 16 == b0 % 4 && i1 % 16 == b1 / 16;
    assert i2 / 4 == b1 % 16 && i2 % 4 == b2 / 64;
  }

  /** Decoding a group, stated for any alphabet characters. */
  lemma DecodeGroupOfTwo(c0: char, c1: char)
    requires InAlphabet(c0) && InAlphabet(c1)
    ensures Decode([c0, c1, '=', '=']) == Some([Byte0(SymbolValue(c0).value, SymbolValue(c1).value)])
  {
  }

  lemma DecodeGroupOfThree(c0: char, c1: char, c2: char)
    requires InAlphabet(c0) && InAlphabet(c1) && InAlphabet(c2)
    ensures Decode([c0, c1, c2, '=']) ==
      Some([Byte0(SymbolValue(c0).value, SymbolValue(c1).value),
            Byte1(SymbolValue(c1).value, SymbolValue(c2).value)])
  {
  }

  lemma DecodeGroupOfFour(c0: char, c1: char, c2: char, c3: char, rest: string, v0: int, v1: int, v2: int, v3: int)
    requires SymbolValue(c0) == Some(v0) && SymbolValue(c1) == Some(v1)
    requires SymbolValue(c2) == Some(v2) && SymbolValue(c3) == Some(v3)
    ensures Decode([c0, c1, c2, c3] + rest) ==
      Prepend([Byte0(v0, v1), Byte1(v1, v2), Byte2(v2, v3)], Decode(rest))
  {
    var s := [c0, c1, c2, c3] + rest;
    assert s[4..] == rest;
    assert s[..4] == [c0, c1, c2, c3];
  }

  lemma DecodeOneByte(b: seq<Byte>)
    requires |b| == 1
    ensures Decode(Encode(b)) == Some(b)
  {
    var i0, i1 := b[0] / 4, (b[0] % 4) * 16;
    assert 0 <= i0 < 64 && 0 <= i1 < 64;
    var c0, c1 := Symbol(i0), Symbol(i1);
    assert Encode(b) == [c0, c1, '=', '='];
    SymbolValueOfSymbol(i0);
    SymbolValueOfSymbol(i1);
    DecodeGroupOfTwo(c0, c1);
    GroupRoundTrip(b[0], 0, 0);
    assert Byte0(i0, i1) == b[0];
    assert [b[0]] == b;
  }

  lemma DecodeTwoBytes(b: seq<Byte>)
    requires |b| == 2
    ensures Decode(Encode(b)) == Some(b)
  {
    var i0, i1, i2 := b[0] / 4, (b[0] % 4) * 16 + b[1] / 16, (b[1] % 16) * 4;
    assert 0 <= i0 < 64 && 0 <= i1 < 64 && 0 <= i2 < 64;
    var c0, c1, c2 := Symbol(i0), Symbol(i1), Symbol(i2);
    assert Encode(b) == [c0, c1, c2, '='];
    SymbolValueOfSymbol(i0);
    SymbolValueOfSymbol(i1);
    SymbolValueOfSymbol(i2);
    DecodeGroupOfThree(c0, c1, c2);
    GroupRoundTrip(b[0], b[1], 0);
    assert Byte0(i0, i1) == b[0] && Byte1(i1, i2) == b[1];
    assert [b[0], b[1]] == b;
  }

  lemma EncodeFullGroup(b: seq<Byte>)
    requires |b| >= 3
    ensures Encode(b) ==
      [Symbol(b[0] / 4), Symbol((b[0] % 4) * 16 + b[1] / 16),
       Symbol((b[1] % 16) * 4 + b[2] / 64), Symbol(b[2] % 64)] + Encode(b[3..])
  {
  }

  /** A full group decodes to its three bytes ahead of whatever the rest decodes to. */
  lemma DecodeFullGroup(b: seq<Byte>)
    requires |b| >= 3
    ensures Decode(Encode(b)) == Prepend(b[..3], Decode(Encode(b[3..])))
  {
    var i0, i1 := b[0] / 4, (b[0] % 4) * 16 + b[1] / 16;
    var i2, i3 := (b[1] % 16) * 4 + b[2] / 64, b[2] % 64;
    var c0, c1, c2, c3 := Symbol(i0), Symbol(i1), Symbol(i2), Symbol(i3);
    var tail := Encode(b[3..]);
    EncodeFullGroup(b);
    SymbolValueOfSymbol(i0);
    SymbolValueOfSymbol(i1);
    SymbolValueOfSymbol(i2);
    SymbolValueOfSymbol(i3);
    DecodeGroupOfFour(c0, c1, c2, c3, tail, i0, i1, i2, i3);
    var g := [Byte0(i0, i1), Byte1(i1, i2), Byte2(i2, i3)];
    assert Decode(Encode(b)) == Prepend(g, Decode(tail));
    assert g == b[..3] by {
      GroupRoundTrip(b[0], b[1], b[2]);
    }
  }

  /** Round trip: decoding an encoding gives back the bytes. */
  lemma {:induction false} DecodeEncode(b: seq<Byte>)
    ensures Decode(Encode(b)) == Some(b)
    decreases |b|
  {
    if |b| == 1 {
      DecodeOneByte(b);
    } else if |b| == 2 {
      DecodeTwoBytes(b);
    } else if |b| >= 3 {
      DecodeFullGroup(b);
      DecodeEncode(b[3..]);
      assert b == b[..3] + b[3..];
    }
  }
}

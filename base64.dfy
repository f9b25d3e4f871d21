/**
 * The base64 encoding of section 4 of RFC 4648, with a strict decoder: the key
 * payload header carries the encoded key record in this form. The decoder accepts
 * exactly the canonical encodings (padding present, unused bits zero, no other
 * characters), so that it is the inverse of the encoder in both directions.
 */
module Base64 {
  import opened Wrappers
  import opened Php

  /** The character of the alphabet for the 6-bit value `v` (table 1 of RFC 4648). */
  function CharOf(v: int): char
    requires 0 <= v < 64
  {
    if v < 26 then ('A' as int + v) as char
    else if v < 52 then ('a' as int + (v - 26)) as char
    else if v < 62 then ('0' as int + (v - 52)) as char
    else if v == 62 then '+'
    else '/'
  }

  /** The 6-bit value of an alphabet character; `None` for every other character, `=` included. */
  function ValueOf(c: char): (r: Option<int>)
    ensures r.Some? ==> 0 <= r.value < 64 && CharOf(r.value) == c
  {
    if 'A' <= c <= 'Z' then Some(c as int - 'A' as int)
    else if 'a' <= c <= 'z' then Some(c as int - 'a' as int + 26)
    else if '0' <= c <= '9' then Some(c as int - '0' as int + 52)
    else if c == '+' then Some(62)
    else if c == '/' then Some(63)
    else None
  }

  lemma ValueOfCharOf(v: int)
    requires 0 <= v < 64
    ensures ValueOf(CharOf(v)) == Some(v)
  {
  }

  /** The four characters of one full 24-bit group. */
  function EncodeGroup(b0: byte, b1: byte, b2: byte): (s: string)
    ensures |s| == 4
  {
    [CharOf(b0 as int / 4),
     CharOf(b0 as int % 4 * 16 + b1 as int / 16),
     CharOf(b1 as int % 16 * 4 + b2 as int / 64),
     CharOf(b2 as int % 64)]
  }

  /** `base64_encode`: groups of three octets become four characters; a short last group is padded with `=`. */
  function Encode(b: seq<byte>): (s: string)
    ensures |s| % 4 == 0
    decreases |b|
  {
    if |b| == 0 then ""
    else if |b| == 1 then [CharOf(b[0] as int / 4), CharOf(b[0] as int % 4 * 16), '=', '=']
    else if |b| == 2 then
      [CharOf(b[0] as int / 4), CharOf(b[0] as int % 4 * 16 + b[1] as int / 16), CharOf(b[1] as int % 16 * 4), '=']
    else EncodeGroup(b[0], b[1], b[2]) + Encode(b[3..])
  }

  /** The octets of one quantum of four characters, or `None` when it is not a canonical quantum. */
  function DecodeQuantum(q: string, last: bool): (r: Option<seq<byte>>)
    requires |q| == 4
  {
    var v0, v1, v2, v3 := ValueOf(q[0]), ValueOf(q[1]), ValueOf(q[2]), ValueOf(q[3]);
    if v0.None? || v1.None? then None
    else
      var c0, c1 := v0.value, v1.value;
      if v2.Some? && v3.Some? then
        Some([(c0 * 4 + c1 / 16) as byte, (c1 % 16 * 16 + v2.value / 4) as byte, (v2.value % 4 * 64 + v3.value) as byte])
      else if v2.Some? && last && q[3] == '=' && v2.value % 4 == 0 then
        Some([(c0 * 4 + c1 / 16) as byte, (c1 % 16 * 16 + v2.value / 4) as byte])
      else if v2.None? && last && q[2] == '=' && q[3] == '=' && c1 % 16 == 0 then
        Some([(c0 * 4 + c1 / 16) as byte])
      else None
  }

  /** `base64_decode($s, true)`: `None` stands for PHP's `false`. */
  function Decode(s: string): (r: Option<seq<byte>>)
    decreases |s|
  {
    if |s| == 0 then Some([])
    else if |s| < 4 then None
    else
      match DecodeQuantum(s[..4], |s| == 4)
      case None => None
      case Some(head) =>
        match Decode(s[4..])
        case None => None
        case Some(tail) => Some(head + tail)
  }

  /** How a quantum spelled with two alphabet characters and two pads decodes. */
  lemma DecodePaddedTwice(c0: int, c1: int)
    requires 0 <= c0 < 64 && 0 <= c1 < 64 && c1 % 16 == 0
    ensures DecodeQuantum([CharOf(c0), CharOf(c1), '=', '='], true) == Some([(c0 * 4 + c1 / 16) as byte])
  {
    ValueOfCharOf(c0); ValueOfCharOf(c1);
  }

  /** How a quantum spelled with three alphabet characters and one pad decodes. */
  lemma DecodePaddedOnce(c0: int, c1: int, c2: int)
    requires 0 <= c0 < 64 && 0 <= c1 < 64 && 0 <= c2 < 64 && c2 % 4 == 0
    ensures DecodeQuantum([CharOf(c0), CharOf(c1), CharOf(c2), '='], true)
         == Some([(c0 * 4 + c1 / 16) as byte, (c1 % 16 * 16 + c2 / 4) as byte])
  {
    ValueOfCharOf(c0); ValueOfCharOf(c1); ValueOfCharOf(c2);
  }

  /** How a quantum of four alphabet characters decodes. */
  lemma DecodeFull(c0: int, c1: int, c2: int, c3: int, last: bool)
    requires 0 <= c0 < 64 && 0 <= c1 < 64 && 0 <= c2 < 64 && 0 <= c3 < 64
    ensures DecodeQuantum([CharOf(c0), CharOf(c1), CharOf(c2), CharOf(c3)], last)
         == Some([(c0 * 4 + c1 / 16) as byte, (c1 % 16 * 16 + c2 / 4) as byte, (c2 % 4 * 64 + c3) as byte])
  {
    ValueOfCharOf(c0); ValueOfCharOf(c1); ValueOfCharOf(c2); ValueOfCharOf(c3);
  }

  /** The arithmetic behind a padded group of one octet. */
  lemma OneOctetArithmetic(x0: int)
    requires 0 <= x0 < 256
    ensures 0 <= x0 / 4 < 64 && 0 <= x0 % 4 * 16 < 64
    ensures (x0 % 4 * 16) % 16 == 0 && x0 / 4 * 4 + (x0 % 4 * 16) / 16 == x0
  {
  }

  /** The arithmetic behind a padded group of two octets. */
  lemma TwoOctetsArithmetic(x0: int, x1: int)
    requires 0 <= x0 < 256 && 0 <= x1 < 256
    ensures var c0, c1, c2 := x0 / 4, x0 % 4 * 16 + x1 / 16, x1 % 16 * 4;
      0 <= c0 < 64 && 0 <= c1 < 64 && 0 <= c2 < 64 &&
      c2 % 4 == 0 && c0 * 4 + c1 / 16 == x0 && c1 % 16 * 16 + c2 / 4 == x1
  {
  }

  /** The arithmetic behind a full group of three octets. */
  lemma ThreeOctetsArithmetic(x0: int, x1: int, x2: int)
    requires 0 <= x0 < 256 && 0 <= x1 < 256 && 0 <= x2 < 256
    ensures var c0, c1, c2, c3 := x0 / 4, x0 % 4 * 16 + x1 / 16, x1 % 16 * 4 + x2 / 64, x2 % 64;
      0 <= c0 < 64 && 0 <= c1 < 64 && 0 <= c2 < 64 && 0 <= c3 < 64 &&
      c0 * 4 + c1 / 16 == x0 && c1 % 16 * 16 + c2 / 4 == x1 && c2 % 4 * 64 + c3 == x2
  {
  }

  /** One full group survives encoding and decoding. */
  lemma GroupRoundTrip(b0: byte, b1: byte, b2: byte, last: bool)
    ensures DecodeQuantum(EncodeGroup(b0, b1, b2), last) == Some([b0, b1, b2])
  {
    var x0, x1, x2 := b0 as int, b1 as int, b2 as int;
    var c0, c1, c2, c3 := x0 / 4, x0 % 4 * 16 + x1 / 16, x1 % 16 * 4 + x2 / 64, x2 % 64;
    ThreeOctetsArithmetic(x0, x1, x2);
    assert EncodeGroup(b0, b1, b2) == [CharOf(c0), CharOf(c1), CharOf(c2), CharOf(c3)];
    DecodeFull(c0, c1, c2, c3, last);
    assert [(c0 * 4 + c1 / 16) as byte, (c1 % 16 * 16 + c2 / 4) as byte, (c2 % 4 * 64 + c3) as byte] == [b0, b1, b2];
  }

  /** A last group of one octet survives encoding and decoding. */
  lemma OneOctetRoundTrip(b: seq<byte>)
    requires |b| == 1
    ensures Decode(Encode(b)) == Some(b)
  {
    var x0 := b[0] as int;
    var c0, c1 := x0 / 4, x0 % 4 * 16;
    OneOctetArithmetic(x0);
    var s := Encode(b);
    assert s == [CharOf(c0), CharOf(c1), '=', '='];
    DecodePaddedTwice(c0, c1);
    assert [(c0 * 4 + c1 / 16) as byte] == b;
    LastQuantum(s);
  }

  /** A last group of two octets survives encoding and decoding. */
  lemma TwoOctetsRoundTrip(b: seq<byte>)
    requires |b| == 2
    ensures Decode(Encode(b)) == Some(b)
  {
    var x0, x1 := b[0] as int, b[1] as int;
    var c0, c1, c2 := x0 / 4, x0 % 4 * 16 + x1 / 16, x1 % 16 * 4;
    TwoOctetsArithmetic(x0, x1);
    var s := Encode(b);
    assert s == [CharOf(c0), CharOf(c1), CharOf(c2), '='];
    DecodePaddedOnce(c0, c1, c2);
    assert [(c0 * 4 + c1 / 16) as byte, (c1 % 16 * 16 + c2 / 4) as byte] == b;
    LastQuantum(s);
  }

  /** A string of one quantum decodes as that quantum. */
  lemma LastQuantum(s: string)
    requires |s| == 4
    ensures Decode(s) == DecodeQuantum(s, true)
  {
    assert s[..4] == s;
    assert Decode(s[4..]) == Some([]);
    if DecodeQuantum(s, true).Some? {
      var head := DecodeQuantum(s, true).value;
      assert head + [] == head;
    }
  }

  /** Three or more octets encode as their first group followed by the encoding of the rest. */
  lemma EncodeGroups(b: seq<byte>)
    requires |b| > 2
    ensures Encode(b) == EncodeGroup(b[0], b[1], b[2]) + Encode(b[3..])
  {
  }

  /** A quantum followed by more text decodes as the quantum's octets followed by the text's. */
  lemma DecodeAppend(q: string, rest: string)
    requires |q| == 4 && DecodeQuantum(q, rest == []).Some? && Decode(rest).Some?
    ensures Decode(q + rest) == Some(DecodeQuantum(q, rest == []).value + Decode(rest).value)
  {
    var s := q + rest;
    assert s[..4] == q && s[4..] == rest;
  }

  /** Decoding an encoding gives back the octets: `base64_decode(base64_encode($b), true) === $b`. */
  lemma {:induction false} DecodeEncode(b: seq<byte>)
    ensures Decode(Encode(b)) == Some(b)
    decreases |b|
  {
    if |b| == 1 {
      OneOctetRoundTrip(b);
    } else if |b| == 2 {
      TwoOctetsRoundTrip(b);
    } else if |b| > 2 {
      var g, rest := EncodeGroup(b[0], b[1], b[2]), Encode(b[3..]);
      EncodeGroups(b);
      GroupRoundTrip(b[0], b[1], b[2], rest == []);
      DecodeEncode(b[3..]);
      DecodeAppend(g, rest);
      assert [b[0], b[1], b[2]] + b[3..] == b;
    }
  }

  /** The arithmetic of decoding four 6-bit values, undone by encoding. */
  lemma FullQuantumArithmetic(c0: int, c1: int, c2: int, c3: int)
    requires 0 <= c0 < 64 && 0 <= c1 < 64 && 0 <= c2 < 64 && 0 <= c3 < 64
    ensures var x0, x1, x2 := c0 * 4 + c1 / 16, c1 % 16 * 16 + c2 / 4, c2 % 4 * 64 + c3;
      0 <= x0 < 256 && 0 <= x1 < 256 && 0 <= x2 < 256 &&
      x0 / 4 == c0 && x0 % 4 * 16 + x1 / 16 == c1 && x1 % 16 * 4 + x2 / 64 == c2 && x2 % 64 == c3
  {
  }

  /** The arithmetic of decoding three 6-bit values whose last two bits are zero, undone by encoding. */
  lemma OncePaddedArithmetic(c0: int, c1: int, c2: int)
    requires 0 <= c0 < 64 && 0 <= c1 < 64 && 0 <= c2 < 64 && c2 % 4 == 0
    ensures var x0, x1 := c0 * 4 + c1 / 16, c1 % 16 * 16 + c2 / 4;
      0 <= x0 < 256 && 0 <= x1 < 256 && x0 / 4 == c0 && x0 % 4 * 16 + x1 / 16 == c1 && x1 % 16 * 4 == c2
  {
  }

  /** The arithmetic of decoding two 6-bit values whose last four bits are zero, undone by encoding. */
  lemma TwicePaddedArithmetic(c0: int, c1: int)
    requires 0 <= c0 < 64 && 0 <= c1 < 64 && c1 % 16 == 0
    ensures var x0 := c0 * 4 + c1 / 16; 0 <= x0 < 256 && x0 / 4 == c0 && x0 % 4 * 16 == c1
  {
  }

  /** A quantum that decodes is the encoding of what it decodes to. */
  lemma QuantumCanonical(q: string, last: bool)
    requires |q| == 4 && DecodeQuantum(q, last).Some?
    ensures var d := DecodeQuantum(q, last).value;
      1 <= |d| <= 3 && (|d| < 3 ==> last) && Encode(d) == q
  {
    if ValueOf(q[2]).Some? && ValueOf(q[3]).Some? {
      FullQuantumCanonical(q, last);
    } else if ValueOf(q[2]).Some? {
      OncePaddedCanonical(q, last);
    } else {
      TwicePaddedCanonical(q, last);
    }
  }

  lemma FullQuantumCanonical(q: string, last: bool)
    requires |q| == 4 && DecodeQuantum(q, last).Some? && ValueOf(q[2]).Some? && ValueOf(q[3]).Some?
    ensures var d := DecodeQuantum(q, last).value;
      |d| == 3 && Encode(d) == q
  {
    var d := DecodeQuantum(q, last).value;
    var c0, c1, c2, c3 := ValueOf(q[0]).value, ValueOf(q[1]).value, ValueOf(q[2]).value, ValueOf(q[3]).value;
    FullQuantumArithmetic(c0, c1, c2, c3);
    assert Encode(d) == EncodeGroup(d[0], d[1], d[2]) + Encode(d[3..]);
    assert d[3..] == [];
    assert q == [CharOf(c0), CharOf(c1), CharOf(c2), CharOf(c3)];
  }

  lemma OncePaddedCanonical(q: string, last: bool)
    requires |q| == 4 && DecodeQuantum(q, last).Some? && ValueOf(q[2]).Some? && ValueOf(q[3]).None?
    ensures var d := DecodeQuantum(q, last).value;
      |d| == 2 && last && Encode(d) == q
  {
    var c0, c1, c2 := ValueOf(q[0]).value, ValueOf(q[1]).value, ValueOf(q[2]).value;
    OncePaddedArithmetic(c0, c1, c2);
    assert q == [CharOf(c0), CharOf(c1), CharOf(c2), '='];
  }

  lemma TwicePaddedCanonical(q: string, last: bool)
    requires |q| == 4 && DecodeQuantum(q, last).Some? && ValueOf(q[2]).None?
    ensures var d := DecodeQuantum(q, last).value;
      |d| == 1 && last && Encode(d) == q
  {
    var c0, c1 := ValueOf(q[0]).value, ValueOf(q[1]).value;
    TwicePaddedArithmetic(c0, c1);
    assert q == [CharOf(c0), CharOf(c1), '=', '='];
  }

  /** A string that decodes is the encoding of what it decodes to: the decoder accepts no other spelling. */
  lemma {:induction false} EncodeDecode(s: string)
    requires Decode(s).Some?
    ensures Encode(Decode(s).value) == s
    decreases |s|
  {
    if |s| > 0 {
      var head := DecodeQuantum(s[..4], |s| == 4).value;
      QuantumCanonical(s[..4], |s| == 4);
      EncodeDecode(s[4..]);
      var tail := Decode(s[4..]).value;
      if |s| == 4 {
        assert tail == [] && head + tail == head;
        assert s[..4] == s;
      } else {
        assert |head| == 3;
        var b := head + tail;
        assert b[..3] == head && b[3..] == tail;
        assert Encode(b) == EncodeGroup(b[0], b[1], b[2]) + Encode(tail);
        assert Encode(head) == EncodeGroup(head[0], head[1], head[2]) + Encode(head[3..]);
        assert head[3..] == [];
        assert s == s[..4] + s[4..];
      }
    }
  }
}

/**
 * UTF-8 (RFC 3629), as Python's `str.encode("utf-8")` and
 * `bytes.decode("utf-8")` apply it. Every string the model hashes is
 * encoded with it first, and the fetcher reports the encoded length.
 */
module Utf8 {
  import opened Common

  /** The one to four bytes that encode one code point. */
  function EncodeChar(c: char): (bs: Bytes)
    ensures 1 <= |bs| <= 4
    ensures (c as int < 0x80) <==> |bs| == 1
  {
    var n := c as int;
    if n < 0x80 then [n]
    else if n < 0x800 then [0xC0 + n / 64, 0x80 + n % 64]
    else if n < 0x10000 then [0xE0 + n / 4096, 0x80 + (n / 64) % 64, 0x80 + n % 64]
    else [0xF0 + n / 262144, 0x80 + (n / 4096) % 64, 0x80 + (n / 64) % 64, 0x80 + n % 64]
  }

  /** `s.encode("utf-8")`. */
  function Encode(s: string): (bs: Bytes)
    ensures |bs| >= |s|
  {
    if s == [] then [] else EncodeChar(s[0]) + Encode(s[1..])
  }

  /** How many bytes the sequence that starts with lead byte `b` has; 0 if `b` cannot start one. */
  function SequenceLength(b: Byte): nat {
    if b < 0x80 then 1
    else if 0xC2 <= b < 0xE0 then 2
    else if 0xE0 <= b < 0xF0 then 3
    else if 0xF0 <= b < 0xF5 then 4
    else 0
  }

  predicate IsContinuation(b: Byte) {
    0x80 <= b < 0xC0
  }

  predicate IsScalarValue(n: int) {
    (0 <= n < 0xD800) || (0xE000 <= n < 0x110000)
  }

  /** The code point of one complete sequence, rejecting overlong forms and surrogates. */
  function DecodeSequence(bs: Bytes): Option<char>
    requires 1 <= |bs| <= 4 && |bs| == SequenceLength(bs[0])
  {
    if |bs| == 1 then Some(bs[0] as char)
    else if !(forall i :: 1 <= i < |bs| ==> IsContinuation(bs[i])) then None
    else
      var n := CodePoint(bs);
      var least: int := if |bs| == 2 then 0x80 else if |bs| == 3 then 0x800 else 0x10000;
      if n < least || !IsScalarValue(n) then None else Some(n as char)
  }

  /** The payload bits of a multi-byte sequence, assembled into a code point. */
  function CodePoint(bs: Bytes): int
    requires 2 <= |bs| <= 4
  {
    var b0: int, b1: int := bs[0], bs[1];
    if |bs| == 2 then (b0 - 0xC0) * 64 + (b1 - 0x80)
    else
      var b2: int := bs[2];
      if |bs| == 3 then (b0 - 0xE0) * 4096 + (b1 - 0x80) * 64 + (b2 - 0x80)
      else
        var b3: int := bs[3];
        (b0 - 0xF0) * 262144 + (b1 - 0x80) * 4096 + (b2 - 0x80) * 64 + (b3 - 0x80)
  }

  /** `bs.decode("utf-8")`: None where Python raises UnicodeDecodeError. */
  function Decode(bs: Bytes): Option<string>
    decreases |bs|
  {
    if bs == [] then Some("")
    else
      var k := SequenceLength(bs[0]);
      if k == 0 || k > |bs| then None
      else
        match DecodeSequence(bs[..k])
        case None => None
        case Some(c) =>
          match Decode(bs[k..])
          case None => None
          case Some(rest) => Some([c] + rest)
  }

  lemma DecodeEncodeChar(c: char)
    ensures |EncodeChar(c)| == SequenceLength(EncodeChar(c)[0])
    ensures DecodeSequence(EncodeChar(c)) == Some(c)
  {
    var n := c as int;
    if n < 0x80 {
    } else if n < 0x800 {
      DecodeTwo(n);
    } else if n < 0x10000 {
      DecodeThree(n);
    } else {
      DecodeFour(n);
    }
    assert (c as int) as char == c;
  }

  lemma DecodeTwo(n: int)
    requires 0x80 <= n < 0x800
    ensures var bs: Bytes := [0xC0 + n / 64, 0x80 + n % 64];
      SequenceLength(bs[0]) == 2 && CodePoint(bs) == n
  {
    var q, r := n / 64, n % 64;
    assert n == 64 * q + r;
  }

  lemma DecodeThree(n: int)
    requires 0x800 <= n < 0x10000
    ensures var bs: Bytes := [0xE0 + n / 4096, 0x80 + (n / 64) % 64, 0x80 + n % 64];
      SequenceLength(bs[0]) == 3 && CodePoint(bs) == n
  {
    var q, r := n / 64, n % 64;
    var q2, r2 := q / 64, q % 64;
    assert n == 64 * q + r;
    assert q == 64 * q2 + r2;
    assert n / 4096 == q2;
  }

  lemma DecodeFour(n: int)
    requires 0x10000 <= n < 0x110000
    ensures var bs: Bytes := [0xF0 + n / 262144, 0x80 + (n / 4096) % 64, 0x80 + (n / 64) % 64, 0x80 + n % 64];
      SequenceLength(bs[0]) == 4 && CodePoint(bs) == n
  {
    var q, r := n / 64, n % 64;
    var q2, r2 := q / 64, q % 64;
    var q3, r3 := q2 / 64, q2 % 64;
    assert n == 64 * q + r;
    assert q == 64 * q2 + r2;
    assert q2 == 64 * q3 + r3;
    assert n / 4096 == q2;
    assert n / 262144 == q3;
  }

  lemma {:induction false} EncodeAppend(a: string, b: string)
    ensures Encode(a + b) == Encode(a) + Encode(b)
  {
    if a == [] {
      assert a + b == b;
    } else {
      assert (a + b)[1..] == a[1..] + b;
      EncodeAppend(a[1..], b);
    }
  }

  /** Decoding what was encoded gives the string back. */
  lemma {:induction false} DecodeEncode(s: string)
    ensures Decode(Encode(s)) == Some(s)
  {
    if s != [] {
      var head := EncodeChar(s[0]);
      var bs := Encode(s);
      DecodeEncodeChar(s[0]);
      DecodeEncode(s[1..]);
      assert bs[..|head|] == head && bs[|head|..] == Encode(s[1..]);
      assert s == [s[0]] + s[1..];
    }
  }

  /** Distinct strings have distinct encodings. */
  lemma EncodeInjective(a: string, b: string)
    requires Encode(a) == Encode(b)
    ensures a == b
  {
    DecodeEncode(a);
    DecodeEncode(b);
  }

  /** A string of ASCII characters encodes to one byte per character. */
  lemma {:induction false} EncodeAsciiLength(s: string)
    requires forall i :: 0 <= i < |s| ==> s[i] as int < 0x80
    ensures |Encode(s)| == |s|
  {
    if s != [] {
      EncodeAsciiLength(s[1..]);
    }
  }
}

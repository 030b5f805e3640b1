/**
  UTF-8, as `str.encode("utf-8")` produces it: the byte form in which a
  password reaches bcrypt. A `char` is a Unicode scalar value; a byte is a
  `nat` below 256.
 */
module Utf8 {

  /** The one- to four-byte encoding of a scalar value. */
  function EncodeChar(c: char): (b: seq<nat>)
    ensures 1 <= |b| <= 4
    ensures |b| == LeadLength(b[0])
    ensures forall k :: 1 <= k < |b| ==> 0x80 <= b[k] < 0xC0
  {
    var n := c as int;
    if n < 0x80 then [n]
    else if n < 0x800 then [0xC0 + n / 64, 0x80 + n % 64]
    else if n < 0x10000 then [0xE0 + n / 4096, 0x80 + (n / 64) % 64, 0x80 + n % 64]
    else [0xF0 + n / 262144, 0x80 + (n / 4096) % 64, 0x80 + (n / 64) % 64, 0x80 + n % 64]
  }

  /** How many bytes a sequence starting with this lead byte takes. */
  function LeadLength(b0: nat): nat {
    if b0 < 0x80 then 1 else if b0 < 0xE0 then 2 else if b0 < 0xF0 then 3 else 4
  }

  /** Reads a scalar value back from its encoding. */
  function DecodeChar(b: seq<nat>): int
    requires 1 <= |b| <= 4
  {
    var b0: int := b[0];
    if |b| == 1 then b0
    else
      var b1: int := b[1];
      if |b| == 2 then (b0 - 0xC0) * 64 + (b1 - 0x80)
      else
        var b2: int := b[2];
        if |b| == 3 then ((b0 - 0xE0) * 64 + (b1 - 0x80)) * 64 + (b2 - 0x80)
        else
          var b3: int := b[3];
          (((b0 - 0xF0) * 64 + (b1 - 0x80)) * 64 + (b2 - 0x80)) * 64 + (b3 - 0x80)
  }

  lemma DecodeEncodeChar(c: char)
    ensures DecodeChar(EncodeChar(c)) == c as int
  {
    var n := c as int;
    if n >= 0x10000 {
      assert n / 4096 == (n / 262144) * 64 + (n / 4096) % 64;
      assert n / 64 == (n / 4096) * 64 + (n / 64) % 64;
    } else if n >= 0x800 {
      assert n / 64 == (n / 4096) * 64 + (n / 64) % 64;
    }
  }

  /** `s.encode("utf-8")`. */
  function Encode(s: string): (b: seq<nat>)
    ensures |b| >= |s|
    ensures |s| > 0 ==> |b| > 0 && LeadLength(b[0]) == |EncodeChar(s[0])|
  {
    if |s| == 0 then [] else EncodeChar(s[0]) + Encode(s[1..])
  }

  lemma {:induction false} EncodeAppend(s: string, t: string)
    ensures Encode(s + t) == Encode(s) + Encode(t)
    decreases |s|
  {
    if |s| > 0 {
      assert (s + t)[0] == s[0] && (s + t)[1..] == s[1..] + t;
      EncodeAppend(s[1..], t);
    } else {
      assert s + t == t;
    }
  }

  /** Different strings have different encodings. */
  lemma {:induction false} EncodeInjective(s: string, t: string)
    requires Encode(s) == Encode(t)
    ensures s == t
    decreases |s|
  {
    if |s| > 0 {
      var a, b := EncodeChar(s[0]), EncodeChar(t[0]);
      assert |t| > 0;
      assert |a| == LeadLength(Encode(s)[0]) == |b|;
      assert a == Encode(s)[..|a|] == b;
      DecodeEncodeChar(s[0]);
      DecodeEncodeChar(t[0]);
      assert Encode(s[1..]) == Encode(s)[|a|..] == Encode(t[1..]);
      EncodeInjective(s[1..], t[1..]);
      assert s == [s[0]] + s[1..] && t == [t[0]] + t[1..];
    } else {
      assert |t| == 0;
    }
  }
}

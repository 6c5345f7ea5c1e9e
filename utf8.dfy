/**
 * UTF-8, the encoding Python's `str.encode()` uses by default. A Dafny
 * `char` is a Unicode scalar value, so every string has an encoding.
 */
module Utf8 {
  import opened Wrappers
  import opened Bytes

  predicate IsScalar(n: int) {
    0 <= n < 0xD800 || 0xE000 <= n < 0x11_0000
  }

  predicate IsContinuation(b: byte) {
    0x80 <= b < 0xC0
  }

  /** The one to four bytes of one scalar value. */
  function EncodeChar(c: char): (bs: seq<byte>)
    ensures 1 <= |bs| <= 4
    ensures |bs| == 1 <==> c as int < 0x80
    ensures forall i :: 1 <= i < |bs| ==> IsContinuation(bs[i])
  {
    var n := c as int;
    if n < 0x80 then [n]
    else if n < 0x800 then [0xC0 + n / 64, 0x80 + n % 64]
    else if n < 0x1_0000 then [0xE0 + n / 4096, 0x80 + (n / 64) % 64, 0x80 + n % 64]
    else [0xF0 + n / 262144, 0x80 + (n / 4096) % 64, 0x80 + (n / 64) % 64, 0x80 + n % 64]
  }

  function Encode(s: string): (bs: seq<byte>)
    ensures |s| <= |bs| <= 4 * |s|
  {
    if s == [] then [] else EncodeChar(s[0]) + Encode(s[1..])
  }

  /**
   * The scalar value at the head of `bs` and the number of bytes it takes;
   * `None` for a malformed, truncated, overlong or surrogate sequence.
   */
  function DecodeChar(bs: seq<byte>): (r: Option<(char, nat)>)
    ensures r.Some? ==> 1 <= r.value.1 <= |bs| && r.value.1 <= 4
  {
    if bs == [] then None
    else
      var b0: int := bs[0];
      if b0 < 0x80 then Some((b0 as char, 1))
      else if 0xC0 <= b0 < 0xE0 && |bs| >= 2 && IsContinuation(bs[1]) then
        var n: int := (b0 - 0xC0) * 64 + ((bs[1] as int) - 0x80);
        if 0x80 <= n then Some((n as char, 2)) else None
      else if 0xE0 <= b0 < 0xF0 && |bs| >= 3 && IsContinuation(bs[1]) && IsContinuation(bs[2]) then
        var n: int := (b0 - 0xE0) * 4096 + ((bs[1] as int) - 0x80) * 64 + ((bs[2] as int) - 0x80);
        if 0x800 <= n && IsScalar(n) then Some((n as char, 3)) else None
      else if 0xF0 <= b0 < 0xF8 && |bs| >= 4
              && IsContinuation(bs[1]) && IsContinuation(bs[2]) && IsContinuation(bs[3]) then
        var n: int := (b0 - 0xF0) * 262144 + ((bs[1] as int) - 0x80) * 4096 + ((bs[2] as int) - 0x80) * 64 + ((bs[3] as int) - 0x80);
        if 0x1_0000 <= n < 0x11_0000 then Some((n as char, 4)) else None
      else None
  }

  function Decode(bs: seq<byte>): (r: Option<string>)
    ensures r.Some? ==> |r.value| <= |bs|
    decreases |bs|
  {
    if bs == [] then Some("")
    else
      match DecodeChar(bs)
      case None => None
      case Some((c, len)) =>
        match Decode(bs[len..])
        case None => None
        case Some(rest) => Some([c] + rest)
  }

  lemma DecodeEncodeChar(c: char, rest: seq<byte>)
    ensures DecodeChar(EncodeChar(c) + rest) == Some((c, |EncodeChar(c)|))
  {
    var n := c as int;
    var bs := EncodeChar(c) + rest;
    if n < 0x80 {
    } else if n < 0x800 {
      assert (n / 64) * 64 + n % 64 == n;
    } else if n < 0x1_0000 {
      var q := n / 64;
      assert q * 64 + n % 64 == n;
      assert (q / 64) * 64 + q % 64 == q;
      assert n / 4096 == q / 64;
      assert bs[0] - 0xE0 == q / 64 && bs[1] - 0x80 == q % 64 && bs[2] - 0x80 == n % 64;
      assert (q / 64) * 4096 + (q % 64) * 64 + n % 64 == n;
    } else {
      var q := n / 64;
      var q2 := q / 64;
      assert q * 64 + n % 64 == n;
      assert q2 * 64 + q % 64 == q;
      assert (q2 / 64) * 64 + q2 % 64 == q2;
      assert n / 4096 == q2;
      assert n / 262144 == q2 / 64;
      assert bs[0] - 0xF0 == q2 / 64 && bs[1] - 0x80 == q2 % 64;
      assert bs[2] - 0x80 == q % 64 && bs[3] - 0x80 == n % 64;
      assert (q2 / 64) * 262144 + (q2 % 64) * 4096 + (q % 64) * 64 + n % 64 == n;
    }
  }

  /** Decoding undoes `encode()`: no two strings share an encoding. */
  lemma {:induction false} DecodeEncode(s: string)
    ensures Decode(Encode(s)) == Some(s)
  {
    if s != [] {
      var head := EncodeChar(s[0]);
      var tail := Encode(s[1..]);
      DecodeEncodeChar(s[0], tail);
      assert (head + tail)[|head|..] == tail;
      DecodeEncode(s[1..]);
      assert s == [s[0]] + s[1..];
    }
  }

  lemma EncodeInjective(s: string, t: string)
    ensures Encode(s) == Encode(t) <==> s == t
  {
    DecodeEncode(s);
    DecodeEncode(t);
  }

  /** An ASCII string encodes to its own code points, one byte each. */
  lemma {:induction false} EncodeAscii(s: string)
    requires forall i :: 0 <= i < |s| ==> s[i] as int < 0x80
    ensures |Encode(s)| == |s|
    ensures forall i :: 0 <= i < |s| ==> Encode(s)[i] == s[i] as int
  {
    if s != [] {
      EncodeAscii(s[1..]);
      assert Encode(s) == [s[0] as int] + Encode(s[1..]);
    }
  }
}

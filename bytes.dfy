/**
 * Bytes and their lowercase hexadecimal spelling, as produced by
 * Python's `hashlib` `hexdigest()`: two characters per byte, high nibble
 * first, digits `0-9a-f`.
 */
module Bytes {
  import opened Wrappers

  type byte = b: int | 0 <= b < 256

  predicate IsHexDigit(c: char) {
    '0' <= c <= '9' || 'a' <= c <= 'f'
  }

  /** True of the strings `hexdigest()` can produce. */
  predicate IsHexString(s: string) {
    |s| % 2 == 0 && forall i :: 0 <= i < |s| ==> IsHexDigit(s[i])
  }

  /** The digit spelling a nibble. */
  function DigitChar(n: int): (c: char)
    requires 0 <= n < 16
    ensures IsHexDigit(c)
  {
    if n < 10 then ('0' as int + n) as char else ('a' as int + n - 10) as char
  }

  /** The nibble a digit spells; `None` for anything that is not a lowercase hex digit. */
  function DigitValue(c: char): (r: Option<int>)
    ensures r.Some? <==> IsHexDigit(c)
    ensures r.Some? ==> 0 <= r.value < 16 && DigitChar(r.value) == c
  {
    if '0' <= c <= '9' then Some(c as int - '0' as int)
    else if 'a' <= c <= 'f' then Some(c as int - 'a' as int + 10)
    else None
  }

  lemma DigitRoundTrip(n: int)
    requires 0 <= n < 16
    ensures DigitValue(DigitChar(n)) == Some(n)
  {
  }

  /** `hexdigest()`: each byte becomes its high nibble's digit then its low nibble's digit. */
  function HexEncode(bs: seq<byte>): (s: string)
    ensures |s| == 2 * |bs|
    ensures IsHexString(s)
  {
    if bs == [] then ""
    else [DigitChar(bs[0] / 16), DigitChar(bs[0] % 16)] + HexEncode(bs[1..])
  }

  /** Reads back a lowercase hex string; `None` for odd length or a non-digit. */
  function HexDecode(s: string): (r: Option<seq<byte>>)
    ensures r.Some? ==> 2 * |r.value| == |s|
  {
    if |s| == 0 then Some([])
    else if |s| == 1 then None
    else
      match (DigitValue(s[0]), DigitValue(s[1]), HexDecode(s[2..]))
      case (Some(hi), Some(lo), Some(rest)) => Some([hi * 16 + lo] + rest)
      case _ => None
  }

  lemma {:induction false} HexDecodeEncode(bs: seq<byte>)
    ensures HexDecode(HexEncode(bs)) == Some(bs)
  {
    if bs != [] {
      var s := HexEncode(bs);
      assert s[2..] == HexEncode(bs[1..]);
      DigitRoundTrip(bs[0] / 16);
      DigitRoundTrip(bs[0] % 16);
      HexDecodeEncode(bs[1..]);
      assert (bs[0] / 16) * 16 + bs[0] % 16 == bs[0];
      assert bs == [bs[0]] + bs[1..];
    }
  }

  /** Every string `HexDecode` accepts is the encoding of what it decodes to. */
  lemma {:induction false} HexEncodeDecode(s: string)
    ensures HexDecode(s).Some? ==> HexEncode(HexDecode(s).value) == s
  {
    if |s| >= 2 && HexDecode(s).Some? {
      var hi := DigitValue(s[0]).value;
      var lo := DigitValue(s[1]).value;
      HexEncodeDecode(s[2..]);
      var b: byte := hi * 16 + lo;
      assert b / 16 == hi && b % 16 == lo;
      assert HexDecode(s).value == [b] + HexDecode(s[2..]).value;
      assert HexDecode(s).value[1..] == HexDecode(s[2..]).value;
      assert s == [s[0], s[1]] + s[2..];
    }
  }

  /** Distinct byte strings never share a hex spelling. */
  lemma HexEncodeInjective(a: seq<byte>, b: seq<byte>)
    ensures HexEncode(a) == HexEncode(b) <==> a == b
  {
    HexDecodeEncode(a);
    HexDecodeEncode(b);
  }

  /** A string is a hex spelling of some bytes exactly when `HexDecode` accepts it. */
  lemma HexDecodeAcceptsHexStrings(s: string)
    ensures HexDecode(s).Some? <==> IsHexString(s)
    decreases |s|
  {
    if |s| >= 2 {
      HexDecodeAcceptsHexStrings(s[2..]);
      if IsHexString(s) {
        assert IsHexString(s[2..]) by {
          forall i | 0 <= i < |s[2..]| ensures IsHexDigit(s[2..][i]) {
            assert s[2..][i] == s[i + 2];
          }
        }
      }
      HexEncodeDecode(s);
    }
  }
}

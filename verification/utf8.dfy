/**
 * UTF-8 as ECMAScript's URI functions and the WHATWG form decoder use it:
 * one scalar value to one to four bytes and back.
 */
module Utf8 {
  import opened Wrappers

  type byte = b: int | 0 <= b < 256

  /** A Unicode scalar value: a code point that is not a surrogate. */
  predicate IsScalar(n: int) {
    0 <= n < 0xD800 || 0xE000 <= n < 0x110000
  }

  /** The UTF-8 encoding of one character. */
  function EncodeChar(c: char): (bs: seq<byte>)
    ensures 1 <= |bs| <= 4
    ensures (|bs| == 1) == (c as int < 0x80)
  {
    var n := c as int;
    if n < 0x80 then [n]
    else if n < 0x800 then [0xC0 + n / 64, 0x80 + n % 64]
    else if n < 0x10000 then [0xE0 + n / 4096, 0x80 + (n / 64) % 64, 0x80 + n % 64]
    else [0xF0 + n / 262144, 0x80 + (n / 4096) % 64, 0x80 + (n / 64) % 64, 0x80 + n % 64]
  }

  /**
   * How many bytes a sequence starting with `lead` has, from the number of
   * leading one bits; 0 when `lead` cannot start a sequence (a continuation
   * byte, or five or more leading ones).
   */
  function SequenceLength(lead: byte): nat {
    if lead < 0x80 then 1
    else if lead < 0xC0 then 0
    else if lead < 0xE0 then 2
    else if lead < 0xF0 then 3
    else if lead < 0xF8 then 4
    else 0
  }

  predicate IsContinuation(b: byte) {
    0x80 <= b < 0xC0
  }

  /**
   * The character that exactly the bytes `bs` encode, or None when they are
   * not one well-formed sequence: wrong length for the lead byte, a bad
   * continuation byte, an overlong form, a surrogate or a value beyond U+10FFFF.
   */
  function DecodeSequence(bs: seq<byte>): (r: Option<char>)
    ensures r.Some? ==> 1 <= |bs| <= 4 && SequenceLength(bs[0]) == |bs|
  {
    if |bs| == 0 || SequenceLength(bs[0]) != |bs| then None
    else if exists k :: 1 <= k < |bs| && !IsContinuation(bs[k]) then None
    else
      var cp :=
        if |bs| == 1 then bs[0]
        else if |bs| == 2 then (bs[0] as int - 0xC0) * 64 + (bs[1] as int - 0x80)
        else if |bs| == 3 then (bs[0] as int - 0xE0) * 4096 + (bs[1] as int - 0x80) * 64 + (bs[2] as int - 0x80)
        else (bs[0] as int - 0xF0) * 262144 + (bs[1] as int - 0x80) * 4096 + (bs[2] as int - 0x80) * 64 + (bs[3] as int - 0x80);
      var least :=
        if |bs| == 1 then 0 else if |bs| == 2 then 0x80 else if |bs| == 3 then 0x800 else 0x10000;
      if cp < least || !IsScalar(cp) then None else Some(cp as char)
  }

  lemma Digits64(n: nat)
    ensures n == (n / 64) * 64 + n % 64
    ensures n / 64 / 64 == n / 4096
    ensures n / 4096 / 64 == n / 262144
  {
  }

  /** Decoding the encoding of a character gives the character back. */
  lemma DecodeEncode(c: char)
    ensures SequenceLength(EncodeChar(c)[0]) == |EncodeChar(c)|
    ensures forall k :: 1 <= k < |EncodeChar(c)| ==> IsContinuation(EncodeChar(c)[k])
    ensures DecodeSequence(EncodeChar(c)) == Some(c)
  {
    var n := c as int;
    var bs := EncodeChar(c);
    Digits64(n);
    Digits64(n / 64);
    Digits64(n / 4096);
    if n < 0x80 {
    } else if n < 0x800 {
      assert (bs[0] as int - 0xC0) * 64 + (bs[1] as int - 0x80) == n;
    } else if n < 0x10000 {
      assert (bs[0] as int - 0xE0) * 4096 + (bs[1] as int - 0x80) * 64 + (bs[2] as int - 0x80) == n;
    } else {
      assert (bs[0] as int - 0xF0) * 262144 + (bs[1] as int - 0x80) * 4096 + (bs[2] as int - 0x80) * 64 + (bs[3] as int - 0x80) == n;
    }
  }
}

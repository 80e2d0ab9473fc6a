/**
 * `atob`: the WHATWG forgiving-base64 decoder over the alphabet of section 4
 * of RFC 4648, giving a binary string (one character per byte). `Btoa`, the
 * matching encoder, is its partner in the round-trip lemma.
 */
module Base64 {
  import opened Wrappers

  /** The character for a six-bit value. */
  function AlphabetChar(v: nat): (c: char)
    requires v < 64
    ensures IsAlphabet(c)
  {
    if v < 26 then ('A' as int + v) as char
    else if v < 52 then ('a' as int + v - 26) as char
    else if v < 62 then ('0' as int + v - 52) as char
    else if v == 62 then '+'
    else '/'
  }

  predicate IsAlphabet(c: char) {
    'A' <= c <= 'Z' || 'a' <= c <= 'z' || '0' <= c <= '9' || c == '+' || c == '/'
  }

  /** The six-bit value of an alphabet character. */
  function AlphabetValue(c: char): (v: nat)
    requires IsAlphabet(c)
    ensures v < 64 && AlphabetChar(v) == c
  {
    if 'A' <= c <= 'Z' then c as int - 'A' as int
    else if 'a' <= c <= 'z' then c as int - 'a' as int + 26
    else if '0' <= c <= '9' then c as int - '0' as int + 52
    else if c == '+' then 62
    else 63
  }

  lemma AlphabetRoundTrip(v: nat)
    requires v < 64
    ensures IsAlphabet(AlphabetChar(v)) && AlphabetValue(AlphabetChar(v)) == v
  {
  }

  /** The characters the forgiving decoder removes first. */
  predicate IsAsciiWhiteSpace(c: char) {
    c == '\t' || c == '\n' || c as int == 0x0C || c == '\r' || c == ' '
  }

  function RemoveAsciiWhiteSpace(s: string): (r: string)
    ensures forall k :: 0 <= k < |r| ==> !IsAsciiWhiteSpace(r[k])
  {
    if s == [] then []
    else if IsAsciiWhiteSpace(s[0]) then RemoveAsciiWhiteSpace(s[1..])
    else [s[0]] + RemoveAsciiWhiteSpace(s[1..])
  }

  /** A string whose characters are all bytes: what `atob` returns and `btoa` accepts. */
  predicate IsBinary(s: string) {
    forall k :: 0 <= k < |s| ==> s[k] as int < 256
  }

  function ByteChar(b: nat): char
    requires b < 256
  {
    b as char
  }

  /** A length that splits into quads and a final group of two or three: one that is not 1 modulo 4. */
  predicate ValidLength(n: nat) {
    n != 1 && (n < 4 || ValidLength(n - 4))
  }

  lemma {:induction false} ValidLengthMod(n: nat)
    ensures ValidLength(n) <==> n % 4 != 1
  {
    if n >= 4 {
      ValidLengthMod(n - 4);
    }
  }

  /** Decodes padding-free base64 text; a final group of two or three characters yields one or two bytes. */
  function DecodeGroups(d: string): (r: string)
    requires ValidLength(|d|)
    requires forall k :: 0 <= k < |d| ==> IsAlphabet(d[k])
    ensures IsBinary(r)
  {
    if |d| < 2 then []
    else
      var v0, v1 := AlphabetValue(d[0]), AlphabetValue(d[1]);
      var b0 := ByteChar(v0 * 4 + v1 / 16);
      if |d| == 2 then [b0]
      else
        var v2 := AlphabetValue(d[2]);
        var b1 := ByteChar((v1 % 16) * 16 + v2 / 4);
        if |d| == 3 then [b0, b1]
        else
          var v3 := AlphabetValue(d[3]);
          var b2 := ByteChar((v2 % 4) * 64 + v3);
          var rest := DecodeGroups(d[4..]);
          assert forall k :: 3 <= k < |[b0, b1, b2] + rest| ==> ([b0, b1, b2] + rest)[k] == rest[k - 3];
          [b0, b1, b2] + rest
  }

  predicate EndsWith(s: string, suffix: string) {
    |suffix| <= |s| && s[|s| - |suffix|..] == suffix
  }

  /** The data once whitespace and one or two final `=` of a whole number of quads are removed. */
  function StripPadding(d: string): string {
    if |d| % 4 == 0 && EndsWith(d, "==") then d[..|d| - 2]
    else if |d| % 4 == 0 && EndsWith(d, "=") then d[..|d| - 1]
    else d
  }

  /**
   * `atob(s)`: None (the DOMException) when, once white space and padding are
   * removed, the length leaves remainder 1 modulo 4 or a character is outside
   * the alphabet.
   */
  function Atob(s: string): (r: Option<string>)
    ensures r.Some? ==> IsBinary(r.value)
  {
    var d := StripPadding(RemoveAsciiWhiteSpace(s));
    if |d| % 4 == 1 || exists k :: 0 <= k < |d| && !IsAlphabet(d[k]) then None
    else
      ValidLengthMod(|d|);
      Some(DecodeGroups(d))
  }

  /** How three bytes split into four six-bit values, and how they join back. */
  lemma Sextets(x: nat, y: nat, z: nat)
    requires x < 256 && y < 256 && z < 256
    ensures x / 4 < 64 && (x % 4) * 16 + y / 16 < 64 && (y % 16) * 4 + z / 64 < 64
    ensures (x / 4) * 4 + ((x % 4) * 16 + y / 16) / 16 == x
    ensures (((x % 4) * 16 + y / 16) % 16) * 16 + ((y % 16) * 4 + z / 64) / 4 == y
    ensures (((y % 16) * 4 + z / 64) % 4) * 64 + z % 64 == z
  {
    assert ((x % 4) * 16 + y / 16) / 16 == x % 4;
    assert ((x % 4) * 16 + y / 16) % 16 == y / 16;
    assert ((y % 16) * 4 + z / 64) / 4 == y % 16;
    assert ((y % 16) * 4 + z / 64) % 4 == z / 64;
  }

  /** Four characters for three bytes. */
  function Quad(x: nat, y: nat, z: nat): (q: string)
    requires x < 256 && y < 256 && z < 256
    ensures |q| == 4 && forall k :: 0 <= k < 4 ==> IsAlphabet(q[k])
  {
    Sextets(x, y, z);
    [AlphabetChar(x / 4), AlphabetChar((x % 4) * 16 + y / 16),
     AlphabetChar((y % 16) * 4 + z / 64), AlphabetChar(z % 64)]
  }

  /** Three characters for a final two bytes. */
  function Triple(x: nat, y: nat): (t: string)
    requires x < 256 && y < 256
    ensures |t| == 3 && forall k :: 0 <= k < 3 ==> IsAlphabet(t[k])
  {
    Sextets(x, y, 0);
    [AlphabetChar(x / 4), AlphabetChar((x % 4) * 16 + y / 16), AlphabetChar((y % 16) * 4)]
  }

  /** Two characters for a final byte. */
  function Couple(x: nat): (t: string)
    requires x < 256
    ensures |t| == 2 && forall k :: 0 <= k < 2 ==> IsAlphabet(t[k])
  {
    Sextets(x, 0, 0);
    [AlphabetChar(x / 4), AlphabetChar((x % 4) * 16)]
  }

  /** Base64 text of a binary string without padding. */
  function EncodeGroups(s: string): (r: string)
    requires IsBinary(s)
    ensures forall k :: 0 <= k < |r| ==> IsAlphabet(r[k])
  {
    if |s| == 0 then []
    else if |s| == 1 then Couple(s[0] as int)
    else if |s| == 2 then Triple(s[0] as int, s[1] as int)
    else
      var quad := Quad(s[0] as int, s[1] as int, s[2] as int);
      var rest := EncodeGroups(s[3..]);
      assert forall k :: 4 <= k < |quad + rest| ==> (quad + rest)[k] == rest[k - 4];
      quad + rest
  }

  lemma DecodeCouple(x: nat)
    requires x < 256
    ensures DecodeGroups(Couple(x)) == [x as char]
  {
    Sextets(x, 0, 0);
    AlphabetRoundTrip(x / 4);
    AlphabetRoundTrip((x % 4) * 16);
    assert (x % 4) * 16 / 16 == x % 4;
  }

  lemma DecodeTriple(x: nat, y: nat)
    requires x < 256 && y < 256
    ensures DecodeGroups(Triple(x, y)) == [x as char, y as char]
  {
    Sextets(x, y, 0);
    AlphabetRoundTrip(x / 4);
    AlphabetRoundTrip((x % 4) * 16 + y / 16);
    AlphabetRoundTrip((y % 16) * 4);
    assert (y % 16) * 4 / 4 == y % 16;
  }

  /** The six-bit values of a quad's characters. */
  lemma QuadValues(x: nat, y: nat, z: nat)
    requires x < 256 && y < 256 && z < 256
    ensures var q := Quad(x, y, z);
      AlphabetValue(q[0]) == x / 4 && AlphabetValue(q[1]) == (x % 4) * 16 + y / 16
      && AlphabetValue(q[2]) == (y % 16) * 4 + z / 64 && AlphabetValue(q[3]) == z % 64
  {
    Sextets(x, y, z);
    AlphabetRoundTrip(x / 4);
    AlphabetRoundTrip((x % 4) * 16 + y / 16);
    AlphabetRoundTrip((y % 16) * 4 + z / 64);
    AlphabetRoundTrip(z % 64);
  }

  lemma DecodeQuad(x: nat, y: nat, z: nat, rest: string)
    requires x < 256 && y < 256 && z < 256
    requires ValidLength(|rest|) && forall k :: 0 <= k < |rest| ==> IsAlphabet(rest[k])
    ensures ValidLength(|Quad(x, y, z) + rest|)
    ensures DecodeGroups(Quad(x, y, z) + rest) == [x as char, y as char, z as char] + DecodeGroups(rest)
  {
    var q := Quad(x, y, z);
    var d := q + rest;
    QuadValues(x, y, z);
    Sextets(x, y, z);
    assert d[0] == q[0] && d[1] == q[1] && d[2] == q[2] && d[3] == q[3];
    assert d[4..] == rest;
  }

  /** The length of the unpadded text for `n` bytes: four characters per three bytes, two or three for a final one or two. */
  function EncodedLength(n: nat): nat {
    if n == 0 then 0 else if n == 1 then 2 else if n == 2 then 3 else 4 + EncodedLength(n - 3)
  }

  /** The `=` that bring the text to a whole number of quads. */
  function Padding(n: nat): string {
    if n == 0 then "" else if n == 1 then "==" else if n == 2 then "=" else Padding(n - 3)
  }

  lemma {:induction false} EncodeGroupsLength(s: string)
    requires IsBinary(s)
    ensures |EncodeGroups(s)| == EncodedLength(|s|)
  {
    if |s| >= 3 {
      EncodeGroupsLength(s[3..]);
    }
  }

  lemma {:induction false} PaddedLength(n: nat)
    ensures (EncodedLength(n) + |Padding(n)|) % 4 == 0
    ensures EncodedLength(n) % 4 != 1
    ensures Padding(n) == "" ==> EncodedLength(n) % 4 == 0
    ensures Padding(n) == "=" ==> EncodedLength(n) % 4 == 3
    ensures Padding(n) == "==" ==> EncodedLength(n) % 4 == 2
  {
    if n >= 3 {
      PaddedLength(n - 3);
    }
  }

  /** `btoa(s)`: base64 text with `=` padding to a whole number of quads. */
  function Btoa(s: string): string
    requires IsBinary(s)
  {
    EncodeGroups(s) + Padding(|s|)
  }

  /** Three leading bytes are encoded as one quad in front of the rest. */
  lemma EncodeStep(s: string)
    requires IsBinary(s) && |s| >= 3
    ensures EncodeGroups(s) == Quad(s[0] as int, s[1] as int, s[2] as int) + EncodeGroups(s[3..])
  {
  }

  /** One step of the round trip: three leading bytes become a quad that decodes back in front of the rest. */
  lemma DecodeEncodeStep(s: string)
    requires IsBinary(s) && |s| >= 3
    requires ValidLength(|EncodeGroups(s[3..])|)
    requires DecodeGroups(EncodeGroups(s[3..])) == s[3..]
    ensures ValidLength(|EncodeGroups(s)|)
    ensures DecodeGroups(EncodeGroups(s)) == s
  {
    EncodeStep(s);
    DecodeQuad(s[0] as int, s[1] as int, s[2] as int, EncodeGroups(s[3..]));
    ThreeBytesInFront(s);
  }

  lemma ThreeBytesInFront(s: string)
    requires |s| >= 3
    ensures [s[0] as int as char, s[1] as int as char, s[2] as int as char] + s[3..] == s
  {
    assert s == [s[0], s[1], s[2]] + s[3..];
  }

  lemma {:induction false} DecodeEncodeGroups(s: string)
    requires IsBinary(s)
    ensures ValidLength(|EncodeGroups(s)|)
    ensures DecodeGroups(EncodeGroups(s)) == s
  {
    if |s| == 1 {
      DecodeCouple(s[0] as int);
    } else if |s| == 2 {
      DecodeTriple(s[0] as int, s[1] as int);
    } else if |s| >= 3 {
      DecodeEncodeGroups(s[3..]);
      DecodeEncodeStep(s);
    }
  }

  /** `atob` decodes any text that is, once white space and padding are removed, valid unpadded base64. */
  lemma AtobOf(t: string, e: string)
    requires StripPadding(RemoveAsciiWhiteSpace(t)) == e
    requires ValidLength(|e|) && forall k :: 0 <= k < |e| ==> IsAlphabet(e[k])
    ensures Atob(t) == Some(DecodeGroups(e))
  {
    ValidLengthMod(|e|);
  }

  /** `btoa`'s output is its unpadded text followed by one of the three paddings. */
  lemma BtoaShape(s: string)
    requires IsBinary(s)
    ensures var e, pad := EncodeGroups(s), Padding(|s|);
      (pad == "" && |e| % 4 == 0) || (pad == "=" && |e| % 4 == 3) || (pad == "==" && |e| % 4 == 2)
  {
    EncodeGroupsLength(s);
    PaddedLength(|s|);
    PaddingShape(|s|);
  }

  /** Removing white space and padding from `btoa`'s output leaves the unpadded text. */
  lemma StripBtoa(s: string)
    requires IsBinary(s)
    ensures StripPadding(RemoveAsciiWhiteSpace(Btoa(s))) == EncodeGroups(s)
  {
    var e := EncodeGroups(s);
    var pad := Padding(|s|);
    var b := e + pad;
    BtoaShape(s);
    NoWhiteSpaceKept(b);
    StripPaddingOf(e, pad);
  }

  lemma StripPaddingOf(e: string, pad: string)
    requires forall k :: 0 <= k < |e| ==> IsAlphabet(e[k])
    requires (pad == "" && |e| % 4 == 0) || (pad == "=" && |e| % 4 == 3) || (pad == "==" && |e| % 4 == 2)
    ensures StripPadding(e + pad) == e
  {
    var b := e + pad;
    assert b[..|e|] == e;
    if pad == "" {
      assert b == e;
      if |e| > 0 {
        assert !EndsWith(e, "=") by { assert e[|e| - 1] != '='; }
        assert !EndsWith(e, "==") by { assert e[|e| - 1] != '='; }
      }
    } else if pad == "==" {
      assert EndsWith(b, "==");
    } else {
      assert !EndsWith(b, "==") by { assert b[|b| - 2] == e[|e| - 1]; }
      assert EndsWith(b, "=");
    }
  }

  /** `atob` undoes `btoa`. */
  lemma AtobBtoa(s: string)
    requires IsBinary(s)
    ensures Atob(Btoa(s)) == Some(s)
  {
    StripBtoa(s);
    DecodeEncodeGroups(s);
    AtobOf(Btoa(s), EncodeGroups(s));
  }

  lemma {:induction false} PaddingShape(n: nat)
    ensures Padding(n) == "" || Padding(n) == "=" || Padding(n) == "=="
  {
    if n >= 3 {
      PaddingShape(n - 3);
    }
  }

  lemma {:induction false} NoWhiteSpaceKept(s: string)
    requires forall k :: 0 <= k < |s| ==> IsAlphabet(s[k]) || s[k] == '='
    ensures RemoveAsciiWhiteSpace(s) == s
  {
    if s != [] {
      NoWhiteSpaceKept(s[1..]);
      assert [s[0]] + s[1..] == s;
    }
  }
}

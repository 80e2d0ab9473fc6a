/**
 * Percent-encoding (section 2.1 of RFC 3986) in the two flavours the core
 * uses: ECMAScript's `encodeURIComponent` / `decodeURIComponent`
 * (section 19.2.6 of ECMA-262), whose decoder fails on a malformed escape,
 * and the WHATWG application/x-www-form-urlencoded serializer and parser
 * behind `URLSearchParams`, whose decoder never fails.
 */
module Percent {
  import opened Wrappers
  import opened Utf8
  import Text

  /** Upper-case hexadecimal digit for `d`. */
  function HexDigit(d: nat): (c: char)
    requires d < 16
    ensures IsUpperHex(c)
  {
    if d < 10 then ('0' as int + d) as char else ('A' as int + d - 10) as char
  }

  predicate IsUpperHex(c: char) {
    '0' <= c <= '9' || 'A' <= c <= 'F'
  }

  /** The value of a hexadecimal digit of either case. */
  function HexValue(c: char): (r: Option<nat>)
    ensures r.Some? ==> r.value < 16
  {
    if '0' <= c <= '9' then Some(c as int - '0' as int)
    else if 'A' <= c <= 'F' then Some(c as int - 'A' as int + 10)
    else if 'a' <= c <= 'f' then Some(c as int - 'a' as int + 10)
    else None
  }

  lemma HexValueOfDigit(d: nat)
    requires d < 16
    ensures HexValue(HexDigit(d)) == Some(d)
  {
  }

  /** `%HH` for one byte. */
  function EscapeByte(b: byte): string {
    ['%', HexDigit(b / 16), HexDigit(b % 16)]
  }

  function EscapeBytes(bs: seq<byte>): (r: string)
    ensures |r| == 3 * |bs|
    ensures forall k :: 0 <= k < |r| ==> r[k] == '%' || IsUpperHex(r[k])
  {
    if bs == [] then [] else EscapeByte(bs[0]) + EscapeBytes(bs[1..])
  }

  /** A character written as the escapes of its UTF-8 bytes. */
  function EscapeChar(c: char): (r: string)
    ensures 3 <= |r| <= 12
    ensures forall k :: 0 <= k < |r| ==> r[k] == '%' || IsUpperHex(r[k])
  {
    EscapeBytes(EncodeChar(c))
  }

  /** The byte of a well-formed `%HH` escape at the front of `s`. */
  function LeadingByte(s: string): (r: Option<byte>)
    ensures r.Some? ==> |s| >= 3 && s[0] == '%'
  {
    if |s| >= 3 && s[0] == '%' && HexValue(s[1]).Some? && HexValue(s[2]).Some? then
      Some(HexValue(s[1]).value * 16 + HexValue(s[2]).value)
    else None
  }

  /** The bytes of `count` consecutive escapes at the front of `s`. */
  function ReadEscapes(s: string, count: nat): (r: Option<seq<byte>>)
    ensures r.Some? ==> |r.value| == count && 3 * count <= |s|
  {
    if count == 0 then Some([])
    else match LeadingByte(s)
      case None => None
      case Some(b) =>
        match ReadEscapes(s[3..], count - 1)
        case None => None
        case Some(rest) => Some([b] + rest)
  }

  /**
   * The character that the run of escapes at the front of `s` stands for, and
   * the length of the run; None when the run is not the UTF-8 encoding of one
   * character.
   */
  function DecodeEscape(s: string): (r: Option<(char, nat)>)
    requires LeadingByte(s).Some?
    ensures r.Some? ==> 3 <= r.value.1 <= |s|
  {
    var n := SequenceLength(LeadingByte(s).value);
    if n == 0 then None
    else match ReadEscapes(s, n)
      case None => None
      case Some(bs) =>
        match DecodeSequence(bs)
        case None => None
        case Some(c) => Some((c, 3 * n))
  }

  /**
   * How many continuation bytes the Encoding Standard's UTF-8 decoder expects
   * after `lead`; 0 when `lead` starts no sequence (a continuation byte, an
   * overlong lead 0xC0 or 0xC1, or a lead above 0xF4).
   */
  function Needed(lead: byte): nat {
    if 0xC2 <= lead <= 0xDF then 1
    else if 0xE0 <= lead <= 0xEF then 2
    else if 0xF0 <= lead <= 0xF4 then 3
    else 0
  }

  /** The bounds that decoder puts on the byte right after `lead`. */
  function SecondLow(lead: byte): byte {
    if lead == 0xE0 then 0xA0 else if lead == 0xF0 then 0x90 else 0x80
  }

  function SecondHigh(lead: byte): byte {
    if lead == 0xED then 0x9F else if lead == 0xF4 then 0x8F else 0xBF
  }

  /**
   * How many of at most `left` escapes at the front of `s` the decoder
   * accepts as continuation bytes, the first within [low, high] and the
   * others within [0x80, 0xBF].
   */
  function Continued(s: string, left: nat, low: byte, high: byte): (n: nat)
    ensures n <= left && 3 * n <= |s|
    decreases left
  {
    if left == 0 then 0
    else match LeadingByte(s)
      case Some(b) => if low <= b <= high then 1 + Continued(s[3..], left - 1, 0x80, 0xBF) else 0
      case None => 0
  }

  /**
   * How many escapes at the front of `s` one U+FFFD replaces when they do
   * not decode: the lead byte and the longest run after it that could still
   * have continued a well-formed sequence (its maximal subpart).
   */
  function Subpart(s: string): (n: nat)
    requires LeadingByte(s).Some?
    ensures 1 <= n && 3 * n <= |s|
  {
    var lead := LeadingByte(s).value;
    1 + Continued(s[3..], Needed(lead), SecondLow(lead), SecondHigh(lead))
  }

  function Prepend(c: char, r: Option<string>): Option<string> {
    match r
    case None => None
    case Some(t) => Some([c] + t)
  }

  /**
   * `decodeURIComponent(s)`: every escape run becomes the character it encodes;
   * None (a URIError) when a `%` does not start a well-formed escape run.
   */
  function DecodeURIComponent(s: string): (r: Option<string>)
    ensures r.Some? ==> |r.value| <= |s| && (s != [] ==> r.value != [])
    decreases |s|
  {
    if s == [] then Some([])
    else if s[0] != '%' then Prepend(s[0], DecodeURIComponent(s[1..]))
    else if LeadingByte(s).None? then None
    else match DecodeEscape(s)
      case None => None
      case Some((c, len)) => Prepend(c, DecodeURIComponent(s[len..]))
  }

  /** Text without `%` before the rest decodes to itself before the rest's decoding. */
  lemma {:induction false} DecodeURIComponentPlainPrefix(p: string, t: string)
    requires '%' !in p
    ensures DecodeURIComponent(p + t)
         == if DecodeURIComponent(t).Some? then Some(p + DecodeURIComponent(t).value) else None
  {
    if p != [] {
      var s := p + t;
      assert s[0] == p[0] && s[1..] == p[1..] + t;
      assert p[0] != '%';
      assert DecodeURIComponent(s) == Prepend(p[0], DecodeURIComponent(p[1..] + t));
      DecodeURIComponentPlainPrefix(p[1..], t);
      if DecodeURIComponent(t).Some? {
        assert [p[0]] + (p[1..] + DecodeURIComponent(t).value) == p + DecodeURIComponent(t).value;
      }
    } else {
      assert p + t == t;
      if DecodeURIComponent(t).Some? {
        assert p + DecodeURIComponent(t).value == DecodeURIComponent(t).value;
      }
    }
  }

  /** `%2E` is a dot to `decodeURIComponent`. */
  lemma DecodeEscapedDot(t: string)
    ensures DecodeURIComponent("%2E" + t) == Prepend('.', DecodeURIComponent(t))
  {
    assert EscapeChar('.') == "%2E" by {
      assert EncodeChar('.') == [0x2E];
      assert EscapeBytes([0x2E]) == EscapeByte(0x2E) + EscapeBytes([]);
    }
    DecodeEscapeOf('.', t);
    assert ("%2E" + t)[3..] == t;
  }

  /** Text without `%` decodes to itself. */
  lemma DecodePlain(p: string)
    requires '%' !in p
    ensures DecodeURIComponent(p) == Some(p)
  {
    DecodeURIComponentPlainPrefix(p, []);
    assert p + [] == p;
  }

  /** A dot written as `%2E` between text without `%` decodes like a plain dot. */
  lemma DecodeEscapedDotBetween(a: string, b: string)
    requires '%' !in a && '%' !in b
    ensures DecodeURIComponent(a + "%2E" + b) == Some(a + "." + b)
    ensures DecodeURIComponent(a + "." + b) == Some(a + "." + b)
  {
    var e, tail := "%2E" + b, ['.'] + b;
    DecodePlain(b);
    DecodeEscapedDot(b);
    assert DecodeURIComponent(e) == Some(tail);
    DecodeURIComponentPlainPrefix(a, e);
    assert a + "%2E" + b == a + e;
    assert a + tail == a + "." + b;
    assert '%' !in tail;
    DecodeURIComponentPlainPrefix(a, tail);
    DecodePlain(tail);
  }

  /** The characters `encodeURIComponent` leaves as they are. */
  predicate IsUriUnreserved(c: char) {
    'A' <= c <= 'Z' || 'a' <= c <= 'z' || '0' <= c <= '9'
    || c == '-' || c == '_' || c == '.' || c == '!' || c == '~' || c == '*'
    || c == '\'' || c == '(' || c == ')'
  }

  /** `encodeURIComponent(s)` */
  function EncodeURIComponent(s: string): (r: string)
    ensures forall k :: 0 <= k < |r| ==> IsUriUnreserved(r[k]) || r[k] == '%' || IsUpperHex(r[k])
  {
    if s == [] then []
    else
      var head := if IsUriUnreserved(s[0]) then [s[0]] else EscapeChar(s[0]);
      var tail := EncodeURIComponent(s[1..]);
      assert forall k :: |head| <= k < |head + tail| ==> (head + tail)[k] == tail[k - |head|];
      head + tail
  }

  lemma {:induction false} ReadEscapesOf(bs: seq<byte>, rest: string)
    ensures ReadEscapes(EscapeBytes(bs) + rest, |bs|) == Some(bs)
  {
    if bs != [] {
      var s := EscapeBytes(bs) + rest;
      HexValueOfDigit(bs[0] / 16);
      HexValueOfDigit(bs[0] % 16);
      assert s[..3] == EscapeByte(bs[0]);
      assert LeadingByte(s) == Some(bs[0]);
      assert s[3..] == EscapeBytes(bs[1..]) + rest;
      ReadEscapesOf(bs[1..], rest);
      assert [bs[0]] + bs[1..] == bs;
    }
  }

  /** The escapes of a character, followed by anything, decode to that character. */
  lemma DecodeEscapeOf(c: char, rest: string)
    ensures LeadingByte(EscapeChar(c) + rest).Some?
    ensures DecodeEscape(EscapeChar(c) + rest) == Some((c, |EscapeChar(c)|))
  {
    var bs := EncodeChar(c);
    var s := EscapeChar(c) + rest;
    ReadEscapesOf(bs, rest);
    HexValueOfDigit(bs[0] / 16);
    HexValueOfDigit(bs[0] % 16);
    assert s[..3] == EscapeByte(bs[0]);
    assert LeadingByte(s) == Some(bs[0]);
    DecodeEncode(c);
  }

  /** `decodeURIComponent` undoes `encodeURIComponent`. */
  lemma {:induction false} DecodeEncodeURIComponent(s: string)
    ensures DecodeURIComponent(EncodeURIComponent(s)) == Some(s)
  {
    if s != [] {
      var e := EncodeURIComponent(s);
      var tail := EncodeURIComponent(s[1..]);
      DecodeEncodeURIComponent(s[1..]);
      if IsUriUnreserved(s[0]) {
        assert e == [s[0]] + tail;
        assert e[1..] == tail;
      } else {
        var esc := EscapeChar(s[0]);
        assert e == esc + tail;
        DecodeEscapeOf(s[0], tail);
        assert e[|esc|..] == tail;
        assert DecodeURIComponent(e) == Prepend(s[0], DecodeURIComponent(tail));
      }
      assert [s[0]] + s[1..] == s;
    }
  }

  // The WHATWG application/x-www-form-urlencoded format.

  /** The characters the form serializer leaves as they are. */
  predicate IsFormSafe(c: char) {
    'A' <= c <= 'Z' || 'a' <= c <= 'z' || '0' <= c <= '9'
    || c == '*' || c == '-' || c == '.' || c == '_'
  }

  /** Form serialization of one name or value: space as `+`, the rest escaped. */
  function FormEncode(s: string): (r: string)
    ensures forall k :: 0 <= k < |r| ==> IsFormSafe(r[k]) || r[k] == '+' || r[k] == '%' || IsUpperHex(r[k])
  {
    if s == [] then []
    else
      var head := if s[0] == ' ' then "+" else if IsFormSafe(s[0]) then [s[0]] else EscapeChar(s[0]);
      var tail := FormEncode(s[1..]);
      assert forall k :: |head| <= k < |head + tail| ==> (head + tail)[k] == tail[k - |head|];
      head + tail
  }

  /**
   * Form decoding of one name or value: `+` is a space, an escape run that
   * encodes a character is that character, and an escape run that does not
   * becomes one U+FFFD per maximal subpart; it never fails, and never
   * yields more characters than it reads.
   */
  function FormDecode(s: string): (r: string)
    ensures |r| <= |s|
    decreases |s|
  {
    if s == [] then []
    else if s[0] == '+' then [' '] + FormDecode(s[1..])
    else if LeadingByte(s).Some? then
      match DecodeEscape(s)
      case Some((c, len)) => [c] + FormDecode(s[len..])
      case None => ['\U{FFFD}'] + FormDecode(s[3 * Subpart(s)..])
    else [s[0]] + FormDecode(s[1..])
  }

  /** The escape of a byte, followed by anything, reads as that byte. */
  lemma LeadingEscape(b: byte, rest: string)
    ensures LeadingByte(EscapeByte(b) + rest) == Some(b)
  {
    HexValueOfDigit(b / 16);
    HexValueOfDigit(b % 16);
  }

  /** `%28` is `(`. */
  lemma OpenParenthesis()
    ensures FormDecode("%28") == "("
  {
    var t := "%28";
    assert t == EscapeByte(0x28) + [];
    LeadingEscape(0x28, []);
    ReadEscapesOf([0x28], []);
    assert EscapeBytes([0x28]) + [] == t;
    assert DecodeEscape(t) == Some(('(', 3));
  }

  /** `%E2%82` followed by `%28` does not decode and is one maximal subpart. */
  lemma BadThirdByte()
    ensures LeadingByte("%E2%82%28").Some?
    ensures DecodeEscape("%E2%82%28").None?
    ensures Subpart("%E2%82%28") == 2
  {
    var s := "%E2%82%28";
    assert s == EscapeByte(0xE2) + (EscapeByte(0x82) + EscapeByte(0x28));
    LeadingEscape(0xE2, EscapeByte(0x82) + EscapeByte(0x28));
    LeadingEscape(0x82, EscapeByte(0x28));
    LeadingEscape(0x28, []);
    assert s[3..] == EscapeByte(0x82) + EscapeByte(0x28);
    assert s[6..] == EscapeByte(0x28) + [];
    ReadEscapesOf([0xE2, 0x82, 0x28], []);
    assert EscapeBytes([0xE2, 0x82, 0x28]) + [] == s by {
      assert EscapeBytes([0x28]) == EscapeByte(0x28);
      assert EscapeBytes([0x82, 0x28]) == EscapeByte(0x82) + EscapeByte(0x28);
    }
  }

  /** A bad third byte: `%E2%82` is one maximal subpart, `%28` is `(`. */
  lemma MaximalSubpartBadByte()
    ensures FormDecode("%E2%82%28") == "\U{FFFD}("
  {
    var s := "%E2%82%28";
    BadThirdByte();
    OpenParenthesis();
    assert s[6..] == "%28";
  }

  /** A sequence cut short by the end of the input is one maximal subpart. */
  lemma MaximalSubpartTruncated()
    ensures FormDecode("%F0%9F%98") == "\U{FFFD}"
  {
    var s := "%F0%9F%98";
    assert s == EscapeByte(0xF0) + (EscapeByte(0x9F) + EscapeByte(0x98));
    LeadingEscape(0xF0, EscapeByte(0x9F) + EscapeByte(0x98));
    LeadingEscape(0x9F, EscapeByte(0x98));
    LeadingEscape(0x98, []);
    assert s[3..] == EscapeByte(0x9F) + EscapeByte(0x98);
    assert s[6..] == EscapeByte(0x98) + [];
    assert ReadEscapes(s[9..], 1).None?;
    assert ReadEscapes(s, 4).None?;
    assert DecodeEscape(s).None?;
    assert Subpart(s) == 3;
  }

  /** A character that escapes with its own value: no `+` and no `%` to misread. */
  lemma {:induction false} FormDecodeEscaped(c: char, rest: string)
    ensures FormDecode(EscapeChar(c) + rest) == [c] + FormDecode(rest)
  {
    var s := EscapeChar(c) + rest;
    DecodeEscapeOf(c, rest);
    assert s[0] == '%';
    assert s[|EscapeChar(c)|..] == rest;
  }

  /** Form decoding undoes form encoding. */
  lemma {:induction false} FormDecodeEncode(s: string)
    ensures FormDecode(FormEncode(s)) == s
  {
    if s != [] {
      var tail := FormEncode(s[1..]);
      FormDecodeEncode(s[1..]);
      if s[0] == ' ' {
        assert FormEncode(s) == "+" + tail;
        assert ("+" + tail)[1..] == tail;
      } else if IsFormSafe(s[0]) {
        assert FormEncode(s) == [s[0]] + tail;
        assert ([s[0]] + tail)[1..] == tail;
      } else {
        assert FormEncode(s) == EscapeChar(s[0]) + tail;
        FormDecodeEscaped(s[0], tail);
      }
    }
  }

  /** Text made only of characters the serializer keeps decodes to itself. */
  lemma {:induction false} FormDecodePlain(s: string)
    requires forall k :: 0 <= k < |s| ==> IsFormSafe(s[k])
    ensures FormDecode(s) == s
  {
    if s != [] {
      assert LeadingByte(s).None?;
      FormDecodePlain(s[1..]);
      assert [s[0]] + s[1..] == s;
    }
  }

  /** Form decoding also undoes `encodeURIComponent`, which never writes `+`. */
  lemma {:induction false} FormDecodeURIComponent(s: string)
    ensures FormDecode(EncodeURIComponent(s)) == s
  {
    if s != [] {
      var tail := EncodeURIComponent(s[1..]);
      FormDecodeURIComponent(s[1..]);
      if IsUriUnreserved(s[0]) {
        assert EncodeURIComponent(s) == [s[0]] + tail;
        assert ([s[0]] + tail)[1..] == tail;
      } else {
        assert EncodeURIComponent(s) == EscapeChar(s[0]) + tail;
        FormDecodeEscaped(s[0], tail);
      }
    }
  }

  /** A parsed query: name/value pairs in order. */
  type Pair = (string, string)

  /** One `&`-separated piece: the name before the first `=`, the value after it. */
  function ParsePair(piece: string): Pair {
    if '=' in piece then
      var i := Text.FirstIndex(piece, '=');
      (FormDecode(piece[..i]), FormDecode(piece[i + 1..]))
    else (FormDecode(piece), "")
  }

  function ParsePieces(pieces: seq<string>): seq<Pair> {
    if pieces == [] then []
    else if pieces[0] == "" then ParsePieces(pieces[1..])
    else [ParsePair(pieces[0])] + ParsePieces(pieces[1..])
  }

  /** `new URLSearchParams(query)` for a query without its leading `?`: empty pieces are skipped. */
  function ParseQuery(query: string): seq<Pair> {
    ParsePieces(Text.Split(query, '&'))
  }

  /**
   * The parser reads a query one `&`-separated piece at a time: an empty
   * piece adds no pair, any other adds the pair it parses to.
   */
  lemma ParseQueryCons(piece: string, rest: string)
    requires '&' !in piece
    ensures ParseQuery(piece + "&" + rest)
         == (if piece == "" then [] else [ParsePair(piece)]) + ParseQuery(rest)
  {
    Text.SplitCons(piece, '&', rest);
    var pieces := Text.Split(piece + "&" + rest, '&');
    assert pieces[1..] == Text.Split(rest, '&');
  }

  /** `params.get(name)`: the value of the first pair with that name. */
  function Get(pairs: seq<Pair>, name: string): (r: Option<string>)
    ensures r.Some? <==> exists k :: 0 <= k < |pairs| && pairs[k].0 == name
  {
    if pairs == [] then None
    else if pairs[0].0 == name then Some(pairs[0].1)
    else
      var r := Get(pairs[1..], name);
      assert forall k :: 1 <= k < |pairs| ==> pairs[k] == pairs[1..][k - 1];
      r
  }

  /** `get` answers the value of the first pair with the name. */
  lemma {:induction false} GetFirst(pairs: seq<Pair>, k: nat)
    requires k < |pairs|
    requires forall j :: 0 <= j < k ==> pairs[j].0 != pairs[k].0
    ensures Get(pairs, pairs[k].0) == Some(pairs[k].1)
    decreases |pairs|
  {
    if k > 0 {
      var tail := pairs[1..];
      assert forall j :: 0 <= j < k - 1 ==> tail[j] == pairs[j + 1];
      GetFirst(tail, k - 1);
    }
  }

  /** `Object.fromEntries(params.entries())`: a later pair overwrites an earlier one. */
  function ToMap(pairs: seq<Pair>): (m: map<string, string>)
    ensures forall name :: name in m <==> exists k :: 0 <= k < |pairs| && pairs[k].0 == name
  {
    if pairs == [] then map[]
    else
      var m := ToMap(pairs[..|pairs| - 1]);
      var p := pairs[|pairs| - 1];
      assert forall k :: 0 <= k < |pairs| - 1 ==> pairs[k] == pairs[..|pairs| - 1][k];
      m[p.0 := p.1]
  }

  /** The value kept for a name is that of its last pair. */
  lemma {:induction false} ToMapLast(pairs: seq<Pair>, k: nat)
    requires k < |pairs|
    requires forall j :: k < j < |pairs| ==> pairs[j].0 != pairs[k].0
    ensures pairs[k].0 in ToMap(pairs) && ToMap(pairs)[pairs[k].0] == pairs[k].1
    decreases |pairs|
  {
    if k < |pairs| - 1 {
      var init := pairs[..|pairs| - 1];
      assert forall j :: k < j < |init| ==> init[j] == pairs[j];
      ToMapLast(init, k);
    }
  }

  function SerializePiece(p: Pair): string {
    FormEncode(p.0) + "=" + FormEncode(p.1)
  }

  function SerializePieces(pairs: seq<Pair>): (pieces: seq<string>)
    ensures |pieces| == |pairs|
    ensures forall k :: 0 <= k < |pairs| ==> pieces[k] == SerializePiece(pairs[k])
  {
    if pairs == [] then [] else [SerializePiece(pairs[0])] + SerializePieces(pairs[1..])
  }

  /** `params.toString()` */
  function SerializeQuery(pairs: seq<Pair>): string {
    Text.Join(SerializePieces(pairs), "&")
  }

  /** Form-encoded text holds neither `&` nor `=`. */
  lemma FormEncodedPlain(s: string)
    ensures '&' !in FormEncode(s) && '=' !in FormEncode(s) && '#' !in FormEncode(s)
  {
    var e := FormEncode(s);
    forall k | 0 <= k < |e| ensures e[k] != '&' && e[k] != '=' && e[k] != '#' {
      assert IsFormSafe(e[k]) || e[k] == '+' || e[k] == '%' || IsUpperHex(e[k]);
    }
  }

  lemma ParseSerializedPiece(p: Pair)
    ensures '&' !in SerializePiece(p) && SerializePiece(p) != ""
    ensures ParsePair(SerializePiece(p)) == p
  {
    var n, v := FormEncode(p.0), FormEncode(p.1);
    var piece := SerializePiece(p);
    FormEncodedPlain(p.0);
    FormEncodedPlain(p.1);
    assert piece == n + ['='] + v;
    assert '&' !in piece by {
      forall k | 0 <= k < |piece| ensures piece[k] != '&' {
        if k < |n| {
          assert piece[k] == n[k];
        } else if k > |n| {
          assert piece[k] == v[k - |n| - 1];
        }
      }
    }
    Text.FirstIndexOfConcat(n, '=', v);
    assert piece[..|n|] == n;
    assert piece[|n| + 1..] == v;
    FormDecodeEncode(p.0);
    FormDecodeEncode(p.1);
  }

  lemma {:induction false} ParsePiecesOfSerialized(pairs: seq<Pair>)
    ensures ParsePieces(SerializePieces(pairs)) == pairs
  {
    if pairs != [] {
      ParseSerializedPiece(pairs[0]);
      ParsePiecesOfSerialized(pairs[1..]);
      assert SerializePieces(pairs)[1..] == SerializePieces(pairs[1..]);
    }
  }

  /** Parsing a serialized list of pairs gives the same pairs back, in order. */
  lemma ParseSerializeQuery(pairs: seq<Pair>)
    ensures ParseQuery(SerializeQuery(pairs)) == pairs
  {
    var pieces := SerializePieces(pairs);
    if pairs == [] {
      assert SerializeQuery(pairs) == "";
      assert Text.Split("", '&') == [""];
    } else {
      forall k | 0 <= k < |pieces| ensures '&' !in pieces[k] {
        ParseSerializedPiece(pairs[k]);
      }
      Text.SplitJoin(pieces, '&');
      ParsePiecesOfSerialized(pairs);
    }
  }

  /** A serialized query holds no `#`, so a fragment can follow it. */
  lemma SerializedQueryPlain(pairs: seq<Pair>)
    ensures '#' !in SerializeQuery(pairs)
  {
    var pieces := SerializePieces(pairs);
    forall k | 0 <= k < |pieces| ensures '#' !in pieces[k] {
      FormEncodedPlain(pairs[k].0);
      FormEncodedPlain(pairs[k].1);
    }
    Text.JoinWithout(pieces, "&", '#');
  }
}

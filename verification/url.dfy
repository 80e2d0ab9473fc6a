/**
 * The part of the WHATWG URL Standard's basic URL parser that the redirect
 * page and the link endpoint observe: `new URL(s)` without a base, giving the
 * scheme, the user info, the host, the port, the path, the query and the
 * fragment, or failure (the thrown `TypeError`).
 */
module Urls {
  import opened Wrappers
  import opened Text
  import Percent

  datatype Url = Url(
    scheme: string,
    username: string,
    password: string,
    hostname: string,
    port: Option<nat>,
    path: string,
    query: Option<string>,
    fragment: Option<string>)

  /** What the user-info and host part between `//` and the path holds. */
  datatype Authority = Authority(username: string, password: string, hostname: string, port: Option<nat>)

  /** `url.protocol` */
  function Protocol(u: Url): string {
    u.scheme + ":"
  }

  /** `url.host`: the host name, followed by `:` and the port when the port is not the scheme's default. */
  function Host(u: Url): (h: string)
    ensures u.port.None? ==> h == u.hostname
    ensures StartsWith(h, u.hostname)
  {
    match u.port
    case None => u.hostname
    case Some(p) => u.hostname + ":" + NatToString(p)
  }

  /** `url.search`: empty for a missing or empty query, otherwise `?` and the query. */
  function Search(u: Url): string {
    match u.query
    case None => ""
    case Some(q) => if q == "" then "" else "?" + q
  }

  /** `url.searchParams`, which is also `new URLSearchParams(url.search)`. */
  function SearchParams(u: Url): seq<Percent.Pair> {
    Percent.ParseQuery(u.query.GetOr(""))
  }

  predicate IsAsciiAlpha(c: char) {
    'a' <= c <= 'z' || 'A' <= c <= 'Z'
  }

  predicate IsAsciiDigit(c: char) {
    '0' <= c <= '9'
  }

  /** A scheme: an ASCII letter, then letters, digits, `+`, `-` and `.`. */
  predicate ValidScheme(s: string) {
    |s| >= 1 && IsAsciiAlpha(s[0])
    && forall k :: 0 <= k < |s| ==> IsAsciiAlpha(s[k]) || IsAsciiDigit(s[k]) || s[k] in "+-."
  }

  predicate IsSpecial(scheme: string) {
    scheme in ["http", "https", "ws", "wss", "ftp", "file"]
  }

  function DefaultPort(scheme: string): Option<nat> {
    if scheme == "http" || scheme == "ws" then Some(80)
    else if scheme == "https" || scheme == "wss" then Some(443)
    else if scheme == "ftp" then Some(21)
    else None
  }

  /** The code points no host may contain. */
  predicate IsForbiddenHostChar(c: char) {
    c as int == 0 || c == '\t' || c == '\n' || c == '\r' || c in " #/:<>?@[\\]^|"
  }

  /** The code points no domain may contain: those of any host, C0 controls, `%` and DELETE. */
  predicate IsForbiddenDomainChar(c: char) {
    IsForbiddenHostChar(c) || c as int <= 0x1F || c == '%' || c as int == 0x7F
  }

  /** The text before the first `c`, or all of `s`. */
  function Before(s: string, c: char): (r: string)
    ensures |r| <= |s| && r == s[..|r|] && c !in r
    ensures c in s ==> |r| < |s| && s[|r|] == c
    ensures c !in s ==> r == s
  {
    if c in s then s[..FirstIndex(s, c)] else s
  }

  /** The text after the first `c`, if there is one. */
  function After(s: string, c: char): (r: Option<string>)
    ensures r.Some? <==> c in s
    ensures r.Some? ==> s == Before(s, c) + [c] + r.value
  {
    if c in s then
      var i := FirstIndex(s, c);
      assert s == s[..i] + [c] + s[i + 1..];
      Some(s[i + 1..])
    else None
  }

  /** Index of the last `c` in `s`. */
  function LastIndex(s: string, c: char): (i: nat)
    requires c in s
    ensures i < |s| && s[i] == c && c !in s[i + 1..]
  {
    if s[|s| - 1] == c then |s| - 1
    else
      var i := LastIndex(s[..|s| - 1], c);
      assert s[i + 1..] == s[..|s| - 1][i + 1..] + [s[|s| - 1]];
      i
  }

  /** The special-authority-ignore-slashes state: leading `/` are skipped. */
  function DropSlashes(s: string): (r: string)
    ensures r == [] || r[0] != '/'
    ensures |r| <= |s| && r == s[|s| - |r|..]
  {
    if s != [] && s[0] == '/' then DropSlashes(s[1..]) else s
  }

  function DigitValue(c: char): nat
    requires IsAsciiDigit(c)
  {
    c as int - '0' as int
  }

  /** The value of a string of decimal digits. */
  function DigitsValue(t: string): nat
    requires forall k :: 0 <= k < |t| ==> IsAsciiDigit(t[k])
  {
    if t == [] then 0 else DigitsValue(t[..|t| - 1]) * 10 + DigitValue(t[|t| - 1])
  }

  /**
   * The port state: nothing for an empty port, failure for a non-digit or a
   * value above 65535, nothing for the scheme's default port.
   */
  function ParsePort(scheme: string, t: string): (r: Option<Option<nat>>)
    ensures r.Some? && r.value.Some? ==> r.value.value <= 65535 && Some(r.value.value) != DefaultPort(scheme)
  {
    if t == "" then Some(None)
    else if exists k :: 0 <= k < |t| && !IsAsciiDigit(t[k]) then None
    else
      var v := DigitsValue(t);
      if v > 65535 then None
      else if Some(v) == DefaultPort(scheme) then Some(None)
      else Some(Some(v))
  }

  /**
   * The host parser on the host of a special URL: percent-decoded (an
   * escape run that is not UTF-8 fails, as its U+FFFD would fail the
   * domain-to-ASCII step), then refused when it holds a forbidden domain
   * code point, then lower-cased.
   */
  function ParseDomain(host: string): (r: Option<string>)
    ensures r.Some? ==> Percent.DecodeURIComponent(host).Some? && r.value == AsciiLower(Percent.DecodeURIComponent(host).value)
    ensures r.Some? ==> forall k :: 0 <= k < |r.value| ==> !IsForbiddenDomainChar(r.value[k])
  {
    match Percent.DecodeURIComponent(host)
    case None => None
    case Some(domain) =>
      if exists k :: 0 <= k < |domain| && IsForbiddenDomainChar(domain[k]) then None
      else
        ForbiddenUnderLower(domain);
        Some(AsciiLower(domain))
  }

  /** Lower-casing maps no allowed domain code point to a forbidden one. */
  lemma ForbiddenUnderLower(d: string)
    requires forall k :: 0 <= k < |d| ==> !IsForbiddenDomainChar(d[k])
    ensures forall k :: 0 <= k < |AsciiLower(d)| ==> !IsForbiddenDomainChar(AsciiLower(d)[k])
  {
    forall k | 0 <= k < |AsciiLower(d)| ensures !IsForbiddenDomainChar(AsciiLower(d)[k]) {
      assert AsciiLower(d)[k] == LowerChar(d[k]);
    }
  }

  /**
   * The authority and host states: user info ends at the last `@`, the
   * password starts after the first `:` in it, the port after the first `:`
   * in the host. A special scheme (except `file`) needs a host, and its host
   * is a domain (`ParseDomain`); another scheme keeps its opaque host as written.
   */
  function ParseAuthority(scheme: string, a: string): (r: Option<Authority>)
    ensures r.Some? && '@' !in a ==> r.value.username == "" && r.value.password == ""
    ensures r.Some? && IsSpecial(scheme) && scheme != "file" ==> r.value.hostname != ""
  {
    var atSeen := '@' in a;
    var userinfo := if atSeen then a[..LastIndex(a, '@')] else "";
    var hostport := if atSeen then a[LastIndex(a, '@') + 1..] else a;
    var host := Before(hostport, ':');
    var portText := After(hostport, ':');
    if atSeen && hostport == "" then None
    else if host == "" && (portText.Some? || (IsSpecial(scheme) && scheme != "file")) then None
    else if !IsSpecial(scheme) && exists k :: 0 <= k < |host| && IsForbiddenHostChar(host[k]) then None
    else
      var hostname := if IsSpecial(scheme) then ParseDomain(host) else Some(host);
      match (hostname, ParsePort(scheme, portText.GetOr("")))
      case (Some(h), Some(port)) => Some(Authority(Before(userinfo, ':'), After(userinfo, ':').GetOr(""), h, port))
      case _ => None
  }

  /** A single-dot path segment: `.` or `%2e` in either case. */
  predicate IsSingleDot(seg: string) {
    seg == "." || AsciiLower(seg) == "%2e"
  }

  /** A double-dot path segment: two dots, each written as `.` or as `%2e` in either case. */
  predicate IsDoubleDot(seg: string) {
    AsciiLower(seg) in ["..", ".%2e", "%2e.", "%2e%2e"]
  }

  /**
   * The path state over the segments after the first `/`: a single-dot
   * segment is dropped, a double-dot one removes the previous segment, and
   * either one at the end leaves an empty final segment (a trailing `/`).
   */
  function ResolveSegments(segs: seq<string>, acc: seq<string>): seq<string>
    decreases |segs|
  {
    if segs == [] then acc
    else
      var last := if |segs| == 1 then [""] else [];
      if IsDoubleDot(segs[0]) then
        ResolveSegments(segs[1..], (if |acc| > 0 then acc[..|acc| - 1] else acc) + last)
      else if IsSingleDot(segs[0]) then ResolveSegments(segs[1..], acc + last)
      else ResolveSegments(segs[1..], acc + [segs[0]])
  }

  /** `/` before each segment. */
  function SerializePath(segs: seq<string>): string {
    if segs == [] then "" else "/" + segs[0] + SerializePath(segs[1..])
  }

  /** The path of a URL with an authority, from the text after the host: `/` when there is none. */
  function ResolvePath(p: string, special: bool): string {
    if p == "" then (if special then "/" else "")
    else SerializePath(ResolveSegments(Split(p[1..], '/'), []))
  }

  /** The URL after the scheme, its `:`, and with query and fragment already cut off. */
  function ParseHierarchy(scheme: string, body: string, query: Option<string>, fragment: Option<string>): (r: Option<Url>)
    ensures r.Some? ==> r.value.scheme == scheme && r.value.query == query
    ensures r.Some? && IsSpecial(scheme) && scheme != "file" ==> r.value.hostname != ""
  {
    if IsSpecial(scheme) then
      var b := DropSlashes(ReplaceChar(body, '\\', '/'));
      var authority := Before(b, '/');
      match ParseAuthority(scheme, authority)
      case None => None
      case Some(a) =>
        Some(Url(scheme, a.username, a.password, a.hostname, a.port,
                 ResolvePath(b[|authority|..], true), query, fragment))
    else if StartsWith(body, "//") then
      var b := body[2..];
      var authority := Before(b, '/');
      match ParseAuthority(scheme, authority)
      case None => None
      case Some(a) =>
        Some(Url(scheme, a.username, a.password, a.hostname, a.port,
                 ResolvePath(b[|authority|..], false), query, fragment))
    else Some(Url(scheme, "", "", "", None, body, query, fragment))
  }

  /** The URL after its scheme and `:`: the fragment starts at the first `#`, the query at the first `?` before it. */
  function ParseAfterScheme(scheme: string, rest: string): (r: Option<Url>)
    ensures r.Some? ==> r.value.scheme == scheme
    ensures r.Some? && IsSpecial(scheme) && scheme != "file" ==> r.value.hostname != ""
  {
    var beforeFragment := Before(rest, '#');
    ParseHierarchy(scheme, Before(beforeFragment, '?'), After(beforeFragment, '?'), After(rest, '#'))
  }

  /**
   * `new URL(s)`: None when `s` has no valid scheme followed by `:`, or when
   * its authority is malformed.
   */
  function Parse(s: string): (r: Option<Url>)
    ensures r.Some? ==> IsLower(r.value.scheme)
    ensures r.Some? && IsSpecial(r.value.scheme) && r.value.scheme != "file" ==> r.value.hostname != ""
  {
    if ':' !in s then None
    else
      var i := FirstIndex(s, ':');
      if !ValidScheme(s[..i]) then None
      else
        LowerIsLower(s[..i]);
        ParseAfterScheme(AsciiLower(s[..i]), s[i + 1..])
  }

  // ---------------------------------------------------------------------
  // Parsing a URL whose beginning is known.
  // ---------------------------------------------------------------------

  lemma FirstIndexShift(p: string, q: string, c: char)
    requires c !in p && c in q
    ensures c in p + q && FirstIndex(p + q, c) == |p| + FirstIndex(q, c)
  {
    var s := p + q;
    var j := FirstIndex(q, c);
    assert s[|p| + j] == c;
    assert s[..|p| + j] == p + q[..j];
  }

  /** A prefix without `c` passes through `Before` and `After`. */
  lemma BeforeAfterConcat(p: string, q: string, c: char)
    requires c !in p
    ensures Before(p + q, c) == p + Before(q, c)
    ensures After(p + q, c) == After(q, c)
  {
    if c in q {
      FirstIndexShift(p, q, c);
      var j := FirstIndex(q, c);
      assert (p + q)[..|p| + j] == p + q[..j];
      assert (p + q)[|p| + j + 1..] == q[j + 1..];
    } else {
      assert c !in p + q;
    }
  }

  lemma ReplaceCharConcat(p: string, q: string, a: char, b: char)
    requires a !in p
    ensures ReplaceChar(p + q, a, b) == p + ReplaceChar(q, a, b)
  {
    var l, r := ReplaceChar(p + q, a, b), p + ReplaceChar(q, a, b);
    forall k | 0 <= k < |l| ensures l[k] == r[k] {
      if k < |p| {
        assert (p + q)[k] == p[k];
      } else {
        assert (p + q)[k] == q[k - |p|];
      }
    }
  }

  /** A plain lower-case domain: letters, digits, `-` and `.`, not empty. */
  predicate PlainDomain(h: string) {
    |h| >= 1 && forall k :: 0 <= k < |h| ==> 'a' <= h[k] <= 'z' || IsAsciiDigit(h[k]) || h[k] == '-' || h[k] == '.'
  }

  /** A plain domain is taken as the host of a special URL, with no user info and no port. */
  lemma PlainAuthority(scheme: string, h: string)
    requires IsSpecial(scheme) && PlainDomain(h)
    ensures ParseAuthority(scheme, h) == Some(Authority("", "", h, None))
  {
    assert '@' !in h && ':' !in h by {
      forall k | 0 <= k < |h| ensures h[k] != '@' && h[k] != ':' {
      }
    }
    PlainParseDomain(h);
    assert Before(h, ':') == h && After(h, ':') == None;
    assert ParsePort(scheme, "") == Some(None);
  }

  lemma PlainDomainNoPercent(h: string)
    requires PlainDomain(h)
    ensures '%' !in h
  {
    forall k | 0 <= k < |h| ensures h[k] != '%' {
    }
  }

  /** A plain domain is its own parsed domain. */
  lemma PlainParseDomain(h: string)
    requires PlainDomain(h)
    ensures ParseDomain(h) == Some(h)
  {
    PlainDomainNoPercent(h);
    Percent.DecodePlain(h);
    assert !exists k :: 0 <= k < |h| && IsForbiddenDomainChar(h[k]) by {
      forall k | 0 <= k < |h| ensures !IsForbiddenDomainChar(h[k]) {
      }
    }
    assert IsLower(h) by {
      forall k | 0 <= k < |h| ensures !('A' <= h[k] <= 'Z') {
      }
    }
    LowerOfLower(h);
  }

  lemma PlainDomainDot(a: string, b: string)
    requires PlainDomain(a) && PlainDomain(b)
    ensures PlainDomain(a + "." + b)
  {
    var d := a + "." + b;
    forall k | 0 <= k < |d| ensures 'a' <= d[k] <= 'z' || IsAsciiDigit(d[k]) || d[k] == '-' || d[k] == '.' {
      if k < |a| {
        assert d[k] == a[k];
      } else if k > |a| {
        assert d[k] == b[k - |a| - 1];
      }
    }
  }

  /** A dot written as `%2E` in a domain is decoded before the domain is checked. */
  lemma EscapedDotDomain(a: string, b: string)
    requires PlainDomain(a) && PlainDomain(b)
    ensures ParseDomain(a + "%2E" + b) == Some(a + "." + b)
  {
    PlainDomainNoPercent(a);
    PlainDomainNoPercent(b);
    var x, d := a + "%2E" + b, a + "." + b;
    Percent.DecodeEscapedDotBetween(a, b);
    PlainDomainDot(a, b);
    PlainParseDomain(d);
    assert ParseDomain(x) == ParseDomain(d);
  }

  /** Escaped dots in a path segment, in either case, resolve like the plain ones. */
  lemma EscapedDotSegments(rest: seq<string>, acc: seq<string>)
    ensures ResolveSegments(["%2E"] + rest, acc) == ResolveSegments(["."] + rest, acc)
    ensures ResolveSegments(["%2e%2E"] + rest, acc) == ResolveSegments([".."] + rest, acc)
    ensures ResolveSegments([".%2e"] + rest, acc) == ResolveSegments([".."] + rest, acc)
  {
    assert AsciiLower("%2E") == "%2e";
    assert AsciiLower("..") == "..";
    assert AsciiLower("%2e%2E") == "%2e%2e";
    assert AsciiLower(".%2e") == ".%2e";
    assert (["%2E"] + rest)[1..] == rest == (["."] + rest)[1..];
    assert (["%2e%2E"] + rest)[1..] == rest == ([".."] + rest)[1..];
    assert ([".%2e"] + rest)[1..] == rest;
  }

  /** A lower-case valid scheme written before `:` is the scheme `Parse` uses. */
  lemma ParseOfScheme(scheme: string, rest: string)
    requires ValidScheme(scheme) && IsLower(scheme)
    ensures Parse(scheme + ":" + rest) == ParseAfterScheme(scheme, rest)
  {
    var s := scheme + ":" + rest;
    assert ':' !in scheme by {
      forall k | 0 <= k < |scheme| ensures scheme[k] != ':' {
      }
    }
    assert s == scheme + [':'] + rest;
    FirstIndexOfConcat(scheme, ':', rest);
    assert s[..|scheme|] == scheme;
    assert s[|scheme| + 1..] == rest;
    LowerOfLower(scheme);
  }

  /** Text before the first `#` and `?` is the start of the body `ParseHierarchy` sees. */
  lemma ParseAfterSchemePrefix(scheme: string, p: string, tail: string)
    requires '#' !in p && '?' !in p
    ensures var z := Before(Before(tail, '#'), '?');
      ParseAfterScheme(scheme, p + tail) == ParseHierarchy(scheme, p + z, After(Before(tail, '#'), '?'), After(tail, '#'))
  {
    BeforeAfterConcat(p, tail, '#');
    BeforeAfterConcat(p, Before(tail, '#'), '?');
  }

  lemma DropTwoSlashes(t: string)
    requires t == [] || t[0] != '/'
    ensures DropSlashes("//" + t) == t
  {
    assert ("//" + t)[1..] == "/" + t;
    assert ("/" + t)[1..] == t;
    assert DropSlashes(t) == t;
    assert DropSlashes("/" + t) == t;
  }

  lemma PlainDomainChars(h: string)
    requires PlainDomain(h)
    ensures '\\' !in "//" + h + "/" && '/' !in h
  {
    forall k | 0 <= k < |h| ensures h[k] != '\\' && h[k] != '/' {
    }
  }

  lemma ReplaceAfterPlainDomain(h: string, z: string)
    requires PlainDomain(h)
    ensures ReplaceChar("//" + h + "/" + z, '\\', '/') == "//" + h + "/" + ReplaceChar(z, '\\', '/')
  {
    PlainDomainChars(h);
    ReplaceCharConcat("//" + h + "/", z, '\\', '/');
  }

  lemma Regroup(a: string, b: string, c: string, d: string)
    ensures a + b + c + d == a + (b + (c + d))
  {
  }

  /** The slashes before a plain domain are skipped, and the authority ends at the `/` after it. */
  lemma SlashesBeforeDomain(h: string, z: string)
    requires PlainDomain(h)
    ensures var b := DropSlashes(ReplaceChar("//" + h + "/" + z, '\\', '/'));
      Before(b, '/') == h && b[|h|..] == "/" + ReplaceChar(z, '\\', '/')
  {
    var rest := "/" + ReplaceChar(z, '\\', '/');
    ReplaceAfterPlainDomain(h, z);
    Regroup("//", h, "/", ReplaceChar(z, '\\', '/'));
    DropTwoSlashes(h + rest);
    PlainDomainChars(h);
    BeforeAfterConcat(h, rest, '/');
    assert Before(rest, '/') == [];
  }

  lemma HttpsHierarchy(h: string, z: string, query: Option<string>, fragment: Option<string>)
    requires PlainDomain(h)
    ensures ParseHierarchy("https", "//" + h + "/" + z, query, fragment).Some?
    ensures var u := ParseHierarchy("https", "//" + h + "/" + z, query, fragment).value;
      u.username == "" && u.password == "" && u.hostname == h && u.port == None
  {
    SlashesBeforeDomain(h, z);
    PlainAuthority("https", h);
  }

  /**
   * `https://` followed by a plain domain and `/` parses whatever follows:
   * the host is that domain, there is no user info and no port.
   */
  lemma ParseHttpsPlain(h: string, tail: string)
    requires PlainDomain(h)
    ensures Parse("https://" + h + "/" + tail).Some?
    ensures var u := Parse("https://" + h + "/" + tail).value;
      u.scheme == "https" && u.username == "" && u.password == "" && u.hostname == h && u.port == None
      && u.query == After(Before(tail, '#'), '?')
  {
    var p := "//" + h + "/";
    assert '#' !in p && '?' !in p by {
      forall k | 0 <= k < |p| ensures p[k] != '#' && p[k] != '?' {
        if 2 <= k < 2 + |h| {
          assert p[k] == h[k - 2];
        }
      }
    }
    assert "https://" + h + "/" + tail == "https" + ":" + (p + tail);
    ParseOfScheme("https", p + tail);
    ParseAfterSchemePrefix("https", p, tail);
    var z := Before(Before(tail, '#'), '?');
    assert p + z == "//" + h + "/" + z;
    HttpsHierarchy(h, z, After(Before(tail, '#'), '?'), After(tail, '#'));
  }

  /** A host free of forbidden code points holds none of the delimiters. */
  lemma OpaqueHostChars(h: string)
    requires forall k :: 0 <= k < |h| ==> !IsForbiddenHostChar(h[k])
    ensures '#' !in "//" + h && '?' !in "//" + h && '/' !in h && ':' !in h && '@' !in h
  {
    forall k | 0 <= k < |h| ensures h[k] != '/' && h[k] != ':' && h[k] != '@' && h[k] != '#' && h[k] != '?' {
      assert !IsForbiddenHostChar(h[k]);
    }
  }

  lemma OpaqueAuthority(scheme: string, h: string)
    requires !IsSpecial(scheme)
    requires forall k :: 0 <= k < |h| ==> !IsForbiddenHostChar(h[k])
    ensures ParseAuthority(scheme, h) == Some(Authority("", "", h, None))
  {
    OpaqueHostChars(h);
    assert Before(h, ':') == h && After(h, ':') == None;
    assert !exists k :: 0 <= k < |h| && IsForbiddenHostChar(h[k]);
    assert ParsePort(scheme, "") == Some(None);
  }

  lemma OpaqueHierarchy(scheme: string, h: string, query: Option<string>, fragment: Option<string>)
    requires !IsSpecial(scheme)
    requires forall k :: 0 <= k < |h| ==> !IsForbiddenHostChar(h[k])
    ensures ParseHierarchy(scheme, "//" + h, query, fragment) == Some(Url(scheme, "", "", h, None, "", query, fragment))
  {
    OpaqueHostChars(h);
    OpaqueAuthority(scheme, h);
    assert StartsWith("//" + h, "//");
    assert ("//" + h)[2..] == h;
    assert Before(h, '/') == h;
  }

  lemma QueryOnly(q: string)
    requires '#' !in q
    ensures Before("?" + q, '#') == "?" + q && After("?" + q, '#') == None
    ensures Before("?" + q, '?') == "" && After("?" + q, '?') == Some(q)
  {
    assert '#' !in "?" + q;
  }

  /**
   * After a non-special scheme, `://` and a host free of forbidden code
   * points, the query is everything after the next `?` when no `#` follows.
   */
  lemma ParseOpaqueHostQuery(scheme: string, h: string, q: string)
    requires ValidScheme(scheme) && IsLower(scheme) && !IsSpecial(scheme)
    requires forall k :: 0 <= k < |h| ==> !IsForbiddenHostChar(h[k])
    requires '#' !in q
    ensures Parse(scheme + "://" + h + "?" + q) == Some(Url(scheme, "", "", h, None, "", Some(q), None))
  {
    var p := "//" + h;
    OpaqueHostChars(h);
    assert scheme + "://" + h + "?" + q == scheme + ":" + (p + ("?" + q));
    ParseOfScheme(scheme, p + ("?" + q));
    ParseAfterSchemePrefix(scheme, p, "?" + q);
    QueryOnly(q);
    assert p + "" == p;
    OpaqueHierarchy(scheme, h, Some(q), None);
  }
}

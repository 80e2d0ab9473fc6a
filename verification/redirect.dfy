/**
 * The redirect page that links in authentication emails point to. It unwraps
 * links rewritten by mail-security gateways, re-reads the action parameters
 * from the unwrapped link, and then sends the browser to a Branch link, to
 * the app's own `theplot://` scheme, to a validated deep link, or home.
 */
module Redirect {
  import opened Wrappers
  import opened Text
  import Percent
  import Base64
  import Urls

  // ---------------------------------------------------------------------
  // The open-redirect allow-list
  // ---------------------------------------------------------------------

  /** The characters the two strict patterns allow after their prefix. */
  predicate IsAllowedChar(c: char) {
    'a' <= c <= 'z' || 'A' <= c <= 'Z' || '0' <= c <= '9' || c in "-._~:/?#[]@!$&'()*+,;="
  }

  predicate AllAllowed(s: string) {
    forall k :: 0 <= k < |s| ==> IsAllowedChar(s[k])
  }

  /** What `.` does not match in a pattern without the `s` flag. */
  predicate IsLineTerminator(c: char) {
    c == '\n' || c == '\r' || c as int == 0x2028 || c as int == 0x2029
  }

  predicate NoLineTerminator(s: string) {
    forall k :: 0 <= k < |s| ==> !IsLineTerminator(s[k])
  }

  const AppPrefix := "theplot://"
  const WebPrefix := "https://theplot.world/app/"
  const LinkPrefix := "https://link.theplot.world/"

  /** The app-scheme pattern: `theplot://` and one or more allowed characters. */
  predicate AppSchemeMatch(url: string) {
    StartsWith(url, AppPrefix) && |url| > |AppPrefix| && AllAllowed(url[|AppPrefix|..])
  }

  /** The web-fallback pattern: `https://theplot.world/app/` and one or more allowed characters. */
  predicate WebFallbackMatch(url: string) {
    StartsWith(url, WebPrefix) && |url| > |WebPrefix| && AllAllowed(url[|WebPrefix|..])
  }

  /** The Branch-link pattern: `https://link.theplot.world/` and anything on one line. */
  predicate BranchLinkMatch(url: string) {
    StartsWith(url, LinkPrefix) && NoLineTerminator(url[|LinkPrefix|..])
  }

  const AllowedHosts := ["theplot.world", "link.theplot.world"]

  /**
   * The checks an `https://` link must pass before the patterns: it parses,
   * carries no user name or password, its host (with any port) is allowed,
   * and on `theplot.world` its path starts with `/app/`.
   */
  predicate PassesHttpsChecks(url: string) {
    match Urls.Parse(url)
    case None => false
    case Some(u) =>
      u.username == "" && u.password == ""
      && Urls.Host(u) in AllowedHosts
      && (Urls.Host(u) == "theplot.world" ==> StartsWith(u.path, "/app/"))
  }

  /** `isValidDeepLink(url)` */
  predicate IsValidDeepLink(url: string) {
    (StartsWith(url, "https://") ==> PassesHttpsChecks(url))
    && (AppSchemeMatch(url) || WebFallbackMatch(url) || BranchLinkMatch(url))
  }

  /** An accepted `https://` link carries no user info and names an allowed host. */
  lemma ValidHttpsDeepLink(url: string)
    requires IsValidDeepLink(url) && StartsWith(url, "https://")
    ensures Urls.Parse(url).Some?
    ensures var u := Urls.Parse(url).value;
      u.username == "" && u.password == ""
      && (Urls.Host(u) == "theplot.world" || Urls.Host(u) == "link.theplot.world")
  {
  }

  /** The host of every link under `https://link.theplot.world/` is `link.theplot.world`. */
  lemma LinkHost(r: string)
    ensures Urls.Parse(LinkPrefix + r).Some?
    ensures var u := Urls.Parse(LinkPrefix + r).value;
      u.username == "" && u.password == "" && Urls.Host(u) == "link.theplot.world"
  {
    LinkPrefixParts();
    LinkDomainPlain();
    Urls.ParseHttpsPlain("link.theplot.world", r);
  }

  lemma LinkPrefixParts()
    ensures LinkPrefix == "https://" + "link.theplot.world" + "/"
  {
  }

  lemma LinkDomainPlain()
    ensures Urls.PlainDomain("link.theplot.world")
  {
  }

  /**
   * An accepted `https://` link whose host is `theplot.world` has a path under
   * `/app/`, and its text is `https://theplot.world/app/` followed by one or
   * more allowed characters.
   */
  lemma TheplotWorldLinks(url: string)
    requires IsValidDeepLink(url) && StartsWith(url, "https://")
    requires Urls.Parse(url).Some? && Urls.Host(Urls.Parse(url).value) == "theplot.world"
    ensures StartsWith(Urls.Parse(url).value.path, "/app/")
    ensures WebFallbackMatch(url)
  {
    assert PassesHttpsChecks(url);
    HttpsNotApp(url);
    if BranchLinkMatch(url) {
      NotLinkHost(url);
    }
  }

  lemma HttpsNotApp(url: string)
    requires StartsWith(url, "https://")
    ensures !AppSchemeMatch(url)
  {
    assert url[0] == 'h';
  }

  lemma NotLinkHost(url: string)
    requires StartsWith(url, LinkPrefix)
    ensures Urls.Parse(url).Some? && Urls.Host(Urls.Parse(url).value) == "link.theplot.world"
  {
    var r := url[|LinkPrefix|..];
    assert url == LinkPrefix + r;
    LinkHost(r);
  }

  /** Each of the three patterns fixes the beginning of the link. */
  lemma PatternPrefixes(url: string)
    requires AppSchemeMatch(url) || WebFallbackMatch(url) || BranchLinkMatch(url)
    ensures StartsWith(url, AppPrefix) || StartsWith(url, WebPrefix) || StartsWith(url, LinkPrefix)
  {
  }

  /** Every accepted link starts with the app scheme, the web app's `/app/` or the Branch link domain. */
  lemma AcceptedPrefixes(url: string)
    requires IsValidDeepLink(url)
    ensures StartsWith(url, AppPrefix) || StartsWith(url, WebPrefix) || StartsWith(url, LinkPrefix)
  {
    PatternPrefixes(url);
  }

  /** A link starting with one of the three prefixes starts with `theplot://` or `https://`. */
  lemma PrefixHeads(url: string)
    requires StartsWith(url, AppPrefix) || StartsWith(url, WebPrefix) || StartsWith(url, LinkPrefix)
    ensures url[0] == 't' || (url[0] == 'h' && url[4] == 's')
  {
    if StartsWith(url, AppPrefix) {
      assert url[0] == AppPrefix[0];
    } else if StartsWith(url, WebPrefix) {
      assert url[0] == WebPrefix[0] && url[4] == WebPrefix[4];
    } else {
      assert url[0] == LinkPrefix[0] && url[4] == LinkPrefix[4];
    }
  }

  /** Links with the schemes `javascript:`, `data:`, `file:` or `http:` are never accepted. */
  lemma RejectsOtherSchemes(url: string)
    requires StartsWith(url, "javascript:") || StartsWith(url, "data:")
          || StartsWith(url, "file:") || StartsWith(url, "http:")
    ensures !IsValidDeepLink(url)
  {
    var c0 := url[0];
    assert c0 == 'j' || c0 == 'd' || c0 == 'f' || (c0 == 'h' && url[4] == ':');
    if AppSchemeMatch(url) || WebFallbackMatch(url) || BranchLinkMatch(url) {
      PatternPrefixes(url);
      PrefixHeads(url);
    }
  }

  /** Under the app scheme exactly the non-empty runs of allowed characters are accepted. */
  lemma AppSchemeLinks(r: string)
    ensures IsValidDeepLink(AppPrefix + r) <==> |r| >= 1 && AllAllowed(r)
  {
    var url := AppPrefix + r;
    assert url[..|AppPrefix|] == AppPrefix;
    assert url[|AppPrefix|..] == r;
    assert !StartsWith(url, "https://") by {
      assert url[0] == 't';
    }
    assert !StartsWith(url, WebPrefix) && !StartsWith(url, LinkPrefix) by {
      assert url[0] == 't';
    }
  }

  /** Every link under `https://link.theplot.world/` passes the `https://` checks. */
  lemma LinkPassesHttpsChecks(r: string)
    ensures PassesHttpsChecks(LinkPrefix + r)
  {
    LinkHost(r);
  }

  /** Under `https://link.theplot.world/` exactly the one-line links are accepted. */
  lemma BranchLinks(r: string)
    ensures IsValidDeepLink(LinkPrefix + r) <==> NoLineTerminator(r)
  {
    var url := LinkPrefix + r;
    assert url[..|LinkPrefix|] == LinkPrefix;
    assert url[|LinkPrefix|..] == r;
    assert BranchLinkMatch(url) <==> NoLineTerminator(r);
    DifferentAt(url, AppPrefix, 0);
    DifferentAt(url, WebPrefix, 8);
    LinkPassesHttpsChecks(r);
  }

  /** Every link under `https://theplot.world/` parses with that host and no user info. */
  lemma WebHost(r: string)
    ensures Urls.Parse(WebPrefix + r).Some?
    ensures var u := Urls.Parse(WebPrefix + r).value;
      u.username == "" && u.password == "" && Urls.Host(u) == "theplot.world"
  {
    WebPrefixParts(r);
    WebDomainPlain();
    Urls.ParseHttpsPlain("theplot.world", "app/" + r);
  }

  lemma WebPrefixParts(r: string)
    ensures WebPrefix + r == "https://" + "theplot.world" + "/" + ("app/" + r)
  {
    assert WebPrefix == "https://" + "theplot.world" + "/" + "app/";
  }

  lemma WebDomainPlain()
    ensures Urls.PlainDomain("theplot.world")
  {
  }

  lemma WebNotBranch(url: string)
    requires StartsWith(url, WebPrefix)
    ensures !BranchLinkMatch(url)
  {
    assert url[8] == 't';
  }

  lemma WebPrefixMatch(r: string)
    ensures StartsWith(WebPrefix + r, "https://") && StartsWith(WebPrefix + r, WebPrefix)
    ensures WebFallbackMatch(WebPrefix + r) <==> |r| >= 1 && AllAllowed(r)
  {
    var url := WebPrefix + r;
    assert url[..|WebPrefix|] == WebPrefix;
    assert url[|WebPrefix|..] == r;
    assert url[..8] == WebPrefix[..8];
  }

  lemma WebChecks(r: string)
    ensures Urls.Parse(WebPrefix + r).Some?
    ensures PassesHttpsChecks(WebPrefix + r) <==> StartsWith(Urls.Parse(WebPrefix + r).value.path, "/app/")
  {
    WebHost(r);
  }

  /**
   * Under `https://theplot.world/app/` a link is accepted exactly when one or
   * more allowed characters follow and its resolved path is still under `/app/`.
   */
  lemma WebFallbackLinks(r: string)
    ensures Urls.Parse(WebPrefix + r).Some?
    ensures IsValidDeepLink(WebPrefix + r) <==>
      |r| >= 1 && AllAllowed(r) && StartsWith(Urls.Parse(WebPrefix + r).value.path, "/app/")
  {
    var url := WebPrefix + r;
    WebPrefixMatch(r);
    WebChecks(r);
    HttpsNotApp(url);
    WebNotBranch(url);
  }

  // ---------------------------------------------------------------------
  // Unwrapping links rewritten by mail-security gateways
  // ---------------------------------------------------------------------

  /** JavaScript truthiness of an optional string: present and not empty. */
  predicate Truthy(o: Option<string>) {
    o.Some? && o.value != ""
  }

  /**
   * `decodeURIComponent(v)` inside the unwrapping's `try`: its failure makes
   * the unwrapping return the link it was given.
   */
  function DecodeOr(link: string, v: string): (r: string)
    ensures Percent.DecodeURIComponent(v).Some? ==> r == Percent.DecodeURIComponent(v).value
    ensures Percent.DecodeURIComponent(v).None? ==> r == link
  {
    match Percent.DecodeURIComponent(v)
    case Some(d) => d
    case None => link
  }

  const OutlookHost := "safelinks.protection.outlook.com"

  /** The six regional Office 365 hosts the page tests after the generic one. */
  predicate RegionalOutlookHost(h: string) {
    Contains(h, "nam02." + OutlookHost) || Contains(h, "nam04." + OutlookHost)
    || Contains(h, "eur01." + OutlookHost) || Contains(h, "eur02." + OutlookHost)
    || Contains(h, "eur03." + OutlookHost) || Contains(h, "apc01." + OutlookHost)
  }

  /** The two hosts the page labels Symantec, both under the Outlook domain. */
  predicate SymantecHost(h: string) {
    Contains(h, "emea01." + OutlookHost) || Contains(h, "gcc02." + OutlookHost)
  }

  predicate ProofpointHost(h: string) {
    Contains(h, "urldefense.proofpoint.com") || Contains(h, "urldefense.com")
  }

  const BarracudaHost := "linkprotect.cudasvc.com"
  const MimecastHost := "protect.mimecast.com"
  const CiscoHost := "ipas.cisco.com"

  /** The value of a query parameter of a parsed link. */
  function Param(u: Urls.Url, name: string): Option<string> {
    Percent.Get(Urls.SearchParams(u), name)
  }

  /** The Mimecast parameter: base64 if `atob` accepts it, otherwise percent-decoded. */
  function DecodeMimecast(link: string, v: string): string {
    match Base64.Atob(v)
    case Some(b) => b
    case None => DecodeOr(link, v)
  }

  /**
   * `extractOriginalUrlFromSafeLink(safeLink)`: the wrapped link, or
   * `safeLink` itself when it does not parse, when no gateway claims it, or
   * when decoding fails.
   */
  function ExtractOriginalUrl(safeLink: string): string {
    match Urls.Parse(safeLink)
    case None => safeLink
    case Some(u) => Unwrap(safeLink, u)
  }

  /** The gateway tests on the parsed `safeLink`, in the page's order. */
  function Unwrap(safeLink: string, u: Urls.Url): string {
    var h := Urls.Host(u);
    var url := Param(u, "url");
    var w := Param(u, "u");
    if Contains(h, OutlookHost) && Truthy(url) then DecodeOr(safeLink, url.value)
    else if RegionalOutlookHost(h) && Truthy(url) then DecodeOr(safeLink, url.value)
    else if ProofpointHost(h) then DecodeProofpointUrl(Last(Split(u.path, '/')))
    else if Contains(h, BarracudaHost) && Truthy(w) then DecodeOr(safeLink, w.value)
    else if Contains(h, MimecastHost) && Truthy(w) then DecodeMimecast(safeLink, w.value)
    else if Contains(h, CiscoHost) && Truthy(w) then DecodeOr(safeLink, w.value)
    else if SymantecHost(h) && Truthy(url) then DecodeOr(safeLink, url.value)
    else safeLink
  }

  /** The same tests without the regional Office 365 and the Symantec branches. */
  function UnwrapWithoutRedundantBranches(safeLink: string, u: Urls.Url): string {
    var h := Urls.Host(u);
    var url := Param(u, "url");
    var w := Param(u, "u");
    if Contains(h, OutlookHost) && Truthy(url) then DecodeOr(safeLink, url.value)
    else if ProofpointHost(h) then DecodeProofpointUrl(Last(Split(u.path, '/')))
    else if Contains(h, BarracudaHost) && Truthy(w) then DecodeOr(safeLink, w.value)
    else if Contains(h, MimecastHost) && Truthy(w) then DecodeMimecast(safeLink, w.value)
    else if Contains(h, CiscoHost) && Truthy(w) then DecodeOr(safeLink, w.value)
    else safeLink
  }

  /** Every regional and Symantec host contains the generic Outlook host name. */
  lemma OutlookSubdomains(h: string)
    requires RegionalOutlookHost(h) || SymantecHost(h)
    ensures Contains(h, OutlookHost)
  {
    var prefix :=
      if Contains(h, "nam02." + OutlookHost) then "nam02."
      else if Contains(h, "nam04." + OutlookHost) then "nam04."
      else if Contains(h, "eur01." + OutlookHost) then "eur01."
      else if Contains(h, "eur02." + OutlookHost) then "eur02."
      else if Contains(h, "eur03." + OutlookHost) then "eur03."
      else if Contains(h, "apc01." + OutlookHost) then "apc01."
      else if Contains(h, "emea01." + OutlookHost) then "emea01."
      else "gcc02.";
    assert prefix + OutlookHost + "" == prefix + OutlookHost;
    ContainsInner(h, prefix, OutlookHost, "");
  }

  /**
   * The generic Outlook branch catches every host the regional and Symantec
   * branches test, with the same parameter, so those branches never decide
   * the result.
   */
  lemma RedundantBranches(safeLink: string, u: Urls.Url)
    ensures Unwrap(safeLink, u) == UnwrapWithoutRedundantBranches(safeLink, u)
  {
    var h := Urls.Host(u);
    var url := Param(u, "url");
    if !(Contains(h, OutlookHost) && Truthy(url)) {
      NoOutlookNoSubdomain(h, url);
    }
  }

  lemma NoOutlookNoSubdomain(h: string, url: Option<string>)
    requires !(Contains(h, OutlookHost) && Truthy(url))
    ensures !(RegionalOutlookHost(h) && Truthy(url)) && !(SymantecHost(h) && Truthy(url))
  {
    if RegionalOutlookHost(h) || SymantecHost(h) {
      OutlookSubdomains(h);
    }
  }

  /** A Mimecast parameter that `btoa` wrote decodes to the text it encoded. */
  lemma MimecastBtoa(link: string, s: string)
    requires Base64.IsBinary(s)
    ensures DecodeMimecast(link, Base64.Btoa(s)) == s
  {
    Base64.AtobBtoa(s);
  }

  /** An Outlook link whose `url` parameter percent-decodes yields the decoding. */
  lemma ExtractOutlook(safeLink: string, d: string)
    requires Urls.Parse(safeLink).Some?
    requires var u := Urls.Parse(safeLink).value;
      Contains(Urls.Host(u), OutlookHost) && Truthy(Param(u, "url"))
      && Percent.DecodeURIComponent(Param(u, "url").value) == Some(d)
    ensures ExtractOriginalUrl(safeLink) == d
  {
  }

  /** The gateways tested before Barracuda's did not take the link. */
  predicate BeforeBarracuda(u: Urls.Url) {
    !(Contains(Urls.Host(u), OutlookHost) && Truthy(Param(u, "url"))) && !ProofpointHost(Urls.Host(u))
  }

  /** A Barracuda link whose `u` parameter percent-decodes yields the decoding. */
  lemma ExtractBarracuda(safeLink: string, d: string)
    requires Urls.Parse(safeLink).Some?
    requires var u := Urls.Parse(safeLink).value;
      BeforeBarracuda(u) && Contains(Urls.Host(u), BarracudaHost) && Truthy(Param(u, "u"))
      && Percent.DecodeURIComponent(Param(u, "u").value) == Some(d)
    ensures ExtractOriginalUrl(safeLink) == d
  {
    var u := Urls.Parse(safeLink).value;
    NoOutlookNoSubdomain(Urls.Host(u), Param(u, "url"));
  }

  /** A Mimecast link whose `u` parameter is the base64 of `s` yields `s`. */
  lemma ExtractMimecast(safeLink: string, s: string)
    requires Base64.IsBinary(s)
    requires Urls.Parse(safeLink).Some?
    requires var u := Urls.Parse(safeLink).value;
      BeforeBarracuda(u) && !Contains(Urls.Host(u), BarracudaHost)
      && Contains(Urls.Host(u), MimecastHost) && Truthy(Param(u, "u")) && Param(u, "u").value == Base64.Btoa(s)
    ensures ExtractOriginalUrl(safeLink) == s
  {
    var u := Urls.Parse(safeLink).value;
    NoOutlookNoSubdomain(Urls.Host(u), Param(u, "url"));
    MimecastBtoa(safeLink, s);
  }

  /** A Mimecast parameter that is not base64 is percent-decoded instead. */
  lemma ExtractMimecastFallback(safeLink: string, d: string)
    requires Urls.Parse(safeLink).Some?
    requires var u := Urls.Parse(safeLink).value;
      BeforeBarracuda(u) && !Contains(Urls.Host(u), BarracudaHost)
      && Contains(Urls.Host(u), MimecastHost) && Truthy(Param(u, "u"))
      && Base64.Atob(Param(u, "u").value).None?
      && Percent.DecodeURIComponent(Param(u, "u").value) == Some(d)
    ensures ExtractOriginalUrl(safeLink) == d
  {
    var u := Urls.Parse(safeLink).value;
    NoOutlookNoSubdomain(Urls.Host(u), Param(u, "url"));
  }

  /** A Cisco link whose `u` parameter percent-decodes yields the decoding. */
  lemma ExtractCisco(safeLink: string, d: string)
    requires Urls.Parse(safeLink).Some?
    requires var u := Urls.Parse(safeLink).value;
      BeforeBarracuda(u) && !Contains(Urls.Host(u), BarracudaHost) && !Contains(Urls.Host(u), MimecastHost)
      && Contains(Urls.Host(u), CiscoHost) && Truthy(Param(u, "u"))
      && Percent.DecodeURIComponent(Param(u, "u").value) == Some(d)
    ensures ExtractOriginalUrl(safeLink) == d
  {
    var u := Urls.Parse(safeLink).value;
    NoOutlookNoSubdomain(Urls.Host(u), Param(u, "url"));
  }

  /** A link that does not parse comes back unchanged. */
  lemma ExtractUnparsable(safeLink: string)
    requires Urls.Parse(safeLink).None?
    ensures ExtractOriginalUrl(safeLink) == safeLink
  {
  }

  /** A link on none of the gateway hosts comes back unchanged. */
  lemma ExtractNoGateway(safeLink: string)
    requires Urls.Parse(safeLink).Some?
    requires var h := Urls.Host(Urls.Parse(safeLink).value);
      !Contains(h, OutlookHost) && !ProofpointHost(h) && !Contains(h, BarracudaHost)
      && !Contains(h, MimecastHost) && !Contains(h, CiscoHost)
    ensures ExtractOriginalUrl(safeLink) == safeLink
  {
    var h := Urls.Host(Urls.Parse(safeLink).value);
    if RegionalOutlookHost(h) || SymantecHost(h) {
      OutlookSubdomains(h);
    }
  }

  /** Outside Proofpoint, a link without a non-empty `url` or `u` parameter comes back unchanged. */
  lemma ExtractNoParameter(safeLink: string)
    requires Urls.Parse(safeLink).Some?
    requires var u := Urls.Parse(safeLink).value;
      !ProofpointHost(Urls.Host(u)) && !Truthy(Param(u, "url")) && !Truthy(Param(u, "u"))
    ensures ExtractOriginalUrl(safeLink) == safeLink
  {
  }

  /** When the Outlook parameter does not percent-decode, the link comes back unchanged. */
  lemma ExtractOutlookDecodeFails(safeLink: string)
    requires Urls.Parse(safeLink).Some?
    requires var u := Urls.Parse(safeLink).value;
      Contains(Urls.Host(u), OutlookHost) && Truthy(Param(u, "url"))
      && Percent.DecodeURIComponent(Param(u, "url").value).None?
    ensures ExtractOriginalUrl(safeLink) == safeLink
  {
  }

  /**
   * On a Proofpoint host (unless the Outlook branch took the link first) the
   * result is the last path segment or a link with a host; it is never the
   * wrapper link itself unless that equals the segment.
   */
  lemma ExtractProofpoint(safeLink: string)
    requires Urls.Parse(safeLink).Some?
    requires var u := Urls.Parse(safeLink).value;
      ProofpointHost(Urls.Host(u)) && !(Contains(Urls.Host(u), OutlookHost) && Truthy(Param(u, "url")))
    ensures var u := Urls.Parse(safeLink).value;
      var segment := Last(Split(u.path, '/'));
      ExtractOriginalUrl(safeLink) == segment || HasHost(ExtractOriginalUrl(safeLink))
  {
    var h := Urls.Host(Urls.Parse(safeLink).value);
    if RegionalOutlookHost(h) {
      OutlookSubdomains(h);
    }
  }

  // ---------------------------------------------------------------------
  // Proofpoint's path encoding
  // ---------------------------------------------------------------------

  /** Proofpoint's older `*XX` escapes, replaced in the page's order. */
  function ProofpointUnescape(s: string): string {
    ReplaceAll(ReplaceAll(ReplaceAll(ReplaceAll(ReplaceAll(ReplaceAll(ReplaceAll(
      s, "*2D", "-"), "*2E", "."), "*3A", ":"), "*2F", "/"), "*3F", "?"), "*3D", "="), "*26", "&")
  }

  /** `new URL(s)` succeeds with a non-empty host. */
  predicate HasHost(s: string) {
    Urls.Parse(s).Some? && Urls.Host(Urls.Parse(s).value) != ""
  }

  /**
   * `decodeProofpointUrl(segment)`: `-` to `%` and `_` to `/`, then
   * percent-decoding, or the `*XX` escapes when that fails; the candidate is
   * kept only when it is a URL with a host.
   */
  function DecodeProofpointUrl(segment: string): (r: string)
    ensures r == segment || HasHost(r)
  {
    var d1 := ReplaceChar(ReplaceChar(segment, '-', '%'), '_', '/');
    var d2 := match Percent.DecodeURIComponent(d1)
      case Some(d) => d
      case None => ProofpointUnescape(segment);
    if HasHost(d2) then d2 else segment
  }

  /** Proofpoint's encoding of a link: percent-encoding with `%` written as `-`. */
  function ProofpointEncode(url: string): string {
    ReplaceChar(Percent.EncodeURIComponent(url), '%', '-')
  }

  lemma ReplaceCharAbsent(s: string, a: char, b: char)
    requires a !in s
    ensures ReplaceChar(s, a, b) == s
  {
  }

  lemma ReplaceCharBack(s: string, a: char, b: char)
    requires b !in s
    ensures ReplaceChar(ReplaceChar(s, a, b), b, a) == s
  {
  }

  /** `encodeURIComponent` writes a character outside its escapes only when the input has it. */
  lemma {:induction false} EncodeKeepsAbsent(s: string, c: char)
    requires c !in s && c != '%' && !Percent.IsUpperHex(c)
    ensures c !in Percent.EncodeURIComponent(s)
  {
    if s != [] {
      EncodeKeepsAbsent(s[1..], c);
      var head := if Percent.IsUriUnreserved(s[0]) then [s[0]] else Percent.EscapeChar(s[0]);
      var tail := Percent.EncodeURIComponent(s[1..]);
      assert Percent.EncodeURIComponent(s) == head + tail;
      assert c !in head;
    }
  }

  /**
   * Decoding undoes Proofpoint's encoding of a link with a host and without
   * `-` or `_` (the two characters the scheme cannot tell from its escapes).
   */
  lemma ProofpointRoundTrip(url: string)
    requires HasHost(url) && '-' !in url && '_' !in url
    ensures DecodeProofpointUrl(ProofpointEncode(url)) == url
  {
    var e := Percent.EncodeURIComponent(url);
    EncodeKeepsAbsent(url, '-');
    EncodeKeepsAbsent(url, '_');
    ReplaceCharBack(e, '%', '-');
    ReplaceCharAbsent(e, '_', '/');
    Percent.DecodeEncodeURIComponent(url);
  }

  // ---------------------------------------------------------------------
  // The routing decision
  // ---------------------------------------------------------------------

  /** The page's query parameters, each possibly absent. */
  datatype Params = Params(
    target: Option<string>,
    mode: Option<string>,
    oobCode: Option<string>,
    email: Option<string>,
    token: Option<string>,
    uid: Option<string>,
    username: Option<string>)

  /** What the Branch SDK does: hand back a link, or fail (not loaded, `init` or `link` erring). */
  datatype BranchOutcome = Linked(url: string) | Failed

  predicate IsKnownMode(mode: Option<string>) {
    mode == Some("custom_password_reset") || mode == Some("verify_email")
  }

  /** The target is truthy and unwrapping changes it. */
  predicate Unwraps(target: Option<string>) {
    Truthy(target) && ExtractOriginalUrl(target.value) != target.value
  }

  /** A query parameter of a link, when the link parses. */
  function LinkParam(link: string, name: string): Option<string> {
    match Urls.Parse(link)
    case None => None
    case Some(u) => Param(u, name)
  }

  /**
   * A parameter after re-derivation: the unwrapped link's value when the
   * target unwraps and that value is non-empty, the earlier value otherwise.
   */
  function Reread(target: Option<string>, name: string, prior: Option<string>): (r: Option<string>)
    ensures r == prior || (Unwraps(target) && Truthy(r) && r == LinkParam(ExtractOriginalUrl(target.value), name))
    ensures Unwraps(target) && Truthy(LinkParam(ExtractOriginalUrl(target.value), name)) ==>
      r == LinkParam(ExtractOriginalUrl(target.value), name)
  {
    if Unwraps(target) && Truthy(LinkParam(ExtractOriginalUrl(target.value), name)) then
      LinkParam(ExtractOriginalUrl(target.value), name)
    else prior
  }

  /** `v || ''` */
  function OrEmpty(v: Option<string>): string {
    if Truthy(v) then v.value else ""
  }

  /** One `name=value` piece of the app-scheme fallback, the value percent-encoded. */
  function EncodedPiece(name: string, value: string): string {
    name + "=" + Percent.EncodeURIComponent(value)
  }

  function FallbackPairs(p: Params): seq<Percent.Pair> {
    [("mode", OrEmpty(p.mode)), ("oobCode", OrEmpty(p.oobCode)), ("email", OrEmpty(p.email)),
     ("token", OrEmpty(p.token)), ("uid", OrEmpty(p.uid)), ("username", OrEmpty(p.username))]
  }

  function EncodedPieces(pairs: seq<Percent.Pair>): (pieces: seq<string>)
    ensures |pieces| == |pairs|
    ensures forall k :: 0 <= k < |pairs| ==> pieces[k] == EncodedPiece(pairs[k].0, pairs[k].1)
  {
    if pairs == [] then [] else [EncodedPiece(pairs[0].0, pairs[0].1)] + EncodedPieces(pairs[1..])
  }

  function FallbackPath(p: Params): string {
    if p.mode == Some("custom_password_reset") then "reset" else "verify"
  }

  /**
   * The app-scheme link used when the Branch SDK fails: `theplot://reset?` or
   * `theplot://verify?`, then mode, oobCode, email, token, uid and username,
   * each percent-encoded and empty when missing, joined by `&`.
   */
  function FallbackUrl(p: Params): string {
    AppPrefix + FallbackPath(p) + "?" + Join(EncodedPieces(FallbackPairs(p)), "&")
  }

  /**
   * The first half of `handleRedirect`: a truthy target that unwraps becomes
   * the unwrapped link, and each action parameter takes that link's value when
   * it is non-empty; a link that does not parse leaves them as they were.
   */
  method UnwrapTarget(p: Params) returns (seen: Params)
    ensures seen.target == (if Unwraps(p.target) then Some(ExtractOriginalUrl(p.target.value)) else p.target)
    ensures seen.mode == Reread(p.target, "mode", p.mode)
    ensures seen.oobCode == Reread(p.target, "oobCode", p.oobCode)
    ensures seen.email == Reread(p.target, "email", p.email)
    ensures seen.token == Reread(p.target, "token", p.token)
    ensures seen.uid == Reread(p.target, "uid", p.uid)
    ensures seen.username == Reread(p.target, "username", p.username)
  {
    var target, mode, oobCode, email, token, uid, username :=
      p.target, p.mode, p.oobCode, p.email, p.token, p.uid, p.username;
    if Truthy(target) {
      var extracted := ExtractOriginalUrl(target.value);
      if extracted != target.value {
        target := Some(extracted);
        match Urls.Parse(extracted) {
          case Some(u) =>
            mode := if Truthy(Param(u, "mode")) then Param(u, "mode") else mode;
            oobCode := if Truthy(Param(u, "oobCode")) then Param(u, "oobCode") else oobCode;
            email := if Truthy(Param(u, "email")) then Param(u, "email") else email;
            token := if Truthy(Param(u, "token")) then Param(u, "token") else token;
            uid := if Truthy(Param(u, "uid")) then Param(u, "uid") else uid;
            username := if Truthy(Param(u, "username")) then Param(u, "username") else username;
          case None =>
        }
      }
    }
    seen := Params(target, mode, oobCode, email, token, uid, username);
  }

  /**
   * The second half of `handleRedirect`: a recognised mode goes to the Branch
   * link or, when the SDK fails, to the app-scheme fallback; otherwise a
   * truthy target goes to its percent-decoding when that is a valid deep
   * link; everything else goes home.
   */
  method Route(seen: Params, branch: BranchOutcome) returns (destination: string)
    ensures IsKnownMode(seen.mode) ==>
      destination == (if branch.Linked? then branch.url else FallbackUrl(seen))
    ensures !IsKnownMode(seen.mode) && Truthy(seen.target) ==>
      destination == "/"
      || (IsValidDeepLink(destination) && Percent.DecodeURIComponent(seen.target.value) == Some(destination))
    ensures !IsKnownMode(seen.mode) && Truthy(seen.target) ==>
      forall d :: Percent.DecodeURIComponent(seen.target.value) == Some(d) && IsValidDeepLink(d) ==> destination == d
    ensures !IsKnownMode(seen.mode) && !Truthy(seen.target) ==> destination == "/"
  {
    if IsKnownMode(seen.mode) {
      match branch {
        case Linked(url) => destination := url;
        case Failed => destination := FallbackUrl(seen);
      }
    } else if Truthy(seen.target) {
      match Percent.DecodeURIComponent(seen.target.value) {
        case None => destination := "/";
        case Some(d) => destination := if IsValidDeepLink(d) then d else "/";
      }
    } else {
      destination := "/";
    }
  }

  /** `handleRedirect`: what the page finally assigns to `window.location.href`, and the parameters it acted on. */
  method HandleRedirect(p: Params, branch: BranchOutcome) returns (destination: string, seen: Params)
    ensures seen.target == (if Unwraps(p.target) then Some(ExtractOriginalUrl(p.target.value)) else p.target)
    ensures seen.mode == Reread(p.target, "mode", p.mode)
    ensures seen.oobCode == Reread(p.target, "oobCode", p.oobCode)
    ensures seen.email == Reread(p.target, "email", p.email)
    ensures seen.token == Reread(p.target, "token", p.token)
    ensures seen.uid == Reread(p.target, "uid", p.uid)
    ensures seen.username == Reread(p.target, "username", p.username)
    ensures IsKnownMode(seen.mode) ==>
      destination == (if branch.Linked? then branch.url else FallbackUrl(seen))
    ensures !IsKnownMode(seen.mode) && Truthy(seen.target) ==>
      destination == "/"
      || (IsValidDeepLink(destination) && Percent.DecodeURIComponent(seen.target.value) == Some(destination))
    ensures !IsKnownMode(seen.mode) && Truthy(seen.target) ==>
      forall d :: Percent.DecodeURIComponent(seen.target.value) == Some(d) && IsValidDeepLink(d) ==> destination == d
    ensures !IsKnownMode(seen.mode) && !Truthy(seen.target) ==> destination == "/"
  {
    seen := UnwrapTarget(p);
    destination := Route(seen, branch);
  }

  // ---------------------------------------------------------------------
  // Reading the fallback link back
  // ---------------------------------------------------------------------

  /** A name the form decoder reads as itself and that holds no delimiter. */
  predicate PlainName(name: string) {
    forall k :: 0 <= k < |name| ==> Percent.IsFormSafe(name[k])
  }

  lemma PlainNameDelimiters(name: string)
    requires PlainName(name)
    ensures '=' !in name && '&' !in name && '#' !in name
  {
    forall k | 0 <= k < |name| ensures name[k] != '=' && name[k] != '&' && name[k] != '#' {
      assert Percent.IsFormSafe(name[k]);
    }
  }

  lemma EncodedDelimiters(value: string)
    ensures var e := Percent.EncodeURIComponent(value); '=' !in e && '&' !in e && '#' !in e
  {
    var e := Percent.EncodeURIComponent(value);
    forall k | 0 <= k < |e| ensures e[k] != '=' && e[k] != '&' && e[k] != '#' {
      assert Percent.IsUriUnreserved(e[k]) || e[k] == '%' || Percent.IsUpperHex(e[k]);
    }
  }

  lemma JoinedDelimiters(name: string, e: string)
    requires '&' !in name && '#' !in name && '&' !in e && '#' !in e
    ensures '&' !in name + ['='] + e && '#' !in name + ['='] + e
  {
    var piece := name + ['='] + e;
    forall k | 0 <= k < |piece| ensures piece[k] != '&' && piece[k] != '#' {
      if k < |name| {
        assert piece[k] == name[k];
      } else if k > |name| {
        assert piece[k] == e[k - |name| - 1];
      }
    }
  }

  lemma EncodedPiecePlain(name: string, value: string)
    requires PlainName(name)
    ensures '&' !in EncodedPiece(name, value) && '#' !in EncodedPiece(name, value)
    ensures EncodedPiece(name, value) != ""
    ensures Percent.ParsePair(EncodedPiece(name, value)) == (name, value)
  {
    var e := Percent.EncodeURIComponent(value);
    var piece := EncodedPiece(name, value);
    assert piece == name + ['='] + e;
    PlainNameDelimiters(name);
    EncodedDelimiters(value);
    JoinedDelimiters(name, e);
    FirstIndexOfConcat(name, '=', e);
    assert piece[..|name|] == name;
    assert piece[|name| + 1..] == e;
    Percent.FormDecodePlain(name);
    Percent.FormDecodeURIComponent(value);
  }

  lemma {:induction false} ParseEncodedPieces(pairs: seq<Percent.Pair>)
    requires forall k :: 0 <= k < |pairs| ==> PlainName(pairs[k].0)
    ensures Percent.ParsePieces(EncodedPieces(pairs)) == pairs
  {
    if pairs != [] {
      EncodedPiecePlain(pairs[0].0, pairs[0].1);
      ParseEncodedPieces(pairs[1..]);
      assert EncodedPieces(pairs)[1..] == EncodedPieces(pairs[1..]);
    }
  }

  /** A query of encoded pieces with plain names holds no `#` and reads back as the pairs, decoded. */
  lemma EncodedQueryReadBack(pairs: seq<Percent.Pair>)
    requires forall k :: 0 <= k < |pairs| ==> PlainName(pairs[k].0)
    ensures '#' !in Join(EncodedPieces(pairs), "&")
    ensures Percent.ParseQuery(Join(EncodedPieces(pairs), "&")) == pairs
  {
    var pieces := EncodedPieces(pairs);
    if pairs == [] {
      assert Split(Join(pieces, "&"), '&') == [""];
    } else {
      forall k | 0 <= k < |pieces| ensures '&' !in pieces[k] && '#' !in pieces[k] {
        EncodedPiecePlain(pairs[k].0, pairs[k].1);
      }
      JoinWithout(pieces, "&", '#');
      SplitJoin(pieces, '&');
      ParseEncodedPieces(pairs);
    }
  }

  lemma FallbackNamesPlain(p: Params)
    ensures forall k :: 0 <= k < |FallbackPairs(p)| ==> PlainName(FallbackPairs(p)[k].0)
  {
  }

  /** The fallback query holds no `#` and reads back as the six fields in order. */
  lemma FallbackQueryReadBack(p: Params)
    ensures '#' !in Join(EncodedPieces(FallbackPairs(p)), "&")
    ensures Percent.ParseQuery(Join(EncodedPieces(FallbackPairs(p)), "&")) == FallbackPairs(p)
  {
    FallbackNamesPlain(p);
    EncodedQueryReadBack(FallbackPairs(p));
  }

  lemma FallbackUrlShape(p: Params)
    ensures FallbackUrl(p) == "theplot" + "://" + FallbackPath(p) + "?" + Join(EncodedPieces(FallbackPairs(p)), "&")
  {
  }

  lemma FallbackHostPlain(p: Params)
    ensures forall k :: 0 <= k < |FallbackPath(p)| ==> !Urls.IsForbiddenHostChar(FallbackPath(p)[k])
  {
  }

  /**
   * The fallback link parses as a `theplot:` URL whose host is `reset` or
   * `verify` and whose query gives back the six fields in order, decoded.
   */
  lemma FallbackReadBack(p: Params)
    ensures Urls.Parse(FallbackUrl(p)).Some?
    ensures var u := Urls.Parse(FallbackUrl(p)).value;
      u.scheme == "theplot" && u.hostname == FallbackPath(p)
      && Urls.SearchParams(u) == FallbackPairs(p)
  {
    var q := Join(EncodedPieces(FallbackPairs(p)), "&");
    FallbackQueryReadBack(p);
    FallbackHostPlain(p);
    FallbackUrlShape(p);
    AppSchemePlain();
    Urls.ParseOpaqueHostQuery("theplot", FallbackPath(p), q);
  }

  lemma AppSchemePlain()
    ensures Urls.ValidScheme("theplot") && IsLower("theplot") && !Urls.IsSpecial("theplot")
  {
  }
}

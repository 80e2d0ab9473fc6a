/**
 * What the link endpoint derives from one request before it calls Branch:
 * the request context (client address, user agent, request id), the query
 * carried to the app, the three links built around it, the body posted to
 * Branch, and the CORS origin allow-list.
 */
module LinkPayload {
  import opened Wrappers
  import opened Text
  import Percent
  import Urls
  import Environment
  import LinkRequest

  // ---------------------------------------------------------------------
  // Request context
  // ---------------------------------------------------------------------

  /** Request headers by lower-case name. */
  type Headers = map<string, string>

  /** `req.headers.get(name)`: the value, or `null` when the header is absent. */
  function Header(headers: Headers, name: string): Option<string> {
    if name in headers then Some(headers[name]) else None
  }

  /** JavaScript truthiness of an optional string: present and not empty. */
  predicate Present(v: Option<string>) {
    v.Some? && v.value != ""
  }

  /** The first comma-separated entry of `x-forwarded-for`, trimmed; empty without the header. */
  function ForwardedFirst(headers: Headers): (r: string)
    ensures ',' !in r
    ensures r == [] || (!IsWhiteSpace(r[0]) && !IsWhiteSpace(r[|r| - 1]))
  {
    match Header(headers, "x-forwarded-for")
    case None => ""
    case Some(v) =>
      var first := Split(v, ',')[0];
      TrimWithin(first, ',');
      Trim(first)
  }

  /**
   * The client address of `buildRequestContext`: the first forwarded entry,
   * else `x-real-ip`, else `cf-connecting-ip`, else `unknown`; an empty
   * value at any step falls through to the next.
   */
  function ClientIp(headers: Headers): (r: string)
    ensures r != ""
    ensures r == ForwardedFirst(headers) || Header(headers, "x-real-ip") == Some(r)
      || Header(headers, "cf-connecting-ip") == Some(r) || r == "unknown"
  {
    var forwarded := ForwardedFirst(headers);
    if forwarded != "" then forwarded
    else if Present(Header(headers, "x-real-ip")) then headers["x-real-ip"]
    else if Present(Header(headers, "cf-connecting-ip")) then headers["cf-connecting-ip"]
    else "unknown"
  }

  /** The first forwarded entry wins over every other header when it is not blank. */
  lemma ForwardedEntryWins(headers: Headers, entry: string, rest: string)
    requires Header(headers, "x-forwarded-for") == Some(entry + "," + rest)
    requires ',' !in entry && Trim(entry) != ""
    ensures ClientIp(headers) == Trim(entry)
  {
    SplitFirst(entry, ',', rest);
  }

  /** A header list naming one forwarded address uses it, trimmed. */
  lemma ForwardedSingle(headers: Headers, entry: string)
    requires Header(headers, "x-forwarded-for") == Some(entry)
    requires ',' !in entry && Trim(entry) != ""
    ensures ClientIp(headers) == Trim(entry)
  {
    assert Split(entry, ',') == [entry];
  }

  /** Without any address header the client is `unknown`. */
  lemma NoAddressHeaders(headers: Headers)
    requires "x-forwarded-for" !in headers && "x-real-ip" !in headers && "cf-connecting-ip" !in headers
    ensures ClientIp(headers) == "unknown"
  {
    assert ForwardedFirst(headers) == "";
  }

  /** `user-agent`, or `unknown` when it is absent or empty. */
  function UserAgent(headers: Headers): (r: string)
    ensures r != ""
    ensures Present(Header(headers, "user-agent")) ==> r == headers["user-agent"]
  {
    if Present(Header(headers, "user-agent")) then headers["user-agent"] else "unknown"
  }

  /** `${name}_${now}_${suffix}`, where the suffix stands for the random base-36 digits. */
  function RequestId(name: string, now: nat, suffix: string): (r: string)
    ensures StartsWith(r, name + "_")
  {
    var r := name + "_" + NatToString(now) + "_" + suffix;
    assert r[..|name| + 1] == name + "_";
    r
  }

  /** The `RequestContext` every later step reads. */
  datatype RequestContext = RequestContext(
    requestId: string,
    clientIp: string,
    userAgent: string,
    timestamp: string,
    environment: Environment.Config)

  /**
   * The context of a request under configuration `c`, at clock reading
   * `now`, with `suffix` for the random digits and `timestamp` for the ISO
   * time.
   */
  function Context(c: Environment.Config, headers: Headers, now: nat, suffix: string, timestamp: string): (r: RequestContext)
    ensures r.environment == c && r.timestamp == timestamp
    ensures r.clientIp == ClientIp(headers) && r.userAgent == UserAgent(headers)
    ensures StartsWith(r.requestId, c.name + "_")
  {
    RequestContext(RequestId(c.name, now, suffix), ClientIp(headers), UserAgent(headers), timestamp, c)
  }

  // ---------------------------------------------------------------------
  // The query and the links
  // ---------------------------------------------------------------------

  const ResetMode := "custom_password_reset"

  /** The app screen a mode opens: `reset` for a password reset, `verify` for anything else. */
  function Action(mode: string): (a: string)
    ensures a == "reset" || a == "verify"
    ensures a == "reset" <==> mode == ResetMode
  {
    if mode == ResetMode then "reset" else "verify"
  }

  /** The Branch feature name of a mode. */
  function Feature(mode: string): (f: string)
    ensures f == "password_reset" || f == "email_verification"
  {
    if mode == ResetMode then "password_reset" else "email_verification"
  }

  /** The feature reported to Branch names the same flow as the screen the links open. */
  lemma FeatureMatchesAction(mode: string)
    ensures Feature(mode) == "password_reset" <==> Action(mode) == "reset"
    ensures Feature(mode) == "email_verification" <==> Action(mode) == "verify"
  {
  }

  /** A pair for an optional field, only when the field is truthy. */
  function OptionalPair(name: string, v: Option<string>): (r: seq<Percent.Pair>)
    ensures |r| <= 1
    ensures r != [] <==> Present(v)
    ensures r != [] ==> r[0] == (name, v.value)
  {
    if Present(v) then [(name, v.value)] else []
  }

  /**
   * The pairs of the link query: `mode`, `oobCode` and `email`, then
   * `token`, `uid` and `username` each when truthy. `set` on a name not yet
   * present appends, so the order is the order of the calls.
   */
  function QueryPairs(p: LinkRequest.BranchLinkRequest): seq<Percent.Pair> {
    Head(p) + OptionalPair("token", p.token) + OptionalPair("uid", p.uid) + OptionalPair("username", p.username)
  }

  /** `queryParams.toString()` */
  function Query(p: LinkRequest.BranchLinkRequest): (q: string)
    ensures '#' !in q
  {
    Percent.SerializedQueryPlain(QueryPairs(p));
    Percent.SerializeQuery(QueryPairs(p))
  }

  /** Whoever parses the query gets back the pairs it was built from, in order. */
  lemma QueryReadBack(p: LinkRequest.BranchLinkRequest)
    ensures Percent.ParseQuery(Query(p)) == QueryPairs(p)
  {
    Percent.ParseSerializeQuery(QueryPairs(p));
  }

  /** Looking a name up past pairs that do not carry it. */
  lemma {:induction false} GetPast(a: seq<Percent.Pair>, b: seq<Percent.Pair>, name: string)
    requires forall k :: 0 <= k < |a| ==> a[k].0 != name
    ensures Percent.Get(a + b, name) == Percent.Get(b, name)
  {
    if a == [] {
      assert a + b == b;
    } else {
      assert (a + b)[0] == a[0];
      assert (a + b)[1..] == a[1..] + b;
      assert forall k :: 0 <= k < |a[1..]| ==> a[1..][k] == a[k + 1];
      GetPast(a[1..], b, name);
    }
  }

  /** The value an optional field contributes, as `get` reads it back. */
  function Kept(v: Option<string>): (r: Option<string>)
    ensures r.Some? <==> Present(v)
    ensures r.Some? ==> r == v
  {
    if Present(v) then v else None
  }

  /** An optional pair ahead of pairs of other names is what `get` finds under its name. */
  lemma GetOptional(name: string, v: Option<string>, b: seq<Percent.Pair>)
    requires forall k :: 0 <= k < |b| ==> b[k].0 != name
    ensures Percent.Get(OptionalPair(name, v) + b, name) == Kept(v)
  {
    if Present(v) {
      var ob := OptionalPair(name, v) + b;
      assert ob[0] == (name, v.value);
    } else {
      assert OptionalPair(name, v) + b == b;
    }
  }

  /** An optional pair between pairs of other names is what `get` finds under its name. */
  lemma GetBetween(a: seq<Percent.Pair>, name: string, v: Option<string>, b: seq<Percent.Pair>)
    requires forall k :: 0 <= k < |a| ==> a[k].0 != name
    requires forall k :: 0 <= k < |b| ==> b[k].0 != name
    ensures Percent.Get(a + (OptionalPair(name, v) + b), name) == Kept(v)
  {
    GetPast(a, OptionalPair(name, v) + b, name);
    GetOptional(name, v, b);
  }

  /** The three fields every link carries, in their order. */
  function Head(p: LinkRequest.BranchLinkRequest): seq<Percent.Pair> {
    [("mode", p.mode), ("oobCode", p.oobCode), ("email", p.email)]
  }

  /** `mode`, `oobCode` and `email` are read back from the front of the query. */
  lemma HeadFields(p: LinkRequest.BranchLinkRequest, rest: seq<Percent.Pair>)
    ensures Percent.Get(Head(p) + rest, "mode") == Some(p.mode)
    ensures Percent.Get(Head(p) + rest, "oobCode") == Some(p.oobCode)
    ensures Percent.Get(Head(p) + rest, "email") == Some(p.email)
  {
    var q := Head(p) + rest;
    assert q[0] == ("mode", p.mode);
    assert q[1..] == [("oobCode", p.oobCode), ("email", p.email)] + rest;
    assert q[1..][1..] == [("email", p.email)] + rest;
    assert Percent.Get(q[1..], "email") == Percent.Get(q[1..][1..], "email") == Some(p.email);
  }

  /** The optional fields are read back under their names, each only when truthy. */
  lemma OptionalFields(p: LinkRequest.BranchLinkRequest)
    ensures Percent.Get(QueryPairs(p), "token") == Kept(p.token)
    ensures Percent.Get(QueryPairs(p), "uid") == Kept(p.uid)
    ensures Percent.Get(QueryPairs(p), "username") == Kept(p.username)
  {
    var h := Head(p);
    var t := OptionalPair("token", p.token);
    var u := OptionalPair("uid", p.uid);
    var n := OptionalPair("username", p.username);
    assert QueryPairs(p) == h + (t + (u + n));
    GetBetween(h, "token", p.token, u + n);
    assert QueryPairs(p) == (h + t) + (u + n);
    GetBetween(h + t, "uid", p.uid, n);
    assert QueryPairs(p) == (h + t + u) + (n + []);
    GetBetween(h + t + u, "username", p.username, []);
  }

  /** Each field of the request is read back under its own name; an optional one only when truthy. */
  lemma QueryFields(p: LinkRequest.BranchLinkRequest)
    ensures var q := Percent.ParseQuery(Query(p));
      Percent.Get(q, "mode") == Some(p.mode) && Percent.Get(q, "oobCode") == Some(p.oobCode)
      && Percent.Get(q, "email") == Some(p.email) && Percent.Get(q, "token") == Kept(p.token)
      && Percent.Get(q, "uid") == Kept(p.uid) && Percent.Get(q, "username") == Kept(p.username)
  {
    QueryReadBack(p);
    assert QueryPairs(p) == Head(p) + (QueryPairs(p)[3..]);
    HeadFields(p, QueryPairs(p)[3..]);
    OptionalFields(p);
  }

  /** `${webApp}/app/${action}` */
  function FallbackUrl(c: Environment.Config, p: LinkRequest.BranchLinkRequest): string {
    c.urls.webApp + "/app/" + Action(p.mode)
  }

  /** `${webApp}/app/${action}?${query}`: the fallback page with the query. */
  function DesktopUrl(c: Environment.Config, p: LinkRequest.BranchLinkRequest): (r: string)
    ensures r == FallbackUrl(c, p) + "?" + Query(p)
  {
    c.urls.webApp + "/app/" + Action(p.mode) + "?" + Query(p)
  }

  /** `${deepLink}${action}?${query}`: the link the iOS and Android apps open. */
  function AppUrl(c: Environment.Config, p: LinkRequest.BranchLinkRequest): string {
    c.urls.deepLink + Action(p.mode) + "?" + Query(p)
  }

  /** `theplot` is a valid, lower-case scheme with no special handling. */
  lemma AppScheme()
    ensures Urls.ValidScheme("theplot") && IsLower("theplot") && !Urls.IsSpecial("theplot")
  {
  }

  /** Both screens are host names without forbidden code points. */
  lemma ActionHost(mode: string)
    ensures forall k :: 0 <= k < |Action(mode)| ==> !Urls.IsForbiddenHostChar(Action(mode)[k])
  {
  }

  /** An app link to a screen parses to that screen as host, with the query and nothing else. */
  lemma AppLinkParse(mode: string, q: string)
    requires '#' !in q
    ensures Urls.Parse("theplot://" + Action(mode) + "?" + q)
      == Some(Urls.Url("theplot", "", "", Action(mode), None, "", Some(q), None))
  {
    var a := Action(mode);
    assert "theplot" + "://" + a + "?" + q == "theplot://" + a + "?" + q;
    AppScheme();
    ActionHost(mode);
    Urls.ParseOpaqueHostQuery("theplot", a, q);
  }

  /**
   * With the `theplot://` scheme every built-in configuration uses, the app
   * link parses to host `reset` or `verify` and its search parameters are
   * exactly the pairs of the request.
   */
  lemma AppLinkReadBack(c: Environment.Config, p: LinkRequest.BranchLinkRequest)
    requires c.urls.deepLink == "theplot://"
    ensures Urls.Parse(AppUrl(c, p)) == Some(Urls.Url("theplot", "", "", Action(p.mode), None, "", Some(Query(p)), None))
    ensures Urls.SearchParams(Urls.Parse(AppUrl(c, p)).value) == QueryPairs(p)
  {
    AppLinkParse(p.mode, Query(p));
    QueryReadBack(p);
  }

  /** The path and query of a desktop link hold no `#`, and the path no `?`. */
  lemma DesktopTail(mode: string, q: string)
    requires '#' !in q
    ensures var page := "app/" + Action(mode);
      '#' !in page && '?' !in page && '#' !in page + ("?" + q)
  {
  }

  /** After `https://` and a plain domain, a desktop link's query is the query it was built with. */
  lemma DesktopLinkParse(h: string, mode: string, q: string)
    requires Urls.PlainDomain(h) && '#' !in q
    ensures var u := Urls.Parse("https://" + h + "/" + ("app/" + Action(mode) + ("?" + q)));
      u.Some? && u.value.hostname == h && u.value.query == Some(q)
  {
    var page := "app/" + Action(mode);
    var tail := page + ("?" + q);
    DesktopTail(mode, q);
    Urls.ParseHttpsPlain(h, tail);
    Urls.BeforeAfterConcat(page, "?" + q, '?');
    Urls.QueryOnly(q);
  }

  lemma DesktopShape(h: string, a: string, q: string)
    ensures "https://" + h + "/app/" + a + "?" + q == "https://" + h + "/" + ("app/" + a + ("?" + q))
  {
    assert "/app/" == "/" + "app/";
  }

  /**
   * On a web app at `https://` and a plain domain, the desktop link parses
   * to that host and its search parameters are the pairs of the request.
   */
  lemma DesktopLinkReadBack(c: Environment.Config, p: LinkRequest.BranchLinkRequest, h: string)
    requires c.urls.webApp == "https://" + h && Urls.PlainDomain(h)
    ensures Urls.Parse(DesktopUrl(c, p)).Some?
    ensures Urls.Parse(DesktopUrl(c, p)).value.hostname == h
    ensures Urls.SearchParams(Urls.Parse(DesktopUrl(c, p)).value) == QueryPairs(p)
  {
    var q := Query(p);
    var a := Action(p.mode);
    DesktopShape(h, a, q);
    var url := "https://" + h + "/" + ("app/" + a + ("?" + q));
    assert DesktopUrl(c, p) == url;
    DesktopLinkParse(h, p.mode, q);
    var u := Urls.Parse(url).value;
    assert u.query == Some(q);
    QueryReadBack(p);
    assert Urls.SearchParams(u) == Percent.ParseQuery(q);
  }

  lemma ProductionWebApp()
    ensures Environment.Production.urls.webApp == "https://theplot.world"
  {
  }

  lemma ProductionHost()
    ensures "https://theplot.world" == "https://" + "theplot.world" && Urls.PlainDomain("theplot.world")
  {
  }

  lemma StagingWebApp()
    ensures Environment.Staging.urls.webApp == "https://staging.theplot.world"
  {
  }

  lemma StagingHost()
    ensures "https://staging.theplot.world" == "https://" + "staging.theplot.world"
    ensures Urls.PlainDomain("staging.theplot.world")
  {
  }

  /** The production desktop link opens `theplot.world` with the request's pairs. */
  lemma ProductionDesktopLink(p: LinkRequest.BranchLinkRequest)
    ensures Urls.Parse(DesktopUrl(Environment.Production, p)).Some?
    ensures Urls.Parse(DesktopUrl(Environment.Production, p)).value.hostname == "theplot.world"
    ensures Urls.SearchParams(Urls.Parse(DesktopUrl(Environment.Production, p)).value) == QueryPairs(p)
  {
    ProductionWebApp();
    ProductionHost();
    DesktopLinkReadBack(Environment.Production, p, "theplot.world");
  }

  /** The staging desktop link opens `staging.theplot.world` with the request's pairs. */
  lemma StagingDesktopLink(p: LinkRequest.BranchLinkRequest)
    ensures Urls.Parse(DesktopUrl(Environment.Staging, p)).Some?
    ensures Urls.Parse(DesktopUrl(Environment.Staging, p)).value.hostname == "staging.theplot.world"
    ensures Urls.SearchParams(Urls.Parse(DesktopUrl(Environment.Staging, p)).value) == QueryPairs(p)
  {
    StagingWebApp();
    StagingHost();
    DesktopLinkReadBack(Environment.Staging, p, "staging.theplot.world");
  }

  // ---------------------------------------------------------------------
  // The Branch request body
  // ---------------------------------------------------------------------

  /** The `data` object of the Branch request; an optional field is `None` where the spread adds nothing. */
  datatype LinkData = LinkData(
    mode: string,
    oobCode: string,
    email: string,
    environment: string,
    token: Option<string>,
    uid: Option<string>,
    username: Option<string>,
    desktopUrl: string,
    fallbackUrl: string,
    iosUrl: string,
    androidUrl: string,
    iosStoreUrl: string,
    androidStoreUrl: string,
    requestId: string,
    generatedAt: string,
    clientIp: string,
    userAgent: string,
    firebaseProject: string,
    appPackage: string)

  /** The body posted to Branch. */
  datatype BranchPayload = BranchPayload(
    branchKey: string,
    channel: string,
    feature: string,
    campaign: string,
    tags: seq<string>,
    data: LinkData,
    alias: string,
    linkType: nat)

  /** `${name}_${mode}_${now}_${suffix}`: unique per clock reading and random suffix. */
  function Alias(name: string, mode: string, now: nat, suffix: string): (r: string)
    ensures StartsWith(r, name + "_" + mode + "_")
  {
    var r := name + "_" + mode + "_" + NatToString(now) + "_" + suffix;
    assert r[..|name + "_" + mode + "_"|] == name + "_" + mode + "_";
    r
  }

  /** The link data for a validated request under a context. */
  function Data(p: LinkRequest.BranchLinkRequest, ctx: RequestContext): LinkData {
    var c := ctx.environment;
    LinkData(
      p.mode, p.oobCode, p.email, c.name,
      Kept(p.token), Kept(p.uid), Kept(p.username),
      DesktopUrl(c, p), FallbackUrl(c, p), AppUrl(c, p), AppUrl(c, p),
      c.urls.appStore, c.urls.playStore,
      ctx.requestId, ctx.timestamp, ctx.clientIp, ctx.userAgent,
      c.firebase.projectId, c.app.androidPackage)
  }

  /** The `branchPayload` of `generateBranchLink`, at clock reading `now` and with `suffix` for the random digits. */
  function Payload(p: LinkRequest.BranchLinkRequest, branchKey: string, ctx: RequestContext, now: nat, suffix: string): (r: BranchPayload)
    ensures r.feature == "password_reset" <==> Action(p.mode) == "reset"
    ensures StartsWith(r.alias, ctx.environment.name + "_" + p.mode + "_")
  {
    var name := ctx.environment.name;
    BranchPayload(
      branchKey, "email", Feature(p.mode), p.mode + "_email_" + name,
      [p.mode, "email_redirect", "api_generated", name],
      Data(p, ctx), Alias(name, p.mode, now, suffix), 0)
  }

  /**
   * The links in the payload agree with its data: both app links are the
   * same, and the fields read back from the app link's query are the
   * fields the data carries.
   */
  lemma LinksAgreeWithData(p: LinkRequest.BranchLinkRequest, ctx: RequestContext)
    requires ctx.environment.urls.deepLink == "theplot://"
    ensures var d := Data(p, ctx);
      d.iosUrl == d.androidUrl && Urls.Parse(d.iosUrl).Some?
      && var q := Urls.SearchParams(Urls.Parse(d.iosUrl).value);
      Percent.Get(q, "mode") == Some(d.mode) && Percent.Get(q, "oobCode") == Some(d.oobCode)
      && Percent.Get(q, "email") == Some(d.email) && Percent.Get(q, "token") == d.token
      && Percent.Get(q, "uid") == d.uid && Percent.Get(q, "username") == d.username
  {
    AppLinkReadBack(ctx.environment, p);
    QueryFields(p);
  }

  // ---------------------------------------------------------------------
  // CORS
  // ---------------------------------------------------------------------

  /** `https://link.theplot.world`, or `https://link-staging.theplot.world` for staging. */
  function LinkDomain(name: string): string {
    "https://link" + (if name == "staging" then "-staging" else "") + ".theplot.world"
  }

  /** The origins `OPTIONS` grants: the web app, its `www.` form and the Branch link domain. */
  function AllowedOrigins(c: Environment.Config): (r: seq<string>)
    ensures |r| == 3 && r[0] == c.urls.webApp && r[2] == LinkDomain(c.name)
  {
    [c.urls.webApp, ReplaceFirst(c.urls.webApp, "https://", "https://www."), LinkDomain(c.name)]
  }

  /** The `Access-Control-Allow-Origin` value: the request's origin when it is non-empty and allowed. */
  function AllowOrigin(c: Environment.Config, origin: Option<string>): (r: Option<string>)
    ensures r.Some? <==> Present(origin) && origin.value in AllowedOrigins(c)
    ensures r.Some? ==> r == origin
  {
    if Present(origin) && origin.value in AllowedOrigins(c) then origin else None
  }

  lemma ProductionWww()
    ensures ReplaceFirst("https://theplot.world", "https://", "https://www.") == "https://www.theplot.world"
  {
    ReplaceFirstPrefix("https://theplot.world", "https://", "https://www.");
  }

  lemma StagingWww()
    ensures ReplaceFirst("https://staging.theplot.world", "https://", "https://www.") == "https://www.staging.theplot.world"
  {
    ReplaceFirstPrefix("https://staging.theplot.world", "https://", "https://www.");
  }

  lemma DevelopmentWww()
    ensures ReplaceFirst("http://localhost:3000", "https://", "https://www.") == "http://localhost:3000"
  {
    var s := "http://localhost:3000";
    assert !Contains(s, "https://") by {
      forall i | 0 <= i <= |s| - 8 ensures !OccursAt(s, "https://", i) {
        var w := s[i..i + 8];
        assert w[4] == s[i + 4] && w[5] == s[i + 5];
        assert s[i + 4] != 's' || s[i + 5] != ':';
      }
    }
    ReplaceFirstAbsent(s, "https://", "https://www.");
  }

  lemma ProductionLinkDomain()
    ensures LinkDomain("production") == "https://link.theplot.world"
  {
  }

  lemma StagingLinkDomain()
    ensures LinkDomain("staging") == "https://link-staging.theplot.world"
  {
  }

  lemma DevelopmentLinkDomain()
    ensures LinkDomain("development") == "https://link.theplot.world"
  {
  }

  /** Production grants its web app, the `www.` form of it and `link.theplot.world`. */
  lemma ProductionOrigins()
    ensures AllowedOrigins(Environment.Production)
      == ["https://theplot.world", "https://www.theplot.world", "https://link.theplot.world"]
  {
    ProductionWebApp();
    ProductionWww();
    ProductionLinkDomain();
  }

  /** Staging grants its own web app, its `www.` form and `link-staging.theplot.world`. */
  lemma StagingOrigins()
    ensures AllowedOrigins(Environment.Staging)
      == ["https://staging.theplot.world", "https://www.staging.theplot.world", "https://link-staging.theplot.world"]
  {
    StagingWebApp();
    StagingWww();
    StagingLinkDomain();
  }

  lemma DevelopmentWebApp()
    ensures Environment.Development.urls.webApp == "http://localhost:3000"
  {
  }

  /**
   * Development's web app is `http://`, which the `www.` rewrite does not
   * match, so the list names `http://localhost:3000` twice.
   */
  lemma DevelopmentOrigins()
    ensures AllowedOrigins(Environment.Development)
      == ["http://localhost:3000", "http://localhost:3000", "https://link.theplot.world"]
  {
    DevelopmentWebApp();
    DevelopmentWww();
    DevelopmentLinkDomain();
  }

  /** Production does not grant the staging web app. */
  lemma ProductionRefusesStaging()
    ensures AllowOrigin(Environment.Production, Some("https://staging.theplot.world")) == None
  {
    ProductionOrigins();
  }

  /** Staging does not grant the production web app. */
  lemma StagingRefusesProduction()
    ensures AllowOrigin(Environment.Staging, Some("https://theplot.world")) == None
  {
    StagingOrigins();
  }
}

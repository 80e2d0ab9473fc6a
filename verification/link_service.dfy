/**
 * The link endpoint as a long-lived object: the rate-limit store and the
 * secret cache that survive from one request to the next, the steps of
 * `GET` in their order with the status each failure maps to, and the
 * `OPTIONS` preflight.
 *
 * Clocks, random digits, Firebase authentication, Secret Manager and the
 * Branch API come in as parameters: a clock reading, a suffix, whether
 * authentication succeeded, and the outcome of each attempt of a call.
 */
module LinkService {
  import opened Wrappers
  import opened Text
  import opened Errors
  import Environment
  import Percent
  import Urls
  import LinkRequest
  import LinkPayload
  import Retry

  // ---------------------------------------------------------------------
  // Rate limiting
  // ---------------------------------------------------------------------

  /** A client's window: requests admitted so far and when the window ends. */
  datatype Window = Window(count: nat, resetTime: int)

  type RateStore = map<string, Window>

  /** The outcome of one check: the new store and whether the request may go on. */
  datatype RateDecision = RateDecision(store: RateStore, allowed: bool)

  /**
   * `checkRateLimit(identifier)` at clock reading `now`: a client without a
   * live window opens one and is admitted; a client at the limit is refused
   * and nothing changes; otherwise the count goes up by one.
   */
  function RateStep(store: RateStore, identifier: string, limit: Environment.RateLimit, now: int): (d: RateDecision)
    ensures identifier in d.store
    ensures forall other :: other != identifier ==>
      (other in d.store <==> other in store) && (other in store ==> d.store[other] == store[other])
    ensures !d.allowed ==> d.store == store
    ensures !d.allowed <==>
      (identifier in store && now <= store[identifier].resetTime && store[identifier].count >= limit.requests)
  {
    if identifier !in store || store[identifier].resetTime < now then
      RateDecision(store[identifier := Window(1, now + limit.windowMs)], true)
    else if store[identifier].count >= limit.requests then
      RateDecision(store, false)
    else
      var w := store[identifier];
      RateDecision(store[identifier := Window(w.count + 1, w.resetTime)], true)
  }

  /** The most requests a window admits: the configured limit, but never fewer than the one that opens it. */
  function Cap(limit: Environment.RateLimit): nat {
    if limit.requests < 1 then 1 else limit.requests
  }

  /** Every window has admitted between one request and the cap. */
  predicate Bounded(store: RateStore, limit: Environment.RateLimit) {
    forall id :: id in store ==> 1 <= store[id].count <= Cap(limit)
  }

  /** A check keeps every window within the cap. */
  lemma RateStepBounded(store: RateStore, identifier: string, limit: Environment.RateLimit, now: int)
    requires Bounded(store, limit)
    ensures Bounded(RateStep(store, identifier, limit, now).store, limit)
  {
    var d := RateStep(store, identifier, limit, now);
    forall id | id in d.store ensures 1 <= d.store[id].count <= Cap(limit) {
      if id != identifier {
        assert d.store[id] == store[id];
      }
    }
  }

  /** Requests from one client at the given clock readings: the final store and how many were admitted. */
  function Run(store: RateStore, identifier: string, limit: Environment.RateLimit, times: seq<int>): (r: (RateStore, nat))
    ensures r.1 <= |times|
    decreases |times|
  {
    if times == [] then (store, 0)
    else
      var d := RateStep(store, identifier, limit, times[0]);
      var rest := Run(d.store, identifier, limit, times[1..]);
      (rest.0, rest.1 + if d.allowed then 1 else 0)
  }

  function Min(a: nat, b: nat): nat {
    if a <= b then a else b
  }

  /** What a live window still admits. */
  function Slack(w: Window, limit: Environment.RateLimit): nat {
    if w.count >= limit.requests then 0 else limit.requests - w.count
  }

  /**
   * While a window is live, requests are admitted until the count reaches
   * the limit and refused after that, and the window keeps its end.
   */
  lemma {:induction false} AdmittedWithinWindow(store: RateStore, identifier: string, limit: Environment.RateLimit, times: seq<int>)
    requires identifier in store
    requires forall k :: 0 <= k < |times| ==> times[k] <= store[identifier].resetTime
    ensures Run(store, identifier, limit, times).1 == Min(|times|, Slack(store[identifier], limit))
  {
    if times != [] {
      var d := RateStep(store, identifier, limit, times[0]);
      assert d.store[identifier].resetTime == store[identifier].resetTime;
      assert forall k :: 0 <= k < |times[1..]| ==> times[1..][k] == times[k + 1];
      AdmittedWithinWindow(d.store, identifier, limit, times[1..]);
    }
  }

  /**
   * A client without a live window gets at most `Cap` requests through
   * until the window it opens ends: `requests` per window, or one when the
   * limit is zero.
   */
  lemma FreshWindow(store: RateStore, identifier: string, limit: Environment.RateLimit, start: int, later: seq<int>)
    requires identifier !in store || store[identifier].resetTime < start
    requires forall k :: 0 <= k < |later| ==> later[k] <= start + limit.windowMs
    ensures Run(store, identifier, limit, [start] + later).1 == Min(1 + |later|, Cap(limit))
  {
    var times := [start] + later;
    var d := RateStep(store, identifier, limit, start);
    assert d.store[identifier] == Window(1, start + limit.windowMs);
    assert times[1..] == later;
    AdmittedWithinWindow(d.store, identifier, limit, later);
  }

  // ---------------------------------------------------------------------
  // Secret retrieval
  // ---------------------------------------------------------------------

  /** A cached secret and the clock reading at which it expires. */
  datatype CacheEntry = CacheEntry(value: string, expiry: int)

  type SecretCache = map<string, CacheEntry>

  /** How long a retrieved secret is cached: one hour, in milliseconds. */
  const CacheTtl: nat := 3600000

  /** `${projectId}:${secretName}` */
  function CacheKey(projectId: string, secretName: string): string {
    projectId + ":" + secretName
  }

  /** Different projects or secret names never share a cache entry when project ids hold no `:`. */
  lemma CacheKeyInjective(p1: string, s1: string, p2: string, s2: string)
    requires ':' !in p1 && ':' !in p2
    requires CacheKey(p1, s1) == CacheKey(p2, s2)
    ensures p1 == p2 && s1 == s2
  {
    var k := CacheKey(p1, s1);
    FirstIndexOfConcat(p1, ':', s1);
    FirstIndexOfConcat(p2, ':', s2);
    assert p1 == k[..|p1|] && p2 == k[..|p2|];
    assert s1 == k[|p1| + 1..] && s2 == k[|p2| + 1..];
  }

  /** The cache holds a live entry for the key. */
  predicate Live(cache: SecretCache, key: string, now: int) {
    key in cache && cache[key].expiry > now
  }

  /** Every cached secret is non-empty. */
  predicate CacheValid(cache: SecretCache) {
    forall key :: key in cache ==> cache[key].value != ""
  }

  /** One call to Secret Manager: it fails, or returns a version whose payload may be missing. */
  datatype SecretAccess = AccessFailed(message: string) | Version(payload: Option<string>)

  /** One attempt of the retried retrieval: a missing or empty payload throws `Secret <name> is empty`. */
  function SecretAttempt(secretName: string, a: SecretAccess): (r: Retry.Attempt<string>)
    ensures r.Returned? <==> a.Version? && LinkPayload.Present(a.payload)
    ensures r.Returned? ==> r.value != "" && a == Version(Some(r.value))
    ensures r.Threw? ==> r.thrown.Plain?
  {
    match a
    case AccessFailed(m) => Retry.Threw(Plain(m))
    case Version(payload) =>
      if LinkPayload.Present(payload) then Retry.Returned(payload.value)
      else Retry.Threw(Plain("Secret " + secretName + " is empty"))
  }

  /** Call `k` is the first to return a version with a payload, and that payload is `value`. */
  predicate FirstVersion(access: nat -> SecretAccess, k: nat, value: string) {
    access(k) == Version(Some(value))
    && forall j :: 1 <= j < k ==> !(access(j).Version? && LinkPayload.Present(access(j).payload))
  }

  /** The retried operation: attempt `k` makes the `k`-th call. */
  function SecretOp(secretName: string, access: nat -> SecretAccess): nat -> Retry.Attempt<string> {
    (k: nat) => SecretAttempt(secretName, access(k))
  }

  /** The first attempt to return is the first call that gave a version with a payload. */
  lemma SecretFirst(secretName: string, access: nat -> SecretAccess, k: nat, value: string)
    requires SecretOp(secretName, access)(k) == Retry.Returned(value)
    requires forall j :: 1 <= j < k ==> SecretOp(secretName, access)(j).Threw?
    ensures FirstVersion(access, k, value)
  {
    assert SecretOp(secretName, access)(k) == SecretAttempt(secretName, access(k));
    forall j | 1 <= j < k
      ensures !(access(j).Version? && LinkPayload.Present(access(j).payload))
    {
      assert SecretOp(secretName, access)(j) == SecretAttempt(secretName, access(j));
    }
  }

  /**
   * The secret `getSecret` yields at clock reading `now`: the live cached
   * value, or else the first value Secret Manager returns within three calls.
   */
  function SecretLookup(cache: SecretCache, ctx: LinkPayload.RequestContext, secretName: string,
                        access: nat -> SecretAccess, now: int): Option<string>
  {
    var key := CacheKey(ctx.environment.firebase.projectId, secretName);
    if Live(cache, key, now) then Some(cache[key].value)
    else Retry.FirstReturned(SecretOp(secretName, access), 1, 3)
  }

  /** The cache after `getSecret`: a fetched secret is stored for an hour; nothing else changes it. */
  function CacheAfter(cache: SecretCache, ctx: LinkPayload.RequestContext, secretName: string,
                      access: nat -> SecretAccess, now: int): SecretCache
  {
    var key := CacheKey(ctx.environment.firebase.projectId, secretName);
    if Live(cache, key, now) then cache
    else match Retry.FirstReturned(SecretOp(secretName, access), 1, 3)
      case None => cache
      case Some(v) => cache[key := CacheEntry(v, now + CacheTtl)]
  }

  /**
   * The retried retrieval inside `getSecret`: up to three calls to Secret
   * Manager, one second apart and doubling; the first payload returned.
   */
  method FetchSecret(secretName: string, access: nat -> SecretAccess) returns (r: Option<string>)
    ensures r == Retry.FirstReturned(SecretOp(secretName, access), 1, 3)
  {
    var outcome, attempts, waits := Retry.WithRetry(SecretOp(secretName, access), 3, 1000);
    if outcome.Failure? {
      return None;
    }
    return Some(outcome.value);
  }

  /**
   * A live entry answers without any call and leaves the cache as it is;
   * a failed retrieval leaves it as it is too.
   */
  lemma LookupLive(cache: SecretCache, ctx: LinkPayload.RequestContext, secretName: string,
                   access: nat -> SecretAccess, now: int)
    ensures var key := CacheKey(ctx.environment.firebase.projectId, secretName);
      Live(cache, key, now) ==> SecretLookup(cache, ctx, secretName, access, now) == Some(cache[key].value)
    ensures SecretLookup(cache, ctx, secretName, access, now).None? ==> CacheAfter(cache, ctx, secretName, access, now) == cache
    ensures var key := CacheKey(ctx.environment.firebase.projectId, secretName);
      Live(cache, key, now) ==> CacheAfter(cache, ctx, secretName, access, now) == cache
  {
  }

  /**
   * Without a live entry: the retrieval succeeds exactly when one of three
   * calls returns a payload; it yields the first such payload, which is not
   * empty, and caches it for an hour under the project's key.
   */
  lemma LookupFetched(cache: SecretCache, ctx: LinkPayload.RequestContext, secretName: string,
                      access: nat -> SecretAccess, now: int)
    requires !Live(cache, CacheKey(ctx.environment.firebase.projectId, secretName), now)
    ensures var r := SecretLookup(cache, ctx, secretName, access, now);
      r.Some? <==> Retry.SucceedsWithin(SecretOp(secretName, access), 3)
    ensures var r := SecretLookup(cache, ctx, secretName, access, now);
      r.Some? ==> r.value != "" && exists k :: 1 <= k <= 3 && FirstVersion(access, k, r.value)
    ensures var r := SecretLookup(cache, ctx, secretName, access, now);
      r.Some? ==> CacheAfter(cache, ctx, secretName, access, now)
                  == cache[CacheKey(ctx.environment.firebase.projectId, secretName) := CacheEntry(r.value, now + CacheTtl)]
  {
    var op := SecretOp(secretName, access);
    var r := Retry.FirstReturned(op, 1, 3);
    if r.Some? {
      var k :| 1 <= k <= 3 && op(k) == Retry.Returned(r.value) && forall i :: 1 <= i < k ==> op(i).Threw?;
      SecretFirst(secretName, access, k, r.value);
    }
  }

  /** Retrieval keeps every cached secret non-empty. */
  lemma LookupValid(cache: SecretCache, ctx: LinkPayload.RequestContext, secretName: string,
                    access: nat -> SecretAccess, now: int)
    requires CacheValid(cache)
    ensures CacheValid(CacheAfter(cache, ctx, secretName, access, now))
    ensures var r := SecretLookup(cache, ctx, secretName, access, now);
      r.Some? ==> r.value != ""
  {
    var key := CacheKey(ctx.environment.firebase.projectId, secretName);
    if !Live(cache, key, now) {
      LookupFetched(cache, ctx, secretName, access, now);
    }
  }

  /** The error every failed retrieval becomes. */
  function SecretError(secretName: string): (e: ApiError)
    ensures e.statusCode == 503 && e.code == "SECRET_RETRIEVAL_FAILED"
  {
    ApiError("Failed to retrieve secret: " + secretName, 503, "SECRET_RETRIEVAL_FAILED")
  }

  /** The error of a failed Firebase authentication. */
  function AuthError(name: string): (e: ApiError)
    ensures e.statusCode == 503 && e.code == "AUTH_FAILED"
  {
    ApiError("Authentication failed for " + name + " environment", 503, "AUTH_FAILED")
  }

  /** The error of a refused request. */
  function RateLimitError(): (e: ApiError)
    ensures e.statusCode == 429 && e.code == "RATE_LIMIT_EXCEEDED"
  {
    ApiError("Rate limit exceeded. Please wait before trying again.", 429, "RATE_LIMIT_EXCEEDED")
  }

  // ---------------------------------------------------------------------
  // Branch link generation
  // ---------------------------------------------------------------------

  /**
   * One POST to Branch: it does not complete, it comes back with a status
   * other than 2xx and perhaps a readable body, or it comes back with a
   * JSON body that may lack a `url`.
   */
  datatype Upstream = Unreachable(message: string) | Rejected(status: nat, text: Option<string>) | Accepted(url: Option<string>)

  /** One attempt of the retried POST. */
  function PostAttempt(u: Upstream): (r: Retry.Attempt<string>)
    ensures r.Returned? <==> u.Accepted? && LinkPayload.Present(u.url)
    ensures r.Returned? ==> r.value != "" && u == Accepted(Some(r.value))
    ensures r.Threw? ==> r.thrown.Plain?
  {
    match u
    case Unreachable(m) => Retry.Threw(Plain(m))
    case Rejected(status, text) =>
      Retry.Threw(Plain("Branch API error " + NatToString(status) + ": " + text.GetOr("Unable to read response")))
    case Accepted(url) =>
      if LinkPayload.Present(url) then Retry.Returned(url.value)
      else Retry.Threw(Plain("Branch API returned invalid response - missing URL"))
  }

  /** The retried operation: attempt `k` posts the payload for the `k`-th time. */
  function PostOp(payload: LinkPayload.BranchPayload, post: (LinkPayload.BranchPayload, nat) -> Upstream): nat -> Retry.Attempt<string> {
    (k: nat) => PostAttempt(post(payload, k))
  }

  /** Post `k` is the first that Branch answers with a `url`, and that `url` is `url`. */
  predicate FirstAccepted(payload: LinkPayload.BranchPayload, post: (LinkPayload.BranchPayload, nat) -> Upstream,
                          k: nat, url: string) {
    post(payload, k) == Accepted(Some(url))
    && forall j :: 1 <= j < k ==> !(post(payload, j).Accepted? && LinkPayload.Present(post(payload, j).url))
  }

  /** The link `generateBranchLink` yields: the first `url` Branch returns within three posts. */
  function LinkLookup(p: LinkRequest.BranchLinkRequest, branchKey: string, ctx: LinkPayload.RequestContext,
                      post: (LinkPayload.BranchPayload, nat) -> Upstream, now: nat, suffix: string): Option<string>
  {
    Retry.FirstReturned(PostOp(LinkPayload.Payload(p, branchKey, ctx, now, suffix), post), 1, 3)
  }

  /**
   * `generateBranchLink`: build the payload, post it up to three times, and
   * return the first `url` Branch gives back. Its failures are plain errors,
   * never an `APIError`.
   */
  method GenerateBranchLink(p: LinkRequest.BranchLinkRequest, branchKey: string, ctx: LinkPayload.RequestContext,
                            post: (LinkPayload.BranchPayload, nat) -> Upstream, now: nat, suffix: string)
    returns (r: Result<string, Thrown>)
    ensures var payload := LinkPayload.Payload(p, branchKey, ctx, now, suffix);
      r.Success? <==> Retry.SucceedsWithin(PostOp(payload, post), 3)
    ensures var payload := LinkPayload.Payload(p, branchKey, ctx, now, suffix);
      r.Success? ==> r.value != "" && exists k :: 1 <= k <= 3 && FirstAccepted(payload, post, k, r.value)
    ensures r.Success? ==> Some(r.value) == LinkLookup(p, branchKey, ctx, post, now, suffix)
    ensures r.Failure? ==> r.error.Plain?
  {
    var payload := LinkPayload.Payload(p, branchKey, ctx, now, suffix);
    var outcome, attempts, waits := Retry.WithRetry(PostOp(payload, post), 3, 1000);
    if outcome.Success? {
      assert PostOp(payload, post)(attempts) == PostAttempt(post(payload, attempts));
      forall j | 1 <= j < attempts
        ensures !(post(payload, j).Accepted? && LinkPayload.Present(post(payload, j).url))
      {
        assert PostOp(payload, post)(j).Threw?;
        assert PostOp(payload, post)(j) == PostAttempt(post(payload, j));
      }
      assert FirstAccepted(payload, post, attempts, outcome.value);
      return Success(outcome.value);
    }
    assert PostOp(payload, post)(attempts) == PostAttempt(post(payload, attempts));
    return Failure(outcome.error);
  }

  // ---------------------------------------------------------------------
  // Request context
  // ---------------------------------------------------------------------

  /**
   * The context `buildRequestContext` builds, or `None` where it throws: the
   * environment cannot be selected or lacks a required field.
   */
  function ContextOf(env: map<string, string>, requestUrl: string, headers: LinkPayload.Headers,
                     now: nat, suffix: string, timestamp: string): Option<LinkPayload.RequestContext>
  {
    match Environment.GetEnvironmentConfig(env, Some(requestUrl))
    case Failure(_) => None
    case Success(c) =>
      if Environment.HasRequiredFields(c) then Some(LinkPayload.Context(c, headers, now, suffix, timestamp))
      else None
  }

  /**
   * `buildRequestContext`: select and check the configuration, then read the
   * client's address and user agent. Its failure is the message of the
   * error the selection or the check throws.
   */
  method BuildRequestContext(env: map<string, string>, requestUrl: string, headers: LinkPayload.Headers,
                             now: nat, suffix: string, timestamp: string)
    returns (r: Result<LinkPayload.RequestContext, string>)
    ensures r.Success? <==> ContextOf(env, requestUrl, headers, now, suffix, timestamp).Some?
    ensures r.Success? ==> r.value == ContextOf(env, requestUrl, headers, now, suffix, timestamp).value
    ensures r.Success? ==> r.value.clientIp != "" && Environment.HasRequiredFields(r.value.environment)
    ensures Environment.GetEnvironmentConfig(env, Some(requestUrl)).Failure? ==>
      r == Failure(Environment.GetEnvironmentConfig(env, Some(requestUrl)).error)
  {
    var selected := Environment.GetEnvironmentConfig(env, Some(requestUrl));
    if selected.Failure? {
      return Failure(selected.error);
    }
    var environment := selected.value;
    var valid := Environment.ValidateEnvironmentConfig(environment);
    if valid.Failure? {
      return Failure(valid.error);
    }
    return Success(LinkPayload.Context(environment, headers, now, suffix, timestamp));
  }

  // ---------------------------------------------------------------------
  // Responses
  // ---------------------------------------------------------------------

  /** The `metadata` of a successful response. */
  datatype Metadata = Metadata(
    requestId: string,
    mode: string,
    action: string,
    environment: string,
    projectId: string,
    duration: nat,
    timestamp: string)

  /** A JSON body: the link with its metadata, or the error. */
  datatype Body =
    | Linked(url: string, metadata: Metadata)
    | Failed(code: string, message: string, requestId: string, environment: string)

  datatype Response = Response(status: nat, body: Body)

  /** `value || 'unknown'` */
  function OrUnknown(value: string): (r: string)
    ensures r != ""
    ensures value != "" ==> r == value
  {
    if value == "" then "unknown" else value
  }

  /**
   * The `catch` of `GET`: an `APIError` keeps its status, code and message;
   * anything else is a 500 with the generic message. The request id and the
   * environment are those of the context when it was built.
   */
  function ErrorResponse(t: Thrown, ctx: Option<LinkPayload.RequestContext>): (r: Response)
    ensures r.body.Failed? && r.body.requestId != "" && r.body.environment != ""
    ensures t.Api? ==> r.status == t.error.statusCode && r.body.code == t.error.code && r.body.message == t.error.message
    ensures !t.Api? ==> r.status == 500 && r.body.code == "INTERNAL_ERROR" && r.body.message == InternalMessage
    ensures ctx.None? ==> r.body.requestId == "unknown" && r.body.environment == "unknown"
  {
    var requestId := if ctx.Some? then OrUnknown(ctx.value.requestId) else "unknown";
    var environment := if ctx.Some? then OrUnknown(ctx.value.environment.name) else "unknown";
    match t
    case Api(e) => Response(e.statusCode, Failed(e.code, e.message, requestId, environment))
    case _ => Response(500, Failed("INTERNAL_ERROR", InternalMessage, requestId, environment))
  }

  /** The steps of `GET`, in order; a response lists those it completed. */
  datatype Stage = ContextBuilt | RateAdmitted | Validated | Authenticated | SecretRetrieved | LinkGenerated

  const AllStages: seq<Stage> := [ContextBuilt, RateAdmitted, Validated, Authenticated, SecretRetrieved, LinkGenerated]

  /** `Object.fromEntries(new URL(req.url).searchParams)`, or `None` where the URL constructor throws. */
  function RawParams(requestUrl: string): Option<LinkRequest.Fields> {
    match Urls.Parse(requestUrl)
    case None => None
    case Some(u) => Some(Percent.ToMap(Urls.SearchParams(u)))
  }

  /** The preflight answer: status 200 and the allowed origin, if any. */
  datatype Preflight = Preflight(status: nat, allowOrigin: Option<string>)

  /**
   * `OPTIONS`: build the context, then grant the request's `origin` when it
   * is on the allow-list. A failure to build the context is not caught.
   */
  method Options(env: map<string, string>, requestUrl: string, headers: LinkPayload.Headers,
                 now: nat, suffix: string, timestamp: string)
    returns (r: Result<Preflight, string>)
    ensures r.Success? <==> ContextOf(env, requestUrl, headers, now, suffix, timestamp).Some?
    ensures r.Success? ==> r.value.status == 200
    ensures r.Success? ==>
      (r.value.allowOrigin == LinkPayload.AllowOrigin(ContextOf(env, requestUrl, headers, now, suffix, timestamp).value.environment,
                                                      LinkPayload.Header(headers, "origin")))
  {
    var context := BuildRequestContext(env, requestUrl, headers, now, suffix, timestamp);
    if context.Failure? {
      return Failure(context.error);
    }
    var origin := LinkPayload.AllowOrigin(context.value.environment, LinkPayload.Header(headers, "origin"));
    return Success(Preflight(200, origin));
  }

  // ---------------------------------------------------------------------
  // The endpoint
  // ---------------------------------------------------------------------

  /** The module-level state of the route: the rate-limit store and the secret cache. */
  class LinkEndpoint {
    var rateLimitStore: RateStore
    var secretCache: SecretCache

    /** Both maps start empty when the module is loaded. */
    constructor()
      ensures rateLimitStore == map[] && secretCache == map[]
    {
      rateLimitStore := map[];
      secretCache := map[];
    }

    /** `checkRateLimit(identifier, config)` at clock reading `now`. */
    method CheckRateLimit(identifier: string, config: Environment.Config, now: int) returns (allowed: bool)
      modifies this
      ensures RateDecision(rateLimitStore, allowed) == RateStep(old(rateLimitStore), identifier, config.features.rateLimit, now)
      ensures secretCache == old(secretCache)
    {
      var requests := config.features.rateLimit.requests;
      var windowMs := config.features.rateLimit.windowMs;
      if identifier !in rateLimitStore || rateLimitStore[identifier].resetTime < now {
        rateLimitStore := rateLimitStore[identifier := Window(1, now + windowMs)];
        return true;
      }
      var current := rateLimitStore[identifier];
      if current.count >= requests {
        return false;
      }
      rateLimitStore := rateLimitStore[identifier := Window(current.count + 1, current.resetTime)];
      return true;
    }

    /**
     * `getSecret(secretName, auth, context)` at clock reading `now`: a live
     * cache entry is returned as it is; otherwise up to three calls to
     * Secret Manager, and the value they return is cached for an hour.
     */
    method GetSecret(secretName: string, ctx: LinkPayload.RequestContext, access: nat -> SecretAccess, now: int)
      returns (r: Result<string, ApiError>)
      modifies this
      ensures rateLimitStore == old(rateLimitStore)
      ensures r.Success? <==> SecretLookup(old(secretCache), ctx, secretName, access, now).Some?
      ensures r.Success? ==> r.value == SecretLookup(old(secretCache), ctx, secretName, access, now).value
      ensures r.Failure? ==> r.error == SecretError(secretName)
      ensures secretCache == CacheAfter(old(secretCache), ctx, secretName, access, now)
    {
      var key := CacheKey(ctx.environment.firebase.projectId, secretName);
      if key in secretCache && secretCache[key].expiry > now {
        return Success(secretCache[key].value);
      }
      var fetched := FetchSecret(secretName, access);
      if fetched.None? {
        return Failure(SecretError(secretName));
      }
      secretCache := secretCache[key := CacheEntry(fetched.value, now + CacheTtl)];
      return Success(fetched.value);
    }
  
    /**
     * The steps after validation, from authentication to the link: `n` is
     * the number of steps of `AllStages` completed, from three on.
     */
    method Fulfil(ctx: LinkPayload.RequestContext, params: LinkRequest.BranchLinkRequest, authenticated: bool,
                  access: nat -> SecretAccess, post: (LinkPayload.BranchPayload, nat) -> Upstream,
                  now: nat, elapsed: nat, aliasSuffix: string)
      returns (response: Response, n: nat)
      modifies this
      requires params.mode in LinkRequest.KnownModes
      ensures 3 <= n <= 6
      ensures rateLimitStore == old(rateLimitStore)
      ensures UpstreamOutcome(ctx, params, authenticated, access, post, now, elapsed, aliasSuffix,
                              old(secretCache), secretCache, n, response)
    {
      if !authenticated {
        return ErrorResponse(Api(AuthError(ctx.environment.name)), Some(ctx)), 3;
      }
      var branchKey := GetSecret(ctx.environment.secrets.branchKey, ctx, access, now);
      if branchKey.Failure? {
        return ErrorResponse(Api(branchKey.error), Some(ctx)), 4;
      }
      var link := GenerateBranchLink(params, branchKey.value, ctx, post, now, aliasSuffix);
      if link.Failure? {
        return ErrorResponse(link.error, Some(ctx)), 5;
      }
      var metadata := Metadata(ctx.requestId, params.mode, LinkPayload.Action(params.mode), ctx.environment.name,
                               ctx.environment.firebase.projectId, elapsed, ctx.timestamp);
      return Response(200, Linked(link.value, metadata)), 6;
    }

    /** The steps after the rate check: read the query, validate it, then `Fulfil`. */
    method Process(ctx: LinkPayload.RequestContext, requestUrl: string, authenticated: bool,
                   access: nat -> SecretAccess, post: (LinkPayload.BranchPayload, nat) -> Upstream,
                   now: nat, elapsed: nat, aliasSuffix: string)
      returns (response: Response, n: nat)
      modifies this
      ensures 2 <= n <= 6
      ensures rateLimitStore == old(rateLimitStore)
      ensures ValidationOutcome(ctx, requestUrl, n, response)
      ensures UpstreamOutcome(ctx, Requested(requestUrl), authenticated, access, post, now, elapsed, aliasSuffix,
                              old(secretCache), secretCache, n, response)
    {
      var raw := RawParams(requestUrl);
      if raw.None? {
        return ErrorResponse(Plain("Invalid URL"), Some(ctx)), 2;
      }
      var validated := LinkRequest.ValidateBranchLinkRequest(raw.value, ctx.environment.name);
      if validated.Failure? {
        return ErrorResponse(Api(validated.error), Some(ctx)), 2;
      }
      response, n := Fulfil(ctx, validated.value, authenticated, access, post, now, elapsed, aliasSuffix);
    }

    /** The steps after the context: the rate check, then `Process`. */
    method Serve(ctx: LinkPayload.RequestContext, requestUrl: string, authenticated: bool,
                 access: nat -> SecretAccess, post: (LinkPayload.BranchPayload, nat) -> Upstream,
                 now: nat, elapsed: nat, aliasSuffix: string)
      returns (response: Response, n: nat)
      modifies this
      ensures 1 <= n <= 6
      ensures Served(ctx, now, requestUrl, authenticated, access, post, elapsed, aliasSuffix,
                     old(rateLimitStore), rateLimitStore, old(secretCache), secretCache, n, response)
    {
      var allowed := CheckRateLimit(ctx.clientIp, ctx.environment, now);
      if !allowed {
        return ErrorResponse(Api(RateLimitError()), Some(ctx)), 1;
      }
      response, n := Process(ctx, requestUrl, authenticated, access, post, now, elapsed, aliasSuffix);
    }

    /**
     * `GET` at clock reading `now`, answering after `elapsed` milliseconds.
     * `stages` lists the steps that completed, in order; the first failing
     * step decides the response.
     */
    method Get(env: map<string, string>, requestUrl: string, headers: LinkPayload.Headers, authenticated: bool,
               access: nat -> SecretAccess, post: (LinkPayload.BranchPayload, nat) -> Upstream,
               now: nat, elapsed: nat, idSuffix: string, aliasSuffix: string, timestamp: string)
      returns (response: Response, stages: seq<Stage>)
      modifies this
      ensures |stages| <= |AllStages| && stages == AllStages[..|stages|]
      ensures Outcome(ContextOf(env, requestUrl, headers, now, idSuffix, timestamp), now, requestUrl, authenticated,
                      access, post, elapsed, aliasSuffix,
                      old(rateLimitStore), rateLimitStore, old(secretCache), secretCache, response, stages)
    {
      ghost var expected := ContextOf(env, requestUrl, headers, now, idSuffix, timestamp);
      var built := BuildRequestContext(env, requestUrl, headers, now, idSuffix, timestamp);
      if built.Failure? {
        assert expected.None?;
        return ErrorResponse(Plain(built.error), None), [];
      }
      assert expected == Some(built.value);
      var n;
      response, n := Serve(built.value, requestUrl, authenticated, access, post, now, elapsed, aliasSuffix);
      stages := AllStages[..n];
      assert |stages| == n;
    }
  }

  /**
   * What `GET` answers given the context it builds, if any: without one,
   * a 500 that changes nothing; with one, the outcome of each later step.
   */
  predicate Outcome(ctx: Option<LinkPayload.RequestContext>, now: nat, requestUrl: string, authenticated: bool,
                    access: nat -> SecretAccess, post: (LinkPayload.BranchPayload, nat) -> Upstream,
                    elapsed: nat, aliasSuffix: string,
                    oldStore: RateStore, store: RateStore, oldCache: SecretCache, cache: SecretCache,
                    response: Response, stages: seq<Stage>) {
    (ctx.None? <==> stages == [])
    && (ctx.None? ==>
          response == Response(500, Failed("INTERNAL_ERROR", InternalMessage, "unknown", "unknown"))
          && store == oldStore && cache == oldCache)
    && (ctx.Some? ==>
          Served(ctx.value, now, requestUrl, authenticated, access, post, elapsed, aliasSuffix,
                 oldStore, store, oldCache, cache, |stages|, response))
  }

  /** Once the context is built, the outcome of each later step, `n` of them completed. */
  predicate Served(ctx: LinkPayload.RequestContext, now: nat, requestUrl: string, authenticated: bool,
                   access: nat -> SecretAccess, post: (LinkPayload.BranchPayload, nat) -> Upstream,
                   elapsed: nat, aliasSuffix: string,
                   oldStore: RateStore, store: RateStore, oldCache: SecretCache, cache: SecretCache,
                   n: nat, response: Response) {
    RateOutcome(ctx, now, oldStore, store, n, response)
    && (n == 1 ==> cache == oldCache)
    && ValidationOutcome(ctx, requestUrl, n, response)
    && UpstreamOutcome(ctx, Requested(requestUrl), authenticated, access, post, now, elapsed, aliasSuffix,
                       oldCache, cache, n, response)
  }

  /** Once the context is built, the rate check admits the request or answers 429 and leaves the rest untouched. */
  predicate RateOutcome(ctx: LinkPayload.RequestContext, now: int, oldStore: RateStore, store: RateStore, n: nat, response: Response) {
    var d := RateStep(oldStore, ctx.clientIp, ctx.environment.features.rateLimit, now);
    store == d.store
    && (n >= 2 <==> d.allowed)
    && (n == 1 ==> response == ErrorResponse(Api(RateLimitError()), Some(ctx)))
  }

  /**
   * Once admitted, the request goes on exactly when its query is readable
   * and passes every check; a rejected query answers 400.
   */
  predicate ValidationOutcome(ctx: LinkPayload.RequestContext, requestUrl: string, n: nat, response: Response) {
    n >= 2 ==>
      var raw := RawParams(requestUrl);
      (n >= 3 <==> raw.Some? && LinkRequest.Acceptable(raw.value, ctx.environment.name))
      && (n == 2 && raw.Some? ==> response.status == 400 && response.body.Failed? && response.body.code == "VALIDATION_ERROR")
      && (n == 2 && raw.None? ==> response == ErrorResponse(Plain("Invalid URL"), Some(ctx)))
  }

  /** The request the query of `requestUrl` asks for, once validation accepts it. */
  function Requested(requestUrl: string): LinkRequest.BranchLinkRequest {
    LinkRequest.Normalised(RawParams(requestUrl).GetOr(map[]))
  }

  /**
   * Once validated: a failed authentication answers 503; the Branch key is
   * then looked up as `getSecret` does, and its failure answers 503; the
   * link is then the first `url` Branch returns, and its failure answers
   * 500; the cache is what the lookup leaves; only a completed run answers
   * 200, with that link and the request's metadata.
   */
  predicate UpstreamOutcome(ctx: LinkPayload.RequestContext, params: LinkRequest.BranchLinkRequest, authenticated: bool,
                            access: nat -> SecretAccess, post: (LinkPayload.BranchPayload, nat) -> Upstream,
                            now: nat, elapsed: nat, aliasSuffix: string,
                            oldCache: SecretCache, cache: SecretCache, n: nat, response: Response) {
    var keyName := ctx.environment.secrets.branchKey;
    var branchKey := SecretLookup(oldCache, ctx, keyName, access, now);
    (n >= 3 ==> (n >= 4 <==> authenticated))
    && (n == 3 ==> response == ErrorResponse(Api(AuthError(ctx.environment.name)), Some(ctx)))
    && (n <= 4 ==> cache == oldCache)
    && (n >= 4 ==> (n >= 5 <==> branchKey.Some?) && cache == CacheAfter(oldCache, ctx, keyName, access, now))
    && (n == 4 ==> response == ErrorResponse(Api(SecretError(keyName)), Some(ctx)))
    && (n >= 5 ==>
          branchKey.Some?
          && var link := LinkLookup(params, branchKey.value, ctx, post, now, aliasSuffix);
          (n == 6 <==> link.Some?)
          && (n == 5 ==> response.status == 500 && response.body.Failed? && response.body.code == "INTERNAL_ERROR")
          && (n == 6 ==>
                response == Response(200, Linked(link.value, Metadata(
                  ctx.requestId, params.mode, LinkPayload.Action(params.mode), ctx.environment.name,
                  ctx.environment.firebase.projectId, elapsed, ctx.timestamp)))))
    && (response.status == 200 <==> n == 6)
    && (n == 6 ==> response.body.url != "" && params.mode in LinkRequest.KnownModes)
  }
}

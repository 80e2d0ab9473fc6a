# The Plot: redirect page, link endpoint and environment selection

A Dafny model of the three pieces of The Plot's website that carry logic:

- **The redirect page** (`app/redirect/page.tsx`). Links in authentication emails point to this page. It unwraps links that mail-security gateways rewrote, and re-reads the action parameters from the unwrapped link. It then sends the browser to one of four places:
  - a Branch deep link;
  - the app's `theplot://` fallback;
  - a target that passes the open-redirect allow-list (`isValidDeepLink`);
  - the home page.
- **The `getBranchLink` endpoint** (`app/api/getBranchLink/route.ts`).
  - It builds a request context: environment, client address and request id.
  - It rate-limits by client address, with a fixed window kept in an in-memory map.
  - It validates the query and retrieves the Branch key through a one-hour secret cache.
  - It asks Branch for a link, with retries and exponential backoff.
  - It maps every failure to a status and an error code.
  - Its `OPTIONS` handler answers CORS preflights from a per-environment origin allow-list.
- **The environment selector** (`app/config/environment.ts`).
  - It holds three built-in configurations.
  - A precedence chain picks one: explicit variable, then deployment platform, then request hostname, then default.
  - It normalises environment names.
  - A dotted-path lookup checks the required fields.

The browser and server built-ins that these files rely on are modelled too, as far as the files observe them:

- `new URL(...)` and `URLSearchParams`, modelled after the WHATWG URL Standard;
- `encodeURIComponent` / `decodeURIComponent` (section 19.2.6 of ECMA-262), over UTF-8;
- `atob`, the WHATWG forgiving-base64 decoder, with `btoa` as its partner;
- `String.prototype.trim`, `toLowerCase` and `split`.

Module layout:

| module | models |
|---|---|
| `Wrappers` (wrappers.dfy) | `Option` / `Result` |
| `Text` (text.dfy) | string helpers: split/join, trim, ASCII lower-casing, replace |
| `Utf8` (utf8.dfy) | UTF-8 encoding of one character and its decoder |
| `Percent` (percent.dfy) | percent-encoding and the form-urlencoded query parser and serializer |
| `Base64` (base64.dfy) | `atob` and `btoa` |
| `Urls` (url.dfy) | `new URL(s)` |
| `Redirect` (redirect.dfy) | `app/redirect/page.tsx` |
| `Environment` (environment.dfy) | `app/config/environment.ts` |
| `Errors` (errors.dfy) | `APIError` and thrown values |
| `LinkRequest` (link_request.dfy) | `validateBranchLinkRequest` |
| `Retry` (retry.dfy) | `withRetry` |
| `LinkPayload` (link_payload.dfy) | the request context fields, the Branch payload and its URLs, the CORS origins |
| `LinkService` (link_service.dfy) | the rate limiter, the secret cache, `generateBranchLink`, `buildRequestContext`, `GET` and `OPTIONS` |

State that the server keeps between requests is modelled as the fields of the class `LinkService.LinkEndpoint`:

- `rateLimitStore`, a `map`;
- `secretCache`, a `map`.

The methods that touch these fields declare `modifies this` and state the new maps.

Everything outside the process is a parameter of the operation that uses it:

- the clock (`now`, `elapsed`, `timestamp`);
- the random suffixes;
- the process environment (`env`);
- the Secret Manager and Branch responses, given per attempt;
- whether Google authentication succeeds;
- the Branch SDK outcome on the page.

## Model

| member | source | states |
|---|---|---|
| Text.SplitJoin | app/config/environment.ts:220 | splitting the join of separator-free parts on that separator gives the parts back |
| Text.SplitFirst | app/api/getBranchLink/route.ts:72 | the first piece of `split(',')` is everything before the first comma |
| Text.Trim | app/api/getBranchLink/route.ts:72 | `trim()` leaves no white space at either end |
| Text.TrimIdempotent | app/config/environment.ts:179 | trimming twice equals trimming once |
| Text.TrimPadding | app/config/environment.ts:179 | white space added at either end does not change the trimmed result |
| Text.LowerTrimCommute | app/config/environment.ts:179 | lower-casing and trimming commute, so `toLowerCase().trim()` equals `trim().toLowerCase()` |
| Text.TrimLowerIsLower | app/api/getBranchLink/route.ts:141 | the normalised email has no upper-case letter |
| Text.ReplaceFirstPrefix | app/api/getBranchLink/route.ts:484 | `replace('https://', …)` on a string starting with it swaps exactly that prefix |
| Text.ReplaceFirstAbsent | app/api/getBranchLink/route.ts:484 | `replace` of a pattern that does not occur returns the string unchanged |
| Utf8.DecodeEncode | app/redirect/page.tsx:105 | decoding the UTF-8 bytes of any character gives that character back, with well-formed lead and continuation bytes |
| Percent.DecodeEncodeURIComponent | app/redirect/page.tsx:97 | `decodeURIComponent(encodeURIComponent(s))` succeeds and gives back `s`, for every string |
| Percent.EncodeURIComponent | app/redirect/page.tsx:97 | the encoding holds only unreserved characters, `%` and upper-case hex digits |
| Percent.FormDecodeEncode | app/api/getBranchLink/route.ts:269-277 | the form decoder undoes the form encoder on every string |
| Percent.FormDecodeURIComponent | app/redirect/page.tsx:97 | the query parser reads an `encodeURIComponent` value back unchanged |
| Percent.FormDecode | app/redirect/page.tsx:39 | form decoding never fails and never yields more characters than it reads; `+` is a space, and an escape run that is not UTF-8 becomes one U+FFFD per maximal subpart |
| Percent.MaximalSubpartBadByte | app/redirect/page.tsx:39 | `%E2%82%28` decodes to U+FFFD followed by `(`: the two escapes that could still start a character are one replacement |
| Percent.MaximalSubpartTruncated | app/redirect/page.tsx:39 | `%F0%9F%98` at the end of the input decodes to a single U+FFFD |
| Percent.ParseQueryCons | app/api/getBranchLink/route.ts:386 | the query parser reads one `&`-separated piece at a time: an empty piece adds no pair, any other adds the pair it parses to, before the pairs of the rest |
| Percent.ParseSerializeQuery | app/api/getBranchLink/route.ts:269-277 | parsing a serialised `URLSearchParams` gives back the same name/value pairs in the same order |
| Percent.SerializedQueryPlain | app/api/getBranchLink/route.ts:301 | a serialised query holds no `#`, so it cannot start a fragment |
| Percent.Get | app/redirect/page.tsx:39-46 | `get(name)` finds a value exactly when some pair has that name |
| Percent.GetFirst | app/redirect/page.tsx:39-46 | `get(name)` answers the value of the first pair with that name |
| Percent.ToMap | app/api/getBranchLink/route.ts:386 | `Object.fromEntries` has a key exactly for each name among the pairs |
| Percent.ToMapLast | app/api/getBranchLink/route.ts:386 | for a repeated name, `Object.fromEntries` keeps the value of its last pair |
| Base64.AtobBtoa | app/redirect/page.tsx:193 | `atob(btoa(s)) == s` for every binary string |
| Base64.Atob | app/redirect/page.tsx:192-196 | an accepted input decodes to a binary string (one character per byte) |
| Base64.ValidLengthMod | app/redirect/page.tsx:193 | after padding is stripped, `atob` accepts exactly the lengths that are not 1 modulo 4 |
| Urls.Parse | app/redirect/page.tsx:147 | a parsed URL has a lower-case scheme; an `http(s)` URL always has a non-empty host |
| Urls.ParseHttpsPlain | app/redirect/page.tsx:269-282 | `https://host/tail` with a plain host parses with no user info, no port, that host, and the query taken from the tail |
| Urls.ParseOpaqueHostQuery | app/redirect/page.tsx:38-39 | `scheme://host?query` with a non-special scheme parses to exactly that host and query |
| Urls.ParseDomain | app/redirect/page.tsx:147-150 | the host of an `http(s)` URL is percent-decoded before it is checked; an accepted host holds no forbidden domain code point and is the lower-cased decoding |
| Urls.EscapedDotDomain | app/redirect/page.tsx:147-150 | a dot written as `%2E` between two plain domain labels is read as a dot, so `eur01.safelinks%2Eprotection.outlook.com` is the Outlook host |
| Urls.EscapedDotSegments | app/redirect/page.tsx:173 | the path segments `%2E`, `%2e%2E` and `.%2e` are resolved like `.` and `..` |
| Urls.After | app/redirect/page.tsx:38-39 | the text after a character exists exactly when the character occurs, and rebuilding around it gives the input back |
| Redirect.ValidHttpsDeepLink | app/redirect/page.tsx:267-287 | an accepted `https://` link parses, carries no user name or password, and names `theplot.world` or `link.theplot.world` |
| Redirect.TheplotWorldLinks | app/redirect/page.tsx:280-282 | an accepted link on `theplot.world` has a path under `/app/` and matches the web-fallback pattern |
| Redirect.RejectsOtherSchemes | app/redirect/page.tsx:262-290 | no `javascript:`, `data:`, `file:` or `http:` URL is accepted |
| Redirect.AcceptedPrefixes | app/redirect/page.tsx:289 | every accepted link starts with `theplot://`, `https://theplot.world/app/` or `https://link.theplot.world/` |
| Redirect.AppSchemeLinks | app/redirect/page.tsx:263 | `theplot://` plus `r` is accepted exactly when `r` is non-empty and uses only the allowed characters |
| Redirect.BranchLinks | app/redirect/page.tsx:265-289 | `https://link.theplot.world/` plus `r` is accepted exactly when `r` has no line terminator |
| Redirect.WebFallbackLinks | app/redirect/page.tsx:264-289 | `https://theplot.world/app/` plus `r` is accepted exactly when `r` is non-empty, uses allowed characters, and the parsed path stays under `/app/` |
| Redirect.DecodeOr | app/redirect/page.tsx:152-154 | a gateway parameter that percent-decodes yields its decoding; one that does not yields the link as given |
| Redirect.MimecastBtoa | app/redirect/page.tsx:189-198 | a Mimecast parameter that `btoa` produced from `s` decodes to `s` |
| Redirect.ExtractOutlook | app/redirect/page.tsx:149-155 | an Outlook link whose `url` parameter percent-decodes to `d` yields `d` |
| Redirect.ExtractBarracuda | app/redirect/page.tsx:180-186 | a Barracuda link that the earlier gateways did not take, whose `u` parameter percent-decodes to `d`, yields `d` |
| Redirect.ExtractMimecast | app/redirect/page.tsx:188-198 | a Mimecast link that the earlier gateways did not take, whose `u` parameter is `btoa(s)`, yields `s` |
| Redirect.ExtractMimecastFallback | app/redirect/page.tsx:188-198 | a Mimecast `u` parameter that `atob` rejects is percent-decoded instead |
| Redirect.ExtractCisco | app/redirect/page.tsx:200-206 | a Cisco link that the earlier gateways did not take, whose `u` parameter percent-decodes to `d`, yields `d` |
| Redirect.RedundantBranches | app/redirect/page.tsx:150-215 | the regional Office 365 and the "Symantec" branches never decide the result: dropping them changes nothing |
| Redirect.ExtractUnparsable | app/redirect/page.tsx:145-147 | a link that is not a URL is returned unchanged |
| Redirect.ExtractNoGateway | app/redirect/page.tsx:145-217 | a URL on none of the gateway hosts is returned unchanged |
| Redirect.ExtractNoParameter | app/redirect/page.tsx:149-217 | a non-Proofpoint URL without a truthy `url` or `u` parameter is returned unchanged |
| Redirect.ExtractOutlookDecodeFails | app/redirect/page.tsx:150-155 | an Outlook link whose `url` parameter is malformed percent-encoding is returned unchanged |
| Redirect.ExtractProofpoint | app/redirect/page.tsx:171-177 | a Proofpoint link yields its last path segment or a URL with a host |
| Redirect.DecodeProofpointUrl | app/redirect/page.tsx:225-259 | the decoded segment is returned only when it is a URL with a host; otherwise the segment itself is returned |
| Redirect.ProofpointRoundTrip | app/redirect/page.tsx:225-259 | decoding undoes Proofpoint's encoding of any URL with a host and without `-` or `_` |
| Redirect.Reread | app/redirect/page.tsx:36-46 | after unwrapping, a parameter takes the unwrapped link's value exactly when that value is non-empty, and otherwise keeps its value |
| Redirect.UnwrapTarget | app/redirect/page.tsx:30-53 | the target is replaced only when unwrapping changes it, and all six action parameters are re-read from the unwrapped link |
| Redirect.Route | app/redirect/page.tsx:56-122 | a known mode goes to the Branch link or the fallback; otherwise a target goes to its decoding when that is a valid deep link, and every other case goes to `/` |
| Redirect.HandleRedirect | app/redirect/page.tsx:28-123 | the composed decision: the re-read parameters, then the destination as in `Route`, including that a target decoding to a valid deep link goes exactly there |
| Redirect.EncodedQueryReadBack | app/redirect/page.tsx:97 | the fallback's `name=encodeURIComponent(value)` pieces parse back to exactly the same pairs |
| Redirect.FallbackReadBack | app/redirect/page.tsx:96-97 | the fallback link parses with scheme `theplot`, host `reset` or `verify`, and query parameters equal to the six values in order |
| Environment.EnvironmentsNamed | app/config/environment.ts:33-121 | each built-in configuration is filed under its own name, and the table has exactly the three names |
| Environment.NormalizeIdempotent | app/config/environment.ts:178-194 | a normalised name is lower-case, and normalising it again changes nothing |
| Environment.NormalizeAlias | app/config/environment.ts:182-193 | an alias in any letter case maps to its canonical name |
| Environment.NormalizePadding | app/config/environment.ts:179 | white space around a name does not change its normalisation |
| Environment.CanonicalNormal | app/config/environment.ts:178-194 | the three canonical names normalise to themselves |
| Environment.MappingsCanonical | app/config/environment.ts:182-191 | every alias maps to one of the three configured names |
| Environment.HostName | app/config/environment.ts:151-156 | hostname detection yields nothing, `staging` or `production` |
| Environment.RequestOf | app/config/environment.ts:150-151 | a missing request gives no hostname step, and a request URL that `new URL` rejects is the only unparsable case |
| Environment.SelectedName | app/config/environment.ts:130-162 | the first non-empty of the platform name, the hostname choice and the default `production`; failure only for an unparsable request URL |
| Environment.Resolve | app/config/environment.ts:165-170 | a name resolves exactly when it is configured; otherwise the `Invalid environment: … Available: production, staging, development` error |
| Environment.EnvironmentName | app/config/environment.ts:127-170 | a successful selection is a configured name and is the normalisation of the selected name |
| Environment.GetEnvironmentConfig | app/config/environment.ts:127-173 | the configuration is the table entry of the selected name, and the error is the selection's error |
| Environment.ConfigNamed | app/config/environment.ts:165-172 | the configuration returned carries the selected name |
| Environment.PlatformWins | app/config/environment.ts:130-147 | once a variable or platform names an environment, the request is not consulted |
| Environment.ExplicitVariableWins | app/config/environment.ts:131 | a non-empty `ENVIRONMENT` decides, through normalisation |
| Environment.NodeEnvNext | app/config/environment.ts:131 | without `ENVIRONMENT`, a non-empty `NODE_ENV` decides |
| Environment.VercelDetection | app/config/environment.ts:136-138 | on Vercel, `VERCEL_ENV == 'production'` selects production and any other value staging |
| Environment.NetlifyDetection | app/config/environment.ts:140-142 | on Netlify, `CONTEXT == 'production'` selects production and anything else staging |
| Environment.RailwayDetection | app/config/environment.ts:144-146 | on Railway, the normalised `RAILWAY_ENVIRONMENT` decides |
| Environment.HostnameOnlyWhenUnset | app/config/environment.ts:150 | once a variable or platform names the environment, the request URL makes no difference |
| Environment.HostSelection | app/config/environment.ts:149-162 | with nothing set: no request gives production, an unparsable URL fails with `Invalid URL`, and a hostname gives staging or production |
| Environment.DefaultIsProduction | app/config/environment.ts:159-162 | with nothing set and no request, the production configuration is returned |
| Environment.ProductionHost | app/config/environment.ts:154-155 | with nothing set, a request to `https://theplot.world/…` selects production |
| Environment.StagingHost | app/config/environment.ts:152-153 | with nothing set, a request to a plain host containing `staging` selects staging |
| Environment.LookupAppend | app/config/environment.ts:219-226 | looking up `a` then `b` equals looking up the concatenated path |
| Environment.LookupUnresolved | app/config/environment.ts:220-225 | a path that leaves the object tree yields `undefined` and never fails |
| Environment.DottedPath | app/config/environment.ts:219-226 | `getNestedProperty(v, 'a.b')` steps into `a` and then into `b` |
| Environment.RequiredFieldValue | app/config/environment.ts:200-209 | each required path reads back the corresponding configuration field |
| Environment.ValidateEnvironmentConfig | app/config/environment.ts:199-214 | validation passes exactly when every required field is truthy; otherwise it fails naming the first missing field |
| Environment.RequiredFieldsMeaning | app/config/environment.ts:199-214 | the required fields are present exactly when project id, Branch key name, Android package and web-app URL are non-empty |
| Environment.BuiltInConfigsValid | app/config/environment.ts:33-121 | all three built-in configurations pass validation |
| LinkRequest.EmailPattern | app/api/getBranchLink/route.ts:112 | the email pattern holds exactly when the input has no white space, a single `@` with text before it, and a dot with text on both sides of it after the `@` |
| LinkRequest.FailuresListed | app/api/getBranchLink/route.ts:87-127 | a check is reported exactly when that check fails |
| LinkRequest.NoErrorsIffAcceptable | app/api/getBranchLink/route.ts:87-129 | the error list is empty exactly when the request is acceptable |
| LinkRequest.ErrorsAreFailureMessages | app/api/getBranchLink/route.ts:87-127 | the error list holds the failing checks' messages, in the order the checks run |
| LinkRequest.CollectValidationErrors | app/api/getBranchLink/route.ts:87-127 | the method's error list equals the list the checks define |
| LinkRequest.ValidateBranchLinkRequest | app/api/getBranchLink/route.ts:83-146 | rejects exactly the unacceptable requests with `Validation failed: …`, 400, `VALIDATION_ERROR`; on success returns the fields with the email lower-cased and trimmed (`Normalised`) |
| LinkRequest.AcceptedEmail | app/api/getBranchLink/route.ts:112-141 | an accepted email is unchanged by trimming: normalising it only lower-cases it |
| Retry.FirstReturned | app/api/getBranchLink/route.ts:157-159 | the value of the first returning attempt, if any: some attempt returns exactly when there is one, and every attempt before it throws |
| Retry.FirstReturnedAt | app/api/getBranchLink/route.ts:157-159 | an attempt that returns after only failures is the one `FirstReturned` picks |
| Retry.WithRetry | app/api/getBranchLink/route.ts:148-177 | succeeds exactly when some attempt within the limit returns, with the value `FirstReturned` picks; otherwise rethrows the last failure as an `Error`, after the waits `base·2^(k-1)` |
| Retry.TotalBackoff | app/api/getBranchLink/route.ts:171 | the waits of a failed run add up to `base·(2^(n-1) − 1)` |
| Retry.AsError | app/api/getBranchLink/route.ts:161 | a thrown value that is no `Error` becomes `Error('Unknown error')`; others are kept |
| LinkPayload.ForwardedFirst | app/api/getBranchLink/route.ts:72 | the first forwarded address holds no comma and no white space at either end |
| LinkPayload.ClientIp | app/api/getBranchLink/route.ts:72-75 | the client address is never empty and is the first forwarded address, `x-real-ip`, `cf-connecting-ip` or `unknown` |
| LinkPayload.ForwardedEntryWins | app/api/getBranchLink/route.ts:72 | a non-blank first entry of `x-forwarded-for` is the client address, trimmed |
| LinkPayload.NoAddressHeaders | app/api/getBranchLink/route.ts:72-75 | without the three address headers the client address is `unknown` |
| LinkPayload.UserAgent | app/api/getBranchLink/route.ts:76 | a non-empty `user-agent` is used, otherwise `unknown` |
| LinkPayload.Context | app/api/getBranchLink/route.ts:66-80 | the context carries the configuration, the client address, the agent and a request id prefixed by the environment name |
| LinkPayload.Action | app/api/getBranchLink/route.ts:266 | the action is `reset` exactly for `custom_password_reset`, and `verify` otherwise |
| LinkPayload.FeatureMatchesAction | app/api/getBranchLink/route.ts:266-282 | the Branch feature and the link action always agree |
| LinkPayload.OptionalPair | app/api/getBranchLink/route.ts:275-277 | an optional parameter is added exactly when its value is non-empty |
| LinkPayload.QueryReadBack | app/api/getBranchLink/route.ts:269-277 | the serialised query parses back to mode, oobCode, email and the present optional fields, in that order |
| LinkPayload.QueryFields | app/api/getBranchLink/route.ts:269-277 | each parameter read from the query is the request's value, and an absent or empty optional value is missing |
| LinkPayload.DesktopLinkReadBack | app/api/getBranchLink/route.ts:301 | on an `https://` web app, the desktop URL parses to that host with the request's query parameters |
| LinkPayload.ProductionDesktopLink | app/api/getBranchLink/route.ts:301 | in production the desktop URL is on `theplot.world` and carries the query |
| LinkPayload.StagingDesktopLink | app/api/getBranchLink/route.ts:301 | in staging the desktop URL is on `staging.theplot.world` and carries the query |
| LinkPayload.AppLinkReadBack | app/api/getBranchLink/route.ts:303-304 | the app link is `theplot://reset` or `theplot://verify` with the request's query parameters |
| LinkPayload.Payload | app/api/getBranchLink/route.ts:279-320 | the feature is `password_reset` exactly for a reset; the alias starts with environment and mode |
| LinkPayload.LinksAgreeWithData | app/api/getBranchLink/route.ts:290-304 | the iOS and Android links are equal, and each parameter they carry equals the payload's own data field |
| LinkPayload.AllowedOrigins | app/api/getBranchLink/route.ts:482-486 | three origins: the web app, its `www.` form and the environment's link domain |
| LinkPayload.AllowOrigin | app/api/getBranchLink/route.ts:488-498 | the origin is echoed exactly when it is non-empty and allowed |
| LinkPayload.ProductionOrigins | app/api/getBranchLink/route.ts:482-486 | production allows `theplot.world`, `www.theplot.world` and `link.theplot.world` |
| LinkPayload.StagingOrigins | app/api/getBranchLink/route.ts:482-486 | staging allows `staging.theplot.world`, `www.staging.theplot.world` and `link-staging.theplot.world` |
| LinkPayload.DevelopmentOrigins | app/api/getBranchLink/route.ts:482-486 | development allows `http://localhost:3000` twice (the `www.` rewrite does not apply to it) and `link.theplot.world` |
| LinkPayload.ProductionRefusesStaging | app/api/getBranchLink/route.ts:496-498 | production does not echo the staging web app's origin |
| LinkPayload.StagingRefusesProduction | app/api/getBranchLink/route.ts:496-498 | staging does not echo the production web app's origin |
| LinkService.RateStep | app/api/getBranchLink/route.ts:44-63 | refusal happens exactly for a live window already at the limit, and leaves the store unchanged; other clients are never touched |
| LinkService.RateStepBounded | app/api/getBranchLink/route.ts:44-63 | no window's count ever exceeds the limit (or 1 for a zero limit) |
| LinkService.AdmittedWithinWindow | app/api/getBranchLink/route.ts:52-62 | within one live window, exactly `min(requests, remaining slack)` requests are admitted |
| LinkService.FreshWindow | app/api/getBranchLink/route.ts:52-62 | a burst that opens a new window admits exactly `min(burst, limit)` requests |
| LinkService.CacheKeyInjective | app/api/getBranchLink/route.ts:216 | distinct project/secret pairs get distinct cache keys when the project id has no `:` |
| LinkService.SecretAttempt | app/api/getBranchLink/route.ts:227-236 | an attempt returns exactly when the secret version carries a non-empty payload |
| LinkService.SecretError | app/api/getBranchLink/route.ts:250-256 | secret failures are 503 `SECRET_RETRIEVAL_FAILED` |
| LinkService.AuthError | app/api/getBranchLink/route.ts:198-204 | authentication failures are 503 `AUTH_FAILED` |
| LinkService.RateLimitError | app/api/getBranchLink/route.ts:376-381 | rate-limit refusals are 429 `RATE_LIMIT_EXCEEDED` |
| LinkService.PostAttempt | app/api/getBranchLink/route.ts:333-344 | a Branch call returns exactly when it is accepted with a non-empty `url`; non-OK responses and a missing URL throw plain errors |
| LinkService.GenerateBranchLink | app/api/getBranchLink/route.ts:261-346 | succeeds exactly when one of three attempts is accepted, returning the non-empty URL of the first accepted attempt (every earlier one failed), which is `LinkLookup`; failures are plain errors |
| LinkService.BuildRequestContext | app/api/getBranchLink/route.ts:66-80 | a context is built exactly when selection and validation pass; it has a non-empty client address and valid required fields; a selection failure keeps its message |
| LinkService.OrUnknown | app/api/getBranchLink/route.ts:441-442 | an empty value is reported as `unknown` |
| LinkService.ErrorResponse | app/api/getBranchLink/route.ts:428-475 | an `APIError` keeps its status, code and message; anything else is 500 `INTERNAL_ERROR` with the generic message; without a context the id and environment are `unknown` |
| LinkService.Options | app/api/getBranchLink/route.ts:479-503 | the preflight fails exactly when the context cannot be built; otherwise it is 200 and allows the origin as `AllowOrigin` decides |
| LinkService.LinkEndpoint.constructor | app/api/getBranchLink/route.ts:42 | both the rate-limit store and the secret cache start empty |
| LinkService.LinkEndpoint.CheckRateLimit | app/api/getBranchLink/route.ts:44-63 | the new store and the answer are those of `RateStep`, and the cache is untouched |
| LinkService.FetchSecret | app/api/getBranchLink/route.ts:223-236 | the retried retrieval yields the first payload Secret Manager returns within three calls, or nothing |
| LinkService.SecretFirst | app/api/getBranchLink/route.ts:223-236 | the first attempt to return is the first call that gave a version with a payload |
| LinkService.LookupLive | app/api/getBranchLink/route.ts:216-221 | a live cached secret is the answer and leaves the cache as it is; a failed lookup leaves the cache as it is |
| LinkService.LookupFetched | app/api/getBranchLink/route.ts:223-243 | without a live entry, the lookup succeeds exactly when one of three calls returns a payload; it yields the first such payload, non-empty, and caches it for one hour under the project's key |
| LinkService.LookupValid | app/api/getBranchLink/route.ts:230-243 | a cache of non-empty secrets stays so, and the secret yielded is non-empty |
| LinkService.LinkEndpoint.GetSecret | app/api/getBranchLink/route.ts:211-258 | the answer is `SecretLookup` of the old cache and the new cache is `CacheAfter` of it; a failure is `SECRET_RETRIEVAL_FAILED` |
| LinkService.LinkEndpoint.Fulfil | app/api/getBranchLink/route.ts:393-426 | after validation: authentication 503; then the Branch key is `SecretLookup`, its failure 503; then the link is `LinkLookup` for that key, its failure 500; the cache is `CacheAfter`; 200 exactly when the link exists, with that link and the request's metadata |
| LinkService.LinkEndpoint.Process | app/api/getBranchLink/route.ts:384-426 | an unreadable or unacceptable query stops with 400 (or 500 for an unparsable URL); otherwise as `Fulfil` for the validated request `Requested(requestUrl)` |
| LinkService.LinkEndpoint.Serve | app/api/getBranchLink/route.ts:374-426 | a refused client stops with 429 and nothing else changes; otherwise as `Process` |
| LinkService.LinkEndpoint.Get | app/api/getBranchLink/route.ts:361-476 | the steps run in order (context, rate limit, validation, authentication, secret, Branch link) and stop at the first failure, with the status and code of that step; each step's success is decided by its inputs as in `Fulfil`; a failed context answers 500 and changes no state |

## Left out

- Logging (`console.*`), the Next.js response framing and the security headers are not modelled; their values are constants with no decision attached. The `debugLogging` branches only log, except one: the error body's debug `context` field, which is not modelled either.
- The error body's `duration` and `timestamp` are not modelled. The success metadata's `duration` is the `elapsed` parameter.
- The clock, `Math.random()` suffixes, the Secret Manager client, Google authentication, `fetch` to Branch and the page's Branch SDK are external. They are parameters: per-attempt outcome functions, an `authenticated` flag and a `BranchOutcome`.
- Retry.WithRetry: the random jitter of up to one second added to each wait is not modelled; only the waits without it are stated.
- The timer that sleeps between attempts is not modelled. Each request uses one clock reading `now`, so the secret cache's expiry is `now + 3600000` even after retries.
- `getServiceAccountCredentials` (JSON parsing of a credentials variable) is folded into the `authenticated` flag.
- The 15-second `AbortSignal` timeout and a Branch response that is not JSON both fold into an `Unreachable` attempt.
- `Response.text()` failing is folded into `Rejected(status, None)`.
- LinkPayload.Payload: states only the feature and the alias prefix. `LinkPayload.LinksAgreeWithData` and the `QueryFields` / `DesktopLinkReadBack` lemmas state the data fields and URLs. The channel and type are constants. The campaign and tags only concatenate the mode and the environment name, and they are not stated.
- LinkPayload.RequestId: states only the `<environment>_` prefix. The timestamp and random suffix after it are parameters.
- LinkPayload.Alias: states only the `<environment>_<mode>_` prefix, for the same reason.
- LinkService.GenerateBranchLink: the Branch endpoint address, the `Content-Type` and `User-Agent: ThePlot-<environment>/1.0` headers and the JSON serialisation of the payload are not modelled. The `post` parameter receives the payload value itself.
- Header names are looked up as given: the case-insensitivity of `Headers.get` is not modelled.
- Query fields reach the validator as strings. `Object.fromEntries` never yields another type, so the `typeof` checks always pass.
- Urls.Parse: a simplified WHATWG parser. It leaves out these parts of the standard:
  - IPv4 and IPv6 host parsing, and IDNA: a percent-decoded host with non-ASCII characters is kept, lower-cased, instead of being mapped to its ASCII form;
  - percent-encoding of path, query and user-info characters;
  - the tab and newline stripping, and the leading and trailing C0-control trimming;
  - `file:` host rules, and relative resolution against a base.

  Within these limits the model gives the scheme, user info, host, port, path, query and fragment, or failure. The host of a special URL is percent-decoded before it is checked, and `%2e` segments count as dot segments, as the standard says.
- Text.AsciiLower: `toLowerCase` lower-cases only ASCII letters here. The environment names, aliases and email comparison the model states lemmas about are ASCII.
- Percent.DecodeURIComponent: the decoder checks UTF-8 sequences one character at a time. It decodes to `char` (Unicode scalar values), so lone surrogates are not produced.
- Environment lookup by key uses the configuration table as a map. The source indexes a plain object, where names such as `constructor` or `__proto__` would hit inherited properties; the model treats them as not configured.
- The page's `typeof window !== 'undefined'` guard is taken as true: the page runs in a browser.
- The React component (rendering, the `Script` tag and `useEffect` re-runs) is not modelled.
- Redirect.ExtractOriginalUrl: no idempotence lemma. The code does not have that property: a gateway link wrapping another gateway link unwraps one layer per call.

Behaviour the code does not have, which the model therefore does not have either:

- `isValidDeepLink` has no deny-list of dangerous schemes and no allow-list of app actions. Other schemes fail because none of the three patterns match (`Redirect.RejectsOtherSchemes`). Any `theplot://` link whose rest uses the allowed characters passes (`Redirect.AppSchemeLinks`).
- A failed Branch call is not reported as 503. `withRetry` rethrows a plain `Error`, so `GET` answers 500 `INTERNAL_ERROR` (`LinkService.LinkEndpoint.Fulfil`).
- When a Proofpoint segment does not decode to a URL with a host, the result is the segment, not the original link (`Redirect.ExtractProofpoint`).
- After a target is unwrapped, the action parameters are re-read from it. An unwrapped reset link therefore takes the mode path and is not validated as a target (`Redirect.UnwrapTarget`, `Redirect.Route`).
- The development origin list names `http://localhost:3000` twice (`LinkPayload.DevelopmentOrigins`).

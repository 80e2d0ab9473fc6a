/**
 * The environment selector: three built-in configurations, the precedence
 * chain that picks one from the process environment and the request's
 * hostname, name normalisation, and the dotted-path lookup used to check
 * that a configuration carries its required fields.
 */
module Environment {
  import opened Wrappers
  import opened Text
  import Urls

  // ---------------------------------------------------------------------
  // Configurations
  // ---------------------------------------------------------------------

  datatype Firebase = Firebase(projectId: string, region: string)
  datatype Secrets = Secrets(branchKey: string, serviceAccount: string)
  datatype App = App(androidPackage: string, iosBundleId: string)
  datatype Endpoints = Endpoints(webApp: string, deepLink: string, appStore: string, playStore: string)
  datatype RateLimit = RateLimit(requests: nat, windowMs: nat)
  datatype Features = Features(strictFiltering: bool, debugLogging: bool, rateLimit: RateLimit)

  /** One environment's configuration; `urls` holds the web app, deep-link and store addresses. */
  datatype Config = Config(
    name: string,
    firebase: Firebase,
    secrets: Secrets,
    app: App,
    urls: Endpoints,
    features: Features)

  const Production := Config(
    "production",
    Firebase("plot1-1-3", "europe-west2"),
    Secrets("BRANCH_KEY", "GOOGLE_SERVICE_ACCOUNT_KEY"),
    App("com.example.plot1_1_1_3", "com.example.plot1_1_1_3"),
    Endpoints("https://theplot.world", "theplot://",
      "https://apps.apple.com/app/the-plot/id123456789",
      "https://play.google.com/store/apps/details?id=com.example.plot1_1_1_3"),
    Features(true, false, RateLimit(10, 60000)))

  const Staging := Config(
    "staging",
    Firebase("the-plot---staging", "europe-west2"),
    Secrets("BRANCH_KEY_STAGING", "GOOGLE_SERVICE_ACCOUNT_KEY_STAGING"),
    App("com.example.plot1_1_1_3.staging", "com.example.plot1_1_1_3.staging"),
    Endpoints("https://staging.theplot.world", "theplot://",
      "https://testflight.apple.com/join/your-testflight-link",
      "https://play.google.com/apps/internaltest/4700151707835615870"),
    Features(false, true, RateLimit(50, 60000)))

  const Development := Config(
    "development",
    Firebase("the-plot---staging", "europe-west2"),
    Secrets("BRANCH_KEY_STAGING", "GOOGLE_SERVICE_ACCOUNT_KEY_STAGING"),
    App("com.example.plot1_1_1_3.staging", "com.example.plot1_1_1_3.staging"),
    Endpoints("http://localhost:3000", "theplot://",
      "https://testflight.apple.com/join/your-testflight-link",
      "https://play.google.com/apps/internaltest/4700151707835615870"),
    Features(false, true, RateLimit(100, 60000)))

  /** The names the configuration table is keyed by. */
  const Names: set<string> := {"production", "staging", "development"}

  /** The table of configurations by name. */
  const Environments: map<string, Config> :=
    map["production" := Production, "staging" := Staging, "development" := Development]

  /** Every built-in configuration is filed under its own name. */
  lemma EnvironmentsNamed()
    ensures forall n :: n in Environments ==> Environments[n].name == n
    ensures Environments.Keys == Names
  {
  }

  // ---------------------------------------------------------------------
  // Name normalisation
  // ---------------------------------------------------------------------

  const Mappings: map<string, string> := map[
    "prod" := "production",
    "stage" := "staging",
    "stg" := "staging",
    "dev" := "development",
    "develop" := "development",
    "local" := "development",
    "test" := "staging",
    "preview" := "staging"]

  /** `normalizeEnvironmentName`: lower-case, trim, then map a known alias to its canonical name. */
  function NormalizeEnvironmentName(env: string): string {
    var n := Trim(AsciiLower(env));
    if n in Mappings then Mappings[n] else n
  }

  /** A lower-case name without white space that is not an alias normalises to itself. */
  lemma NormalizeFixed(n: string)
    requires IsLower(n) && NoWhiteSpace(n) && n !in Mappings
    ensures NormalizeEnvironmentName(n) == n
  {
    LowerOfLower(n);
    TrimNoWhiteSpace(n);
  }

  /** Every alias maps to one of the three canonical names. */
  lemma MappingsCanonical()
    ensures forall a :: a in Mappings ==> Mappings[a] in Names
  {
  }

  /** A canonical name is lower-case, has no white space and is not itself an alias. */
  lemma CanonicalShape(n: string)
    requires n in Names
    ensures IsLower(n) && NoWhiteSpace(n) && n !in Mappings
  {
    CanonicalLower(n);
    CanonicalNoWhiteSpace(n);
    CanonicalNotAlias(n);
  }

  lemma CanonicalLower(n: string)
    requires n in Names
    ensures IsLower(n)
  {
  }

  lemma CanonicalNoWhiteSpace(n: string)
    requires n in Names
    ensures NoWhiteSpace(n)
  {
  }

  lemma CanonicalNotAlias(n: string)
    requires n in Names
    ensures n !in Mappings
  {
  }

  /** The three canonical names normalise to themselves. */
  lemma CanonicalNormal(n: string)
    requires n in Names
    ensures NormalizeEnvironmentName(n) == n
  {
    CanonicalShape(n);
    NormalizeFixed(n);
  }

  /** A normalised name is lower-case, and normalising it again changes nothing. */
  lemma NormalizeIdempotent(env: string)
    ensures IsLower(NormalizeEnvironmentName(env))
    ensures NormalizeEnvironmentName(NormalizeEnvironmentName(env)) == NormalizeEnvironmentName(env)
  {
    var n := Trim(AsciiLower(env));
    if n in Mappings {
      MappingsCanonical();
      CanonicalNormal(Mappings[n]);
      CanonicalLower(Mappings[n]);
    } else {
      TrimLowerIsLower(env);
      LowerOfLower(n);
      TrimIdempotent(AsciiLower(env));
    }
  }

  /** An alias written in any letter case normalises to its canonical name. */
  lemma NormalizeAlias(env: string, alias: string)
    requires AsciiLower(env) == alias && alias in Mappings && NoWhiteSpace(alias)
    ensures NormalizeEnvironmentName(env) == Mappings[alias]
  {
    TrimNoWhiteSpace(alias);
  }

  /** White space around the name does not matter. */
  lemma NormalizePadding(before: string, env: string, after: string)
    requires forall k :: 0 <= k < |before| ==> IsWhiteSpace(before[k])
    requires forall k :: 0 <= k < |after| ==> IsWhiteSpace(after[k])
    ensures NormalizeEnvironmentName(before + env + after) == NormalizeEnvironmentName(env)
  {
    LowerConcat(before, env);
    LowerConcat(before + env, after);
    LowerWhiteSpace(before);
    LowerWhiteSpace(after);
    TrimPadding(before, AsciiLower(env), after);
  }

  /** `"PROD"` is production. */
  lemma ProdExample()
    ensures NormalizeEnvironmentName("PROD") == "production"
  {
    assert AsciiLower("PROD") == "prod";
    NormalizeAlias("PROD", "prod");
  }

  /** `"Local"` is development. */
  lemma LocalExample()
    ensures NormalizeEnvironmentName("Local") == "development"
  {
    assert AsciiLower("Local") == "local";
    NormalizeAlias("Local", "local");
  }

  // ---------------------------------------------------------------------
  // Selection chain
  // ---------------------------------------------------------------------

  /** `process.env[k]` read as a string; an unset variable reads as empty, which is just as falsy. */
  function Var(env: map<string, string>, k: string): string {
    if k in env then env[k] else ""
  }

  /** The name the explicit variables and the deployment platform give, or empty. */
  function PlatformName(env: map<string, string>): string {
    if Var(env, "ENVIRONMENT") != "" then Var(env, "ENVIRONMENT")
    else if Var(env, "NODE_ENV") != "" then Var(env, "NODE_ENV")
    else if Var(env, "VERCEL_ENV") != "" then
      (if Var(env, "VERCEL_ENV") == "production" then "production" else "staging")
    else if Var(env, "NETLIFY") != "" then
      (if Var(env, "CONTEXT") == "production" then "production" else "staging")
    else Var(env, "RAILWAY_ENVIRONMENT")
  }

  /** The name a request's hostname suggests, or empty. */
  function HostName(hostname: string): (r: string)
    ensures r == "" || r == "staging" || r == "production"
  {
    if Contains(hostname, "staging") || Contains(hostname, "dev") then "staging"
    else if hostname == "theplot.world" || hostname == "www.theplot.world" then "production"
    else ""
  }

  /** What the selector learns from the request: none, a URL the constructor rejects, or a hostname. */
  datatype Request = NoRequest | Unparsable | Host(hostname: string)

  /** `new URL(request.url).hostname`, or `Unparsable` where the constructor throws. */
  function RequestOf(requestUrl: Option<string>): (r: Request)
    ensures r.NoRequest? <==> requestUrl.None?
    ensures r.Unparsable? <==> requestUrl.Some? && Urls.Parse(requestUrl.value).None?
  {
    match requestUrl
    case None => NoRequest
    case Some(url) =>
      match Urls.Parse(url)
      case None => Unparsable
      case Some(u) => Host(u.hostname)
  }

  /**
   * The raw name before normalisation: the platform name, else (with a
   * request) the hostname's suggestion, else production. A request URL that
   * does not parse raises the URL constructor's error.
   */
  function SelectedName(env: map<string, string>, request: Request): (r: Result<string, string>)
    ensures r.Success? ==> r.value != ""
    ensures r.Failure? <==> PlatformName(env) == "" && request.Unparsable?
    ensures PlatformName(env) != "" ==> r == Success(PlatformName(env))
    ensures PlatformName(env) == "" && request.NoRequest? ==> r == Success("production")
  {
    var platform := PlatformName(env);
    if platform != "" then Success(platform)
    else
      match request
      case NoRequest => Success("production")
      case Unparsable => Failure("Invalid URL")
      case Host(hostname) =>
        var h := HostName(hostname);
        Success(if h != "" then h else "production")
  }

  /** A normalised name that has a configuration, or the error naming it and the available names. */
  function Resolve(normalized: string): (r: Result<string, string>)
    ensures r.Success? <==> normalized in Names
    ensures r.Success? ==> r.value == normalized
    ensures r.Failure? ==> r.error == "Invalid environment: " + normalized + ". Available: production, staging, development"
  {
    if normalized in Names then Success(normalized)
    else Failure("Invalid environment: " + normalized + ". Available: production, staging, development")
  }

  /** The environment a request is served from: select a name, normalise it and check it is known. */
  function EnvironmentName(env: map<string, string>, request: Request): (r: Result<string, string>)
    ensures r.Success? ==> r.value in Names
    ensures r.Success? ==>
      SelectedName(env, request).Success?
      && r.value == NormalizeEnvironmentName(SelectedName(env, request).value)
  {
    match SelectedName(env, request)
    case Failure(e) => Failure(e)
    case Success(n) => Resolve(NormalizeEnvironmentName(n))
  }

  /** `getEnvironmentConfig(request)`: the configuration filed under the selected name. */
  function GetEnvironmentConfig(env: map<string, string>, requestUrl: Option<string>): (r: Result<Config, string>)
    ensures r.Success? <==> EnvironmentName(env, RequestOf(requestUrl)).Success?
    ensures r.Success? ==> r.value == Environments[EnvironmentName(env, RequestOf(requestUrl)).value]
    ensures r.Failure? ==> r.error == EnvironmentName(env, RequestOf(requestUrl)).error
  {
    EnvironmentsNamed();
    match EnvironmentName(env, RequestOf(requestUrl))
    case Failure(e) => Failure(e)
    case Success(n) => Success(Environments[n])
  }

  /** The configuration filed under each name carries that name. */
  lemma ConfigNamed(env: map<string, string>, requestUrl: Option<string>)
    ensures GetEnvironmentConfig(env, requestUrl).Success? ==>
      GetEnvironmentConfig(env, requestUrl).value.name == EnvironmentName(env, RequestOf(requestUrl)).value
  {
    EnvironmentsNamed();
  }

  /** A name from the environment or the platform is used as it stands, whatever the request. */
  lemma PlatformWins(env: map<string, string>, request: Request)
    requires PlatformName(env) != ""
    ensures EnvironmentName(env, request) == Resolve(NormalizeEnvironmentName(PlatformName(env)))
  {
  }

  /** A non-empty `ENVIRONMENT` wins outright, whatever else is set and whatever the request. */
  lemma ExplicitVariableWins(env: map<string, string>, request: Request)
    requires Var(env, "ENVIRONMENT") != ""
    ensures EnvironmentName(env, request) == Resolve(NormalizeEnvironmentName(env["ENVIRONMENT"]))
  {
  }

  /** With `ENVIRONMENT` empty, a non-empty `NODE_ENV` wins. */
  lemma NodeEnvNext(env: map<string, string>, request: Request)
    requires Var(env, "ENVIRONMENT") == "" && Var(env, "NODE_ENV") != ""
    ensures EnvironmentName(env, request) == Resolve(NormalizeEnvironmentName(env["NODE_ENV"]))
  {
  }

  /** A selected name that is already canonical is the environment's name. */
  lemma CanonicalSelected(env: map<string, string>, request: Request)
    requires SelectedName(env, request).Success? && SelectedName(env, request).value in Names
    ensures EnvironmentName(env, request) == SelectedName(env, request)
  {
    CanonicalNormal(SelectedName(env, request).value);
  }

  /** On Vercel the deployment is production exactly when `VERCEL_ENV` says so, and staging otherwise. */
  lemma VercelDetection(env: map<string, string>, request: Request)
    requires Var(env, "ENVIRONMENT") == "" && Var(env, "NODE_ENV") == "" && Var(env, "VERCEL_ENV") != ""
    ensures EnvironmentName(env, request) == Success(if env["VERCEL_ENV"] == "production" then "production" else "staging")
  {
    assert PlatformName(env) == if env["VERCEL_ENV"] == "production" then "production" else "staging";
    CanonicalSelected(env, request);
  }

  /** On Netlify the deployment is production exactly when `CONTEXT` says so, and staging otherwise. */
  lemma NetlifyDetection(env: map<string, string>, request: Request)
    requires Var(env, "ENVIRONMENT") == "" && Var(env, "NODE_ENV") == "" && Var(env, "VERCEL_ENV") == ""
    requires Var(env, "NETLIFY") != ""
    ensures EnvironmentName(env, request) == Success(if Var(env, "CONTEXT") == "production" then "production" else "staging")
  {
    assert PlatformName(env) == if Var(env, "CONTEXT") == "production" then "production" else "staging";
    CanonicalSelected(env, request);
  }

  /** On Railway the variable's own value is the name. */
  lemma RailwayDetection(env: map<string, string>, request: Request)
    requires Var(env, "ENVIRONMENT") == "" && Var(env, "NODE_ENV") == "" && Var(env, "VERCEL_ENV") == ""
    requires Var(env, "NETLIFY") == "" && Var(env, "RAILWAY_ENVIRONMENT") != ""
    ensures EnvironmentName(env, request) == Resolve(NormalizeEnvironmentName(env["RAILWAY_ENVIRONMENT"]))
  {
  }

  /** The request is consulted only when nothing in the environment names a deployment. */
  lemma HostnameOnlyWhenUnset(env: map<string, string>, a: Option<string>, b: Option<string>)
    requires PlatformName(env) != ""
    ensures GetEnvironmentConfig(env, a) == GetEnvironmentConfig(env, b)
  {
    PlatformWins(env, RequestOf(a));
    PlatformWins(env, RequestOf(b));
  }

  /**
   * With nothing set, the request decides: none means production, a hostname
   * that mentions `staging` or `dev` selects staging, every other hostname
   * production, and a URL that does not parse is an error.
   */
  lemma HostSelection(env: map<string, string>, request: Request)
    requires PlatformName(env) == ""
    ensures request.NoRequest? ==> EnvironmentName(env, request) == Success("production")
    ensures request.Unparsable? ==> EnvironmentName(env, request) == Failure("Invalid URL")
    ensures request.Host? ==>
      EnvironmentName(env, request) == Success(if HostName(request.hostname) == "staging" then "staging" else "production")
  {
    match request
    case NoRequest =>
      CanonicalSelected(env, request);
    case Unparsable =>
    case Host(h) =>
      HostNameSelected(env, h);
      CanonicalSelected(env, request);
  }

  lemma HostNameSelected(env: map<string, string>, hostname: string)
    requires PlatformName(env) == ""
    ensures SelectedName(env, Host(hostname)) == Success(if HostName(hostname) == "staging" then "staging" else "production")
  {
  }

  lemma ProductionEntry()
    ensures Environments["production"] == Production
  {
  }

  lemma StagingEntry()
    ensures Environments["staging"] == Staging
  {
  }

  /** With nothing set and no request, the default is production. */
  lemma DefaultIsProduction(env: map<string, string>)
    requires PlatformName(env) == ""
    ensures GetEnvironmentConfig(env, None) == Success(Production)
  {
    HostSelection(env, NoRequest);
    ProductionEntry();
  }

  lemma ProductionHostName()
    ensures HostName("theplot.world") == "production"
  {
    forall i | 0 <= i <= |"theplot.world"| - |"staging"|
      ensures !OccursAt("theplot.world", "staging", i)
    {
      assert "theplot.world"[i..i + 7][0] == "theplot.world"[i] != 's';
    }
    forall i | 0 <= i <= |"theplot.world"| - |"dev"|
      ensures !OccursAt("theplot.world", "dev", i)
    {
      assert "theplot.world"[i..i + 3][0] == "theplot.world"[i] != 'd';
    }
  }

  lemma PlainRequestHost(host: string, tail: string)
    requires Urls.PlainDomain(host)
    ensures RequestOf(Some("https://" + host + "/" + tail)) == Host(host)
  {
    Urls.ParseHttpsPlain(host, tail);
  }

  lemma TheplotWorldPlain()
    ensures Urls.PlainDomain("theplot.world")
  {
  }

  lemma ProductionUrlShape(tail: string)
    ensures "https://" + "theplot.world" + "/" + tail == "https://theplot.world/" + tail
  {
  }

  lemma ProductionRequestHost(tail: string)
    ensures RequestOf(Some("https://theplot.world/" + tail)) == Host("theplot.world")
  {
    TheplotWorldPlain();
    ProductionUrlShape(tail);
    PlainRequestHost("theplot.world", tail);
  }

  /** A request to `https://theplot.world/...` selects production when nothing else is set. */
  lemma ProductionHost(env: map<string, string>, tail: string)
    requires PlatformName(env) == ""
    ensures GetEnvironmentConfig(env, Some("https://theplot.world/" + tail)) == Success(Production)
  {
    ProductionRequestHost(tail);
    ProductionHostName();
    HostSelection(env, Host("theplot.world"));
    ProductionEntry();
  }

  /** A request whose plain host mentions `staging` selects staging when nothing else is set. */
  lemma StagingHost(env: map<string, string>, host: string, tail: string)
    requires PlatformName(env) == ""
    requires Urls.PlainDomain(host) && Contains(host, "staging")
    ensures GetEnvironmentConfig(env, Some("https://" + host + "/" + tail)) == Success(Staging)
  {
    PlainRequestHost(host, tail);
    HostSelection(env, Host(host));
    StagingEntry();
  }

  // ---------------------------------------------------------------------
  // Dotted-path lookup and validation
  // ---------------------------------------------------------------------

  /** A JavaScript value as the lookup sees it. */
  datatype Value = Undefined | Str(s: string) | Bool(b: bool) | Num(n: int) | Obj(fields: map<string, Value>)

  /** JavaScript truthiness: every object is truthy, the empty string, `false`, `0` and `undefined` are not. */
  predicate Truthy(v: Value) {
    match v
    case Undefined => false
    case Str(s) => s != ""
    case Bool(b) => b
    case Num(n) => n != 0
    case Obj(_) => true
  }

  /** A configuration as a plain object, one nested object per group. */
  function ToValue(c: Config): Value {
    Obj(map[
      "name" := Str(c.name),
      "firebase" := FirebaseValue(c.firebase),
      "secrets" := SecretsValue(c.secrets),
      "app" := AppValue(c.app),
      "urls" := EndpointsValue(c.urls),
      "features" := FeaturesValue(c.features)])
  }

  function FirebaseValue(f: Firebase): Value {
    Obj(map["projectId" := Str(f.projectId), "region" := Str(f.region)])
  }

  function SecretsValue(s: Secrets): Value {
    Obj(map["branchKey" := Str(s.branchKey), "serviceAccount" := Str(s.serviceAccount)])
  }

  function AppValue(a: App): Value {
    Obj(map["androidPackage" := Str(a.androidPackage), "iosBundleId" := Str(a.iosBundleId)])
  }

  function EndpointsValue(u: Endpoints): Value {
    Obj(map[
      "webApp" := Str(u.webApp), "deepLink" := Str(u.deepLink),
      "appStore" := Str(u.appStore), "playStore" := Str(u.playStore)])
  }

  function FeaturesValue(f: Features): Value {
    Obj(map[
      "strictFiltering" := Bool(f.strictFiltering),
      "debugLogging" := Bool(f.debugLogging),
      "rateLimit" := Obj(map[
        "requests" := Num(f.rateLimit.requests),
        "windowMs" := Num(f.rateLimit.windowMs)])])
  }

  /** One step of the reduction: the key's value when the current value is an object holding it. */
  function Step(current: Value, key: string): Value {
    if current.Obj? && key in current.fields then current.fields[key] else Undefined
  }

  /** The reduction over a list of keys, left to right. */
  function Lookup(v: Value, keys: seq<string>): Value
    decreases |keys|
  {
    if keys == [] then v else Lookup(Step(v, keys[0]), keys[1..])
  }

  /** `getNestedProperty(obj, path)` */
  function GetNestedProperty(obj: Value, path: string): Value {
    Lookup(obj, Split(path, '.'))
  }

  /** Every key up to the end names a field of an object reached so far. */
  predicate Resolves(v: Value, keys: seq<string>) {
    forall i :: 0 <= i < |keys| ==> Lookup(v, keys[..i]).Obj? && keys[i] in Lookup(v, keys[..i]).fields
  }

  /** Looking up a concatenation is looking up its two halves in turn. */
  lemma {:induction false} LookupAppend(v: Value, a: seq<string>, b: seq<string>)
    ensures Lookup(v, a + b) == Lookup(Lookup(v, a), b)
    decreases |a|
  {
    if a == [] {
      assert a + b == b;
    } else {
      assert (a + b)[0] == a[0];
      assert (a + b)[1..] == a[1..] + b;
      assert Lookup(v, a + b) == Lookup(Step(v, a[0]), a[1..] + b);
      assert Lookup(v, a) == Lookup(Step(v, a[0]), a[1..]);
      LookupAppend(Step(v, a[0]), a[1..], b);
    }
  }

  /** Nothing is found below `undefined`. */
  lemma {:induction false} LookupUndefined(keys: seq<string>)
    ensures Lookup(Undefined, keys) == Undefined
    decreases |keys|
  {
    if keys != [] {
      LookupUndefined(keys[1..]);
    }
  }

  /** When every key resolves, the lookup gives the last key's field of the last object reached. */
  lemma LookupResolved(v: Value, keys: seq<string>)
    requires Resolves(v, keys) && keys != []
    ensures Lookup(v, keys) == Lookup(v, keys[..|keys| - 1]).fields[keys[|keys| - 1]]
  {
    var init, last := keys[..|keys| - 1], keys[|keys| - 1];
    assert keys == init + [last];
    LookupAppend(v, init, [last]);
    assert Lookup(v, keys) == Step(Lookup(v, init), last);
    assert keys[..|init|] == init;
  }

  /** When some key does not name a field of the value reached so far, the lookup is `undefined`. */
  lemma {:induction false} LookupUnresolved(v: Value, keys: seq<string>)
    requires !Resolves(v, keys)
    ensures Lookup(v, keys) == Undefined
    decreases |keys|
  {
    var init, last := keys[..|keys| - 1], keys[|keys| - 1];
    assert keys == init + [last];
    LookupAppend(v, init, [last]);
    assert Lookup(v, keys) == Step(Lookup(v, init), last);
    if Resolves(v, init) {
      forall i | 0 <= i < |init| ensures keys[..i] == init[..i] && keys[i] == init[i] {
      }
      assert keys[..|init|] == init;
      assert !(Lookup(v, init).Obj? && last in Lookup(v, init).fields);
    } else {
      LookupUnresolved(v, init);
    }
  }

  lemma SplitDotted(a: string, b: string)
    requires '.' !in a && '.' !in b
    ensures Split(a + "." + b, '.') == [a, b]
  {
    SplitJoin([a, b], '.');
    assert Join([a, b], ".") == a + "." + b;
  }

  /** A two-key dotted path reads one field of one nested object. */
  lemma DottedPath(v: Value, a: string, b: string)
    requires '.' !in a && '.' !in b
    ensures GetNestedProperty(v, a + "." + b) == Step(Step(v, a), b)
  {
    SplitDotted(a, b);
    assert [a, b][1..] == [b];
    assert Lookup(v, [a, b]) == Lookup(Step(v, a), [b]);
    assert [b][1..] == [];
    assert Lookup(Step(v, a), [b]) == Lookup(Step(Step(v, a), b), []);
  }

  lemma ProjectIdKey()
    ensures "firebase.projectId" == "firebase" + "." + "projectId"
  {
  }

  lemma ProjectIdNested(c: Config)
    ensures GetNestedProperty(ToValue(c), "firebase" + "." + "projectId") == Str(c.firebase.projectId)
  {
    DottedPath(ToValue(c), "firebase", "projectId");
    assert Step(ToValue(c), "firebase") == FirebaseValue(c.firebase);
    assert Step(FirebaseValue(c.firebase), "projectId") == Str(c.firebase.projectId);
  }

  /** `firebase.projectId` reads the configuration's `projectId` field of its `firebase` group. */
  lemma ProjectIdPath(c: Config)
    ensures GetNestedProperty(ToValue(c), "firebase.projectId") == Str(c.firebase.projectId)
  {
    ProjectIdKey();
    ProjectIdNested(c);
  }

  lemma BranchKeyKey()
    ensures "secrets.branchKey" == "secrets" + "." + "branchKey"
  {
  }

  lemma BranchKeyNested(c: Config)
    ensures GetNestedProperty(ToValue(c), "secrets" + "." + "branchKey") == Str(c.secrets.branchKey)
  {
    DottedPath(ToValue(c), "secrets", "branchKey");
    assert Step(ToValue(c), "secrets") == SecretsValue(c.secrets);
    assert Step(SecretsValue(c.secrets), "branchKey") == Str(c.secrets.branchKey);
  }

  /** `secrets.branchKey` reads the configuration's `branchKey` field of its `secrets` group. */
  lemma BranchKeyPath(c: Config)
    ensures GetNestedProperty(ToValue(c), "secrets.branchKey") == Str(c.secrets.branchKey)
  {
    BranchKeyKey();
    BranchKeyNested(c);
  }

  lemma AndroidPackageKey()
    ensures "app.androidPackage" == "app" + "." + "androidPackage"
  {
  }

  lemma AndroidPackageNested(c: Config)
    ensures GetNestedProperty(ToValue(c), "app" + "." + "androidPackage") == Str(c.app.androidPackage)
  {
    DottedPath(ToValue(c), "app", "androidPackage");
    assert Step(ToValue(c), "app") == AppValue(c.app);
    assert Step(AppValue(c.app), "androidPackage") == Str(c.app.androidPackage);
  }

  /** `app.androidPackage` reads the configuration's `androidPackage` field of its `app` group. */
  lemma AndroidPackagePath(c: Config)
    ensures GetNestedProperty(ToValue(c), "app.androidPackage") == Str(c.app.androidPackage)
  {
    AndroidPackageKey();
    AndroidPackageNested(c);
  }

  lemma WebAppKey()
    ensures "urls.webApp" == "urls" + "." + "webApp"
  {
  }

  lemma WebAppNested(c: Config)
    ensures GetNestedProperty(ToValue(c), "urls" + "." + "webApp") == Str(c.urls.webApp)
  {
    DottedPath(ToValue(c), "urls", "webApp");
    assert Step(ToValue(c), "urls") == EndpointsValue(c.urls);
    assert Step(EndpointsValue(c.urls), "webApp") == Str(c.urls.webApp);
  }

  /** `urls.webApp` reads the configuration's `webApp` field of its `urls` group. */
  lemma WebAppPath(c: Config)
    ensures GetNestedProperty(ToValue(c), "urls.webApp") == Str(c.urls.webApp)
  {
    WebAppKey();
    WebAppNested(c);
  }

  const RequiredFields: seq<string> := ["firebase.projectId", "secrets.branchKey", "app.androidPackage", "urls.webApp"]

  /** Every required path of `c` holds a truthy value. */
  predicate HasRequiredFields(c: Config) {
    forall i :: 0 <= i < |RequiredFields| ==> Truthy(GetNestedProperty(ToValue(c), RequiredFields[i]))
  }

  /** The `i`-th required path is the first whose value is falsy. */
  predicate FirstMissing(c: Config, i: int) {
    0 <= i < |RequiredFields|
    && !Truthy(GetNestedProperty(ToValue(c), RequiredFields[i]))
    && forall j :: 0 <= j < i ==> Truthy(GetNestedProperty(ToValue(c), RequiredFields[j]))
  }

  /** `validateEnvironmentConfig`: the first required path whose value is falsy raises an error naming it. */
  method ValidateEnvironmentConfig(c: Config) returns (r: Result<(), string>)
    ensures r.Success? <==> HasRequiredFields(c)
    ensures r.Failure? ==>
      exists i :: FirstMissing(c, i) && r.error == "Missing required environment config: " + RequiredFields[i]
  {
    for i := 0 to |RequiredFields|
      invariant forall j :: 0 <= j < i ==> Truthy(GetNestedProperty(ToValue(c), RequiredFields[j]))
    {
      var value := GetNestedProperty(ToValue(c), RequiredFields[i]);
      if !Truthy(value) {
        assert FirstMissing(c, i);
        return Failure("Missing required environment config: " + RequiredFields[i]);
      }
    }
    return Success(());
  }

  /** The string each required path names, in the same order. */
  function RequiredValue(c: Config, i: nat): string
    requires i < |RequiredFields|
  {
    [c.firebase.projectId, c.secrets.branchKey, c.app.androidPackage, c.urls.webApp][i]
  }

  lemma RequiredFieldValue(c: Config, i: nat)
    requires i < |RequiredFields|
    ensures GetNestedProperty(ToValue(c), RequiredFields[i]) == Str(RequiredValue(c, i))
  {
    if i == 0 {
      ProjectIdPath(c);
    } else if i == 1 {
      BranchKeyPath(c);
    } else if i == 2 {
      AndroidPackagePath(c);
    } else {
      WebAppPath(c);
    }
  }

  /** The check passes exactly when each required path holds a non-empty string. */
  lemma RequiredValuesNonEmpty(c: Config)
    ensures HasRequiredFields(c) <==> forall i: nat :: i < |RequiredFields| ==> RequiredValue(c, i) != ""
  {
    forall i: nat | i < |RequiredFields|
      ensures Truthy(GetNestedProperty(ToValue(c), RequiredFields[i])) <==> RequiredValue(c, i) != ""
    {
      RequiredFieldValue(c, i);
    }
  }

  lemma RequiredValuesAre(c: Config)
    ensures (forall i: nat :: i < |RequiredFields| ==> RequiredValue(c, i) != "") <==>
      c.firebase.projectId != "" && c.secrets.branchKey != ""
      && c.app.androidPackage != "" && c.urls.webApp != ""
  {
    assert RequiredValue(c, 0) == c.firebase.projectId;
    assert RequiredValue(c, 1) == c.secrets.branchKey;
    assert RequiredValue(c, 2) == c.app.androidPackage;
    assert RequiredValue(c, 3) == c.urls.webApp;
  }

  /** The check passes exactly when the four required strings are non-empty. */
  lemma RequiredFieldsMeaning(c: Config)
    ensures HasRequiredFields(c) <==>
      c.firebase.projectId != "" && c.secrets.branchKey != ""
      && c.app.androidPackage != "" && c.urls.webApp != ""
  {
    RequiredValuesNonEmpty(c);
    RequiredValuesAre(c);
  }

  /** Each built-in configuration passes validation. */
  lemma BuiltInConfigsValid()
    ensures HasRequiredFields(Production)
    ensures HasRequiredFields(Staging)
    ensures HasRequiredFields(Development)
  {
    RequiredFieldsMeaning(Production);
    RequiredFieldsMeaning(Staging);
    RequiredFieldsMeaning(Development);
  }
}

/**
 * `validateBranchLinkRequest`: the format checks on the query of a request
 * for a Branch link. Every failed check adds its message, in a fixed order;
 * any message at all rejects the request with status 400.
 */
module LinkRequest {
  import opened Wrappers
  import opened Text
  import opened Errors

  /** The query as `Object.fromEntries` hands it over: every value is a string. */
  type Fields = map<string, string>

  /** `data[name]`: the value, or `undefined` when the query has no such name. */
  function Field(data: Fields, name: string): Option<string> {
    if name in data then Some(data[name]) else None
  }

  /** The field is truthy: present and not empty. */
  predicate Given(data: Fields, name: string) {
    name in data && data[name] != ""
  }

  // ---------------------------------------------------------------------
  // The patterns
  // ---------------------------------------------------------------------

  /** `[a-zA-Z0-9]` */
  predicate IsAlnum(c: char) {
    'a' <= c <= 'z' || 'A' <= c <= 'Z' || '0' <= c <= '9'
  }

  /** `[a-zA-Z0-9_-]`, the characters of codes and tokens. */
  predicate IsCodeChar(c: char) {
    IsAlnum(c) || c == '_' || c == '-'
  }

  /** `[a-zA-Z0-9_]`, the characters of user names. */
  predicate IsNameChar(c: char) {
    IsAlnum(c) || c == '_'
  }

  predicate AllCodeChars(s: string) {
    forall k :: 0 <= k < |s| ==> IsCodeChar(s[k])
  }

  predicate AllAlnum(s: string) {
    forall k :: 0 <= k < |s| ==> IsAlnum(s[k])
  }

  predicate AllNameChars(s: string) {
    forall k :: 0 <= k < |s| ==> IsNameChar(s[k])
  }

  const KnownModes: seq<string> := ["custom_password_reset", "verify_email"]

  /** The code pattern: ten or more code characters in development, 20 to 100 anywhere else. */
  predicate CodeMatches(code: string, environment: string) {
    AllCodeChars(code) && if environment == "development" then |code| >= 10 else 20 <= |code| <= 100
  }

  /** `/^[a-zA-Z0-9_-]{16,}$/` */
  predicate TokenMatches(token: string) {
    AllCodeChars(token) && |token| >= 16
  }

  /** `/^[a-zA-Z0-9]{20,}$/` */
  predicate UidMatches(uid: string) {
    AllAlnum(uid) && |uid| >= 20
  }

  /** `/^[a-zA-Z0-9_]{3,20}$/` */
  predicate UsernameMatches(name: string) {
    AllNameChars(name) && 3 <= |name| <= 20
  }

  /** `[^\s@]+`: a non-empty run without white space and without `@`. */
  predicate EmailRun(s: string) {
    s != [] && forall k :: 0 <= k < |s| ==> !IsWhiteSpace(s[k]) && s[k] != '@'
  }

  /** `/^[^\s@]+@[^\s@]+\.[^\s@]+$/`: three such runs, the first two joined by `@`, the last two by `.`. */
  predicate EmailMatches(s: string) {
    exists i, j :: 0 <= i < j < |s| && s[i] == '@' && s[j] == '.'
      && EmailRun(s[..i]) && EmailRun(s[i + 1..j]) && EmailRun(s[j + 1..])
  }

  /**
   * The same pattern read off the address as a whole: no white space, a
   * single `@` with text before it, and a `.` strictly inside the part after
   * the `@`.
   */
  predicate EmailShape(s: string) {
    NoWhiteSpace(s)
    && exists i :: 0 < i < |s| && s[i] == '@' && OnlyAt(s, i) && DotInside(s, i)
  }

  /** No `@` but the one at `i`. */
  predicate OnlyAt(s: string, i: nat) {
    forall k :: 0 <= k < |s| && k != i ==> s[k] != '@'
  }

  /** A `.` after `i` with at least one character on each side of it. */
  predicate DotInside(s: string, i: nat) {
    exists j :: i + 1 < j < |s| - 1 && s[j] == '.'
  }

  /** The email pattern accepts exactly the addresses of that shape. */
  lemma EmailPattern(s: string)
    ensures EmailMatches(s) <==> EmailShape(s)
  {
    if EmailMatches(s) {
      var i, j :| 0 <= i < j < |s| && s[i] == '@' && s[j] == '.'
        && EmailRun(s[..i]) && EmailRun(s[i + 1..j]) && EmailRun(s[j + 1..]);
      EmailMatchShape(s, i, j);
    }
    if EmailShape(s) {
      var i :| 0 < i < |s| && s[i] == '@' && OnlyAt(s, i) && DotInside(s, i);
      var j :| i + 1 < j < |s| - 1 && s[j] == '.';
      EmailShapeMatch(s, i, j);
    }
  }

  lemma EmailMatchShape(s: string, i: nat, j: nat)
    requires i < j < |s| && s[i] == '@' && s[j] == '.'
    requires EmailRun(s[..i]) && EmailRun(s[i + 1..j]) && EmailRun(s[j + 1..])
    ensures EmailShape(s)
  {
    forall k | 0 <= k < |s| ensures !IsWhiteSpace(s[k]) && (k != i ==> s[k] != '@') {
      if k < i {
        assert s[k] == s[..i][k];
      } else if i < k < j {
        assert s[k] == s[i + 1..j][k - i - 1];
      } else if j < k {
        assert s[k] == s[j + 1..][k - j - 1];
      }
    }
    assert |s[..i]| > 0 && |s[i + 1..j]| > 0 && |s[j + 1..]| > 0;
    assert DotInside(s, i);
  }

  lemma EmailShapeMatch(s: string, i: nat, j: nat)
    requires NoWhiteSpace(s) && 0 < i < |s| && s[i] == '@' && OnlyAt(s, i)
    requires i + 1 < j < |s| - 1 && s[j] == '.'
    ensures EmailMatches(s)
  {
    var a, b, c := s[..i], s[i + 1..j], s[j + 1..];
    forall k | 0 <= k < |a| ensures !IsWhiteSpace(a[k]) && a[k] != '@' {
      assert a[k] == s[k];
    }
    forall k | 0 <= k < |b| ensures !IsWhiteSpace(b[k]) && b[k] != '@' {
      assert b[k] == s[i + 1 + k];
    }
    forall k | 0 <= k < |c| ensures !IsWhiteSpace(c[k]) && c[k] != '@' {
      assert c[k] == s[j + 1 + k];
    }
    assert EmailRun(a) && EmailRun(b) && EmailRun(c);
  }

  // ---------------------------------------------------------------------
  // The checks and their messages
  // ---------------------------------------------------------------------

  /** The validator's checks, in the order it runs them. */
  datatype Check =
    | ModeMissing | ModeUnknown
    | CodeMissing | CodeMalformed
    | EmailMissing | EmailMalformed
    | TokenMalformed | UidMalformed | UsernameMalformed

  /** The message a failed check adds. */
  function Message(c: Check): string {
    match c
    case ModeMissing => "Mode is required"
    case ModeUnknown => "Invalid mode value"
    case CodeMissing => "Verification code is required"
    case CodeMalformed => "Invalid verification code format"
    case EmailMissing => "Email is required"
    case EmailMalformed => "Invalid email format"
    case TokenMalformed => "Invalid token format"
    case UidMalformed => "Invalid user ID format"
    case UsernameMalformed => "Invalid username format"
  }

  /**
   * When a check fails. A field's format is checked only when the field is
   * given; the three optional fields are checked only then as well.
   */
  predicate Fails(c: Check, data: Fields, environment: string) {
    match c
    case ModeMissing => !Given(data, "mode")
    case ModeUnknown => Given(data, "mode") && data["mode"] !in KnownModes
    case CodeMissing => !Given(data, "oobCode")
    case CodeMalformed => Given(data, "oobCode") && !CodeMatches(data["oobCode"], environment)
    case EmailMissing => !Given(data, "email")
    case EmailMalformed => Given(data, "email") && !EmailMatches(data["email"])
    case TokenMalformed => Given(data, "token") && !TokenMatches(data["token"])
    case UidMalformed => Given(data, "uid") && !UidMatches(data["uid"])
    case UsernameMalformed => Given(data, "username") && !UsernameMatches(data["username"])
  }

  /** What a request must satisfy to pass. */
  predicate Acceptable(data: Fields, environment: string) {
    Given(data, "mode") && data["mode"] in KnownModes
    && Given(data, "oobCode") && CodeMatches(data["oobCode"], environment)
    && Given(data, "email") && EmailMatches(data["email"])
    && (Given(data, "token") ==> TokenMatches(data["token"]))
    && (Given(data, "uid") ==> UidMatches(data["uid"]))
    && (Given(data, "username") ==> UsernameMatches(data["username"]))
  }

  /** `[c]` when the check fails, nothing otherwise. */
  function IfFails(c: Check, data: Fields, environment: string): seq<Check> {
    if Fails(c, data, environment) then [c] else []
  }

  /** The mode checks: missing, then unknown. */
  function ModeChecks(data: Fields, environment: string): seq<Check> {
    IfFails(ModeMissing, data, environment) + IfFails(ModeUnknown, data, environment)
  }

  /** The code checks: missing, then malformed. */
  function CodeChecks(data: Fields, environment: string): seq<Check> {
    IfFails(CodeMissing, data, environment) + IfFails(CodeMalformed, data, environment)
  }

  /** The email checks: missing, then malformed. */
  function EmailChecks(data: Fields, environment: string): seq<Check> {
    IfFails(EmailMissing, data, environment) + IfFails(EmailMalformed, data, environment)
  }

  /** The failed checks, block by block in the validator's order. */
  function FailedChecks(data: Fields, environment: string): seq<Check> {
    ModeChecks(data, environment) + CodeChecks(data, environment) + EmailChecks(data, environment)
    + IfFails(TokenMalformed, data, environment) + IfFails(UidMalformed, data, environment)
    + IfFails(UsernameMalformed, data, environment)
  }

  /** A check is in its own entry exactly when it fails. */
  lemma InIfFails(c: Check, d: Check, data: Fields, environment: string)
    ensures c in IfFails(d, data, environment) <==> c == d && Fails(d, data, environment)
  {
  }

  /** A check is listed when it is listed by one of the blocks. */
  lemma InBlocks(data: Fields, environment: string, c: Check)
    ensures c in FailedChecks(data, environment) <==>
      c in ModeChecks(data, environment) || c in CodeChecks(data, environment)
      || c in EmailChecks(data, environment) || c in IfFails(TokenMalformed, data, environment)
      || c in IfFails(UidMalformed, data, environment) || c in IfFails(UsernameMalformed, data, environment)
  {
  }

  /** Every check that fails is listed, and only those. */
  lemma FailuresListed(data: Fields, environment: string, c: Check)
    ensures c in FailedChecks(data, environment) <==> Fails(c, data, environment)
  {
    var d, e := data, environment;
    InBlocks(d, e, c);
    InIfFails(c, ModeMissing, d, e);
    InIfFails(c, ModeUnknown, d, e);
    InIfFails(c, CodeMissing, d, e);
    InIfFails(c, CodeMalformed, d, e);
    InIfFails(c, EmailMissing, d, e);
    InIfFails(c, EmailMalformed, d, e);
    InIfFails(c, TokenMalformed, d, e);
    InIfFails(c, UidMalformed, d, e);
    InIfFails(c, UsernameMalformed, d, e);
  }

  /** Nothing is listed exactly when every check passes. */
  lemma NoFailureIffAcceptable(data: Fields, environment: string)
    ensures FailedChecks(data, environment) == [] <==> Acceptable(data, environment)
  {
    forall c: Check ensures c in FailedChecks(data, environment) <==> Fails(c, data, environment) {
      FailuresListed(data, environment, c);
    }
    var failed := FailedChecks(data, environment);
    if failed != [] {
      assert failed[0] in failed;
    }
  }

  /** The message of each check, in order. */
  function Messages(checks: seq<Check>): (messages: seq<string>)
    ensures |messages| == |checks|
    ensures forall k :: 0 <= k < |checks| ==> messages[k] == Message(checks[k])
  {
    if checks == [] then [] else [Message(checks[0])] + Messages(checks[1..])
  }

  /** The messages of two lists of checks, one after the other. */
  lemma MessagesConcat(a: seq<Check>, b: seq<Check>)
    ensures Messages(a + b) == Messages(a) + Messages(b)
  {
  }

  // ---------------------------------------------------------------------
  // The validator, block by block
  // ---------------------------------------------------------------------

  /** The messages after the mode block, given those before it. */
  function ModeStep(errors: seq<string>, data: Fields): seq<string> {
    if !Given(data, "mode") then errors + ["Mode is required"]
    else if data["mode"] !in KnownModes then errors + ["Invalid mode value"]
    else errors
  }

  /** The messages after the code block. */
  function CodeStep(errors: seq<string>, data: Fields, environment: string): seq<string> {
    if !Given(data, "oobCode") then errors + ["Verification code is required"]
    else if !CodeMatches(data["oobCode"], environment) then errors + ["Invalid verification code format"]
    else errors
  }

  /** The messages after the email block. */
  function EmailStep(errors: seq<string>, data: Fields): seq<string> {
    if !Given(data, "email") then errors + ["Email is required"]
    else if !EmailMatches(data["email"]) then errors + ["Invalid email format"]
    else errors
  }

  /** The messages after the token check. */
  function TokenStep(errors: seq<string>, data: Fields): seq<string> {
    if Given(data, "token") && !TokenMatches(data["token"]) then errors + ["Invalid token format"] else errors
  }

  /** The messages after the user ID check. */
  function UidStep(errors: seq<string>, data: Fields): seq<string> {
    if Given(data, "uid") && !UidMatches(data["uid"]) then errors + ["Invalid user ID format"] else errors
  }

  /** The messages after the user name check. */
  function UsernameStep(errors: seq<string>, data: Fields): seq<string> {
    if Given(data, "username") && !UsernameMatches(data["username"]) then errors + ["Invalid username format"] else errors
  }

  /** The messages the validator collects, block after block. */
  function ValidationErrors(data: Fields, environment: string): seq<string> {
    var mode := ModeStep([], data);
    var code := CodeStep(mode, data, environment);
    var email := EmailStep(code, data);
    UsernameStep(UidStep(TokenStep(email, data), data), data)
  }

  /** Running the blocks one after the other gives the validator's messages. */
  lemma StepsChain(data: Fields, environment: string, s1: seq<string>, s2: seq<string>, s3: seq<string>, s4: seq<string>, s5: seq<string>, s6: seq<string>)
    requires s1 == ModeStep([], data) && s2 == CodeStep(s1, data, environment) && s3 == EmailStep(s2, data)
    requires s4 == TokenStep(s3, data) && s5 == UidStep(s4, data) && s6 == UsernameStep(s5, data)
    ensures s6 == ValidationErrors(data, environment)
  {
  }
  lemma ModeStepMessages(errors: seq<string>, data: Fields, environment: string)
    ensures ModeStep(errors, data) == errors + Messages(ModeChecks(data, environment))
  {
  }

  lemma CodeStepMessages(errors: seq<string>, data: Fields, environment: string)
    ensures CodeStep(errors, data, environment) == errors + Messages(CodeChecks(data, environment))
  {
  }

  lemma EmailStepMessages(errors: seq<string>, data: Fields, environment: string)
    ensures EmailStep(errors, data) == errors + Messages(EmailChecks(data, environment))
  {
  }

  lemma OptionalStepMessages(errors: seq<string>, data: Fields, environment: string)
    ensures TokenStep(errors, data) == errors + Messages(IfFails(TokenMalformed, data, environment))
    ensures UidStep(errors, data) == errors + Messages(IfFails(UidMalformed, data, environment))
    ensures UsernameStep(errors, data) == errors + Messages(IfFails(UsernameMalformed, data, environment))
  {
  }

  /** The validator lists the message of every failed check, in its order, and nothing else. */
  lemma ErrorsAreFailureMessages(data: Fields, environment: string)
    ensures ValidationErrors(data, environment) == Messages(FailedChecks(data, environment))
  {
    var d, e := data, environment;
    var mode, code, email := ModeChecks(d, e), CodeChecks(d, e), EmailChecks(d, e);
    var token, uid, username := IfFails(TokenMalformed, d, e), IfFails(UidMalformed, d, e), IfFails(UsernameMalformed, d, e);
    var s1 := ModeStep([], d);
    ModeStepMessages([], d, e);
    assert s1 == Messages(mode);
    var s2 := CodeStep(s1, d, e);
    CodeStepMessages(s1, d, e);
    MessagesConcat(mode, code);
    assert s2 == Messages(mode + code);
    var s3 := EmailStep(s2, d);
    EmailStepMessages(s2, d, e);
    MessagesConcat(mode + code, email);
    assert s3 == Messages(mode + code + email);
    var s4 := TokenStep(s3, d);
    OptionalStepMessages(s3, d, e);
    MessagesConcat(mode + code + email, token);
    assert s4 == Messages(mode + code + email + token);
    var s5 := UidStep(s4, d);
    OptionalStepMessages(s4, d, e);
    MessagesConcat(mode + code + email + token, uid);
    assert s5 == Messages(mode + code + email + token + uid);
    var s6 := UsernameStep(s5, d);
    OptionalStepMessages(s5, d, e);
    MessagesConcat(mode + code + email + token + uid, username);
    assert s6 == Messages(mode + code + email + token + uid + username);
    StepsChain(d, e, s1, s2, s3, s4, s5, s6);
  }

  /** No message is produced exactly when every check passes. */
  lemma NoErrorsIffAcceptable(data: Fields, environment: string)
    ensures ValidationErrors(data, environment) == [] <==> Acceptable(data, environment)
  {
    ErrorsAreFailureMessages(data, environment);
    NoFailureIffAcceptable(data, environment);
  }

  // ---------------------------------------------------------------------
  // The validator
  // ---------------------------------------------------------------------

  /** The request as it leaves the validator. */
  datatype BranchLinkRequest = BranchLinkRequest(
    mode: string,
    oobCode: string,
    email: string,
    token: Option<string>,
    uid: Option<string>,
    username: Option<string>)

  /**
   * The request validation builds from the fields: the email lower-cased
   * and trimmed, the other fields as given.
   */
  function Normalised(data: Fields): BranchLinkRequest {
    BranchLinkRequest(
      Field(data, "mode").GetOr(""), Field(data, "oobCode").GetOr(""),
      Trim(AsciiLower(Field(data, "email").GetOr(""))),
      Field(data, "token"), Field(data, "uid"), Field(data, "username"))
  }

  /**
   * The checks of `validateBranchLinkRequest`, each pushing its message onto
   * `errors` when it fails.
   */
  method CollectValidationErrors(data: Fields, environment: string) returns (errors: seq<string>)
    ensures errors == ValidationErrors(data, environment)
  {
    errors := [];
    if !Given(data, "mode") {
      errors := errors + ["Mode is required"];
    } else if data["mode"] !in KnownModes {
      errors := errors + ["Invalid mode value"];
    }
    ghost var s1 := errors;
    assert s1 == ModeStep([], data);
    if !Given(data, "oobCode") {
      errors := errors + ["Verification code is required"];
    } else if !CodeMatches(data["oobCode"], environment) {
      errors := errors + ["Invalid verification code format"];
    }
    ghost var s2 := errors;
    assert s2 == CodeStep(s1, data, environment);
    if !Given(data, "email") {
      errors := errors + ["Email is required"];
    } else if !EmailMatches(data["email"]) {
      errors := errors + ["Invalid email format"];
    }
    ghost var s3 := errors;
    assert s3 == EmailStep(s2, data);
    if Given(data, "token") && !TokenMatches(data["token"]) {
      errors := errors + ["Invalid token format"];
    }
    ghost var s4 := errors;
    assert s4 == TokenStep(s3, data);
    if Given(data, "uid") && !UidMatches(data["uid"]) {
      errors := errors + ["Invalid user ID format"];
    }
    ghost var s5 := errors;
    assert s5 == UidStep(s4, data);
    if Given(data, "username") && !UsernameMatches(data["username"]) {
      errors := errors + ["Invalid username format"];
    }
    assert errors == UsernameStep(s5, data);
    StepsChain(data, environment, s1, s2, s3, s4, s5, errors);
  }

  /**
   * `validateBranchLinkRequest(data, context)` for an environment named
   * `environment`: the request with its email lower-cased and trimmed, or
   * the `VALIDATION_ERROR` listing every failed check.
   */
  method ValidateBranchLinkRequest(data: Fields, environment: string) returns (r: Result<BranchLinkRequest, ApiError>)
    ensures r.Failure? <==> !Acceptable(data, environment)
    ensures r.Failure? ==>
      r.error == ApiError("Validation failed: " + Join(ValidationErrors(data, environment), ", "), 400, "VALIDATION_ERROR")
    ensures r.Success? ==>
      Field(data, "mode") == Some(r.value.mode) && Field(data, "oobCode") == Some(r.value.oobCode)
      && Field(data, "email").Some? && r.value.email == Trim(AsciiLower(Field(data, "email").value))
      && r.value.token == Field(data, "token") && r.value.uid == Field(data, "uid")
      && r.value.username == Field(data, "username")
    ensures r.Success? ==> r.value == Normalised(data)
  {
    var errors := CollectValidationErrors(data, environment);
    NoErrorsIffAcceptable(data, environment);
    if |errors| > 0 {
      return Failure(ApiError("Validation failed: " + Join(errors, ", "), 400, "VALIDATION_ERROR"));
    }
    return Success(Normalised(data));
  }

  /** An accepted email comes out lower-case, with nothing left for `trim` to remove. */
  lemma AcceptedEmail(email: string)
    requires EmailMatches(email)
    ensures var e := Trim(AsciiLower(email)); e == AsciiLower(email) && IsLower(e) && Trim(e) == e
  {
    EmailPattern(email);
    LowerWhiteSpaceFree(email);
    TrimNoWhiteSpace(AsciiLower(email));
    LowerIsLower(email);
  }

  lemma LowerWhiteSpaceFree(s: string)
    requires NoWhiteSpace(s)
    ensures NoWhiteSpace(AsciiLower(s))
  {
    var t := AsciiLower(s);
    forall k | 0 <= k < |t| ensures !IsWhiteSpace(t[k]) {
      assert t[k] == LowerChar(s[k]);
    }
  }
}

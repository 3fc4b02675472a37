/** `POST /api/auth/verify-otp` (app/api/auth/verify-otp/route.ts): log in with the
    one-time code, which is accepted once, up to and including its expiry instant. */
module VerifyOtp {
  import opened Common
  import opened Responses
  import opened ErrorHandler
  import opened Zod
  import Jwt
  import opened UserModel
  import opened UserDb
  import SendOtp

  datatype VerifyOtpFields = VerifyOtpFields(email: JsonField, otp: JsonField)
  datatype VerifyOtpData = VerifyOtpData(email: string, otp: string)

  const INVALID_EMAIL: string := "Invalid email address"
  const OTP_LENGTH: string := "OTP must be 4 digits"
  const OTP_DIGITS: string := "OTP must contain only numbers"
  const BAD_EMAIL_OR_OTP: string := "Invalid email or OTP"
  const OTP_EXPIRED: string := "OTP has expired. Please request a new one."
  const WRONG_OTP: string := "Invalid OTP. Please try again."
  const OTP_VERIFIED: string := "OTP verified successfully. Logged in!"

  // ----- verifyOtpSchema -----

  /** `email: z.string().email(...)`; the email format test of the zod library is the parameter `isEmail`. */
  function EmailIssues(f: JsonField, isEmail: string -> bool): seq<Issue> {
    if f.Str? then Check("email", isEmail(f.s), INVALID_EMAIL) else TypeIssue("email", f)
  }

  /** `otp: z.string().length(4, ...).regex(/^\d+$/, ...)`: both checks run; `.length` counts UTF-16 code units. */
  function OtpIssues(f: JsonField): seq<Issue> {
    if f.Str? then Check("otp", JsLength(f.s) == 4, OTP_LENGTH) + Check("otp", DigitsOnly(f.s), OTP_DIGITS)
    else TypeIssue("otp", f)
  }

  /** `verifyOtpSchema.parse(body)` */
  function ParseBody(body: JsonBody<VerifyOtpFields>, isEmail: string -> bool): Parsed<VerifyOtpData> {
    match body
    case NotObject(t) => Threw(Rejection([ObjectTypeIssue(t)]))
    case Object(b) =>
      var issues := EmailIssues(b.email, isEmail) + OtpIssues(b.otp);
      if issues == [] then Parsed(VerifyOtpData(b.email.s, b.otp.s)) else Threw(Rejection(issues))
  }

  /** The schema accepts exactly an object holding an email address and four decimal digits, and passes
      them on unchanged; anything else is a ZodError. */
  lemma SchemaAcceptsIff(body: JsonBody<VerifyOtpFields>, isEmail: string -> bool)
    ensures ParseBody(body, isEmail).Parsed? <==>
      && body.Object? && body.fields.email.Str? && body.fields.otp.Str?
      && isEmail(body.fields.email.s) && |body.fields.otp.s| == 4 && DigitsOnly(body.fields.otp.s)
    ensures ParseBody(body, isEmail).Parsed? ==>
      ParseBody(body, isEmail).data == VerifyOtpData(body.fields.email.s, body.fields.otp.s)
    ensures ParseBody(body, isEmail).Threw? ==> ParseBody(body, isEmail).e.ZodError?
  {
    if body.Object? && body.fields.otp.Str? && DigitsOnly(body.fields.otp.s) {
      JsLengthOfDigits(body.fields.otp.s);
    }
  }

  /** The `errors` record for two string fields: the email message when the format test fails, and for
      the code the digits message when it holds a non-digit, else the length message when it is not 4 long. */
  lemma {:induction false} StringFieldErrors(email: string, otp: string, isEmail: string -> bool)
    ensures var issues := EmailIssues(Str(email), isEmail) + OtpIssues(Str(otp));
      IssueMap(issues) ==
        (if isEmail(email) then map[] else map["email" := INVALID_EMAIL]) +
        (if DigitsOnly(otp) then (if |otp| == 4 then map[] else map["otp" := OTP_LENGTH]) else map["otp" := OTP_DIGITS])
  {
    var e := Check("email", isEmail(email), INVALID_EMAIL);
    if DigitsOnly(otp) {
      JsLengthOfDigits(otp);
    }
    var l := Check("otp", JsLength(otp) == 4, OTP_LENGTH);
    var d := Check("otp", DigitsOnly(otp), OTP_DIGITS);
    assert e + (l + d) == EmailIssues(Str(email), isEmail) + OtpIssues(Str(otp));
    IssueMapAppend(e, l + d);
    IssueMapAppend(l, d);
    IssueMapOfCheck("email", isEmail(email), INVALID_EMAIL);
    IssueMapOfCheck("otp", JsLength(otp) == 4, OTP_LENGTH);
    IssueMapOfCheck("otp", DigitsOnly(otp), OTP_DIGITS);
  }

  /** A missing field is reported as "Required"; a body that is not an object under the key "undefined". */
  lemma ShapeErrors(b: VerifyOtpFields, typeName: string, isEmail: string -> bool)
    ensures b.otp.Absent? ==>
      var errors := IssueMap(EmailIssues(b.email, isEmail) + OtpIssues(b.otp));
      "otp" in errors && errors["otp"] == "Required"
    ensures IssueMap([ObjectTypeIssue(typeName)]) == map["undefined" := "Expected object, received " + typeName]
  {
    if b.otp.Absent? {
      IssueMapAppend(EmailIssues(b.email, isEmail), OtpIssues(b.otp));
      IssueMapOfTypeIssue("otp", b.otp);
    }
    assert [ObjectTypeIssue(typeName)][..0] == [];
  }

  // ----- the route -----

  /** `data` of a successful verification. */
  function OtpSessionData(u: UserRecord, token: string): Json {
    JObj(map[
      "user" := JObj(map["id" := JStr(u.id), "name" := JStr(u.name), "email" := JStr(u.email),
                         "isVerified" := JBool(u.isVerified), "accessToken" := JStr(token)]),
      "token" := JStr(token)])
  }

  /** The account after a successful verification: code spent, session token recorded. */
  function LoggedIn(u: UserRecord, token: string): UserRecord {
    SendOtp.WithoutOtp(u).(accessToken := Some(token))
  }

  /** The request, with `isEmail` the schema's email test, `now` the clock in milliseconds and `jwt`
      the signing configuration. */
  function Outcome(users: Users, connect: Option<Thrown>, body: Parsed<JsonBody<VerifyOtpFields>>,
                   isEmail: string -> bool, now: int, jwt: Jwt.JwtConfig): Step<ApiResponse> {
    if connect.Some? then Step(Caught(ZodAwareCatch, connect.value), users)
    else match body
      case Threw(e) => Step(Caught(ZodAwareCatch, e), users)
      case Parsed(json) =>
        match ParseBody(json, isEmail)
        case Threw(e) => Step(Caught(ZodAwareCatch, e), users)
        case Parsed(d) =>
          match ByEmail(users, d.email)
          case None => Step(ErrorResponse(BAD_EMAIL_OR_OTP, 401), users)
          case Some(u) =>
            if !Truthy(u.otpCode) || u.otpExpiry.None? then Step(ErrorResponse(OTP_EXPIRED, 400), users)
            else if now > u.otpExpiry.value then
              Step(ErrorResponse(OTP_EXPIRED, 400), users[u.email := SendOtp.WithoutOtp(u)])
            else if u.otpCode.value != d.otp then Step(ErrorResponse(WRONG_OTP, 401), users)
            else
              var token := Jwt.SignedToken(jwt, Jwt.SessionIdentity(u.id, u.email));
              Step(SuccessResponse(OtpSessionData(u, token), OTP_VERIFIED), users[u.email := LoggedIn(u, token)])
  }

  method Post(store: UserStore, connect: Option<Thrown>, body: Parsed<JsonBody<VerifyOtpFields>>,
              isEmail: string -> bool, now: int, jwt: Jwt.JwtConfig) returns (r: ApiResponse)
    requires store.Valid()
    modifies store
    ensures var step := Outcome(old(store.users), connect, body, isEmail, now, jwt);
      r == step.reply && store.users == step.users
    ensures store.Valid()
  {
    PreservesInvariant(store.users, connect, body, isEmail, now, jwt);
    r := Handle(store, connect, body, isEmail, now, jwt);
  }

  /** The handler's steps, in the source's order. */
  method Handle(store: UserStore, connect: Option<Thrown>, body: Parsed<JsonBody<VerifyOtpFields>>,
                isEmail: string -> bool, now: int, jwt: Jwt.JwtConfig) returns (r: ApiResponse)
    requires KeysAreEmails(store.users)
    modifies store
    ensures var step := Outcome(old(store.users), connect, body, isEmail, now, jwt);
      r == step.reply && store.users == step.users
  {
    if connect.Some? {
      r := CatchRoute(ZodAwareCatch, connect.value);
      return;
    }
    if body.Threw? {
      r := CatchRoute(ZodAwareCatch, body.e);
      return;
    }
    var parsed := ParseBody(body.data, isEmail);
    if parsed.Threw? {
      r := CatchRoute(ZodAwareCatch, parsed.e);
      return;
    }
    var d := parsed.data;
    var found := store.FindByEmail(d.email);
    if found.None? {
      return ErrorResponse(BAD_EMAIL_OR_OTP, 401);
    }
    var user := found.value;
    if !Truthy(user.otpCode) || user.otpExpiry.None? {
      return ErrorResponse(OTP_EXPIRED, 400);
    }
    if now > user.otpExpiry.value {
      store.Save(SendOtp.WithoutOtp(user));
      return ErrorResponse(OTP_EXPIRED, 400);
    }
    if user.otpCode.value != d.otp {
      return ErrorResponse(WRONG_OTP, 401);
    }
    var token := Jwt.SignedToken(jwt, Jwt.SessionIdentity(user.id, user.email));
    store.Save(LoggedIn(user, token));
    r := SuccessResponse(OtpSessionData(user, token), OTP_VERIFIED);
  }

  lemma PreservesInvariant(users: Users, connect: Option<Thrown>, body: Parsed<JsonBody<VerifyOtpFields>>,
                           isEmail: string -> bool, now: int, jwt: Jwt.JwtConfig)
    requires StoreInvariant(users)
    ensures var after := Outcome(users, connect, body, isEmail, now, jwt).users;
      StoreInvariant(after) && NeverUnverifies(users, after)
  {
    var after := Outcome(users, connect, body, isEmail, now, jwt).users;
    if connect.Some? || body.Threw? || ParseBody(body.data, isEmail).Threw? {
      assert after == users;
    } else {
      var d := ParseBody(body.data, isEmail).data;
      var found := ByEmail(users, d.email);
      if found.None? || !Truthy(found.value.otpCode) || found.value.otpExpiry.None? {
        assert after == users;
      } else {
        var u := found.value;
        StoredRecord(users, u.email);
        if now > u.otpExpiry.value {
          ReplacePreserves(users, SendOtp.WithoutOtp(u));
          assert after == users[u.email := SendOtp.WithoutOtp(u)];
        } else if u.otpCode.value == d.otp {
          var t := LoggedIn(u, Jwt.SignedToken(jwt, Jwt.SessionIdentity(u.id, u.email)));
          ReplacePreserves(users, t);
          assert after == users[u.email := t];
        } else {
          assert after == users;
        }
      }
    }
  }

  /** The code is accepted exactly when the account holds it, unexpired at `now` (the expiry instant
      itself still counts), and the request is well formed. */
  lemma SucceedsIff(users: Users, connect: Option<Thrown>, body: Parsed<JsonBody<VerifyOtpFields>>,
                    isEmail: string -> bool, now: int, jwt: Jwt.JwtConfig)
    ensures Outcome(users, connect, body, isEmail, now, jwt).reply.success <==>
      && connect.None? && body.Parsed? && ParseBody(body.data, isEmail).Parsed?
      && var d := ParseBody(body.data, isEmail).data;
      && NormalizeEmail(d.email) in users
      && users[NormalizeEmail(d.email)].otpCode == Some(d.otp) && users[NormalizeEmail(d.email)].otpExpiry.Some?
      && now <= users[NormalizeEmail(d.email)].otpExpiry.value
  {
    if connect.Some? {
      CaughtIsFailure(ZodAwareCatch, connect.value);
    } else if body.Threw? {
      CaughtIsFailure(ZodAwareCatch, body.e);
    } else if ParseBody(body.data, isEmail).Threw? {
      CaughtIsFailure(ZodAwareCatch, ParseBody(body.data, isEmail).e);
    } else {
      SchemaAcceptsIff(body.data, isEmail);
    }
  }

  /** A success spends the code and records the returned session token, and changes nothing else. */
  lemma SuccessfulVerification(users: Users, d: VerifyOtpFields, isEmail: string -> bool, now: int, jwt: Jwt.JwtConfig)
    requires KeysAreEmails(users)
    requires Outcome(users, None, Parsed(Object(d)), isEmail, now, jwt).reply.success
    ensures NormalizeEmail(d.email.s) in users
    ensures var e := NormalizeEmail(d.email.s);
      var token := Jwt.SignedToken(jwt, Jwt.SessionIdentity(users[e].id, e));
      var step := Outcome(users, None, Parsed(Object(d)), isEmail, now, jwt);
      && step.users == users[e := users[e].(otpCode := None, otpExpiry := None, accessToken := Some(token))]
      && step.reply.status == 200 && step.reply.message == OTP_VERIFIED
      && step.reply.data == Some(OtpSessionData(users[e], token))
  {
    SucceedsIff(users, None, Parsed(Object(d)), isEmail, now, jwt);
    SchemaAcceptsIff(Object(d), isEmail);
    var e := NormalizeEmail(d.email.s);
    assert ByEmail(users, d.email.s) == Some(users[e]) && users[e].email == e;
  }

  /** Expiry is checked before the code: once the expiry has passed, any code, right or wrong, is
      answered "expired" and the stored code is discarded. */
  lemma ExpiryCheckedFirst(users: Users, d: VerifyOtpData, now: int, jwt: Jwt.JwtConfig, isEmail: string -> bool)
    requires KeysAreEmails(users) && isEmail(d.email) && |d.otp| == 4 && DigitsOnly(d.otp)
    requires NormalizeEmail(d.email) in users && Truthy(users[NormalizeEmail(d.email)].otpCode) && users[NormalizeEmail(d.email)].otpExpiry.Some?
    requires now > users[NormalizeEmail(d.email)].otpExpiry.value
    ensures Outcome(users, None, Parsed(Object(VerifyOtpFields(Str(d.email), Str(d.otp)))), isEmail, now, jwt) ==
      Step(ErrorResponse(OTP_EXPIRED, 400), users[NormalizeEmail(d.email) := users[NormalizeEmail(d.email)].(otpCode := None, otpExpiry := None)])
  {
    SchemaAcceptsIff(Object(VerifyOtpFields(Str(d.email), Str(d.otp))), isEmail);
  }

  /** A wrong code within the lifetime is refused with 401 and leaves the code in place, so it can be retried. */
  lemma WrongCodeKeepsCode(users: Users, d: VerifyOtpData, now: int, jwt: Jwt.JwtConfig, isEmail: string -> bool)
    requires isEmail(d.email) && |d.otp| == 4 && DigitsOnly(d.otp)
    requires NormalizeEmail(d.email) in users && Truthy(users[NormalizeEmail(d.email)].otpCode) && users[NormalizeEmail(d.email)].otpExpiry.Some?
    requires now <= users[NormalizeEmail(d.email)].otpExpiry.value && users[NormalizeEmail(d.email)].otpCode != Some(d.otp)
    ensures Outcome(users, None, Parsed(Object(VerifyOtpFields(Str(d.email), Str(d.otp)))), isEmail, now, jwt) ==
      Step(ErrorResponse(WRONG_OTP, 401), users)
  {
    SchemaAcceptsIff(Object(VerifyOtpFields(Str(d.email), Str(d.otp))), isEmail);
  }

  /** A code works once: repeating a successful request, at any time, is answered "expired". */
  lemma CodeIsSingleUse(users: Users, d: VerifyOtpFields, isEmail: string -> bool, now: int, later: int,
                        jwt: Jwt.JwtConfig, jwt2: Jwt.JwtConfig)
    requires KeysAreEmails(users)
    requires Outcome(users, None, Parsed(Object(d)), isEmail, now, jwt).reply.success
    ensures var after := Outcome(users, None, Parsed(Object(d)), isEmail, now, jwt).users;
      var again := Outcome(after, None, Parsed(Object(d)), isEmail, later, jwt2);
      again == Step(ErrorResponse(OTP_EXPIRED, 400), after)
  {
    SuccessfulVerification(users, d, isEmail, now, jwt);
    SchemaAcceptsIff(Object(d), isEmail);
  }

  /** For a well-formed request: an unknown address gets 401, and an account without a stored code or expiry
      gets the expiry message; neither changes anything. */
  lemma FailureReplies(users: Users, d: VerifyOtpData, now: int, jwt: Jwt.JwtConfig, isEmail: string -> bool)
    requires isEmail(d.email) && |d.otp| == 4 && DigitsOnly(d.otp)
    ensures var body := Parsed(Object(VerifyOtpFields(Str(d.email), Str(d.otp))));
      NormalizeEmail(d.email) !in users ==> Outcome(users, None, body, isEmail, now, jwt) == Step(ErrorResponse(BAD_EMAIL_OR_OTP, 401), users)
    ensures var body := Parsed(Object(VerifyOtpFields(Str(d.email), Str(d.otp))));
      NormalizeEmail(d.email) in users && (!Truthy(users[NormalizeEmail(d.email)].otpCode) || users[NormalizeEmail(d.email)].otpExpiry.None?) ==>
        Outcome(users, None, body, isEmail, now, jwt) == Step(ErrorResponse(OTP_EXPIRED, 400), users)
  {
    SchemaAcceptsIff(Object(VerifyOtpFields(Str(d.email), Str(d.otp))), isEmail);
  }
}

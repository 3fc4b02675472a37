/** `POST /api/auth/reset-password` (app/api/auth/reset-password/route.ts): spend a
    reset token on a new password that meets the strength rules. */
module ResetPassword {
  import opened Common
  import opened Token
  import opened Responses
  import opened ErrorHandler
  import opened Zod
  import opened UserModel
  import opened UserDb
  import ForgotPassword

  datatype ResetFields = ResetFields(token: JsonField, newPassword: JsonField, confirmPassword: JsonField)
  datatype ResetData = ResetData(token: string, newPassword: string, confirmPassword: string)

  const PASSWORD_TOO_SHORT: string := "Password must be at least 8 characters"
  const NEEDS_UPPER: string := "Password must contain at least one uppercase letter"
  const NEEDS_LOWER: string := "Password must contain at least one lowercase letter"
  const NEEDS_NUMBER: string := "Password must contain at least one number"
  const NEEDS_SPECIAL: string := "Password must contain at least one special character"
  const TOKEN_REQUIRED: string := "Reset token is required"
  const CONFIRM_REQUIRED: string := "Please confirm your password"
  const MISMATCH: string := "Passwords don't match"
  const INVALID_TOKEN: string := "Invalid or expired reset token"
  const LINK_EXPIRED: string := "Password reset link has expired. Please request a new one."
  const RESET_DONE: string := "Password has been reset successfully. You can now log in with your new password."

  // ----- passwordSchema and resetPasswordSchema -----

  /** `[^A-Za-z0-9]` */
  predicate IsSpecial(c: char) { !IsAlnum(c) }

  /** What `passwordSchema` accepts; `.min(8)` counts UTF-16 code units. */
  predicate StrongPassword(p: string) {
    JsLength(p) >= 8 && Contains(p, IsUpper) && Contains(p, IsLower) && Contains(p, IsDigit) && Contains(p, IsSpecial)
  }

  /** `passwordSchema`'s five checks, all of which run. */
  function PasswordIssues(p: string): seq<Issue> {
    Check("newPassword", JsLength(p) >= 8, PASSWORD_TOO_SHORT)
    + Check("newPassword", Contains(p, IsUpper), NEEDS_UPPER)
    + Check("newPassword", Contains(p, IsLower), NEEDS_LOWER)
    + Check("newPassword", Contains(p, IsDigit), NEEDS_NUMBER)
    + Check("newPassword", Contains(p, IsSpecial), NEEDS_SPECIAL)
  }

  /** The issues of the three fields, in field order. */
  function FieldIssues(b: ResetFields): seq<Issue> {
    (if b.token.Str? then Check("token", JsLength(b.token.s) >= 1, TOKEN_REQUIRED) else TypeIssue("token", b.token))
    + (if b.newPassword.Str? then PasswordIssues(b.newPassword.s) else TypeIssue("newPassword", b.newPassword))
    + (if b.confirmPassword.Str? then Check("confirmPassword", JsLength(b.confirmPassword.s) >= 1, CONFIRM_REQUIRED)
       else TypeIssue("confirmPassword", b.confirmPassword))
  }

  /** The `.refine` on the object runs once every field is a string, even if a check failed,
      and reports under `confirmPassword`. */
  function SchemaIssues(b: ResetFields): seq<Issue> {
    if b.token.Str? && b.newPassword.Str? && b.confirmPassword.Str? && b.newPassword.s != b.confirmPassword.s
    then FieldIssues(b) + [Issue(["confirmPassword"], MISMATCH)]
    else FieldIssues(b)
  }

  /** `resetPasswordSchema.parse(body)` */
  function ParseBody(body: JsonBody<ResetFields>): Parsed<ResetData> {
    match body
    case NotObject(t) => Threw(Rejection([ObjectTypeIssue(t)]))
    case Object(b) =>
      var issues := SchemaIssues(b);
      if issues == [] then Parsed(ResetData(b.token.s, b.newPassword.s, b.confirmPassword.s))
      else Threw(Rejection(issues))
  }

  /** The schema accepts exactly a non-empty token, a strong password and an identical confirmation. */
  lemma SchemaAcceptsIff(body: JsonBody<ResetFields>)
    ensures ParseBody(body).Parsed? <==>
      && body.Object? && body.fields.token.Str? && body.fields.newPassword.Str? && body.fields.confirmPassword.Str?
      && JsLength(body.fields.token.s) >= 1 && StrongPassword(body.fields.newPassword.s)
      && body.fields.confirmPassword.s == body.fields.newPassword.s
    ensures ParseBody(body).Parsed? ==>
      var b := body.fields;
      ParseBody(body).data == ResetData(b.token.s, b.newPassword.s, b.confirmPassword.s)
    ensures ParseBody(body).Threw? ==> ParseBody(body).e.ZodError?
  {
  }

  /** When all three fields are strings and the two passwords differ, the `errors` record says so under
      `confirmPassword`, whatever else failed. */
  lemma MismatchKeyedOnConfirm(b: ResetFields)
    requires b.token.Str? && b.newPassword.Str? && b.confirmPassword.Str?
    requires b.newPassword.s != b.confirmPassword.s
    ensures "confirmPassword" in IssueMap(SchemaIssues(b))
    ensures IssueMap(SchemaIssues(b))["confirmPassword"] == MISMATCH
  {
    var m := [Issue(["confirmPassword"], MISMATCH)];
    IssueMapAppend(FieldIssues(b), m);
    assert m[..0] == [];
  }

  /** When a field is not a string the refine does not run: an absent confirmation is reported as "Required". */
  lemma RefineSkippedOnTypeError(b: ResetFields)
    requires b.confirmPassword.Absent?
    ensures "confirmPassword" in IssueMap(SchemaIssues(b))
    ensures IssueMap(SchemaIssues(b))["confirmPassword"] == "Required"
  {
    var t := if b.token.Str? then Check("token", JsLength(b.token.s) >= 1, TOKEN_REQUIRED) else TypeIssue("token", b.token);
    var n := if b.newPassword.Str? then PasswordIssues(b.newPassword.s) else TypeIssue("newPassword", b.newPassword);
    assert FieldIssues(b) == (t + n) + TypeIssue("confirmPassword", b.confirmPassword);
    IssueMapAppend(t + n, TypeIssue("confirmPassword", b.confirmPassword));
    IssueMapOfTypeIssue("confirmPassword", b.confirmPassword);
  }

  // ----- the route -----

  /** The request: `now` is the clock in milliseconds and `salt` what the pre-save hook's `bcrypt.genSalt` returns. */
  ghost function Outcome(users: Users, connect: Option<Thrown>, body: Parsed<JsonBody<ResetFields>>, now: int,
                         salt: string): Step<ApiResponse> {
    if connect.Some? then Step(Caught(ZodAwareCatch, connect.value), users)
    else match body
      case Threw(e) => Step(Caught(ZodAwareCatch, e), users)
      case Parsed(json) =>
        match ParseBody(json)
        case Threw(e) => Step(Caught(ZodAwareCatch, e), users)
        case Parsed(d) =>
          match ResetHolder(users, d.token)
          case None => Step(ErrorResponse(INVALID_TOKEN, 400), users)
          case Some(k) =>
            var u := users[k];
            if u.resetPasswordTokenExpiry.None? || IsTokenExpired(u.resetPasswordTokenExpiry, now) then
              Step(ErrorResponse(LINK_EXPIRED, 400), users[u.email := ForgotPassword.WithoutResetToken(u)])
            else
              Step(SuccessResponse(JObj(map["email" := JStr(u.email)]), RESET_DONE),
                   users[u.email := ForgotPassword.WithoutResetToken(u).(password := HashPassword(d.newPassword, salt))])
  }

  method Post(store: UserStore, connect: Option<Thrown>, body: Parsed<JsonBody<ResetFields>>, now: int, salt: string)
    returns (r: ApiResponse)
    requires store.Valid()
    modifies store
    ensures var step := Outcome(old(store.users), connect, body, now, salt); r == step.reply && store.users == step.users
    ensures store.Valid()
  {
    PreservesInvariant(store.users, connect, body, now, salt);
    r := Handle(store, connect, body, now, salt);
  }

  /** The handler's steps, in the source's order. */
  method Handle(store: UserStore, connect: Option<Thrown>, body: Parsed<JsonBody<ResetFields>>, now: int, salt: string)
    returns (r: ApiResponse)
    requires KeysAreEmails(store.users) && UniqueResetTokens(store.users)
    modifies store
    ensures var step := Outcome(old(store.users), connect, body, now, salt); r == step.reply && store.users == step.users
  {
    if connect.Some? {
      r := CatchRoute(ZodAwareCatch, connect.value);
      return;
    }
    if body.Threw? {
      r := CatchRoute(ZodAwareCatch, body.e);
      return;
    }
    var parsed := ParseBody(body.data);
    if parsed.Threw? {
      r := CatchRoute(ZodAwareCatch, parsed.e);
      return;
    }
    var d := parsed.data;
    var found := store.FindByResetToken(d.token);
    if found.None? {
      return ErrorResponse(INVALID_TOKEN, 400);
    }
    var user := found.value;
    if user.resetPasswordTokenExpiry.None? || IsTokenExpired(user.resetPasswordTokenExpiry, now) {
      store.Save(ForgotPassword.WithoutResetToken(user));
      return ErrorResponse(LINK_EXPIRED, 400);
    }
    store.SaveWithNewPassword(ForgotPassword.WithoutResetToken(user), d.newPassword, salt);
    r := SuccessResponse(JObj(map["email" := JStr(user.email)]), RESET_DONE);
  }

  lemma PreservesInvariant(users: Users, connect: Option<Thrown>, body: Parsed<JsonBody<ResetFields>>, now: int,
                           salt: string)
    requires StoreInvariant(users)
    ensures var after := Outcome(users, connect, body, now, salt).users;
      StoreInvariant(after) && NeverUnverifies(users, after)
  {
    if connect.None? && body.Parsed? && ParseBody(body.data).Parsed? {
      var d := ParseBody(body.data).data;
      if ResetHolder(users, d.token).Some? {
        var u := users[ResetHolder(users, d.token).value];
        StoredRecord(users, ResetHolder(users, d.token).value);
        var cleared := ForgotPassword.WithoutResetToken(u);
        if u.resetPasswordTokenExpiry.None? || IsTokenExpired(u.resetPasswordTokenExpiry, now) {
          ReplacePreserves(users, cleared);
        } else {
          ReplacePreserves(users, cleared.(password := HashPassword(d.newPassword, salt)));
        }
      }
    }
  }

  /** A token held by an account whose expiry has passed is discarded and the request refused. */
  lemma ExpiredTokenCleared(users: Users, d: ResetData, now: int, salt: string, e: string)
    requires StoreInvariant(users) && ParseBody(Object(ResetFields(Str(d.token), Str(d.newPassword), Str(d.confirmPassword)))).Parsed?
    requires e in users && users[e].resetPasswordToken == Some(d.token) && IsTokenExpired(users[e].resetPasswordTokenExpiry, now)
    ensures Outcome(users, None, Parsed(Object(ResetFields(Str(d.token), Str(d.newPassword), Str(d.confirmPassword)))), now, salt) ==
      Step(ErrorResponse(LINK_EXPIRED, 400), users[e := users[e].(resetPasswordToken := None, resetPasswordTokenExpiry := None)])
  {
    ResetHolderUnique(users, d.token, e);
  }

  /** A successful reset replaces the hash by one that accepts exactly the new password and spends the
      token; verification state, one-time code and session token are untouched. */
  lemma SuccessfulReset(users: Users, d: ResetData, now: int, salt: string, e: string)
    requires StoreInvariant(users) && ParseBody(Object(ResetFields(Str(d.token), Str(d.newPassword), Str(d.confirmPassword)))).Parsed?
    requires e in users && users[e].resetPasswordToken == Some(d.token) && !IsTokenExpired(users[e].resetPasswordTokenExpiry, now)
    ensures var step := Outcome(users, None, Parsed(Object(ResetFields(Str(d.token), Str(d.newPassword), Str(d.confirmPassword)))), now, salt);
      var u := users[e];
      && step.reply == SuccessResponse(JObj(map["email" := JStr(e)]), RESET_DONE)
      && e in step.users
      && step.users == users[e := step.users[e]]
      && step.users[e] == u.(password := step.users[e].password, resetPasswordToken := None, resetPasswordTokenExpiry := None)
      && (forall c :: Compare(c, step.users[e].password) <==> c == d.newPassword)
  {
    ResetHolderUnique(users, d.token, e);
  }

  /** Once a token has been spent or cleared, presenting it again finds no account. */
  lemma TokenIsSingleUse(users: Users, connect: Option<Thrown>, body: Parsed<JsonBody<ResetFields>>, now: int, salt: string,
                         later: int, salt2: string)
    requires StoreInvariant(users)
    requires connect.None? && body.Parsed? && ParseBody(body.data).Parsed?
    requires ResetHolder(users, ParseBody(body.data).data.token).Some?
    ensures var after := Outcome(users, connect, body, now, salt).users;
      Outcome(after, None, body, later, salt2) == Step(ErrorResponse(INVALID_TOKEN, 400), after)
  {
    var d := ParseBody(body.data).data;
    var k := ResetHolder(users, d.token).value;
    var after := Outcome(users, connect, body, now, salt).users;
    forall e | e in after ensures after[e].resetPasswordToken != Some(d.token) {
      if e != k {
        assert users[e].resetPasswordToken != users[k].resetPasswordToken;
      }
    }
  }
}

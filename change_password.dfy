/** `POST /api/auth/change-password` (app/api/auth/change-password/route.ts): a
    bearer-authenticated password change that requires the current password. */
module ChangePassword {
  import opened Common
  import opened Responses
  import opened ErrorHandler
  import Jwt
  import Auth
  import opened UserModel
  import opened UserDb

  /** The body as `changePasswordSchema.parse` returns it (that schema is not part of this model). */
  datatype ChangePasswordData = ChangePasswordData(currentPassword: string, newPassword: string)

  const TOKEN_REQUIRED: string := "Authorization token required"
  const BAD_TOKEN: string := "Invalid or expired token"
  const BAD_PAYLOAD: string := "Invalid token payload"
  const USER_NOT_FOUND: string := "User not found"
  const WRONG_CURRENT: string := "Current password is incorrect"
  const CHANGED: string := "Password has been changed successfully."

  datatype Authorization = Authorized(userId: string) | Refused(reply: ApiResponse)

  /** The authorization step, which runs before the body is read: the user id, or the 401 reply.
      Only the `Authorization` header is consulted; there is no cookie fallback. */
  function Authorize(authHeader: Option<string>, verify: Jwt.Verifier): (r: Authorization)
    ensures r.Refused? ==> r.reply.status == 401 && !r.reply.success
    ensures r.Authorized? <==>
      && Auth.BearerToken(authHeader).Some?
      && Jwt.VerifyToken(Auth.BearerToken(authHeader).value, verify).Some?
      && Jwt.VerifyToken(Auth.BearerToken(authHeader).value, verify).value.userId != ""
    ensures r.Authorized? ==> r.userId == verify(authHeader.value[7..]).value.userId
  {
    match Auth.BearerToken(authHeader)
    case None => Refused(UnauthorizedResponse(TOKEN_REQUIRED))
    case Some(token) =>
      match Jwt.VerifyToken(token, verify)
      case None => Refused(UnauthorizedResponse(BAD_TOKEN))
      case Some(p) => if p.userId == "" then Refused(UnauthorizedResponse(BAD_PAYLOAD)) else Authorized(p.userId)
  }

  /** The request: `salt` is what the pre-save hook's `bcrypt.genSalt` returns. */
  ghost function Outcome(users: Users, connect: Option<Thrown>, authHeader: Option<string>, verify: Jwt.Verifier,
                         body: Parsed<ChangePasswordData>, salt: string): Step<ApiResponse> {
    if connect.Some? then Step(Caught(ZodAwareCatch, connect.value), users)
    else match Authorize(authHeader, verify)
      case Refused(reply) => Step(reply, users)
      case Authorized(userId) =>
        match body
        case Threw(e) => Step(Caught(ZodAwareCatch, e), users)
        case Parsed(d) =>
          match KeyWithId(users, userId)
          case None => Step(ErrorResponse(USER_NOT_FOUND, 404), users)
          case Some(k) =>
            var u := users[k];
            if !ComparePassword(u, d.currentPassword) then Step(ErrorResponse(WRONG_CURRENT, 400), users)
            else match SavePasswordError(d.newPassword)
              case Some(e) => Step(Caught(ZodAwareCatch, e), users)
              case None =>
                Step(SuccessResponse(JObj(map["email" := JStr(u.email)]), CHANGED),
                     users[k := u.(password := HashPassword(d.newPassword, salt))])
  }

  method Post(store: UserStore, connect: Option<Thrown>, authHeader: Option<string>, verify: Jwt.Verifier,
              body: Parsed<ChangePasswordData>, salt: string) returns (r: ApiResponse)
    requires store.Valid()
    modifies store
    ensures var step := Outcome(old(store.users), connect, authHeader, verify, body, salt);
      r == step.reply && store.users == step.users
    ensures store.Valid()
  {
    PreservesInvariant(store.users, connect, authHeader, verify, body, salt);
    r := Handle(store, connect, authHeader, verify, body, salt);
  }

  /** The handler's steps, in the source's order. */
  method Handle(store: UserStore, connect: Option<Thrown>, authHeader: Option<string>, verify: Jwt.Verifier,
                body: Parsed<ChangePasswordData>, salt: string) returns (r: ApiResponse)
    requires KeysAreEmails(store.users) && UniqueIds(store.users)
    modifies store
    ensures var step := Outcome(old(store.users), connect, authHeader, verify, body, salt);
      r == step.reply && store.users == step.users
  {
    if connect.Some? {
      r := CatchRoute(ZodAwareCatch, connect.value);
      return;
    }
    var auth := Authorize(authHeader, verify);
    if auth.Refused? {
      return auth.reply;
    }
    if body.Threw? {
      r := CatchRoute(ZodAwareCatch, body.e);
      return;
    }
    var d := body.data;
    var found := store.FindById(auth.userId);
    if found.None? {
      return ErrorResponse(USER_NOT_FOUND, 404);
    }
    var user := found.value;
    if !ComparePassword(user, d.currentPassword) {
      return ErrorResponse(WRONG_CURRENT, 400);
    }
    var invalid := SavePasswordError(d.newPassword);
    if invalid.Some? {
      r := CatchRoute(ZodAwareCatch, invalid.value);
      return;
    }
    store.SaveWithNewPassword(user, d.newPassword, salt);
    r := SuccessResponse(JObj(map["email" := JStr(user.email)]), CHANGED);
  }

  lemma PreservesInvariant(users: Users, connect: Option<Thrown>, authHeader: Option<string>, verify: Jwt.Verifier,
                           body: Parsed<ChangePasswordData>, salt: string)
    requires StoreInvariant(users)
    ensures var after := Outcome(users, connect, authHeader, verify, body, salt).users;
      StoreInvariant(after) && NeverUnverifies(users, after)
  {
    if connect.None? && Authorize(authHeader, verify).Authorized? && body.Parsed? {
      var k := KeyWithId(users, Authorize(authHeader, verify).userId);
      if k.Some? {
        StoredRecord(users, k.value);
        ReplacePreserves(users, users[k.value].(password := HashPassword(body.data.newPassword, salt)));
      }
    }
  }

  /** Without a usable bearer token the reply is 401 whatever the body holds, and nothing changes. */
  lemma AuthorizedBeforeBody(users: Users, authHeader: Option<string>, verify: Jwt.Verifier,
                             body1: Parsed<ChangePasswordData>, body2: Parsed<ChangePasswordData>, salt: string)
    requires Authorize(authHeader, verify).Refused?
    ensures Outcome(users, None, authHeader, verify, body1, salt) == Outcome(users, None, authHeader, verify, body2, salt)
    ensures Outcome(users, None, authHeader, verify, body1, salt).users == users
    ensures Outcome(users, None, authHeader, verify, body1, salt).reply.status == 401
    ensures Auth.BearerToken(authHeader).None? ==>
      Outcome(users, None, authHeader, verify, body1, salt).reply == UnauthorizedResponse(TOKEN_REQUIRED)
  {
  }

  /** The change goes through exactly when the token names an existing account, the current password
      matches its hash and the new one passes the model's validators; verification is not required. */
  lemma SucceedsIff(users: Users, connect: Option<Thrown>, authHeader: Option<string>, verify: Jwt.Verifier,
                    body: Parsed<ChangePasswordData>, salt: string)
    ensures Outcome(users, connect, authHeader, verify, body, salt).reply.success <==>
      && connect.None? && Authorize(authHeader, verify).Authorized? && body.Parsed?
      && KeyWithId(users, Authorize(authHeader, verify).userId).Some?
      && Compare(body.data.currentPassword, users[KeyWithId(users, Authorize(authHeader, verify).userId).value].password)
      && PasswordError(body.data.newPassword).None?
  {
    if connect.Some? {
      CaughtIsFailure(ZodAwareCatch, connect.value);
    } else if Authorize(authHeader, verify).Authorized? {
      if body.Threw? {
        CaughtIsFailure(ZodAwareCatch, body.e);
      } else {
        var k := KeyWithId(users, Authorize(authHeader, verify).userId);
        if k.Some? && ComparePassword(users[k.value], body.data.currentPassword) && SavePasswordError(body.data.newPassword).Some? {
          CaughtIsFailure(ZodAwareCatch, SavePasswordError(body.data.newPassword).value);
        }
      }
    }
  }

  /** Only the password hash changes, to one that accepts exactly the new password; a wrong current
      password changes nothing. */
  lemma OnlyPasswordChanges(users: Users, connect: Option<Thrown>, authHeader: Option<string>, verify: Jwt.Verifier,
                            body: Parsed<ChangePasswordData>, salt: string)
    ensures var step := Outcome(users, connect, authHeader, verify, body, salt);
      !step.reply.success ==> step.users == users
    ensures var step := Outcome(users, connect, authHeader, verify, body, salt);
      step.reply.success ==>
        var k := KeyWithId(users, Authorize(authHeader, verify).userId).value;
        && step.users == users[k := users[k].(password := step.users[k].password)]
        && (forall c :: Compare(c, step.users[k].password) <==> c == body.data.newPassword)
  {
    SucceedsIff(users, connect, authHeader, verify, body, salt);
  }

  /** Once authorized, an id no account has gets 404 and a wrong current password gets 400; neither changes anything. */
  lemma FailureReplies(users: Users, authHeader: Option<string>, verify: Jwt.Verifier, d: ChangePasswordData, salt: string)
    requires Authorize(authHeader, verify).Authorized?
    ensures var id := Authorize(authHeader, verify).userId;
      KeyWithId(users, id).None? ==>
        Outcome(users, None, authHeader, verify, Parsed(d), salt) == Step(ErrorResponse(USER_NOT_FOUND, 404), users)
    ensures var id := Authorize(authHeader, verify).userId;
      KeyWithId(users, id).Some? && !Compare(d.currentPassword, users[KeyWithId(users, id).value].password) ==>
        Outcome(users, None, authHeader, verify, Parsed(d), salt) == Step(ErrorResponse(WRONG_CURRENT, 400), users)
  {
    var id := Authorize(authHeader, verify).userId;
    if KeyWithId(users, id).Some? {
      PasswordMethodsAgree(users[KeyWithId(users, id).value], d.currentPassword);
    }
  }
}

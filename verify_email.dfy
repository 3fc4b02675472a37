/** `POST` and `GET /api/auth/verify-email` (app/api/auth/verify-email/route.ts):
    consume a verification token, mark the account verified and log it in. The
    POST answers in JSON; the GET serves the link in the email and answers with
    HTML pages for its success, already-verified and failure cases. */
module VerifyEmail {
  import opened Common
  import opened Token
  import opened Responses
  import opened ErrorHandler
  import Jwt
  import opened UserModel
  import opened UserDb

  const TOKEN_REQUIRED: string := "Verification token is required"
  const INVALID_TOKEN: string := "Invalid verification token"
  const TOKEN_EXPIRED: string := "Verification token has expired. Please request a new one."
  const ALREADY_VERIFIED: string := "Email already verified. Please login."
  const VERIFIED: string := "Email verified successfully. You are now logged in."

  /** Where the shared checks of both handlers lead, in the order they are made. */
  datatype TokenCheck = Missing | Unknown | Expired | AlreadyVerified | Accepted(key: string)

  ghost function CheckToken(users: Users, token: Option<string>, now: int): (c: TokenCheck)
    ensures c.Missing? <==> !Truthy(token)
    ensures c.Unknown? <==> Truthy(token) && VerificationHolder(users, token.value).None?
    ensures c.Expired? || c.AlreadyVerified? || c.Accepted? ==>
      Truthy(token) && VerificationHolder(users, token.value).Some?
    ensures c.Expired? <==>
      Truthy(token) && VerificationHolder(users, token.value).Some? &&
      IsTokenExpired(users[VerificationHolder(users, token.value).value].verificationTokenExpiry, now)
    ensures c.Accepted? ==>
      && c.key == VerificationHolder(users, token.value).value
      && !users[c.key].isVerified
      && !IsTokenExpired(users[c.key].verificationTokenExpiry, now)
  {
    if !Truthy(token) then Missing
    else match VerificationHolder(users, token.value)
      case None => Unknown
      case Some(k) =>
        if IsTokenExpired(users[k].verificationTokenExpiry, now) then Expired
        else if users[k].isVerified then AlreadyVerified
        else Accepted(k)
  }

  /** The record after verification: flagged verified, token and expiry removed. */
  function Verified(u: UserRecord): UserRecord {
    u.(isVerified := true, verificationToken := None, verificationTokenExpiry := None)
  }

  function VerifiedData(u: UserRecord, jwtToken: string): Json {
    JObj(map[
      "user" := JObj(map["id" := JStr(u.id), "name" := JStr(u.name), "email" := JStr(u.email), "isVerified" := JBool(u.isVerified)]),
      "token" := JStr(jwtToken)])
  }

  /** `POST`: the token comes in the JSON body. */
  ghost function PostOutcome(users: Users, connect: Option<Thrown>, body: Parsed<Option<string>>, now: int, jwt: Jwt.JwtConfig): Step<ApiResponse> {
    if connect.Some? then Step(Caught(PlainCatch, connect.value), users)
    else match body
      case Threw(e) => Step(Caught(PlainCatch, e), users)
      case Parsed(token) =>
        match CheckToken(users, token, now)
        case Missing => Step(ErrorResponse(TOKEN_REQUIRED, 400), users)
        case Unknown => Step(ErrorResponse(INVALID_TOKEN, 400), users)
        case Expired => Step(ErrorResponse(TOKEN_EXPIRED, 400), users)
        case AlreadyVerified => Step(ErrorResponse(ALREADY_VERIFIED, 400), users)
        case Accepted(k) =>
          var u := users[k];
          var jwtToken := Jwt.SignedToken(jwt, Jwt.SessionIdentity(u.id, u.email));
          Step(SuccessResponse(VerifiedData(Verified(u), jwtToken), VERIFIED), users[u.email := Verified(u)])
  }

  /** `GET`: the token comes in the query string; failures before the checks end in an HTML 500 page. */
  ghost function GetOutcome(users: Users, connect: Option<Thrown>, token: Option<string>, now: int, jwt: Jwt.JwtConfig): Step<Reply> {
    if connect.Some? then Step(Html(500, ErrorPage), users)
    else match CheckToken(users, token, now)
      case Missing => Step(Api(ErrorResponse(TOKEN_REQUIRED, 400)), users)
      case Unknown => Step(Api(ErrorResponse(INVALID_TOKEN, 400)), users)
      case Expired => Step(Api(ErrorResponse(TOKEN_EXPIRED, 400)), users)
      case AlreadyVerified => Step(Html(200, AlreadyVerifiedPage), users)
      case Accepted(k) =>
        var u := users[k];
        var jwtToken := Jwt.SignedToken(jwt, Jwt.SessionIdentity(u.id, u.email));
        Step(Html(200, RedirectPage(jwtToken, u.email)), users[u.email := Verified(u)])
  }

  method Post(store: UserStore, connect: Option<Thrown>, body: Parsed<Option<string>>, now: int, jwt: Jwt.JwtConfig) returns (r: ApiResponse)
    requires store.Valid()
    modifies store
    ensures var step := PostOutcome(old(store.users), connect, body, now, jwt); r == step.reply && store.users == step.users
    ensures store.Valid()
  {
    if connect.None? && body.Parsed? {
      AcceptPreserves(store.users, body.data, now);
    }
    r := HandlePost(store, connect, body, now, jwt);
  }

  /** The POST handler's steps, in the source's order. */
  method HandlePost(store: UserStore, connect: Option<Thrown>, body: Parsed<Option<string>>, now: int, jwt: Jwt.JwtConfig) returns (r: ApiResponse)
    requires KeysAreEmails(store.users) && UniqueVerificationTokens(store.users)
    modifies store
    ensures var step := PostOutcome(old(store.users), connect, body, now, jwt); r == step.reply && store.users == step.users
  {
    if connect.Some? {
      r := CatchRoute(PlainCatch, connect.value);
      return;
    }
    if body.Threw? {
      r := CatchRoute(PlainCatch, body.e);
      return;
    }
    var token := body.data;
    if !Truthy(token) {
      return ErrorResponse(TOKEN_REQUIRED, 400);
    }
    var found := store.FindByVerificationToken(token.value);
    if found.None? {
      return ErrorResponse(INVALID_TOKEN, 400);
    }
    var user := found.value;
    if IsTokenExpired(user.verificationTokenExpiry, now) {
      return ErrorResponse(TOKEN_EXPIRED, 400);
    }
    if user.isVerified {
      return ErrorResponse(ALREADY_VERIFIED, 400);
    }
    user := user.(isVerified := true, verificationToken := None, verificationTokenExpiry := None);
    store.Save(user);
    // the welcome email's outcome is not looked at
    var jwtToken := Jwt.SignedToken(jwt, Jwt.SessionIdentity(user.id, user.email));
    r := SuccessResponse(VerifiedData(user, jwtToken), VERIFIED);
  }

  method Get(store: UserStore, connect: Option<Thrown>, token: Option<string>, now: int, jwt: Jwt.JwtConfig) returns (r: Reply)
    requires store.Valid()
    modifies store
    ensures var step := GetOutcome(old(store.users), connect, token, now, jwt); r == step.reply && store.users == step.users
    ensures store.Valid()
  {
    AcceptPreserves(store.users, token, now);
    r := HandleGet(store, connect, token, now, jwt);
  }

  /** The GET handler's steps, in the source's order. */
  method HandleGet(store: UserStore, connect: Option<Thrown>, token: Option<string>, now: int, jwt: Jwt.JwtConfig) returns (r: Reply)
    requires KeysAreEmails(store.users) && UniqueVerificationTokens(store.users)
    modifies store
    ensures var step := GetOutcome(old(store.users), connect, token, now, jwt); r == step.reply && store.users == step.users
  {
    if connect.Some? {
      return Html(500, ErrorPage);
    }
    if !Truthy(token) {
      return Api(ErrorResponse(TOKEN_REQUIRED, 400));
    }
    var found := store.FindByVerificationToken(token.value);
    if found.None? {
      return Api(ErrorResponse(INVALID_TOKEN, 400));
    }
    var user := found.value;
    if IsTokenExpired(user.verificationTokenExpiry, now) {
      return Api(ErrorResponse(TOKEN_EXPIRED, 400));
    }
    if user.isVerified {
      return Html(200, AlreadyVerifiedPage);
    }
    user := user.(isVerified := true, verificationToken := None, verificationTokenExpiry := None);
    store.Save(user);
    var jwtToken := Jwt.SignedToken(jwt, Jwt.SessionIdentity(user.id, user.email));
    r := Html(200, RedirectPage(jwtToken, user.email));
  }

  /** Accepting a token keeps the invariant and flips only that account to verified. */
  lemma AcceptPreserves(users: Users, token: Option<string>, now: int)
    requires StoreInvariant(users)
    ensures CheckToken(users, token, now).Accepted? ==>
      var k := CheckToken(users, token, now).key;
      && users[k].email == k
      && StoreInvariant(users[k := Verified(users[k])])
      && NeverUnverifies(users, users[k := Verified(users[k])])
  {
    var c := CheckToken(users, token, now);
    if c.Accepted? {
      var k := c.key;
      StoredRecord(users, k);
      ReplacePreserves(users, Verified(users[k]));
    }
  }

  /** A `POST` keeps the collection invariant and never unverifies an account. */
  lemma PostPreservesInvariant(users: Users, connect: Option<Thrown>, body: Parsed<Option<string>>, now: int, jwt: Jwt.JwtConfig)
    requires StoreInvariant(users)
    ensures var after := PostOutcome(users, connect, body, now, jwt).users; StoreInvariant(after) && NeverUnverifies(users, after)
  {
    if body.Parsed? {
      AcceptPreserves(users, body.data, now);
    }
  }

  /** A `GET` keeps the collection invariant and never unverifies an account. */
  lemma GetPreservesInvariant(users: Users, connect: Option<Thrown>, token: Option<string>, now: int, jwt: Jwt.JwtConfig)
    requires StoreInvariant(users)
    ensures var after := GetOutcome(users, connect, token, now, jwt).users; StoreInvariant(after) && NeverUnverifies(users, after)
  {
    AcceptPreserves(users, token, now);
  }

  /** A token is only ever held by an unverified account, so the "already verified" branch of
      either handler cannot be reached. */
  lemma AlreadyVerifiedUnreachable(users: Users, connect: Option<Thrown>, token: Option<string>, now: int, jwt: Jwt.JwtConfig)
    requires StoreInvariant(users)
    ensures CheckToken(users, token, now) != AlreadyVerified
    ensures PostOutcome(users, None, Parsed(token), now, jwt).reply != ErrorResponse(ALREADY_VERIFIED, 400)
    ensures GetOutcome(users, connect, token, now, jwt).reply != Html(200, AlreadyVerifiedPage)
  {
    if Truthy(token) && VerificationHolder(users, token.value).Some? {
      var k := VerificationHolder(users, token.value).value;
      assert RecordInvariant(users[k]);
    }
  }

  /** An expired token (or one without an expiry) is refused and left where it is, whatever the
      account's verification flag: the expiry check comes first. */
  lemma ExpiredTokenKept(users: Users, t: string, now: int, jwt: Jwt.JwtConfig)
    requires t != "" && VerificationHolder(users, t).Some?
    requires IsTokenExpired(users[VerificationHolder(users, t).value].verificationTokenExpiry, now)
    ensures PostOutcome(users, None, Parsed(Some(t)), now, jwt) == Step(ErrorResponse(TOKEN_EXPIRED, 400), users)
    ensures GetOutcome(users, None, Some(t), now, jwt) == Step(Api(ErrorResponse(TOKEN_EXPIRED, 400)), users)
  {
  }

  /** A successful verification flips the flag, removes the token and its expiry and changes nothing else. */
  lemma SuccessfulVerification(users: Users, t: string, now: int, jwt: Jwt.JwtConfig)
    requires KeysAreEmails(users) && t != "" && CheckToken(users, Some(t), now).Accepted?
    ensures var k := VerificationHolder(users, t).value;
      var u := users[k];
      var step := PostOutcome(users, None, Parsed(Some(t)), now, jwt);
      && step.reply.success && step.reply.status == 200
      && step.users == users[k := u.(isVerified := true, verificationToken := None, verificationTokenExpiry := None)]
      && step.reply.data.value.fields["token"] == JStr(Jwt.SignedToken(jwt, Jwt.SessionIdentity(u.id, u.email)))
  {
  }

  /** Once used, a token finds no account: presenting it again is refused as invalid. */
  lemma {:induction false} TokenIsSingleUse(users: Users, t: string, now: int, later: int, jwt: Jwt.JwtConfig)
    requires StoreInvariant(users) && t != ""
    requires PostOutcome(users, None, Parsed(Some(t)), now, jwt).reply.success
    ensures var after := PostOutcome(users, None, Parsed(Some(t)), now, jwt).users;
      && CheckToken(after, Some(t), later) == Unknown
      && PostOutcome(after, None, Parsed(Some(t)), later, jwt).reply == ErrorResponse(INVALID_TOKEN, 400)
  {
    var c := CheckToken(users, Some(t), now);
    assert c.Accepted?;
    var k := c.key;
    var after := users[k := Verified(users[k])];
    assert users[k].email == k;
    assert PostOutcome(users, None, Parsed(Some(t)), now, jwt).users == after;
    forall e | e in after
      ensures after[e].verificationToken != Some(t)
    {
      if e != k {
        assert users[e].verificationToken != users[k].verificationToken;
      }
    }
  }

  /** The link handler makes the same change to the collection as the POST handler, succeeds exactly when
      it does, and otherwise gives the same JSON reply, except for the unreachable already-verified case. */
  lemma GetAgreesWithPost(users: Users, token: Option<string>, now: int, jwt: Jwt.JwtConfig)
    ensures GetOutcome(users, None, token, now, jwt).users == PostOutcome(users, None, Parsed(token), now, jwt).users
    ensures PostOutcome(users, None, Parsed(token), now, jwt).reply.success <==>
      GetOutcome(users, None, token, now, jwt).reply.Html? && GetOutcome(users, None, token, now, jwt).reply.page.RedirectPage?
    ensures var c := CheckToken(users, token, now);
      !c.Accepted? && !c.AlreadyVerified? ==>
        GetOutcome(users, None, token, now, jwt).reply == Api(PostOutcome(users, None, Parsed(token), now, jwt).reply)
  {
  }

  /** A missing token and a token no account holds are refused with 400 by both handlers, changing nothing. */
  lemma MissingOrUnknownToken(users: Users, token: Option<string>, now: int, jwt: Jwt.JwtConfig)
    ensures !Truthy(token) ==>
      && PostOutcome(users, None, Parsed(token), now, jwt) == Step(ErrorResponse(TOKEN_REQUIRED, 400), users)
      && GetOutcome(users, None, token, now, jwt) == Step(Api(ErrorResponse(TOKEN_REQUIRED, 400)), users)
    ensures Truthy(token) && VerificationHolder(users, token.value).None? ==>
      && PostOutcome(users, None, Parsed(token), now, jwt) == Step(ErrorResponse(INVALID_TOKEN, 400), users)
      && GetOutcome(users, None, token, now, jwt) == Step(Api(ErrorResponse(INVALID_TOKEN, 400)), users)
  {
  }
}

/** `POST /api/auth/login` (app/api/auth/login/route.ts): password login for a
    verified account, which records and returns a new session token. */
module Login {
  import opened Common
  import opened Responses
  import opened ErrorHandler
  import opened Jwt
  import opened UserModel
  import opened UserDb

  /** The body as `loginFormSchema.parse` returns it (that schema is not part of this model). */
  datatype LoginData = LoginData(email: string, password: string)

  const INVALID_CREDENTIALS: string := "Invalid email or password"
  const VERIFY_FIRST: string := "Please verify your email before logging in. Check your inbox for the verification link."
  const LOGGED_IN: string := "Login successful"

  /** `data` of a successful login: the token is returned twice. */
  function SessionData(u: UserRecord, token: string): Json {
    JObj(map[
      "user" := JObj(map["id" := JStr(u.id), "name" := JStr(u.name), "email" := JStr(u.email), "accessToken" := JStr(token)]),
      "token" := JStr(token)])
  }

  function Outcome(users: Users, connect: Option<Thrown>, body: Parsed<LoginData>, jwt: JwtConfig): Step<ApiResponse> {
    if connect.Some? then Step(Caught(ZodAwareCatch, connect.value), users)
    else match body
      case Threw(e) => Step(Caught(ZodAwareCatch, e), users)
      case Parsed(d) =>
        match ByEmail(users, d.email)
        case None => Step(UnauthorizedResponse(INVALID_CREDENTIALS), users)
        case Some(u) =>
          if !u.isVerified then Step(ErrorResponse(VERIFY_FIRST, 403), users)
          else if !IsPasswordCorrect(u, d.password) then Step(UnauthorizedResponse(INVALID_CREDENTIALS), users)
          else
            var token := SignedToken(jwt, SessionIdentity(u.id, u.email));
            Step(SuccessResponse(SessionData(u, token), LOGGED_IN), users[u.email := u.(accessToken := Some(token))])
  }

  method Post(store: UserStore, connect: Option<Thrown>, body: Parsed<LoginData>, jwt: JwtConfig) returns (r: ApiResponse)
    requires store.Valid()
    modifies store
    ensures var step := Outcome(old(store.users), connect, body, jwt); r == step.reply && store.users == step.users
    ensures store.Valid()
  {
    PreservesInvariant(store.users, connect, body, jwt);
    r := Handle(store, connect, body, jwt);
  }

  /** The handler's steps, in the source's order. */
  method Handle(store: UserStore, connect: Option<Thrown>, body: Parsed<LoginData>, jwt: JwtConfig) returns (r: ApiResponse)
    requires KeysAreEmails(store.users)
    modifies store
    ensures var step := Outcome(old(store.users), connect, body, jwt); r == step.reply && store.users == step.users
  {
    if connect.Some? {
      r := CatchRoute(ZodAwareCatch, connect.value);
      return;
    }
    if body.Threw? {
      r := CatchRoute(ZodAwareCatch, body.e);
      return;
    }
    var d := body.data;
    var found := store.FindByEmail(d.email);
    if found.None? {
      return UnauthorizedResponse(INVALID_CREDENTIALS);
    }
    var user := found.value;
    if !user.isVerified {
      return ErrorResponse(VERIFY_FIRST, 403);
    }
    if !IsPasswordCorrect(user, d.password) {
      return UnauthorizedResponse(INVALID_CREDENTIALS);
    }
    var token := SignedToken(jwt, SessionIdentity(user.id, user.email));
    user := user.(accessToken := Some(token));
    store.Save(user);
    r := SuccessResponse(SessionData(user, token), LOGGED_IN);
  }

  lemma PreservesInvariant(users: Users, connect: Option<Thrown>, body: Parsed<LoginData>, jwt: JwtConfig)
    requires StoreInvariant(users)
    ensures var after := Outcome(users, connect, body, jwt).users;
      StoreInvariant(after) && NeverUnverifies(users, after)
  {
    if connect.None? && body.Parsed? {
      var found := ByEmail(users, body.data.email);
      if found.Some? {
        var u := found.value;
        var t := u.(accessToken := Some(SignedToken(jwt, SessionIdentity(u.id, u.email))));
        StoredRecord(users, u.email);
        ReplacePreserves(users, t);
        if u.isVerified && IsPasswordCorrect(u, body.data.password) {
          assert Outcome(users, connect, body, jwt).users == users[u.email := t];
        }
      }
    }
  }

  /** Login succeeds exactly when the account exists, is verified and the password matches its hash. */
  lemma SucceedsIff(users: Users, connect: Option<Thrown>, body: Parsed<LoginData>, jwt: JwtConfig)
    ensures Outcome(users, connect, body, jwt).reply.success <==>
      && connect.None? && body.Parsed? && NormalizeEmail(body.data.email) in users
      && users[NormalizeEmail(body.data.email)].isVerified
      && Compare(body.data.password, users[NormalizeEmail(body.data.email)].password)
  {
    if connect.Some? {
      CaughtIsFailure(ZodAwareCatch, connect.value);
    } else if body.Threw? {
      CaughtIsFailure(ZodAwareCatch, body.e);
    }
  }

  /** An unknown email and a wrong password get the same 401 reply; an unverified account gets 403
      whatever password is sent, because the verification check comes first. None of them changes anything. */
  lemma FailureReplies(users: Users, d: LoginData, jwt: JwtConfig)
    ensures NormalizeEmail(d.email) !in users ==> Outcome(users, None, Parsed(d), jwt) == Step(UnauthorizedResponse("Invalid email or password"), users)
    ensures NormalizeEmail(d.email) in users && !users[NormalizeEmail(d.email)].isVerified ==>
      Outcome(users, None, Parsed(d), jwt) == Step(ErrorResponse(VERIFY_FIRST, 403), users)
    ensures NormalizeEmail(d.email) in users && users[NormalizeEmail(d.email)].isVerified && !Compare(d.password, users[NormalizeEmail(d.email)].password) ==>
      Outcome(users, None, Parsed(d), jwt) == Step(UnauthorizedResponse("Invalid email or password"), users)
  {
  }

  /** A successful login changes only the account's `accessToken`, to the token it returns in both
      `data.user.accessToken` and `data.token`; a failed one changes nothing. */
  lemma OnlyAccessTokenChanges(users: Users, connect: Option<Thrown>, body: Parsed<LoginData>, jwt: JwtConfig)
    requires KeysAreEmails(users)
    ensures var step := Outcome(users, connect, body, jwt);
      !step.reply.success ==> step.users == users
    ensures var step := Outcome(users, connect, body, jwt);
      step.reply.success ==>
        var e := NormalizeEmail(body.data.email);
        var token := SignedToken(jwt, SessionIdentity(users[e].id, e));
        && step.users == users[e := users[e].(accessToken := Some(token))]
        && step.reply.data == Some(SessionData(users[e], token))
        && step.reply.data.value.fields["token"] == JStr(token)
        && step.reply.data.value.fields["user"].fields["accessToken"] == JStr(token)
  {
    SucceedsIff(users, connect, body, jwt);
    if connect.None? && body.Parsed? {
      var e := NormalizeEmail(body.data.email);
      if e in users && users[e].isVerified && IsPasswordCorrect(users[e], body.data.password) {
        assert ByEmail(users, body.data.email) == Some(users[e]) && users[e].email == e;
      } else {
        assert Outcome(users, connect, body, jwt).users == users;
      }
    }
  }
}

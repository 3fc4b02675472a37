/** `POST /api/auth/resend-verification` (app/api/auth/resend-verification/route.ts):
    replace an unverified account's verification token with a fresh one and email it. */
module ResendVerification {
  import opened Common
  import opened Token
  import opened Responses
  import opened ErrorHandler
  import opened UserModel
  import opened UserDb

  const EMAIL_REQUIRED_MSG: string := "Email is required"
  const USER_NOT_FOUND: string := "User not found"
  const ALREADY_VERIFIED: string := "Email already verified. Please login."
  const EMAIL_FAILED: string := "Failed to send verification email. Please try again."
  const SENT: string := "Check your email for the verification link"

  function SentData(email: string): Json {
    JObj(map["message" := JStr("Verification email sent successfully"), "email" := JStr(email)])
  }

  function WithVerificationToken(u: UserRecord, st: SecureToken): UserRecord {
    u.(verificationToken := Some(st.token), verificationTokenExpiry := Some(st.expiry))
  }

  /** The request. `body` is the `email` property of the parsed body (None when absent or null), or what
      `request.json()` or the destructuring threw; `random` is what `crypto.randomBytes(32)` produced. */
  function Outcome(users: Users, connect: Option<Thrown>, body: Parsed<Option<string>>, random: seq<Byte>, now: int,
                   emailSent: bool): Step<ApiResponse>
    requires |random| == TOKEN_BYTES
  {
    if connect.Some? then Step(Caught(PlainCatch, connect.value), users)
    else match body
      case Threw(e) => Step(Caught(PlainCatch, e), users)
      case Parsed(email) =>
        if !Truthy(email) then Step(ErrorResponse(EMAIL_REQUIRED_MSG, 400), users)
        else match ByEmail(users, ToLower(email.value))
          case None => Step(ErrorResponse(USER_NOT_FOUND, 404), users)
          case Some(u) =>
            if u.isVerified then Step(ErrorResponse(ALREADY_VERIFIED, 400), users)
            else
              var after := users[u.email := WithVerificationToken(u, GenerateSecureToken(random, now))];
              if !emailSent then Step(ErrorResponse(EMAIL_FAILED, 500), after)
              else Step(SuccessResponse(SentData(u.email), SENT), after)
  }

  method Post(store: UserStore, connect: Option<Thrown>, body: Parsed<Option<string>>, random: seq<Byte>, now: int,
              emailSent: bool) returns (r: ApiResponse)
    requires store.Valid() && |random| == TOKEN_BYTES
    requires FreshVerificationToken(store.users, GenerateVerificationToken(random))
    modifies store
    ensures var step := Outcome(old(store.users), connect, body, random, now, emailSent);
      r == step.reply && store.users == step.users
    ensures store.Valid()
  {
    PreservesInvariant(store.users, connect, body, random, now, emailSent);
    r := Handle(store, connect, body, random, now, emailSent);
  }

  /** The handler's steps, in the source's order: the new token is saved before the email is attempted
      and kept when it fails. */
  method Handle(store: UserStore, connect: Option<Thrown>, body: Parsed<Option<string>>, random: seq<Byte>, now: int,
                emailSent: bool) returns (r: ApiResponse)
    requires KeysAreEmails(store.users) && |random| == TOKEN_BYTES
    modifies store
    ensures var step := Outcome(old(store.users), connect, body, random, now, emailSent);
      r == step.reply && store.users == step.users
  {
    if connect.Some? {
      r := CatchRoute(PlainCatch, connect.value);
      return;
    }
    if body.Threw? {
      r := CatchRoute(PlainCatch, body.e);
      return;
    }
    var email := body.data;
    if !Truthy(email) {
      return ErrorResponse(EMAIL_REQUIRED_MSG, 400);
    }
    var found := store.FindByEmail(ToLower(email.value));
    if found.None? {
      return ErrorResponse(USER_NOT_FOUND, 404);
    }
    var user := found.value;
    if user.isVerified {
      return ErrorResponse(ALREADY_VERIFIED, 400);
    }
    var st := GenerateSecureToken(random, now);
    user := WithVerificationToken(user, st);
    store.Save(user);
    if !emailSent {
      return ErrorResponse(EMAIL_FAILED, 500);
    }
    r := SuccessResponse(SentData(user.email), SENT);
  }

  lemma PreservesInvariant(users: Users, connect: Option<Thrown>, body: Parsed<Option<string>>, random: seq<Byte>, now: int,
                           emailSent: bool)
    requires StoreInvariant(users) && |random| == TOKEN_BYTES
    requires FreshVerificationToken(users, GenerateVerificationToken(random))
    ensures var after := Outcome(users, connect, body, random, now, emailSent).users;
      StoreInvariant(after) && NeverUnverifies(users, after)
  {
    if connect.None? && body.Parsed? && Truthy(body.data) {
      var found := ByEmail(users, ToLower(body.data.value));
      if found.Some? && !found.value.isVerified {
        var t := WithVerificationToken(found.value, GenerateSecureToken(random, now));
        StoredRecord(users, found.value.email);
        ReplacePreserves(users, t);
        assert Outcome(users, connect, body, random, now, emailSent).users == users[found.value.email := t];
      }
    }
  }

  /** The address is lower-cased before the lookup, so any capitalisation of it gets the same reply and effect. */
  lemma LookupIgnoresCase(users: Users, connect: Option<Thrown>, email: string, random: seq<Byte>, now: int, emailSent: bool)
    requires |random| == TOKEN_BYTES
    ensures Outcome(users, connect, Parsed(Some(email)), random, now, emailSent) ==
            Outcome(users, connect, Parsed(Some(ToLower(email))), random, now, emailSent)
  {
    ToLowerIdempotent(email);
  }

  /** A missing or empty address gets 400. Unlike forgot-password, the reply then tells whether an account
      exists: unknown addresses get 404, verified ones 400; none of these changes anything. */
  lemma RevealsAccountState(users: Users, email: string, random: seq<Byte>, now: int, emailSent: bool)
    requires |random| == TOKEN_BYTES
    ensures Outcome(users, None, Parsed(None), random, now, emailSent) == Step(ErrorResponse(EMAIL_REQUIRED_MSG, 400), users)
    ensures email == "" ==>
      Outcome(users, None, Parsed(Some(email)), random, now, emailSent) == Step(ErrorResponse(EMAIL_REQUIRED_MSG, 400), users)
    ensures email != "" && NormalizeEmail(email) !in users ==>
      Outcome(users, None, Parsed(Some(email)), random, now, emailSent) == Step(ErrorResponse(USER_NOT_FOUND, 404), users)
    ensures email != "" && NormalizeEmail(email) in users && users[NormalizeEmail(email)].isVerified ==>
      Outcome(users, None, Parsed(Some(email)), random, now, emailSent) == Step(ErrorResponse(ALREADY_VERIFIED, 400), users)
  {
    ByEmailAfterLower(users, email);
  }

  /** For an unverified account the new token replaces the old, whether or not the email goes out: the new
      token finds the account, the account's previous token finds nothing, and a failed send reports 500
      but keeps the new token. */
  lemma ReissueRevokesPrevious(users: Users, email: string, random: seq<Byte>, now: int, emailSent: bool, previous: string)
    requires StoreInvariant(users) && |random| == TOKEN_BYTES && email != ""
    requires FreshVerificationToken(users, GenerateVerificationToken(random))
    requires NormalizeEmail(email) in users && !users[NormalizeEmail(email)].isVerified
    requires users[NormalizeEmail(email)].verificationToken == Some(previous)
    ensures var step := Outcome(users, None, Parsed(Some(email)), random, now, emailSent);
      && VerificationHolder(step.users, GenerateVerificationToken(random)) == Some(NormalizeEmail(email))
      && VerificationHolder(step.users, previous).None?
      && step.users[NormalizeEmail(email)].verificationTokenExpiry == Some(now + TOKEN_LIFETIME_MS)
      && step.reply.status == (if emailSent then 200 else 500)
  {
    var e := NormalizeEmail(email);
    ByEmailAfterLower(users, email);
    var after := Outcome(users, None, Parsed(Some(email)), random, now, emailSent).users;
    assert after == users[e := WithVerificationToken(users[e], GenerateSecureToken(random, now))];
    PreservesInvariant(users, None, Parsed(Some(email)), random, now, emailSent);
    VerificationHolderUnique(after, GenerateVerificationToken(random), e);
    forall k | k in after ensures after[k].verificationToken != Some(previous) {
      if k != e {
        assert users[k].verificationToken != users[e].verificationToken;
      }
    }
  }
}

/** `POST /api/auth/forgot-password` (app/api/auth/forgot-password/route.ts): store a
    fresh reset token, valid for 24 hours, and email it; the reply does not say
    whether the address is registered. */
module ForgotPassword {
  import opened Common
  import opened Token
  import opened Responses
  import opened ErrorHandler
  import opened UserModel
  import opened UserDb

  /** The body as `forgotPasswordSchema.parse` returns it (that schema is not part of this model). */
  datatype ForgotData = ForgotData(email: string)

  const MAYBE_SENT: string := "If an account exists with this email, a password reset link has been sent."
  const SEND_FAILED: string := "Failed to send password reset email. Please try again."

  function EmailData(email: string): Json {
    JObj(map["email" := JStr(email)])
  }

  function WithResetToken(u: UserRecord, st: SecureToken): UserRecord {
    u.(resetPasswordToken := Some(st.token), resetPasswordTokenExpiry := Some(st.expiry))
  }

  function WithoutResetToken(u: UserRecord): UserRecord {
    u.(resetPasswordToken := None, resetPasswordTokenExpiry := None)
  }

  /** The request: `random` is what `crypto.randomBytes(32)` produced, `now` the clock in milliseconds
      and `emailSent` what `sendPasswordResetEmail` reports. */
  function Outcome(users: Users, connect: Option<Thrown>, body: Parsed<ForgotData>, random: seq<Byte>, now: int,
                   emailSent: bool): Step<ApiResponse>
    requires |random| == TOKEN_BYTES
  {
    if connect.Some? then Step(Caught(ZodAwareCatch, connect.value), users)
    else match body
      case Threw(e) => Step(Caught(ZodAwareCatch, e), users)
      case Parsed(d) =>
        match ByEmail(users, d.email)
        case None => Step(SuccessResponse(EmailData(d.email), MAYBE_SENT), users)
        case Some(u) =>
          if !emailSent then Step(ErrorResponse(SEND_FAILED, 500), users[u.email := WithoutResetToken(u)])
          else Step(SuccessResponse(EmailData(d.email), MAYBE_SENT),
                    users[u.email := WithResetToken(u, GenerateSecureToken(random, now))])
  }

  method Post(store: UserStore, connect: Option<Thrown>, body: Parsed<ForgotData>, random: seq<Byte>, now: int,
              emailSent: bool) returns (r: ApiResponse)
    requires store.Valid() && |random| == TOKEN_BYTES
    requires FreshResetToken(store.users, GenerateVerificationToken(random))
    modifies store
    ensures var step := Outcome(old(store.users), connect, body, random, now, emailSent);
      r == step.reply && store.users == step.users
    ensures store.Valid()
  {
    PreservesInvariant(store.users, connect, body, random, now, emailSent);
    r := Handle(store, connect, body, random, now, emailSent);
  }

  /** The handler's steps, in the source's order: the token is saved before the email is attempted
      and cleared again when it fails. */
  method Handle(store: UserStore, connect: Option<Thrown>, body: Parsed<ForgotData>, random: seq<Byte>, now: int,
                emailSent: bool) returns (r: ApiResponse)
    requires KeysAreEmails(store.users) && |random| == TOKEN_BYTES
    modifies store
    ensures var step := Outcome(old(store.users), connect, body, random, now, emailSent);
      r == step.reply && store.users == step.users
  {
    if connect.Some? {
      r := CatchRoute(ZodAwareCatch, connect.value);
      return;
    }
    if body.Threw? {
      r := CatchRoute(ZodAwareCatch, body.e);
      return;
    }
    var d := body.data;
    var found := store.FindByEmail(d.email);
    if found.None? {
      return SuccessResponse(EmailData(d.email), MAYBE_SENT);
    }
    var user := found.value;
    var st := GenerateSecureToken(random, now);
    user := WithResetToken(user, st);
    store.Save(user);
    if !emailSent {
      user := WithoutResetToken(user);
      store.Save(user);
      return ErrorResponse(SEND_FAILED, 500);
    }
    r := SuccessResponse(EmailData(d.email), MAYBE_SENT);
  }

  lemma PreservesInvariant(users: Users, connect: Option<Thrown>, body: Parsed<ForgotData>, random: seq<Byte>, now: int,
                           emailSent: bool)
    requires StoreInvariant(users) && |random| == TOKEN_BYTES
    requires FreshResetToken(users, GenerateVerificationToken(random))
    ensures var after := Outcome(users, connect, body, random, now, emailSent).users;
      StoreInvariant(after) && NeverUnverifies(users, after)
  {
    if connect.None? && body.Parsed? {
      var found := ByEmail(users, body.data.email);
      if found.Some? {
        var u := found.value;
        var t := if emailSent then WithResetToken(u, GenerateSecureToken(random, now)) else WithoutResetToken(u);
        StoredRecord(users, found.value.email);
        ReplacePreserves(users, t);
        assert Outcome(users, connect, body, random, now, emailSent).users == users[u.email := t];
      }
    }
  }

  /** Whether or not the address is registered, a delivered request gets the same 200 reply; only a
      registered address gets a token, which is the fresh one, valid 24 hours, whatever its verification state. */
  lemma SameReplyEitherWay(users: Users, d: ForgotData, random: seq<Byte>, now: int)
    requires KeysAreEmails(users) && |random| == TOKEN_BYTES
    ensures Outcome(users, None, Parsed(d), random, now, true).reply == SuccessResponse(EmailData(d.email), MAYBE_SENT)
    ensures NormalizeEmail(d.email) !in users ==> Outcome(users, None, Parsed(d), random, now, true).users == users
    ensures NormalizeEmail(d.email) in users ==>
      var u := users[NormalizeEmail(d.email)];
      Outcome(users, None, Parsed(d), random, now, true).users ==
        users[NormalizeEmail(d.email) := u.(resetPasswordToken := Some(GenerateVerificationToken(random)),
                            resetPasswordTokenExpiry := Some(now + TOKEN_LIFETIME_MS))]
  {
  }

  /** When the email cannot be sent the account is left with no reset token at all, even one issued earlier. */
  lemma FailedEmailClearsToken(users: Users, d: ForgotData, random: seq<Byte>, now: int)
    requires KeysAreEmails(users) && |random| == TOKEN_BYTES && NormalizeEmail(d.email) in users
    ensures Outcome(users, None, Parsed(d), random, now, false) ==
      Step(ErrorResponse(SEND_FAILED, 500),
           users[NormalizeEmail(d.email) := users[NormalizeEmail(d.email)].(resetPasswordToken := None, resetPasswordTokenExpiry := None)])
  {
  }

  /** A new request replaces the account's previous reset token: the old one no longer finds any account. */
  lemma NewTokenRevokesOld(users: Users, d: ForgotData, random: seq<Byte>, now: int, emailSent: bool, previous: string)
    requires StoreInvariant(users) && |random| == TOKEN_BYTES && NormalizeEmail(d.email) in users
    requires FreshResetToken(users, GenerateVerificationToken(random))
    requires users[NormalizeEmail(d.email)].resetPasswordToken == Some(previous)
    ensures ResetHolder(Outcome(users, None, Parsed(d), random, now, emailSent).users, previous).None?
  {
    var after := Outcome(users, None, Parsed(d), random, now, emailSent).users;
    forall e | e in after ensures after[e].resetPasswordToken != Some(previous) {
      if e != NormalizeEmail(d.email) {
        assert users[e].resetPasswordToken != users[NormalizeEmail(d.email)].resetPasswordToken;
      }
    }
  }
}

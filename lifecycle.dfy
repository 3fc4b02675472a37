/** The credential lifecycle across routes: what a sequence of requests, each
    answered as its route handler answers it, leads to. */
module Lifecycle {
  import opened Common
  import opened Token
  import opened Responses
  import opened ErrorHandler
  import opened Zod
  import Jwt
  import opened UserModel
  import opened UserDb
  import Signup
  import Login
  import VerifyEmail
  import SendOtp
  import VerifyOtp
  import ForgotPassword
  import ResetPassword

  /** An unverified account holding a live verification token, logged into with any address that
      normalizes to its own: following the link verifies it, after which its password logs it in;
      before that, login is refused with 403. */
  lemma VerifyThenLogin(users: Users, email: string, token: string, password: string, now: int,
                        jwt: Jwt.JwtConfig, jwt2: Jwt.JwtConfig)
    requires StoreInvariant(users) && NormalizeEmail(email) in users && token != ""
    requires var u := users[NormalizeEmail(email)];
      && !u.isVerified && u.verificationToken == Some(token)
      && !IsTokenExpired(u.verificationTokenExpiry, now) && Compare(password, u.password)
    ensures Login.Outcome(users, None, Parsed(Login.LoginData(email, password)), jwt2).reply == ErrorResponse(Login.VERIFY_FIRST, 403)
    ensures var s2 := VerifyEmail.PostOutcome(users, None, Parsed(Some(token)), now, jwt);
      s2.reply.success && Login.Outcome(s2.users, None, Parsed(Login.LoginData(email, password)), jwt2).reply.success
  {
    var k := NormalizeEmail(email);
    VerificationHolderUnique(users, token, k);
    VerifyEmail.SuccessfulVerification(users, token, now, jwt);
    var s2 := VerifyEmail.PostOutcome(users, None, Parsed(Some(token)), now, jwt);
    assert s2.users[k].isVerified && Compare(password, s2.users[k].password);
    Login.SucceedsIff(s2.users, None, Parsed(Login.LoginData(email, password)), jwt2);
  }

  /** Signing up, following the emailed link within 24 hours, then logging in with the address as typed at
      signup and the same password succeeds; logging in before following the link is refused with 403. */
  lemma SignupVerifyLogin(users: Users, d: Signup.RegisterData, id: string, salt: string, random: seq<Byte>,
                          t0: int, t1: int, jwt: Jwt.JwtConfig, jwt2: Jwt.JwtConfig)
    requires StoreInvariant(users) && |random| == TOKEN_BYTES && Signup.FreshIdentity(users, id, random)
    requires Signup.Outcome(users, None, Parsed(d), id, salt, random, t0, true).reply.status == 201
    requires t0 <= t1 <= t0 + TOKEN_LIFETIME_MS
    ensures var s1 := Signup.Outcome(users, None, Parsed(d), id, salt, random, t0, true).users;
      var login := Login.LoginData(d.email, d.password);
      Login.Outcome(s1, None, Parsed(login), jwt2).reply == ErrorResponse(Login.VERIFY_FIRST, 403)
    ensures var s1 := Signup.Outcome(users, None, Parsed(d), id, salt, random, t0, true).users;
      var s2 := VerifyEmail.PostOutcome(s1, None, Parsed(Some(GenerateVerificationToken(random))), t1, jwt);
      var login := Login.LoginData(d.email, d.password);
      s2.reply.success && Login.Outcome(s2.users, None, Parsed(login), jwt2).reply.success
  {
    Signup.CreatesOnlyOnSuccess(users, None, Parsed(d), id, salt, random, t0, true);
    Signup.SuccessfulSignup(users, d, id, salt, random, t0);
    Signup.PreservesInvariant(users, None, Parsed(d), id, salt, random, t0, true);
    Signup.CreatedRecord(d, id, salt, random, t0);
    var s1 := Signup.Outcome(users, None, Parsed(d), id, salt, random, t0, true).users;
    VerifyThenLogin(s1, d.email, GenerateVerificationToken(random), d.password, t1, jwt, jwt2);
  }

  /** A code sent to a verified account logs it in when presented within 10 minutes (the last instant
      included), and is answered "expired" after that. */
  lemma SendThenVerifyOtp(users: Users, email: string, r: real, t0: int, t1: int, isEmail: string -> bool,
                          jwt: Jwt.JwtConfig)
    requires KeysAreEmails(users) && 0.0 <= r < 1.0
    requires NormalizeEmail(email) in users && users[NormalizeEmail(email)].isVerified && isEmail(email)
    requires t0 <= t1
    ensures var s1 := SendOtp.Outcome(users, None, Parsed(SendOtp.OtpRequest(email)), r, t0, true).users;
      var body := Object(VerifyOtp.VerifyOtpFields(Str(email), Str(SendOtp.GenerateOtp(r))));
      var s2 := VerifyOtp.Outcome(s1, None, Parsed(body), isEmail, t1, jwt);
      && (t1 <= t0 + 600000 ==> s2.reply.success)
      && (t1 > t0 + 600000 ==> s2.reply == ErrorResponse(VerifyOtp.OTP_EXPIRED, 400))
  {
    SendOtp.OtpShape(r);
    var k := NormalizeEmail(email);
    var s1 := SendOtp.Outcome(users, None, Parsed(SendOtp.OtpRequest(email)), r, t0, true).users;
    assert s1 == users[k := SendOtp.WithOtp(users[k], SendOtp.GenerateOtp(r), t0 + SendOtp.OTP_LIFETIME_MS)];
    var body := Object(VerifyOtp.VerifyOtpFields(Str(email), Str(SendOtp.GenerateOtp(r))));
    VerifyOtp.SchemaAcceptsIff(body, isEmail);
    VerifyOtp.SucceedsIff(s1, None, Parsed(body), isEmail, t1, jwt);
  }

  /** A reset link used within 24 hours sets the password: afterwards the new password logs a verified
      account in and a different old one no longer does. */
  lemma ForgotResetLogin(users: Users, email: string, random: seq<Byte>, t0: int, t1: int, newPassword: string,
                         oldPassword: string, salt: string, jwt: Jwt.JwtConfig)
    requires StoreInvariant(users) && |random| == TOKEN_BYTES
    requires FreshResetToken(users, GenerateVerificationToken(random))
    requires NormalizeEmail(email) in users && users[NormalizeEmail(email)].isVerified
    requires ResetPassword.StrongPassword(newPassword) && oldPassword != newPassword
    requires t0 <= t1 <= t0 + TOKEN_LIFETIME_MS
    ensures var s1 := ForgotPassword.Outcome(users, None, Parsed(ForgotPassword.ForgotData(email)), random, t0, true).users;
      var body := Object(ResetPassword.ResetFields(Str(GenerateVerificationToken(random)), Str(newPassword), Str(newPassword)));
      var s2 := ResetPassword.Outcome(s1, None, Parsed(body), t1, salt);
      && s2.reply.success
      && Login.Outcome(s2.users, None, Parsed(Login.LoginData(email, newPassword)), jwt).reply.success
      && !Login.Outcome(s2.users, None, Parsed(Login.LoginData(email, oldPassword)), jwt).reply.success
  {
    var token := GenerateVerificationToken(random);
    var k := NormalizeEmail(email);
    ForgotPassword.PreservesInvariant(users, None, Parsed(ForgotPassword.ForgotData(email)), random, t0, true);
    var s1 := ForgotPassword.Outcome(users, None, Parsed(ForgotPassword.ForgotData(email)), random, t0, true).users;
    assert s1 == users[k := ForgotPassword.WithResetToken(users[k], GenerateSecureToken(random, t0))];
    var body := Object(ResetPassword.ResetFields(Str(token), Str(newPassword), Str(newPassword)));
    ResetPassword.SchemaAcceptsIff(body);
    ResetPassword.SuccessfulReset(s1, ResetPassword.ResetData(token, newPassword, newPassword), t1, salt, k);
    var s2 := ResetPassword.Outcome(s1, None, Parsed(body), t1, salt).users;
    Login.SucceedsIff(s2, None, Parsed(Login.LoginData(email, newPassword)), jwt);
    Login.SucceedsIff(s2, None, Parsed(Login.LoginData(email, oldPassword)), jwt);
  }
}

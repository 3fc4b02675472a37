/** `POST /api/auth/send-otp` (app/api/auth/send-otp/route.ts): issue a 4-digit
    one-time login code, valid for 10 minutes, to a verified account. */
module SendOtp {
  import opened Common
  import opened Responses
  import opened ErrorHandler
  import opened UserModel
  import opened UserDb

  /** The body as `otpFormSchema.parse` returns it (that schema is not part of this model). */
  datatype OtpRequest = OtpRequest(email: string)

  const OTP_LIFETIME_MS: int := 10 * 60 * 1000
  const MAYBE_SENT: string := "If an account exists with this email, an OTP has been sent."
  const VERIFY_FIRST: string := "Please verify your email before logging in. Check your inbox for the verification link."
  const SEND_FAILED: string := "Failed to send OTP. Please try again."
  const OTP_SENT: string := "A 4-digit OTP has been sent to your email. It will expire in 10 minutes."

  // ----- generateOTP -----

  /** `Math.floor(1000 + r * 9000)` for the value `r` of `Math.random()`, taken as an exact real. */
  function OtpValue(r: real): (n: int)
    requires 0.0 <= r < 1.0
    ensures 1000 <= n <= 9999
  {
    (1000.0 + r * 9000.0).Floor
  }

  function DigitChar(d: nat): (c: char)
    requires d < 10
    ensures IsDigit(c)
  {
    ('0' as int + d) as char
  }

  /** `n.toString()` for a non-negative integer. */
  function DecimalString(n: nat): (s: string)
    ensures DigitsOnly(s)
    ensures n >= 10 ==> s == DecimalString(n / 10) + [DigitChar(n % 10)]
    decreases n
  {
    if n < 10 then [DigitChar(n)] else DecimalString(n / 10) + [DigitChar(n % 10)]
  }

  /** The number a string of decimal digits denotes. */
  function DecimalValue(s: string): nat
    requires AllDigits(s)
  {
    if s == [] then 0 else DecimalValue(s[..|s| - 1]) * 10 + (s[|s| - 1] as int - '0' as int)
  }

  /** `generateOTP()` */
  function GenerateOtp(r: real): string
    requires 0.0 <= r < 1.0
  {
    DecimalString(OtpValue(r))
  }

  lemma {:induction false} DecimalRoundTrip(n: nat)
    ensures DecimalValue(DecimalString(n)) == n
    decreases n
  {
    var s := DecimalString(n);
    if n >= 10 {
      DecimalRoundTrip(n / 10);
      assert s[..|s| - 1] == DecimalString(n / 10);
    }
  }

  /** Numbers from 1000 to 9999 print as exactly four digits, the first of them not '0'. */
  lemma FourDigitNumbers(n: nat)
    requires 1000 <= n <= 9999
    ensures |DecimalString(n)| == 4 && DecimalString(n)[0] != '0'
  {
    assert DecimalString(n / 1000) == [DigitChar(n / 1000)];
    assert DecimalString(n / 100) == DecimalString(n / 1000) + [DigitChar(n / 100 % 10)];
    assert DecimalString(n / 10) == DecimalString(n / 100) + [DigitChar(n / 10 % 10)];
  }

  /** Every code is four decimal digits without a leading zero, and reads back as the number drawn. */
  lemma OtpShape(r: real)
    requires 0.0 <= r < 1.0
    ensures var otp := GenerateOtp(r);
      |otp| == 4 && DigitsOnly(otp) && otp[0] != '0' && DecimalValue(otp) == OtpValue(r)
  {
    FourDigitNumbers(OtpValue(r));
    DecimalRoundTrip(OtpValue(r));
  }

  /** Every code from 1000 to 9999 can be drawn. */
  lemma OtpCoversRange(n: int)
    requires 1000 <= n <= 9999
    ensures var r := (n - 1000) as real / 9000.0; 0.0 <= r < 1.0 && OtpValue(r) == n
  {
    var r := (n - 1000) as real / 9000.0;
    assert 1000.0 + r * 9000.0 == n as real;
  }

  // ----- the route -----

  function EmailData(email: string): Json {
    JObj(map["email" := JStr(email)])
  }

  function WithOtp(u: UserRecord, otp: string, expiry: int): UserRecord {
    u.(otpCode := Some(otp), otpExpiry := Some(expiry))
  }

  function WithoutOtp(u: UserRecord): UserRecord {
    u.(otpCode := None, otpExpiry := None)
  }

  /** The request: `otpRandom` is the value of `Math.random()`, `now` the clock in milliseconds and
      `emailSent` what `sendOtpEmail` reports. */
  function Outcome(users: Users, connect: Option<Thrown>, body: Parsed<OtpRequest>, otpRandom: real, now: int,
                   emailSent: bool): Step<ApiResponse>
    requires 0.0 <= otpRandom < 1.0
  {
    if connect.Some? then Step(Caught(ZodAwareCatch, connect.value), users)
    else match body
      case Threw(e) => Step(Caught(ZodAwareCatch, e), users)
      case Parsed(d) =>
        match ByEmail(users, d.email)
        case None => Step(SuccessResponse(EmailData(d.email), MAYBE_SENT), users)
        case Some(u) =>
          if !u.isVerified then Step(ErrorResponse(VERIFY_FIRST, 403), users)
          else if !emailSent then Step(ErrorResponse(SEND_FAILED, 500), users[u.email := WithoutOtp(u)])
          else Step(SuccessResponse(EmailData(d.email), OTP_SENT),
                    users[u.email := WithOtp(u, GenerateOtp(otpRandom), now + OTP_LIFETIME_MS)])
  }

  method Post(store: UserStore, connect: Option<Thrown>, body: Parsed<OtpRequest>, otpRandom: real, now: int,
              emailSent: bool) returns (r: ApiResponse)
    requires store.Valid() && 0.0 <= otpRandom < 1.0
    modifies store
    ensures var step := Outcome(old(store.users), connect, body, otpRandom, now, emailSent);
      r == step.reply && store.users == step.users
    ensures store.Valid()
  {
    PreservesInvariant(store.users, connect, body, otpRandom, now, emailSent);
    r := Handle(store, connect, body, otpRandom, now, emailSent);
  }

  /** The handler's steps, in the source's order: the code is saved before the email is attempted
      and cleared again when it fails. */
  method Handle(store: UserStore, connect: Option<Thrown>, body: Parsed<OtpRequest>, otpRandom: real, now: int,
                emailSent: bool) returns (r: ApiResponse)
    requires KeysAreEmails(store.users) && 0.0 <= otpRandom < 1.0
    modifies store
    ensures var step := Outcome(old(store.users), connect, body, otpRandom, now, emailSent);
      r == step.reply && store.users == step.users
  {
    if connect.Some? {
      r := CatchRoute(ZodAwareCatch, connect.value);
      return;
    }
    if body.Threw? {
      r := CatchRoute(ZodAwareCatch, body.e);
      return;
    }
    var d := body.data;
    var found := store.FindByEmail(d.email);
    if found.None? {
      return SuccessResponse(EmailData(d.email), MAYBE_SENT);
    }
    var user := found.value;
    if !user.isVerified {
      return ErrorResponse(VERIFY_FIRST, 403);
    }
    var otp := GenerateOtp(otpRandom);
    user := WithOtp(user, otp, now + OTP_LIFETIME_MS);
    store.Save(user);
    if !emailSent {
      user := WithoutOtp(user);
      store.Save(user);
      return ErrorResponse(SEND_FAILED, 500);
    }
    r := SuccessResponse(EmailData(d.email), OTP_SENT);
  }

  lemma PreservesInvariant(users: Users, connect: Option<Thrown>, body: Parsed<OtpRequest>, otpRandom: real, now: int,
                           emailSent: bool)
    requires StoreInvariant(users) && 0.0 <= otpRandom < 1.0
    ensures var after := Outcome(users, connect, body, otpRandom, now, emailSent).users;
      StoreInvariant(after) && NeverUnverifies(users, after)
  {
    if connect.None? && body.Parsed? {
      var found := ByEmail(users, body.data.email);
      if found.Some? && found.value.isVerified {
        var u := found.value;
        var t := if emailSent then WithOtp(u, GenerateOtp(otpRandom), now + OTP_LIFETIME_MS) else WithoutOtp(u);
        StoredRecord(users, u.email);
        OtpShape(otpRandom);
        ReplacePreserves(users, t);
        assert Outcome(users, connect, body, otpRandom, now, emailSent).users == users[u.email := t];
      }
    }
  }

  /** A code is stored only for a verified account whose email went out, and then it is the drawn
      code, expiring 10 minutes from now; nothing else about the account changes. */
  lemma IssuesCode(users: Users, connect: Option<Thrown>, body: Parsed<OtpRequest>, otpRandom: real, now: int,
                   emailSent: bool)
    requires KeysAreEmails(users) && 0.0 <= otpRandom < 1.0
    ensures var step := Outcome(users, connect, body, otpRandom, now, emailSent);
      step.reply.success && step.reply.message == OTP_SENT <==>
        connect.None? && body.Parsed? && NormalizeEmail(body.data.email) in users && users[NormalizeEmail(body.data.email)].isVerified && emailSent
    ensures var step := Outcome(users, connect, body, otpRandom, now, emailSent);
      step.reply.success && step.reply.message == OTP_SENT ==>
        var e := NormalizeEmail(body.data.email);
        && step.reply.status == 200
        && step.users == users[e := users[e].(otpCode := Some(GenerateOtp(otpRandom)), otpExpiry := Some(now + 600000))]
  {
    if connect.Some? {
      CaughtIsFailure(ZodAwareCatch, connect.value);
    } else if body.Threw? {
      CaughtIsFailure(ZodAwareCatch, body.e);
    }
  }

  /** When the email cannot be sent the account is left with no code at all, even one issued earlier. */
  lemma FailedEmailClearsCode(users: Users, d: OtpRequest, otpRandom: real, now: int)
    requires KeysAreEmails(users) && 0.0 <= otpRandom < 1.0
    requires NormalizeEmail(d.email) in users && users[NormalizeEmail(d.email)].isVerified
    ensures var step := Outcome(users, None, Parsed(d), otpRandom, now, false);
      && step.reply == ErrorResponse(SEND_FAILED, 500)
      && step.users == users[NormalizeEmail(d.email) := users[NormalizeEmail(d.email)].(otpCode := None, otpExpiry := None)]
  {
  }

  /** An unknown address gets a 200 that names no account and changes nothing; an unverified
      account gets 403 and no code. */
  lemma NoCodeWithoutVerifiedAccount(users: Users, d: OtpRequest, otpRandom: real, now: int, emailSent: bool)
    requires 0.0 <= otpRandom < 1.0
    ensures NormalizeEmail(d.email) !in users ==>
      Outcome(users, None, Parsed(d), otpRandom, now, emailSent) == Step(SuccessResponse(EmailData(d.email), MAYBE_SENT), users)
    ensures NormalizeEmail(d.email) in users && !users[NormalizeEmail(d.email)].isVerified ==>
      Outcome(users, None, Parsed(d), otpRandom, now, emailSent) == Step(ErrorResponse(VERIFY_FIRST, 403), users)
  {
  }
}

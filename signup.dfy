/** `POST /api/auth/signup` (app/api/auth/signup/route.ts): create an unverified
    account holding a fresh verification token, and remove it again when the
    verification email cannot be sent. */
module Signup {
  import opened Common
  import opened Token
  import opened Responses
  import opened ErrorHandler
  import opened UserModel
  import opened UserDb

  /** The body as `registerFormSchema.parse` returns it (that schema is not part of this model). */
  datatype RegisterData = RegisterData(name: string, email: string, password: string)

  const EMAIL_FAILED: string := "Failed to send verification email. Please try again."
  const REGISTERED: string := "User registered successfully. Please verify your email."
  const CHECK_INBOX: string := "Verification email sent. Please check your inbox."

  function UserView(u: UserRecord): Json {
    JObj(map["id" := JStr(u.id), "name" := JStr(u.name), "email" := JStr(u.email), "isVerified" := JBool(u.isVerified)])
  }

  /** The record `User.create` stores for the validated body, if it gets that far. */
  function Created(d: RegisterData, id: string, salt: string, random: seq<Byte>, now: int): UserRecord
    requires |random| == TOKEN_BYTES
  {
    var st := GenerateSecureToken(random, now);
    NewUser(id, ApplySetters(d.name, d.email, d.password), salt, st.token, st.expiry, now)
  }

  /** The request, from the outcome of connecting and of parsing the body. `id` is the ObjectId
      mongoose assigns, `salt` what `bcrypt.genSalt` returns, `random` the token's random bytes and
      `emailSent` what `sendVerificationEmail` reports. The lookup already normalizes the address,
      so with one request at a time the unique index on `email` never rejects the insert. */
  function Outcome(users: Users, connect: Option<Thrown>, body: Parsed<RegisterData>, id: string, salt: string,
                   random: seq<Byte>, now: int, emailSent: bool): Step<ApiResponse>
    requires |random| == TOKEN_BYTES
  {
    if connect.Some? then Step(Caught(SignupCatch, connect.value), users)
    else match body
      case Threw(e) => Step(Caught(SignupCatch, e), users)
      case Parsed(d) =>
        if ByEmail(users, d.email).Some? then Step(ErrorResponse(ALREADY_REGISTERED, 400), users)
        else
          var f := ApplySetters(d.name, d.email, d.password);
          if SchemaErrors(f) != map[] then Step(Caught(SignupCatch, CreateValidationError(f)), users)
          else if !emailSent then Step(ErrorResponse(EMAIL_FAILED, 500), users)
          else
            var u := Created(d, id, salt, random, now);
            Step(CreatedResponse(JObj(map["user" := UserView(u), "message" := JStr(CHECK_INBOX)]), REGISTERED),
                 users[f.email := u])
  }

  /** The id mongoose assigns is new, and so is the token (32 random bytes). */
  ghost predicate FreshIdentity(users: Users, id: string, random: seq<Byte>)
    requires |random| == TOKEN_BYTES
  {
    && (forall e :: e in users ==> users[e].id != id)
    && FreshVerificationToken(users, GenerateVerificationToken(random))
  }

  method Post(store: UserStore, connect: Option<Thrown>, body: Parsed<RegisterData>, id: string, salt: string,
              random: seq<Byte>, now: int, emailSent: bool) returns (r: ApiResponse)
    requires store.Valid() && |random| == TOKEN_BYTES && FreshIdentity(store.users, id, random)
    modifies store
    ensures var step := Outcome(old(store.users), connect, body, id, salt, random, now, emailSent);
      r == step.reply && store.users == step.users
    ensures store.Valid()
  {
    PreservesInvariant(store.users, connect, body, id, salt, random, now, emailSent);
    r := Handle(store, connect, body, id, salt, random, now, emailSent);
  }

  /** The handler's steps, in the source's order. */
  method Handle(store: UserStore, connect: Option<Thrown>, body: Parsed<RegisterData>, id: string, salt: string,
                random: seq<Byte>, now: int, emailSent: bool) returns (r: ApiResponse)
    requires |random| == TOKEN_BYTES && forall e :: e in store.users ==> store.users[e].id != id
    modifies store
    ensures var step := Outcome(old(store.users), connect, body, id, salt, random, now, emailSent);
      r == step.reply && store.users == step.users
  {
    ghost var before := store.users;
    if connect.Some? {
      r := CatchRoute(SignupCatch, connect.value);
      return;
    }
    if body.Threw? {
      r := CatchRoute(SignupCatch, body.e);
      return;
    }
    var d := body.data;
    var existing := store.FindByEmail(d.email);
    if existing.Some? {
      return ErrorResponse(ALREADY_REGISTERED, 400);
    }
    var st := GenerateSecureToken(random, now);
    // User.create: setters, validators, pre-save hash, then the insert
    var f := ApplySetters(d.name, d.email, d.password);
    if SchemaErrors(f) != map[] {
      r := CatchRoute(SignupCatch, CreateValidationError(f));
      return;
    }
    var user := NewUser(id, f, salt, st.token, st.expiry, now);
    store.Insert(user);
    if !emailSent {
      store.DeleteById(user.id);
      RollbackRestores(before, user);
      return ErrorResponse(EMAIL_FAILED, 500);
    }
    r := CreatedResponse(JObj(map["user" := UserView(user), "message" := JStr(CHECK_INBOX)]), REGISTERED);
  }

  /** Every request keeps the collection invariant and never touches a verified account. */
  lemma PreservesInvariant(users: Users, connect: Option<Thrown>, body: Parsed<RegisterData>, id: string, salt: string,
                           random: seq<Byte>, now: int, emailSent: bool)
    requires StoreInvariant(users) && |random| == TOKEN_BYTES && FreshIdentity(users, id, random)
    ensures var after := Outcome(users, connect, body, id, salt, random, now, emailSent).users;
      StoreInvariant(after) && NeverUnverifies(users, after)
  {
    CreatesOnlyOnSuccess(users, connect, body, id, salt, random, now, emailSent);
    if connect.None? && body.Parsed? {
      var d := body.data;
      var f := ApplySetters(d.name, d.email, d.password);
      if NormalizeEmail(d.email) !in users && SchemaErrors(f) == map[] && emailSent {
        var u := Created(d, id, salt, random, now);
        assert "name" !in SchemaErrors(f) && "email" !in SchemaErrors(f);
        InsertPreserves(users, u);
        assert Outcome(users, connect, body, id, salt, random, now, emailSent).users == users[u.email := u];
      }
    }
  }

  /** Exactly one record is added, and only when every check passes and the email went out;
      every other outcome leaves the collection as it was. */
  lemma {:induction false} CreatesOnlyOnSuccess(users: Users, connect: Option<Thrown>, body: Parsed<RegisterData>, id: string,
                                                 salt: string, random: seq<Byte>, now: int, emailSent: bool)
    requires |random| == TOKEN_BYTES
    ensures var step := Outcome(users, connect, body, id, salt, random, now, emailSent);
      step.reply.status == 201 <==>
        && connect.None? && body.Parsed?
        && NormalizeEmail(body.data.email) !in users
        && SchemaErrors(ApplySetters(body.data.name, body.data.email, body.data.password)) == map[]
        && emailSent
    ensures var step := Outcome(users, connect, body, id, salt, random, now, emailSent);
      step.reply.status != 201 ==> step.users == users
  {
    var step := Outcome(users, connect, body, id, salt, random, now, emailSent);
    if connect.Some? {
      CaughtIsFailure(SignupCatch, connect.value);
    } else if body.Threw? {
      CaughtIsFailure(SignupCatch, body.e);
    } else {
      var d := body.data;
      var f := ApplySetters(d.name, d.email, d.password);
      if NormalizeEmail(d.email) !in users && SchemaErrors(f) != map[] {
        CaughtIsFailure(SignupCatch, CreateValidationError(f));
      }
    }
  }

  /** Deleting the only record with the new record's id undoes its insertion. */
  lemma RollbackRestores(before: Users, u: UserRecord)
    requires u.email !in before && forall e :: e in before ==> before[e].id != u.id
    ensures forall e :: e in before[u.email := u] && before[u.email := u][e].id == u.id ==> before[u.email := u] - {e} == before
  {
    forall e | e in before[u.email := u] && before[u.email := u][e].id == u.id
      ensures before[u.email := u] - {e} == before
    {
      assert e == u.email;
    }
  }

  /** A successful signup adds exactly one record, under the normalized email, and reports it unverified. */
  lemma SuccessfulSignup(users: Users, d: RegisterData, id: string, salt: string, random: seq<Byte>, now: int)
    requires |random| == TOKEN_BYTES && NormalizeEmail(d.email) !in users
    requires SchemaErrors(ApplySetters(d.name, d.email, d.password)) == map[]
    ensures var step := Outcome(users, None, Parsed(d), id, salt, random, now, true);
      && step.users == users[NormalizeEmail(d.email) := Created(d, id, salt, random, now)]
      && step.reply.status == 201 && step.reply.success
      && step.reply.data.value.fields["user"].fields["isVerified"] == JBool(false)
  {
  }

  /** The record signup creates: unverified, holding a 64-hex-digit token valid for 24 hours, the
      normalized email and trimmed name, a hash of the password, and no access token. */
  lemma CreatedRecord(d: RegisterData, id: string, salt: string, random: seq<Byte>, now: int)
    requires |random| == TOKEN_BYTES
    ensures var u := Created(d, id, salt, random, now);
      && !u.isVerified && u.accessToken.None? && u.id == id && u.createdAt == now
      && u.email == NormalizeEmail(d.email) && u.name == Trim(d.name)
      && u.verificationToken == Some(GenerateVerificationToken(random)) && IsTokenText(u.verificationToken.value)
      && u.verificationTokenExpiry == Some(now + TOKEN_LIFETIME_MS)
      && u.resetPasswordToken.None? && u.otpCode.None?
      && (forall c :: Compare(c, u.password) <==> c == d.password)
  {
  }

  /** An address that normalizes to a stored one is found by the lookup and refused with 400 before the
      model's validators run, whatever the other fields hold. */
  lemma ExistingEmailRejected(users: Users, d: RegisterData, id: string, salt: string, random: seq<Byte>, now: int, emailSent: bool)
    requires |random| == TOKEN_BYTES && NormalizeEmail(d.email) in users
    ensures Outcome(users, None, Parsed(d), id, salt, random, now, emailSent) == Step(ErrorResponse("Email already registered", 400), users)
  {
  }

  /** Schema failures of the request body give 422 with the field map; those of the model give 400 with mongoose's message. */
  lemma ValidationFailures(users: Users, body: Parsed<RegisterData>, id: string, salt: string, random: seq<Byte>, now: int, emailSent: bool)
    requires |random| == TOKEN_BYTES
    ensures body.Threw? && body.e.ZodError? ==>
      Outcome(users, None, body, id, salt, random, now, emailSent) == Step(ValidationErrorResponse(IssueMap(body.e.issues)), users)
    ensures body.Parsed? && NormalizeEmail(body.data.email) !in users ==>
      var f := ApplySetters(body.data.name, body.data.email, body.data.password);
      SchemaErrors(f) != map[] ==>
        Outcome(users, None, body, id, salt, random, now, emailSent) == Step(ErrorResponse(CreateValidationError(f).message, 400), users)
  {
    if body.Parsed? && NormalizeEmail(body.data.email) !in users {
      var f := ApplySetters(body.data.name, body.data.email, body.data.password);
      if SchemaErrors(f) != map[] {
        ModelRejection(users, body.data, id, salt, random, now, emailSent);
      }
    }
  }

  lemma ModelRejection(users: Users, d: RegisterData, id: string, salt: string, random: seq<Byte>, now: int, emailSent: bool)
    requires |random| == TOKEN_BYTES && NormalizeEmail(d.email) !in users
    requires SchemaErrors(ApplySetters(d.name, d.email, d.password)) != map[]
    ensures Outcome(users, None, Parsed(d), id, salt, random, now, emailSent) ==
      Step(ErrorResponse(CreateValidationError(ApplySetters(d.name, d.email, d.password)).message, 400), users)
  {
    var f := ApplySetters(d.name, d.email, d.password);
    var e := CreateValidationError(f);
    assert Caught(SignupCatch, e) == ErrorResponse(e.message, 400) by {
      assert !IsDuplicateKey(e) && IsError(e);
    }
    assert ByEmail(users, d.email).None?;
    assert Outcome(users, None, Parsed(d), id, salt, random, now, emailSent) == Step(Caught(SignupCatch, e), users);
  }
}

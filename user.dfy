/** The User model (lib/models/User.ts): the stored record, the schema's
    setters, defaults and validators, the hash-on-save hook, `toJSON` and the
    password comparison methods. bcrypt is abstract: a hash is a value that
    records which plaintext and which salt produced it. */
module UserModel {
  import opened Common
  import opened Responses
  import opened ErrorHandler
  import EmailPattern

  /** The output of `bcrypt.hash(secret, salt)`. Different (secret, salt) pairs give different hashes. */
  datatype PasswordHash = Bcrypt(salt: string, secret: string)

  /** `bcrypt.genSalt(10)` */
  const SALT_ROUNDS: nat := 10

  datatype UserRecord = UserRecord(
    id: string,
    name: string,
    email: string,
    password: PasswordHash,
    isVerified: bool,
    verificationToken: Option<string>,
    verificationTokenExpiry: Option<int>,
    resetPasswordToken: Option<string>,
    resetPasswordTokenExpiry: Option<int>,
    otpCode: Option<string>,
    otpExpiry: Option<int>,
    accessToken: Option<string>,
    createdAt: int)

  function HashPassword(plain: string, salt: string): (h: PasswordHash)
    ensures Compare(plain, h)
    ensures forall other :: Compare(other, h) ==> other == plain
  {
    Bcrypt(salt, plain)
  }

  /** `bcrypt.compare(candidate, hash)` */
  predicate Compare(candidate: string, h: PasswordHash) {
    h.secret == candidate
  }

  /** `user.isPasswordCorrect(password)` */
  predicate IsPasswordCorrect(u: UserRecord, password: string) {
    Compare(password, u.password)
  }

  /** `user.comparePassword(password)`, the alias. */
  predicate ComparePassword(u: UserRecord, password: string) {
    Compare(password, u.password)
  }

  lemma PasswordMethodsAgree(u: UserRecord, password: string)
    ensures IsPasswordCorrect(u, password) == ComparePassword(u, password)
    ensures IsPasswordCorrect(u, password) <==> u.password.secret == password
  {
  }

  /** The pre-save hook. `newPlain` is the plaintext a handler wrote to `password`
      since the last save (Some exactly when `isModified('password')`). */
  function PreSaveHash(stored: PasswordHash, newPlain: Option<string>, salt: string): (h: PasswordHash)
    ensures newPlain.None? ==> h == stored
    ensures newPlain.Some? ==> forall c :: Compare(c, h) <==> c == newPlain.value
  {
    if newPlain.None? then stored else HashPassword(newPlain.value, salt)
  }

  /** Saving without touching the password never re-hashes it, and a fresh hash accepts
      exactly the plaintext that was assigned: hashing is never applied twice. */
  lemma NoDoubleHashing(stored: PasswordHash, plain: string, salt1: string, salt2: string)
    ensures PreSaveHash(PreSaveHash(stored, Some(plain), salt1), None, salt2) == PreSaveHash(stored, Some(plain), salt1)
    ensures Compare(plain, PreSaveHash(PreSaveHash(stored, Some(plain), salt1), None, salt2))
  {
  }

  // ----- schema constraints -----

  const NAME_MIN: nat := 2
  const NAME_MAX: nat := 50
  const PASSWORD_MIN: nat := 8

  const NAME_REQUIRED: string := "Please provide a name"
  const NAME_TOO_SHORT: string := "Name must be at least 2 characters long"
  const NAME_TOO_LONG: string := "Name must not exceed 50 characters"
  const EMAIL_REQUIRED: string := "Please provide an email"
  const EMAIL_INVALID: string := "Please provide a valid email address"
  const PASSWORD_REQUIRED: string := "Please provide a password"
  const PASSWORD_TOO_SHORT: string := "Password must be at least 8 characters long"

  /** The `email` setters: `lowercase` and `trim`. */
  function NormalizeEmail(email: string): string {
    ToLower(Trim(email))
  }

  /** The first failing validator of `name` (applied after `trim`), if any; `minlength` and
      `maxlength` count UTF-16 code units. */
  function NameError(name: string): Option<string> {
    if name == "" then Some(NAME_REQUIRED)
    else if JsLength(name) < NAME_MIN then Some(NAME_TOO_SHORT)
    else if JsLength(name) > NAME_MAX then Some(NAME_TOO_LONG)
    else None
  }

  function EmailError(email: string): Option<string> {
    if email == "" then Some(EMAIL_REQUIRED)
    else if !EmailPattern.Matches(email) then Some(EMAIL_INVALID)
    else None
  }

  function PasswordError(password: string): Option<string> {
    if password == "" then Some(PASSWORD_REQUIRED)
    else if JsLength(password) < PASSWORD_MIN then Some(PASSWORD_TOO_SHORT)
    else None
  }

  /** The field values the schema's setters store for a new user. */
  datatype NewUserFields = NewUserFields(name: string, email: string, password: string)

  function ApplySetters(name: string, email: string, password: string): NewUserFields {
    NewUserFields(Trim(name), NormalizeEmail(email), password)
  }

  function AddError(errors: map<string, string>, path: string, err: Option<string>): map<string, string> {
    if err.Some? then errors[path := err.value] else errors
  }

  /** The per-field messages of the ValidationError `User.create` rejects these fields with. */
  function SchemaErrors(f: NewUserFields): (errors: map<string, string>)
    ensures "name" in errors <==> NameError(f.name).Some?
    ensures "email" in errors <==> EmailError(f.email).Some?
    ensures "password" in errors <==> PasswordError(f.password).Some?
    ensures errors.Keys <= {"name", "email", "password"}
  {
    AddError(AddError(AddError(map[], "name", NameError(f.name)), "email", EmailError(f.email)), "password", PasswordError(f.password))
  }

  function ErrorPart(path: string, err: Option<string>): seq<string> {
    if err.Some? then [path + ": " + err.value] else []
  }

  function Join(parts: seq<string>): string {
    if |parts| == 0 then "" else if |parts| == 1 then parts[0] else parts[0] + ", " + Join(parts[1..])
  }

  /** What `User.create` throws when a validator fails: mongoose's ValidationError. */
  function CreateValidationError(f: NewUserFields): (e: Thrown)
    ensures e.JsError? && e.name == "ValidationError" && e.code.None?
    ensures e.keyPattern.None? && e.fieldErrors == Some(SchemaErrors(f))
  {
    var parts := ErrorPart("name", NameError(f.name)) + ErrorPart("email", EmailError(f.email)) + ErrorPart("password", PasswordError(f.password));
    JsError("ValidationError", "User validation failed: " + Join(parts), None, None, Some(SchemaErrors(f)))
  }

  /** What `save()` throws when a new password assigned to a stored record fails its validators;
      they run before the pre-save hook hashes it. */
  function SavePasswordError(password: string): (e: Option<Thrown>)
    ensures e.Some? <==> PasswordError(password).Some?
    ensures e.Some? ==>
      && e.value.JsError? && e.value.name == "ValidationError"
      && e.value.fieldErrors == Some(map["password" := PasswordError(password).value])
  {
    match PasswordError(password)
    case None => None
    case Some(m) => Some(JsError("ValidationError", "User validation failed: " + Join(ErrorPart("password", Some(m))), None, None,
                                 Some(map["password" := m])))
  }

  /** A record `User.create` builds from accepted fields: unverified, no access token
      (`default: null`), no reset or one-time code, the password hashed by the hook. */
  function NewUser(id: string, f: NewUserFields, salt: string, verificationToken: string, expiry: int, now: int): (u: UserRecord)
    ensures !u.isVerified && u.accessToken.None?
    ensures u.verificationToken == Some(verificationToken) && u.verificationTokenExpiry == Some(expiry)
    ensures u.resetPasswordToken.None? && u.resetPasswordTokenExpiry.None? && u.otpCode.None? && u.otpExpiry.None?
    ensures u.name == f.name && u.email == f.email && u.id == id && u.createdAt == now
    ensures forall c :: Compare(c, u.password) <==> c == f.password
  {
    UserRecord(id, f.name, f.email, HashPassword(f.password, salt), false,
               Some(verificationToken), Some(expiry), None, None, None, None, None, now)
  }

  /** Setters commute: lower-casing does not create or remove whitespace. */
  lemma {:induction false} LowerTrimStartCommute(s: string)
    ensures ToLower(TrimStart(s)) == TrimStart(ToLower(s))
  {
    if |s| > 0 && IsSpace(s[0]) {
      assert ToLower(s)[1..] == ToLower(s[1..]);
      LowerTrimStartCommute(s[1..]);
    }
  }

  lemma {:induction false} LowerTrimEndCommute(s: string)
    ensures ToLower(TrimEnd(s)) == TrimEnd(ToLower(s))
  {
    if |s| > 0 && IsSpace(s[|s| - 1]) {
      assert ToLower(s)[..|s| - 1] == ToLower(s[..|s| - 1]);
      LowerTrimEndCommute(s[..|s| - 1]);
    }
  }

  /** The order in which mongoose applies `lowercase` and `trim` does not matter. */
  lemma NormalizeEmailOrderIrrelevant(s: string)
    ensures NormalizeEmail(s) == Trim(ToLower(s))
  {
    LowerTrimStartCommute(s);
    LowerTrimEndCommute(TrimStart(s));
  }

  /** Lower-casing before normalizing changes nothing. */
  lemma NormalizeAfterLower(s: string)
    ensures NormalizeEmail(ToLower(s)) == NormalizeEmail(s)
  {
    NormalizeEmailOrderIrrelevant(s);
    ToLowerIdempotent(Trim(s));
  }

  /** Normalizing twice changes nothing more. */
  lemma {:induction false} NormalizeEmailIdempotent(s: string)
    ensures NormalizeEmail(NormalizeEmail(s)) == NormalizeEmail(s)
  {
    var t := Trim(s);
    assert Trim(t) == t;
    NormalizeEmailOrderIrrelevant(t);
    ToLowerIdempotent(t);
  }

  // ----- serialization -----

  /** The 60-character string bcrypt stores, as far as the model needs it. */
  function HashText(h: PasswordHash): string {
    "$2a$10$" + h.salt + h.secret
  }

  function OptStr(s: Option<string>): Json { if s.Some? then JStr(s.value) else JNull }

  function Put(m: map<string, Json>, key: string, v: Option<Json>): map<string, Json> {
    if v.Some? then m[key := v.value] else m
  }

  function StrField(s: Option<string>): Option<Json> { if s.Some? then Some(JStr(s.value)) else None }
  function NumField(n: Option<int>): Option<Json> { if n.Some? then Some(JNum(n.value)) else None }

  /** The fields every record has; `accessToken` defaults to null. */
  function BaseObject(u: UserRecord): map<string, Json> {
    map["_id" := JStr(u.id), "name" := JStr(u.name), "email" := JStr(u.email),
        "password" := JStr(HashText(u.password)), "isVerified" := JBool(u.isVerified),
        "accessToken" := OptStr(u.accessToken), "createdAt" := JNum(u.createdAt)]
  }

  /** The optional token fields, present only when defined. */
  function WithTokens(m: map<string, Json>, u: UserRecord): map<string, Json> {
    var withVerification := Put(Put(m, "verificationToken", StrField(u.verificationToken)),
                                "verificationTokenExpiry", NumField(u.verificationTokenExpiry));
    var withReset := Put(Put(withVerification, "resetPasswordToken", StrField(u.resetPasswordToken)),
                         "resetPasswordTokenExpiry", NumField(u.resetPasswordTokenExpiry));
    Put(Put(withReset, "otpCode", StrField(u.otpCode)), "otpExpiry", NumField(u.otpExpiry))
  }

  /** `doc.toObject()` of a fully loaded record. */
  function ToObject(u: UserRecord): map<string, Json> {
    WithTokens(BaseObject(u), u)
  }

  /** `user.toJSON()`: the object without `password`, every other key unchanged. */
  function ToJson(u: UserRecord): (j: map<string, Json>)
    ensures "password" !in j
    ensures forall k :: k in j <==> k in ToObject(u) && k != "password"
    ensures forall k :: k in j ==> j[k] == ToObject(u)[k]
  {
    ToObject(u) - {"password"}
  }

  /** Fields declared `select: false`: left out of query results unless asked for with `+field`. */
  const HIDDEN_BY_DEFAULT: set<string> := {
    "password", "verificationToken", "verificationTokenExpiry",
    "resetPasswordToken", "resetPasswordTokenExpiry", "otpCode", "otpExpiry"}

  /** The record as a default query returns it. */
  function DefaultProjection(u: UserRecord): (j: map<string, Json>)
    ensures forall k :: k in j <==> k in ToObject(u) && k !in HIDDEN_BY_DEFAULT
  {
    ToObject(u) - HIDDEN_BY_DEFAULT
  }

  lemma PutHidden(m: map<string, Json>, key: string, v: Option<Json>)
    requires key in HIDDEN_BY_DEFAULT
    ensures Put(m, key, v) - HIDDEN_BY_DEFAULT == m - HIDDEN_BY_DEFAULT
  {
  }

  lemma WithTokensHidden(m: map<string, Json>, u: UserRecord)
    ensures WithTokens(m, u) - HIDDEN_BY_DEFAULT == m - HIDDEN_BY_DEFAULT
  {
    var m1 := Put(m, "verificationToken", StrField(u.verificationToken));
    var m2 := Put(m1, "verificationTokenExpiry", NumField(u.verificationTokenExpiry));
    var m3 := Put(m2, "resetPasswordToken", StrField(u.resetPasswordToken));
    var m4 := Put(m3, "resetPasswordTokenExpiry", NumField(u.resetPasswordTokenExpiry));
    var m5 := Put(m4, "otpCode", StrField(u.otpCode));
    PutHidden(m, "verificationToken", StrField(u.verificationToken));
    PutHidden(m1, "verificationTokenExpiry", NumField(u.verificationTokenExpiry));
    PutHidden(m2, "resetPasswordToken", StrField(u.resetPasswordToken));
    PutHidden(m3, "resetPasswordTokenExpiry", NumField(u.resetPasswordTokenExpiry));
    PutHidden(m4, "otpCode", StrField(u.otpCode));
    PutHidden(m5, "otpExpiry", NumField(u.otpExpiry));
  }

  /** A default query never exposes the password hash, a token or a one-time code; what it
      returns is identity, verification flag, access token and creation time. */
  lemma {:induction false} DefaultProjectionHidesSecrets(u: UserRecord)
    ensures DefaultProjection(u) == map["_id" := JStr(u.id), "name" := JStr(u.name), "email" := JStr(u.email),
      "isVerified" := JBool(u.isVerified), "accessToken" := OptStr(u.accessToken), "createdAt" := JNum(u.createdAt)]
  {
    WithTokensHidden(BaseObject(u), u);
  }
}

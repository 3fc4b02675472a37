# Credential lifecycle of the authentication flow

This project models the server side of a Next.js / mongoose authentication service in Dafny. The service lets a
user:

- sign up with a verification email;
- verify the address by token, through POST or the emailed GET link;
- log in with a password, or with a one-time 4-digit code sent by email;
- request, resend and consume password-reset and verification tokens;
- change the password behind a bearer token;
- read and rename their profile.

Every API route handler follows the same steps:

1. connect to the database;
2. read and validate the body;
3. look up one user record;
4. branch on its flags and expiry fields;
5. change a few fields and save;
6. reply with a JSON envelope.

The model states each handler twice:

- **An `Outcome` function.** It is the specification. Given the `users` collection and the outside world's
  answers, it returns the reply and the collection the handler leaves behind (`UserDb.Step`).
- **A `Post`/`Get`/`Put` method.** It runs the handler's own steps against a `UserDb.UserStore`. That is a class
  holding the collection as a `map` from stored email to `UserModel.UserRecord`, and its methods mirror the
  mongoose calls the handler makes (`findOne`, `findById`, `save`, `create`, `deleteOne`,
  `findByIdAndUpdate`).

Each method is proved to produce exactly its `Outcome` and to keep the collection invariant
(`UserDb.StoreInvariant`). The invariant says:

- keys are the stored emails;
- ids and the verification and reset tokens are unique;
- stored names and emails pass the schema's validators;
- a verified account holds no verification token;
- a one-time code is stored only on a verified account;
- every token or code is stored together with its expiry.

No handler ever turns a verified account back into an unverified one (`UserDb.NeverUnverifies`).

The outside world is passed in as parameters:

| Outside input | Parameter |
|---|---|
| Connecting to the database | `connect: Option<Thrown>` |
| Reading and validating the body | `Parsed<T>`, either the data or what was thrown |
| The clock | `now`, in milliseconds |
| `crypto.randomBytes(32)` | `random`, 32 bytes |
| `bcrypt.genSalt` | `salt` |
| `Math.random()` | `otpRandom`, a real in [0, 1) |
| Whether an email went out | `emailSent` |
| `jwt.sign` | `Jwt.JwtConfig` |
| `jwt.verify` | `Jwt.Verifier` |
| `jwt.decode` | `Jwt.Decoder` |

Each supporting library file has its own module:

| Library file | Module |
|---|---|
| lib/utils/token.ts | `Token` |
| lib/api/jwt.ts | `Jwt` |
| lib/api/auth.ts | `Auth` |
| lib/api/responses.ts | `Responses` |
| lib/api/errorHandler.ts | `ErrorHandler` |
| lib/models/User.ts | `UserModel`, with `EmailPattern` for its address regular expression |

`Zod` states the behaviour of the zod library that the two inline request schemas rely on. `Lifecycle`
chains handlers into the flows a user goes through.

## Model

| member | source | states |
|---|---|---|
| Token.HexEncode | authntication-flow/lib/utils/token.ts:7 | `toString('hex')` writes two lower-case hex digits per byte |
| Token.HexRoundTrip | authntication-flow/lib/utils/token.ts:7 | decoding the hex text of any bytes gives those bytes back |
| Token.HexEncodeInjective | authntication-flow/lib/utils/token.ts:7 | different random bytes always give different token text |
| Token.GenerateVerificationToken | authntication-flow/lib/utils/token.ts:6-8 | a token is 64 lower-case hex characters that decode to the 32 random bytes drawn |
| Token.GetTokenExpiry | authntication-flow/lib/utils/token.ts:13-17 | the expiry is 24 hours after issue, and the token is not expired at the moment of issue |
| Token.GenerateSecureToken | authntication-flow/lib/utils/token.ts:30-35 | pairs the 64-hex-digit token from the random bytes with the expiry issue + 24 h |
| Token.ExpiredIff | authntication-flow/lib/utils/token.ts:22-25 | a missing expiry counts as expired; otherwise the token is expired exactly when now is strictly after the expiry, so it is still valid at the expiry instant |
| Token.ExpiryMonotone | authntication-flow/lib/utils/token.ts:22-25 | once expired, a token stays expired at every later time |
| Token.FreshTokenLifetime | authntication-flow/lib/utils/token.ts:13-17 | a freshly generated token is expired at time t exactly when t is more than 24 h after issue |
| Jwt.ConfigOr | authntication-flow/lib/api/jwt.ts:10-11 | a set, non-empty environment value wins; otherwise the built-in default is used |
| Jwt.GenerateToken | authntication-flow/lib/api/jwt.ts:16-20 | signs exactly `{userId, email}` with no caller-supplied `iat`/`exp`, the secret defaults to "your-secret-key" and the lifetime to "7d" |
| Jwt.VerifyToken | authntication-flow/lib/api/jwt.ts:25-33 | the payload when the library returns one, null exactly when it throws; never fails itself |
| Jwt.DecodeToken | authntication-flow/lib/api/jwt.ts:38-46 | the unverified payload when decoding returns one, null when it returns null or throws |
| Jwt.ExpiredIff | authntication-flow/lib/api/jwt.ts:51-57 | undecodable tokens and tokens whose `exp` is absent or 0 are expired; otherwise the token is expired exactly when `exp * 1000 < now` |
| Jwt.NotExpiredAtBoundary | authntication-flow/lib/api/jwt.ts:56 | at `now == exp * 1000` the token is still valid |
| Jwt.ExpiryMonotone | authntication-flow/lib/api/jwt.ts:51-57 | once expired, a JWT stays expired at every later time |
| Auth.BearerToken | authntication-flow/lib/api/auth.ts:24-26 | a token is taken from the header exactly when it starts with "Bearer ", and the token is the header with those 7 characters removed |
| Auth.ChosenToken | authntication-flow/lib/api/auth.ts:24-31 | a non-empty bearer token wins; otherwise the `authToken` cookie is used; an empty token is never chosen |
| Auth.VerifyAuth | authntication-flow/lib/api/auth.ts:13-53 | no token gives a 401 "No authentication token provided"; a token that fails verification gives a 401 "Invalid or expired token"; the result is valid exactly when a token is chosen and verifies, and then carries that payload's userId and email and no error |
| Auth.WithAuth | authntication-flow/lib/api/auth.ts:66-77 | the handler runs only when the result is valid and both userId and email are non-empty, and receives them; otherwise the reply is `auth.error`, or a default 401 |
| Auth.ExtractToken | authntication-flow/lib/api/auth.ts:83-90 | the bearer remainder when the header has the prefix, even an empty one; otherwise the cookie |
| Auth.BearerTakesPrecedence | authntication-flow/lib/api/auth.ts:24-31 | a valid bearer header is used whatever the cookie holds |
| Auth.NonBearerHeaderIgnored | authntication-flow/lib/api/auth.ts:24-31 | a header without the exact "Bearer " prefix is ignored and the cookie is used |
| Auth.EmptyBearerDiffers | authntication-flow/lib/api/auth.ts:28-30 | for the header "Bearer " with nothing after it, `verifyAuth` falls back to the cookie while `extractToken` returns "" |
| Auth.EmptyUserIdRejectedByGate | authntication-flow/lib/api/auth.ts:72-73 | a verified token whose userId is empty passes `verifyAuth` but is refused by `withAuth` with the default 401 |
| Responses.SuccessResponse | authntication-flow/lib/api/responses.ts:14-27 | success = true with the data, the given message and status, and no `error`/`errors` |
| Responses.CreatedResponse | authntication-flow/lib/api/responses.ts:32-44 | always status 201 and success = true with the data |
| Responses.ErrorResponse | authntication-flow/lib/api/responses.ts:49-63 | success = false, `error` equal to the message, no data, and `errors` present only when given |
| Responses.ValidationErrorResponse | authntication-flow/lib/api/responses.ts:68-80 | always status 422, carries the field map, and has no `error` field |
| Responses.Failure | authntication-flow/lib/api/responses.ts:85-145 | the shape shared by the fixed-status failures: success = false, `error` equal to the message, no data, no `errors` |
| Responses.FailureEnvelopes | authntication-flow/lib/api/responses.ts:85-145 | unauthorized, forbidden, not-found and server-error replies have statuses 401/403/404/500 and their fixed default messages; `errorResponse` defaults to 400 and is exactly the fixed-status failure |
| Responses.EnvelopesSeparateOutcomes | authntication-flow/lib/api/responses.ts:14-80 | the default messages "Success", "Created successfully" and "Validation failed"; a validation reply carries no `error` field; an error reply keeps the `errors` it is given |
| ErrorHandler.IssueMapLastWins | authntication-flow/lib/api/errorHandler.ts:26-30 | a field has an entry exactly when some issue names it first in its path, and the entry is the message of the last such issue |
| ErrorHandler.IssueMapAppend | authntication-flow/lib/api/errorHandler.ts:26-30 | the map of concatenated issue lists is the first map overridden by the second |
| ErrorHandler.CollectIssueErrors | authntication-flow/lib/api/errorHandler.ts:26-30 | the `forEach` loop builds exactly the issue map, with later issues overwriting earlier ones |
| ErrorHandler.HandleError | authntication-flow/lib/api/errorHandler.ts:21-65 | `handleError` replies with the classification, building both field maps by loops; for a duplicate key without `keyPattern` or a ValidationError without `errors` it throws the TypeError of `Object.keys(undefined)` instead of replying |
| ErrorHandler.ClassifyStatuses | authntication-flow/lib/api/errorHandler.ts:24-64 | `handleError` throws exactly for a duplicate key without `keyPattern` and a ValidationError without `errors`, and what it throws is that TypeError. Otherwise only 422, 400 and 500 come out. Non-Error values give 500. A Zod error gives 422 with its issue map, and it wins over everything else. A duplicate key gives "<first key> already exists". A ValidationError gives 422 with its field messages. A CastError gives "Invalid ID format". Any other Error gives 400 with its message |
| ErrorHandler.AsyncHandler | authntication-flow/lib/api/errorHandler.ts:8-16 | the handler's reply when it does not throw; otherwise the outcome of `handleError` on what it threw, which is itself a throw in the two cases above |
| ErrorHandler.WithDatabaseConnection | authntication-flow/lib/api/errorHandler.ts:70-81 | a connect failure gives 500 "Database connection failed"; so does a handler error that `handleError` cannot classify and rethrows as a TypeError; every other handler error gets `handleError`'s reply |
| ErrorHandler.CatchRoute | authntication-flow/app/api/auth/signup/route.ts:69-93 | a route's own catch clause replies as its catch style prescribes |
| ErrorHandler.CaughtIsFailure | authntication-flow/app/api/auth/login/route.ts:63-82 | every caught error gives a failure without data, with status 422, 400 or 500 |
| ErrorHandler.CaughtVersusClassify | authntication-flow/app/api/auth/signup/route.ts:69-93 | the inline catch clauses agree with `handleError`, which replies, on Zod errors and non-Error values. Signup maps a duplicate key to "Email already registered". Every other Error gives 400 with its message |
| Zod.TypeIssue | authntication-flow/app/api/auth/verify-otp/route.ts:10-11 | a field that is not a string yields exactly one issue, under that field's name |
| Zod.Rejection | authntication-flow/app/api/auth/verify-otp/route.ts:23 | `parse` throws a ZodError carrying the collected issues |
| Zod.IssueMapOfCheck | authntication-flow/app/api/auth/verify-otp/route.ts:11 | a passing check adds nothing to the error map, and a failing one adds its message under the field |
| Zod.IssueMapOfTypeIssue | authntication-flow/app/api/auth/verify-otp/route.ts:10 | a non-string field maps to its type message, and an absent one to "Required" |
| Common.TrimStart | authntication-flow/lib/models/User.ts:27 | removes exactly the leading whitespace: the result is a suffix not starting with whitespace, and everything dropped is whitespace |
| Common.TrimEnd | authntication-flow/lib/models/User.ts:27 | removes exactly the trailing whitespace |
| Common.ToLower | authntication-flow/lib/models/User.ts:35 | lower-cases each character in place and keeps the length |
| Common.JsLength | authntication-flow/lib/models/User.ts:28-29 | JavaScript's `length` counts UTF-16 code units: between one and two per character, and never 0 for a non-empty string |
| Common.JsLengthOfBmp | authntication-flow/lib/models/User.ts:28-29 | a string of characters below U+10000 has as many code units as characters |
| Common.EmojiCountsTwice | authntication-flow/app/api/user/profile/route.ts:73 | a character outside the Basic Multilingual Plane, such as an emoji, counts 2 towards `length` |
| EmailPattern.MatchHasSingleAt | authntication-flow/lib/models/User.ts:36-39 | every address the schema's pattern accepts has exactly one '@' |
| EmailPattern.MatchHasNoWhitespace | authntication-flow/lib/models/User.ts:36-39 | accepted addresses contain no whitespace, so trimming leaves them unchanged |
| EmailPattern.AcceptsTypicalAddress | authntication-flow/lib/models/User.ts:37 | "a@x.com" is accepted |
| EmailPattern.RejectsMissingTopLevelLabel | authntication-flow/lib/models/User.ts:37 | "a@x" is rejected because the pattern requires a final ".xx" or ".xxx" label |
| UserModel.HashPassword | authntication-flow/lib/models/User.ts:95-96 | the stored hash accepts the password it was made from and no other |
| UserModel.PasswordMethodsAgree | authntication-flow/lib/models/User.ts:111-122 | `isPasswordCorrect` and `comparePassword` agree on every input, and accept exactly the hashed password |
| UserModel.PreSaveHash | authntication-flow/lib/models/User.ts:88-101 | an unmodified password keeps the stored hash; a newly assigned one is replaced by a hash accepting exactly it |
| UserModel.NoDoubleHashing | authntication-flow/lib/models/User.ts:88-101 | a later save that does not touch the password leaves the hash, and the password it accepts, unchanged |
| UserModel.SchemaErrors | authntication-flow/lib/models/User.ts:24-47 | name, email and password each have an entry exactly when their validator fails, and nothing else appears; `minlength`/`maxlength` count UTF-16 code units |
| UserModel.CreateValidationError | authntication-flow/lib/models/User.ts:22-85 | `User.create` with failing fields throws a ValidationError carrying those per-field messages |
| UserModel.SavePasswordError | authntication-flow/lib/models/User.ts:42-45 | `save()` after assigning a new password throws a ValidationError exactly when the password fails its validator (empty, or under 8 UTF-16 code units), with `errors` holding only that message under `password` |
| UserModel.NewUser | authntication-flow/lib/models/User.ts:48-55 | a created record is unverified, has no access token, reset token or code, and holds the given token and expiry, the set name and email, and a hash accepting exactly the password |
| UserModel.NormalizeEmailOrderIrrelevant | authntication-flow/lib/models/User.ts:35-40 | applying `trim` before or after `lowercase` gives the same address |
| UserModel.NormalizeEmailIdempotent | authntication-flow/lib/models/User.ts:31-41 | normalizing a stored email again changes nothing |
| UserModel.NormalizeAfterLower | authntication-flow/lib/models/User.ts:31-41 | lower-casing an address before the setters run changes nothing |
| UserModel.ToJson | authntication-flow/lib/models/User.ts:104-108 | `toJSON` is the modelled object without `password`, every other modelled field unchanged (`updatedAt` is not modelled) |
| UserModel.DefaultProjection | authntication-flow/lib/models/User.ts:42-79 | a default query returns exactly the modelled fields not declared `select: false` (`updatedAt` is not modelled) |
| UserModel.DefaultProjectionHidesSecrets | authntication-flow/lib/models/User.ts:56-79 | of the modelled fields, a default query shows only id, name, email, the verified flag, the access token and the creation time: never the password, the tokens or the code |
| UserDb.ByEmail | authntication-flow/app/api/auth/login/route.ts:21 | `findOne({email})` casts the filter value through the `lowercase` and `trim` setters, so it finds a record exactly when the normalized address is stored, and returns the record stored under it |
| UserDb.ByEmailAfterLower | authntication-flow/app/api/auth/resend-verification/route.ts:26 | lower-casing the address before `findOne` finds the same record |
| UserDb.KeyWithId | authntication-flow/app/api/user/profile/route.ts:23 | finds the record with that id, or reports that none has it |
| UserDb.VerificationHolder | authntication-flow/app/api/auth/verify-email/route.ts:23-25 | finds a record holding that verification token, or reports that none holds it |
| UserDb.ResetHolder | authntication-flow/app/api/auth/reset-password/route.ts:39-41 | finds a record holding that reset token, or reports that none holds it |
| UserDb.IdHolderUnique | authntication-flow/lib/models/User.ts:22-85 | with unique ids, the lookup by id returns the one record with that id |
| UserDb.VerificationHolderUnique | authntication-flow/app/api/auth/verify-email/route.ts:23-25 | with unique tokens, the lookup returns the one account holding the token |
| UserDb.ResetHolderUnique | authntication-flow/app/api/auth/reset-password/route.ts:39-41 | with unique tokens, the lookup returns the one account holding the reset token |
| UserDb.UserStore.FindByEmail | authntication-flow/app/api/auth/login/route.ts:21 | returns the record stored under the normalized address, if any |
| UserDb.UserStore.FindById | authntication-flow/app/api/auth/change-password/route.ts:40 | returns the record with that id, and nothing when no record has it |
| UserDb.UserStore.FindByVerificationToken | authntication-flow/app/api/auth/verify-email/route.ts:23-25 | returns the account holding the token, and nothing when none does |
| UserDb.UserStore.FindByResetToken | authntication-flow/app/api/auth/reset-password/route.ts:39-41 | returns the account holding the reset token, and nothing when none does |
| UserDb.UserStore.Save | authntication-flow/app/api/auth/login/route.ts:47-48 | `save()` replaces exactly that record and leaves every other record as it was |
| UserDb.UserStore.SaveWithNewPassword | authntication-flow/app/api/auth/reset-password/route.ts:60-63 | `save()` after assigning a password stores the record with the password hashed by the pre-save hook |
| UserDb.UserStore.UpdateNameById | authntication-flow/app/api/user/profile/route.ts:84-88 | `findByIdAndUpdate` renames the record with that id and returns it; with no such record nothing changes |
| UserDb.UserStore.Insert | authntication-flow/app/api/auth/signup/route.ts:31-38 | `create` adds exactly the new record |
| UserDb.UserStore.DeleteById | authntication-flow/app/api/auth/signup/route.ts:49 | `deleteOne({_id})` removes the record with that id, and changes nothing when there is none |
| Signup.Post | authntication-flow/app/api/auth/signup/route.ts:10-94 | replies and changes the collection exactly as the specification, keeping the collection invariant |
| Signup.Handle | authntication-flow/app/api/auth/signup/route.ts:10-68 | the source's steps (lookup, create, send, delete on failure) produce exactly the specified reply and collection |
| Signup.PreservesInvariant | authntication-flow/app/api/auth/signup/route.ts:31-38 | a signup keeps the collection invariant and never touches a verified account |
| Signup.CreatesOnlyOnSuccess | authntication-flow/app/api/auth/signup/route.ts:19-54 | the reply is 201 exactly when the body is valid, the normalized address is not stored, the record passes the schema and the email went out; every other outcome leaves the collection unchanged |
| Signup.RollbackRestores | authntication-flow/app/api/auth/signup/route.ts:47-54 | deleting the new record after a failed send restores the collection exactly |
| Signup.SuccessfulSignup | authntication-flow/app/api/auth/signup/route.ts:57-68 | success adds one record under the normalized email and replies 201 with `isVerified: false` |
| Signup.CreatedRecord | authntication-flow/app/api/auth/signup/route.ts:28-38 | the new record is unverified, has a 64-hex-digit token valid for 24 h, the normalized email, the trimmed name, a hash of the password, and no access token, reset token or code |
| Signup.ExistingEmailRejected | authntication-flow/app/api/auth/signup/route.ts:22-25 | an address whose normalized form is stored, in any case and with any surrounding spaces, gets 400 "Email already registered" before the validators run, and nothing changes |
| Signup.ValidationFailures | authntication-flow/app/api/auth/signup/route.ts:73-90 | a body rejected by its schema gives 422 with the field map; a record rejected by the model gives 400 with mongoose's message; nothing changes |
| Login.Post | authntication-flow/app/api/auth/login/route.ts:9-83 | replies and changes the collection exactly as the specification, keeping the collection invariant |
| Login.Handle | authntication-flow/app/api/auth/login/route.ts:9-62 | the source's steps produce exactly the specified reply and collection |
| Login.PreservesInvariant | authntication-flow/app/api/auth/login/route.ts:47-48 | a login keeps the collection invariant |
| Login.SucceedsIff | authntication-flow/app/api/auth/login/route.ts:23-42 | login succeeds exactly when an account is stored under the normalized address, is verified and the password matches its hash |
| Login.FailureReplies | authntication-flow/app/api/auth/login/route.ts:23-39 | an unknown address and a wrong password get the same 401; an unverified account gets 403 whatever the password; none changes anything |
| Login.OnlyAccessTokenChanges | authntication-flow/app/api/auth/login/route.ts:42-62 | a failure changes nothing; success changes only `accessToken`, to the issued JWT, which is returned as both `data.token` and `data.user.accessToken` |
| VerifyEmail.CheckToken | authntication-flow/app/api/auth/verify-email/route.ts:18-42 | the shared checks in order: a missing token, a token no account holds, an expired token, and otherwise the holder, unverified with a live token |
| VerifyEmail.Post | authntication-flow/app/api/auth/verify-email/route.ts:9-81 | replies and changes the collection exactly as the specification, keeping the collection invariant |
| VerifyEmail.HandlePost | authntication-flow/app/api/auth/verify-email/route.ts:9-71 | the source's steps produce exactly the specified reply and collection |
| VerifyEmail.Get | authntication-flow/app/api/auth/verify-email/route.ts:86-168 | the GET handler replies and changes the collection exactly as its specification, keeping the invariant |
| VerifyEmail.HandleGet | authntication-flow/app/api/auth/verify-email/route.ts:86-159 | the source's steps produce exactly the specified reply and collection |
| VerifyEmail.AcceptPreserves | authntication-flow/app/api/auth/verify-email/route.ts:45-48 | marking the holder verified and clearing its token keeps the invariant and unverifies nobody |
| VerifyEmail.PostPreservesInvariant | authntication-flow/app/api/auth/verify-email/route.ts:45-48 | a POST keeps the collection invariant and never unverifies an account |
| VerifyEmail.GetPreservesInvariant | authntication-flow/app/api/auth/verify-email/route.ts:125-128 | a GET keeps the collection invariant and never unverifies an account |
| VerifyEmail.AlreadyVerifiedUnreachable | authntication-flow/app/api/auth/verify-email/route.ts:39-42 | under the invariant the "already verified" branch of both handlers is never taken |
| VerifyEmail.MissingOrUnknownToken | authntication-flow/app/api/auth/verify-email/route.ts:18-29 | a missing token gets 400 "Verification token is required" and a token nobody holds gets 400 "Invalid verification token", from both handlers, with no change |
| VerifyEmail.ExpiredTokenKept | authntication-flow/app/api/auth/verify-email/route.ts:31-37 | an expired token gets 400 and the record is left as it was, token included |
| VerifyEmail.SuccessfulVerification | authntication-flow/app/api/auth/verify-email/route.ts:44-71 | success sets `isVerified`, clears the token and its expiry, changes nothing else, and returns a JWT for the account |
| VerifyEmail.TokenIsSingleUse | authntication-flow/app/api/auth/verify-email/route.ts:23-29 | after a successful verification the same token finds no account and gets "Invalid verification token" |
| VerifyEmail.GetAgreesWithPost | authntication-flow/app/api/auth/verify-email/route.ts:86-166 | GET changes the collection exactly as POST does, succeeds exactly when POST does (with the redirect page), and otherwise answers with POST's JSON reply |
| SendOtp.OtpValue | authntication-flow/app/api/auth/send-otp/route.ts:13 | the drawn number is between 1000 and 9999 |
| SendOtp.DecimalString | authntication-flow/app/api/auth/send-otp/route.ts:13 | `toString()` of a number is a non-empty run of decimal digits, its last digit the number mod 10 |
| SendOtp.DecimalRoundTrip | authntication-flow/app/api/auth/send-otp/route.ts:13 | reading the digits back gives the number |
| SendOtp.FourDigitNumbers | authntication-flow/app/api/auth/send-otp/route.ts:12-14 | numbers from 1000 to 9999 print as exactly four digits without a leading zero |
| SendOtp.OtpShape | authntication-flow/app/api/auth/send-otp/route.ts:12-14 | every code is four decimal digits without a leading zero and denotes the number drawn |
| SendOtp.OtpCoversRange | authntication-flow/app/api/auth/send-otp/route.ts:13 | every code from 1000 to 9999 can be drawn |
| SendOtp.Post | authntication-flow/app/api/auth/send-otp/route.ts:16-101 | replies and changes the collection exactly as the specification, keeping the collection invariant |
| SendOtp.Handle | authntication-flow/app/api/auth/send-otp/route.ts:16-81 | the source's steps produce exactly the specified reply and collection: save the code, then clear it and save again when the email fails |
| SendOtp.PreservesInvariant | authntication-flow/app/api/auth/send-otp/route.ts:39-58 | keeps the invariant, in particular that a code is stored only on a verified account |
| SendOtp.IssuesCode | authntication-flow/app/api/auth/send-otp/route.ts:46-81 | "OTP sent" is replied exactly when the account exists, is verified and the email went out; the account then holds the drawn code expiring at now + 600000 ms and nothing else changes |
| SendOtp.FailedEmailClearsCode | authntication-flow/app/api/auth/send-otp/route.ts:63-75 | a failed send replies 500 and leaves the account with no code at all, even one issued earlier |
| SendOtp.NoCodeWithoutVerifiedAccount | authntication-flow/app/api/auth/send-otp/route.ts:30-44 | an unknown address gets the generic 200 and an unverified account gets 403, both without any change |
| VerifyOtp.SchemaAcceptsIff | authntication-flow/app/api/auth/verify-otp/route.ts:9-12 | the body is accepted exactly when it is an object whose email is a string passing the email test and whose otp is four decimal digits |
| VerifyOtp.StringFieldErrors | authntication-flow/app/api/auth/verify-otp/route.ts:9-12 | for string fields the error map holds "Invalid email address" for a bad email and, for the otp, the digits message when it is not all digits, else the length message |
| VerifyOtp.ShapeErrors | authntication-flow/app/api/auth/verify-otp/route.ts:9-12 | an absent otp is reported as "Required"; a body that is not an object is reported under the key "undefined" |
| VerifyOtp.Post | authntication-flow/app/api/auth/verify-otp/route.ts:14-113 | replies and changes the collection exactly as the specification, keeping the collection invariant |
| VerifyOtp.Handle | authntication-flow/app/api/auth/verify-otp/route.ts:14-93 | the source's steps produce exactly the specified reply and collection |
| VerifyOtp.PreservesInvariant | authntication-flow/app/api/auth/verify-otp/route.ts:51-77 | keeps the collection invariant and unverifies nobody |
| VerifyOtp.SucceedsIff | authntication-flow/app/api/auth/verify-otp/route.ts:28-77 | success exactly when the body is valid, the account exists, holds this code with an expiry, and now is not after the expiry |
| VerifyOtp.FailureReplies | authntication-flow/app/api/auth/verify-otp/route.ts:28-40 | an unknown address gets 401 "Invalid email or OTP"; an account without a code or expiry gets 400 "OTP has expired"; neither changes anything |
| VerifyOtp.SuccessfulVerification | authntication-flow/app/api/auth/verify-otp/route.ts:66-93 | success clears the code and its expiry, sets `accessToken` to the issued JWT, changes nothing else, and returns the account's public fields with that token |
| VerifyOtp.ExpiryCheckedFirst | authntication-flow/app/api/auth/verify-otp/route.ts:51-59 | after the expiry, whatever code is sent, the code is cleared and the reply is 400 "OTP has expired" |
| VerifyOtp.WrongCodeKeepsCode | authntication-flow/app/api/auth/verify-otp/route.ts:62-64 | a wrong code within the window gets 401 and leaves the stored code in place |
| VerifyOtp.CodeIsSingleUse | authntication-flow/app/api/auth/verify-otp/route.ts:37-40 | after a successful verification, repeating it gets 400 "OTP has expired" and changes nothing |
| ForgotPassword.Post | authntication-flow/app/api/auth/forgot-password/route.ts:10-84 | replies and changes the collection exactly as the specification, keeping the collection invariant |
| ForgotPassword.Handle | authntication-flow/app/api/auth/forgot-password/route.ts:10-63 | the source's steps produce exactly the specified reply and collection: save the token, then clear it and save again when the email fails |
| ForgotPassword.PreservesInvariant | authntication-flow/app/api/auth/forgot-password/route.ts:33-57 | keeps the collection invariant and unverifies nobody |
| ForgotPassword.SameReplyEitherWay | authntication-flow/app/api/auth/forgot-password/route.ts:24-63 | known and unknown addresses get the same 200 reply. An unknown one changes nothing. A known one, verified or not, gets a new reset token and a 24 h expiry, and no other field changes |
| ForgotPassword.FailedEmailClearsToken | authntication-flow/app/api/auth/forgot-password/route.ts:47-57 | a failed send replies 500 and leaves the account with no reset token |
| ForgotPassword.NewTokenRevokesOld | authntication-flow/app/api/auth/forgot-password/route.ts:33-38 | after a new request the account's previous reset token no longer finds any account |
| ResetPassword.SchemaAcceptsIff | authntication-flow/app/api/auth/reset-password/route.ts:10-25 | the body is accepted exactly when the token is non-empty, the new password has 8+ UTF-16 code units with an upper-case letter, a lower-case letter, a digit and a special character, and the confirmation equals it |
| ResetPassword.MismatchKeyedOnConfirm | authntication-flow/app/api/auth/reset-password/route.ts:22-25 | a confirmation that differs is reported under `confirmPassword` as "Passwords don't match" |
| ResetPassword.RefineSkippedOnTypeError | authntication-flow/app/api/auth/reset-password/route.ts:18-25 | with the confirmation absent, its entry is "Required", because the equality check does not run |
| ResetPassword.Post | authntication-flow/app/api/auth/reset-password/route.ts:27-91 | replies and changes the collection exactly as the specification, keeping the collection invariant |
| ResetPassword.Handle | authntication-flow/app/api/auth/reset-password/route.ts:27-70 | the source's steps produce exactly the specified reply and collection |
| ResetPassword.PreservesInvariant | authntication-flow/app/api/auth/reset-password/route.ts:48-63 | keeps the collection invariant and unverifies nobody |
| ResetPassword.ExpiredTokenCleared | authntication-flow/app/api/auth/reset-password/route.ts:47-56 | an expired reset token is cleared with its expiry and the reply is 400 "link has expired" |
| ResetPassword.SuccessfulReset | authntication-flow/app/api/auth/reset-password/route.ts:59-70 | success replaces the password by a hash accepting exactly the new one, clears the reset fields, leaves every other field (verified flag, code, access token) alone, and replies 200 with the email |
| ResetPassword.TokenIsSingleUse | authntication-flow/app/api/auth/reset-password/route.ts:39-63 | once a reset token has been used or cleared as expired, presenting it again gets 400 "Invalid or expired reset token" and changes nothing |
| ResendVerification.Post | authntication-flow/app/api/auth/resend-verification/route.ts:12-76 | replies and changes the collection exactly as the specification, keeping the collection invariant |
| ResendVerification.Handle | authntication-flow/app/api/auth/resend-verification/route.ts:12-66 | the source's steps produce exactly the specified reply and collection |
| ResendVerification.PreservesInvariant | authntication-flow/app/api/auth/resend-verification/route.ts:33-43 | keeps the collection invariant (a verified account never receives a token) and unverifies nobody |
| ResendVerification.LookupIgnoresCase | authntication-flow/app/api/auth/resend-verification/route.ts:26 | the address is lower-cased before the lookup, so its case does not matter |
| ResendVerification.RevealsAccountState | authntication-flow/app/api/auth/resend-verification/route.ts:21-35 | a missing or empty address gets 400, an unknown one 404 and a verified one 400, none with any change |
| ResendVerification.ReissueRevokesPrevious | authntication-flow/app/api/auth/resend-verification/route.ts:38-57 | the new token finds the account and the previous one finds nothing, with a 24 h expiry; a failed send replies 500 but keeps the new token |
| ChangePassword.Authorize | authntication-flow/app/api/auth/change-password/route.ts:15-31 | authorized exactly when the header has the "Bearer " prefix and its remainder verifies to a payload with a non-empty userId, which it returns; otherwise a 401 |
| ChangePassword.Post | authntication-flow/app/api/auth/change-password/route.ts:9-82 | replies and changes the collection exactly as the specification, keeping the collection invariant |
| ChangePassword.Handle | authntication-flow/app/api/auth/change-password/route.ts:9-61 | the source's steps produce exactly the specified reply and collection |
| ChangePassword.PreservesInvariant | authntication-flow/app/api/auth/change-password/route.ts:52-54 | keeps the collection invariant and unverifies nobody |
| ChangePassword.AuthorizedBeforeBody | authntication-flow/app/api/auth/change-password/route.ts:15-31 | a refused authorization gives the same 401 whatever the body, changes nothing, and a header without the prefix gets "Authorization token required" |
| ChangePassword.FailureReplies | authntication-flow/app/api/auth/change-password/route.ts:39-50 | once authorized, an unknown id gets 404 and a wrong current password 400, neither changing anything |
| ChangePassword.SucceedsIff | authntication-flow/app/api/auth/change-password/route.ts:15-61 | success exactly when the request is authorized, the account with that id exists, the current password matches and the new one passes the model's validator; being verified is not required |
| ChangePassword.OnlyPasswordChanges | authntication-flow/app/api/auth/change-password/route.ts:52-61 | a failure changes nothing; success changes only that account's password, to a hash accepting exactly the new one |
| Profile.Gate | authntication-flow/app/api/user/profile/route.ts:14-17 | the handler proceeds exactly when the result is valid with a non-empty userId; otherwise it returns `verifyAuth`'s own error reply |
| Profile.UpdateValidationError | authntication-flow/app/api/user/profile/route.ts:84-88 | a rejected update throws a ValidationError keyed on `name` |
| Profile.Get | authntication-flow/app/api/user/profile/route.ts:11-50 | GET changes nothing and replies as its specification |
| Profile.Put | authntication-flow/app/api/user/profile/route.ts:57-115 | PUT replies and changes the collection exactly as its specification, keeping the collection invariant |
| Profile.HandlePut | authntication-flow/app/api/user/profile/route.ts:57-105 | the source's steps after authentication produce exactly the specified reply and collection |
| Profile.PutPreservesInvariant | authntication-flow/app/api/user/profile/route.ts:72-92 | a rename keeps the collection invariant (the stored name still passes its validators) |
| Profile.AuthFailureFirst | authntication-flow/app/api/user/profile/route.ts:14-17 | a failed authentication gets `verifyAuth`'s 401, unchanged, from both GET and PUT, with no change |
| Profile.ProfileShowsPublicFieldsOnly | authntication-flow/app/api/user/profile/route.ts:30-40 | the profile holds only id, name, email and createdAt |
| Profile.GetFindsAccount | authntication-flow/app/api/user/profile/route.ts:22-40 | an authenticated GET returns the profile of the account with the token's id, or 404 when there is none |
| Profile.NameLengthChecked | authntication-flow/app/api/user/profile/route.ts:73-79 | a name shorter than 2 or longer than 50 UTF-16 code units gets 400 with the matching message and changes nothing |
| Profile.TrimmedNameRevalidated | authntication-flow/app/api/user/profile/route.ts:84-88 | a name that passes the length checks but is under 2 code units once trimmed is rejected by the update validator with 400 and changes nothing |
| Profile.PutUnknownAccount | authntication-flow/app/api/user/profile/route.ts:90-92 | an authenticated update for an id nobody has changes nothing and gets 404 when the name passes the checks |
| Profile.OnlyNameChanges | authntication-flow/app/api/user/profile/route.ts:72-105 | a failure changes nothing. Success changes only the name of the account with the token's id, to the trimmed name, or leaves it as it was when no name is sent. The reply shows the updated record |
| Lifecycle.VerifyThenLogin | authntication-flow/app/api/auth/login/route.ts:28-33 | an unverified account cannot log in, with any address that normalizes to its own; after verification with its token, the same password logs in |
| Lifecycle.SignupVerifyLogin | authntication-flow/app/api/auth/signup/route.ts:28-68 | after signup, login with the address as typed gets 403 until the emailed token is used; verifying within 24 h then lets the same address and password log in |
| Lifecycle.SendThenVerifyOtp | authntication-flow/app/api/auth/send-otp/route.ts:46-58 | the code sent by email logs in up to 10 minutes later, and after that it gets "OTP has expired" |
| Lifecycle.ForgotResetLogin | authntication-flow/app/api/auth/reset-password/route.ts:59-70 | a reset with the emailed token within 24 h succeeds; the new password then logs in and the old one no longer does |

## Where the code departs from its evident intent

The model follows the code in each case below.

- **Second verification.** Both verify-email handlers have an "already verified" branch
  (app/api/auth/verify-email/route.ts:39-42 and 116-122), so a second verification was meant to get that reply.
  But the token is cleared when it is first used (lines 45-48 and 125-128). A second attempt therefore finds no
  account and gets "Invalid verification token" (`VerifyEmail.TokenIsSingleUse`), and the "already verified"
  branch is unreachable (`VerifyEmail.AlreadyVerifiedUnreachable`).
- **Email-send failure.** send-otp (app/api/auth/send-otp/route.ts:65-69, "Clear OTP if email fails") and
  forgot-password (app/api/auth/forgot-password/route.ts:47-51, "Clear token if email fails") undo what they
  stored when the email fails. resend-verification has no such branch and keeps the new token after a failed
  send (`ResendVerification.ReissueRevokesPrevious`).
- **Expired tokens.** verify-otp (app/api/auth/verify-otp/route.ts:51-55, "Clear expired OTP") and reset-password
  (app/api/auth/reset-password/route.ts:47-51) clear a token they find expired. verify-email leaves an expired
  verification token in place (`VerifyEmail.ExpiredTokenKept`).
- **OTP attempts.** The code is cleared after a successful verification (app/api/auth/verify-otp/route.ts:66),
  but nothing limits failed attempts: a wrong code within the window leaves the code in place
  (`VerifyOtp.WrongCodeKeepsCode`).

## Left out

- Email delivery (nodemailer, lib/services/email.ts) is modelled only as the `emailSent` outcome. The welcome
  email's result is ignored, as in the code.
- Connection caching in lib/db/mongodb.ts is left out. A connection failure is the `connect` parameter.
- Requests are modelled one at a time. The unlocked read-modify-write races between concurrent requests are not
  modelled.
- Outcome (Signup.Outcome), and Handle (Signup.Handle): two concurrent signups for the same address can both pass
  the lookup; the unique index on `email` then makes the second `create` throw a duplicate-key error, which the
  catch clause answers with 400 "Email already registered". One request at a time the lookup already refuses
  such an address, so the model has no duplicate-key branch.
- The pages, components and client-side token handling under app/ and components/ are not modelled, nor is
  logging.
- The HTML text of the verify-email GET pages is not modelled, only which page and status is sent.
- bcrypt is modelled as an injective `Bcrypt(salt, secret)` value whose compare is equality of the secret.
  Real hashing, cost factors and the 72-byte limit are not modelled.
- `UserModel.HashText` is an opaque stand-in for the 60-character hash string.
- `crypto.randomBytes` and `bcrypt.genSalt` are parameters.
- `jsonwebtoken`'s `sign`, `verify` and `decode` are parameters. Signature checking and the parsing of the "7d"
  lifetime are not modelled.
- `Math.random()` is an exact real in [0, 1). Floating-point rounding of `1000 + r * 9000` is not modelled.
- Dates are integers in milliseconds. Invalid Date values and time zones are not modelled.
- The new ids mongoose assigns and the new random tokens are assumed fresh: `Signup.FreshIdentity`,
  `UserDb.FreshVerificationToken`, `UserDb.FreshResetToken`. They stand in for 96-bit ObjectIds and 256-bit
  random tokens.
- The register, login, OTP, forgot-password and change-password schemas live in a validation module that is not
  part of this model. Their output is taken as given data, or a thrown ZodError. Lookups by email normalize the
  address through the schema's setters, as mongoose does for a query filter on `email`.
- The email test `z.string().email()` in verify-otp is the parameter `isEmail`.
- Trimming and lower-casing cover ASCII whitespace and letters only. Unicode case mapping and the full
  JavaScript whitespace set are not modelled.
- A failing `save()` is not modelled, except for a new password that fails its validator. A malformed id, which
  would make mongoose throw a CastError, is modelled as an id that matches no record.
- A truthy non-string `email` (resend-verification) or `name` (profile PUT) in the body is not modelled. In the
  code that raises a TypeError or makes a length check on a non-string.
- When the profile handlers' gate fails without an error object (a valid token with an empty userId), the code
  returns `undefined` and the framework sends its own 500. The model returns `NoReply` for it.
- The `try`/`catch` in `verifyAuth` is not modelled. Once `verifyToken` cannot throw, the catch is unreachable.
- Post (VerifyEmail.Post), and PostOutcome (VerifyEmail.PostOutcome): the POST body's `token` is modelled as a
  string or absent. The code reads it from unvalidated JSON and passes it to `findOne` unchanged. An object such
  as `{"$ne": null}` would become a query operator and match any account holding a token. An array would become
  `$in`, and a number would be cast to a string. These bodies are not modelled.
- HandlePost (VerifyEmail.HandlePost): for the same reason, it handles only string or absent tokens.
- ToJson (UserModel.ToJson): `timestamps: true` (lib/models/User.ts:82) also adds `updatedAt`, set on every
  save. The record has no `updatedAt` field, so the `toJSON` output the model states lacks it.
- DefaultProjection (UserModel.DefaultProjection): for the same reason, the projection it states lacks
  `updatedAt`, which a default query also returns.
- DefaultProjectionHidesSecrets (UserModel.DefaultProjectionHidesSecrets): the field list it states omits
  `updatedAt`, which is not a secret.

/** `GET` and `PUT /api/user/profile` (app/api/user/profile/route.ts): read the
    signed-in account's public fields, and change its name. */
module Profile {
  import opened Common
  import opened Responses
  import opened ErrorHandler
  import Jwt
  import Auth
  import opened UserModel
  import opened UserDb

  const USER_NOT_FOUND: string := "User not found"
  const RETRIEVED: string := "Profile retrieved successfully"
  const UPDATED: string := "Profile updated successfully"

  /** `data` of both replies: the public fields only. */
  function ProfileData(u: UserRecord): Json {
    JObj(map["user" := JObj(map["id" := JStr(u.id), "name" := JStr(u.name), "email" := JStr(u.email),
                                "createdAt" := JNum(u.createdAt)])])
  }

  /** The gate both handlers open with: `auth.error` when the result is invalid or has no user id. For a valid
      result with an empty user id that is `undefined`, and the handler returns no response. */
  function Gate(auth: Auth.AuthResult): (r: Option<Reply>)
    ensures r.None? <==> auth.isValid && Truthy(auth.userId)
    ensures r.Some? && auth.error.Some? ==> r.value == Api(auth.error.value)
  {
    if !auth.isValid || !Truthy(auth.userId) then Some(if auth.error.Some? then Api(auth.error.value) else NoReply)
    else None
  }

  /** What `findByIdAndUpdate` throws when the update validators reject the name: a ValidationError
      without a model name. */
  function UpdateValidationError(message: string): (e: Thrown)
    ensures e.JsError? && e.name == "ValidationError" && e.fieldErrors == Some(map["name" := message])
  {
    JsError("ValidationError", "Validation failed: name: " + message, None, None, Some(map["name" := message]))
  }

  /** `GET`: the token comes from the header or the cookie, then the database is connected. */
  ghost function GetOutcome(users: Users, authHeader: Option<string>, cookie: Option<string>, verify: Jwt.Verifier,
                            connect: Option<Thrown>): Step<Reply> {
    var auth := Auth.VerifyAuth(authHeader, cookie, verify);
    if Gate(auth).Some? then Step(Gate(auth).value, users)
    else if connect.Some? then Step(Api(Caught(PlainCatch, connect.value)), users)
    else match KeyWithId(users, auth.userId.value)
      case None => Step(Api(NotFoundResponse(USER_NOT_FOUND)), users)
      case Some(k) => Step(Api(SuccessResponse(ProfileData(users[k]), RETRIEVED)), users)
  }

  /** The update `PUT` sends for a body whose `name` is `name` (None when absent or falsy): the name after
      the schema's `trim` setter, and only when the handler's own length checks let it through. */
  function NameUpdate(name: Option<string>): Option<string> {
    if Truthy(name) then Some(Trim(name.value)) else None
  }

  /** `PUT` once `verifyAuth` has produced `auth`. `body` is the `name` property of the parsed body (None when
      absent or null), or what `request.json()` threw. */
  ghost function PutAfterAuth(users: Users, auth: Auth.AuthResult, connect: Option<Thrown>, body: Parsed<Option<string>>): Step<Reply> {
    if Gate(auth).Some? then Step(Gate(auth).value, users)
    else if connect.Some? then Step(Api(Caught(PlainCatch, connect.value)), users)
    else match body
      case Threw(e) => Step(Api(Caught(PlainCatch, e)), users)
      case Parsed(name) =>
        if Truthy(name) && JsLength(name.value) < NAME_MIN then Step(Api(ErrorResponse(NAME_TOO_SHORT, 400)), users)
        else if Truthy(name) && JsLength(name.value) > NAME_MAX then Step(Api(ErrorResponse(NAME_TOO_LONG, 400)), users)
        else
          var update := NameUpdate(name);
          if update.Some? && NameError(update.value).Some? then
            Step(Api(Caught(PlainCatch, UpdateValidationError(NameError(update.value).value))), users)
          else match KeyWithId(users, auth.userId.value)
            case None => Step(Api(NotFoundResponse(USER_NOT_FOUND)), users)
            case Some(k) =>
              var u := Renamed(users[k], update);
              Step(Api(SuccessResponse(ProfileData(u), UPDATED)), users[k := u])
  }

  /** `PUT`: the token comes from the header or the cookie, then the database is connected and the body read. */
  ghost function PutOutcome(users: Users, authHeader: Option<string>, cookie: Option<string>, verify: Jwt.Verifier,
                            connect: Option<Thrown>, body: Parsed<Option<string>>): Step<Reply> {
    PutAfterAuth(users, Auth.VerifyAuth(authHeader, cookie, verify), connect, body)
  }

  method Get(store: UserStore, authHeader: Option<string>, cookie: Option<string>, verify: Jwt.Verifier,
             connect: Option<Thrown>) returns (r: Reply)
    requires UniqueIds(store.users)
    ensures var step := GetOutcome(store.users, authHeader, cookie, verify, connect); r == step.reply
  {
    var auth := Auth.VerifyAuth(authHeader, cookie, verify);
    var refused := Gate(auth);
    if refused.Some? {
      return refused.value;
    }
    if connect.Some? {
      var caught := CatchRoute(PlainCatch, connect.value);
      return Api(caught);
    }
    var found := store.FindById(auth.userId.value);
    if found.None? {
      return Api(NotFoundResponse(USER_NOT_FOUND));
    }
    r := Api(SuccessResponse(ProfileData(found.value), RETRIEVED));
  }

  method Put(store: UserStore, authHeader: Option<string>, cookie: Option<string>, verify: Jwt.Verifier,
             connect: Option<Thrown>, body: Parsed<Option<string>>) returns (r: Reply)
    requires store.Valid()
    modifies store
    ensures var step := PutOutcome(old(store.users), authHeader, cookie, verify, connect, body);
      r == step.reply && store.users == step.users
    ensures store.Valid()
  {
    var auth := Auth.VerifyAuth(authHeader, cookie, verify);
    PutPreservesInvariant(store.users, auth, connect, body);
    r := HandlePut(store, auth, connect, body);
  }

  /** The `PUT` handler's steps, in the source's order: the update validators run before the record is looked up. */
  method HandlePut(store: UserStore, auth: Auth.AuthResult, connect: Option<Thrown>, body: Parsed<Option<string>>)
    returns (r: Reply)
    requires UniqueIds(store.users)
    modifies store
    ensures var step := PutAfterAuth(old(store.users), auth, connect, body); r == step.reply && store.users == step.users
  {
    var refused := Gate(auth);
    if refused.Some? {
      return refused.value;
    }
    if connect.Some? {
      var caught := CatchRoute(PlainCatch, connect.value);
      return Api(caught);
    }
    if body.Threw? {
      var caught := CatchRoute(PlainCatch, body.e);
      return Api(caught);
    }
    var name := body.data;
    var update: Option<string> := None;
    if Truthy(name) {
      if JsLength(name.value) < NAME_MIN {
        return Api(ErrorResponse(NAME_TOO_SHORT, 400));
      }
      if JsLength(name.value) > NAME_MAX {
        return Api(ErrorResponse(NAME_TOO_LONG, 400));
      }
      update := Some(Trim(name.value));
      var invalid := NameError(update.value);
      if invalid.Some? {
        var caught := CatchRoute(PlainCatch, UpdateValidationError(invalid.value));
        return Api(caught);
      }
    }
    var updated := store.UpdateNameById(auth.userId.value, update);
    if updated.None? {
      return Api(NotFoundResponse(USER_NOT_FOUND));
    }
    r := Api(SuccessResponse(ProfileData(updated.value), UPDATED));
  }

  lemma PutPreservesInvariant(users: Users, auth: Auth.AuthResult, connect: Option<Thrown>, body: Parsed<Option<string>>)
    requires StoreInvariant(users)
    ensures var after := PutAfterAuth(users, auth, connect, body).users;
      StoreInvariant(after) && NeverUnverifies(users, after)
  {
    if Gate(auth).None? && connect.None? && body.Parsed? {
      var k := KeyWithId(users, auth.userId.value);
      var update := NameUpdate(body.data);
      if k.Some? && (update.None? || NameError(update.value).None?) {
        RenamePreserves(users, k.value, update);
      }
    }
  }

  /** A failed authentication returns `verifyAuth`'s reply unchanged (or none at all), before the
      database is touched, in both handlers. */
  lemma AuthFailureFirst(users: Users, authHeader: Option<string>, cookie: Option<string>, verify: Jwt.Verifier,
                         connect: Option<Thrown>, body: Parsed<Option<string>>)
    requires !Auth.VerifyAuth(authHeader, cookie, verify).isValid
    ensures var reply := Api(Auth.VerifyAuth(authHeader, cookie, verify).error.value);
      && GetOutcome(users, authHeader, cookie, verify, connect) == Step(reply, users)
      && PutOutcome(users, authHeader, cookie, verify, connect, body) == Step(reply, users)
      && reply.api.status == 401
  {
  }

  /** A profile shows the id, name, email and creation time, and nothing else: no password hash or token. */
  lemma ProfileShowsPublicFieldsOnly(u: UserRecord)
    ensures ProfileData(u).fields.Keys == {"user"}
    ensures ProfileData(u).fields["user"].fields.Keys == {"id", "name", "email", "createdAt"}
  {
  }

  /** `GET` finds the account the token names, or answers 404. */
  lemma GetFindsAccount(users: Users, authHeader: Option<string>, cookie: Option<string>, verify: Jwt.Verifier, e: string)
    requires UniqueIds(users)
    requires Gate(Auth.VerifyAuth(authHeader, cookie, verify)).None?
    ensures var id := Auth.VerifyAuth(authHeader, cookie, verify).userId.value;
      GetOutcome(users, authHeader, cookie, verify, None).reply ==
        if e in users && users[e].id == id then Api(SuccessResponse(ProfileData(users[e]), RETRIEVED))
        else if KeyWithId(users, id).None? then Api(NotFoundResponse(USER_NOT_FOUND))
        else GetOutcome(users, authHeader, cookie, verify, None).reply
  {
    var id := Auth.VerifyAuth(authHeader, cookie, verify).userId.value;
    if e in users && users[e].id == id {
      IdHolderUnique(users, id, e);
    }
  }

  /** The handler's length checks are on the name as sent, in UTF-16 code units; a name outside 2..50 is refused
      with 400 and nothing changes. */
  lemma NameLengthChecked(users: Users, authHeader: Option<string>, cookie: Option<string>, verify: Jwt.Verifier, name: string)
    requires Gate(Auth.VerifyAuth(authHeader, cookie, verify)).None? && name != ""
    requires JsLength(name) < 2 || JsLength(name) > 50
    ensures PutOutcome(users, authHeader, cookie, verify, None, Parsed(Some(name))).users == users
    ensures PutOutcome(users, authHeader, cookie, verify, None, Parsed(Some(name))).reply ==
      Api(ErrorResponse(if JsLength(name) < 2 then "Name must be at least 2 characters long" else "Name must not exceed 50 characters", 400))
  {
  }

  /** The model then trims the name and validates it again: a name that passes the handler's checks only thanks
      to surrounding spaces is refused by the update validators, with their message. */
  lemma TrimmedNameRevalidated(users: Users, authHeader: Option<string>, cookie: Option<string>, verify: Jwt.Verifier, name: string)
    requires Gate(Auth.VerifyAuth(authHeader, cookie, verify)).None? && 2 <= JsLength(name) <= 50
    requires JsLength(Trim(name)) < 2
    ensures PutOutcome(users, authHeader, cookie, verify, None, Parsed(Some(name))).users == users
    ensures PutOutcome(users, authHeader, cookie, verify, None, Parsed(Some(name))).reply.api ==
      ErrorResponse("Validation failed: name: " + NameError(Trim(name)).value, 400)
  {
    var t := Trim(name);
    assert NameError(t).Some?;
    var e := UpdateValidationError(NameError(t).value);
    assert Caught(PlainCatch, e) == ErrorResponse("Validation failed: name: " + NameError(t).value, 400);
    assert PutAfterAuth(users, Auth.VerifyAuth(authHeader, cookie, verify), None, Parsed(Some(name))) ==
      Step(Api(Caught(PlainCatch, e)), users) by {
      assert Truthy(Some(name)) && NameUpdate(Some(name)) == Some(t);
    }
  }

  /** A `PUT` changes at most the name of the signed-in account, to the trimmed name sent (no name sent: no
      change), and replies with the record as updated; other body properties are never read. */
  lemma OnlyNameChanges(users: Users, auth: Auth.AuthResult, connect: Option<Thrown>, body: Parsed<Option<string>>)
    requires auth.error.Some? ==> !auth.error.value.success
    ensures var step := PutAfterAuth(users, auth, connect, body);
      step.reply.Api? && step.reply.api.success ==>
        Gate(auth).None? && connect.None? && body.Parsed? && KeyWithId(users, auth.userId.value).Some?
    ensures var step := PutAfterAuth(users, auth, connect, body);
      step.reply.Api? && step.reply.api.success ==>
        var k := KeyWithId(users, auth.userId.value).value;
        var u := users[k].(name := if Truthy(body.data) then Trim(body.data.value) else users[k].name);
        && step.users == users[k := u]
        && step.reply.api.data == Some(ProfileData(u))
    ensures var step := PutAfterAuth(users, auth, connect, body);
      !(step.reply.Api? && step.reply.api.success) ==> step.users == users
  {
    var step := PutAfterAuth(users, auth, connect, body);
    if Gate(auth).Some? {
      assert step == Step(Gate(auth).value, users);
    } else if connect.Some? {
      CaughtIsFailure(PlainCatch, connect.value);
      assert step == Step(Api(Caught(PlainCatch, connect.value)), users);
    } else if body.Threw? {
      CaughtIsFailure(PlainCatch, body.e);
      assert step == Step(Api(Caught(PlainCatch, body.e)), users);
    } else {
      var name := body.data;
      var update := NameUpdate(name);
      if Truthy(name) && (JsLength(name.value) < NAME_MIN || JsLength(name.value) > NAME_MAX) {
        assert step.users == users && !step.reply.api.success;
      } else if update.Some? && NameError(update.value).Some? {
        var e := UpdateValidationError(NameError(update.value).value);
        CaughtIsFailure(PlainCatch, e);
        assert step == Step(Api(Caught(PlainCatch, e)), users);
      } else if KeyWithId(users, auth.userId.value).None? {
        assert step == Step(Api(NotFoundResponse(USER_NOT_FOUND)), users);
      } else {
        var k := KeyWithId(users, auth.userId.value).value;
        assert step == Step(Api(SuccessResponse(ProfileData(Renamed(users[k], update)), UPDATED)), users[k := Renamed(users[k], update)]);
      }
    }
  }

  /** An authenticated update for an id no account has changes nothing; when the name passes every check
      (or none is sent) the reply is 404. */
  lemma PutUnknownAccount(users: Users, auth: Auth.AuthResult, name: Option<string>)
    requires Gate(auth).None? && KeyWithId(users, auth.userId.value).None?
    ensures PutAfterAuth(users, auth, None, Parsed(name)).users == users
    ensures !Truthy(name) || (2 <= JsLength(name.value) <= 50 && NameError(Trim(name.value)).None?) ==>
      PutAfterAuth(users, auth, None, Parsed(name)).reply == Api(NotFoundResponse(USER_NOT_FOUND))
  {
  }
}

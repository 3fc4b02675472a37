/** The `users` collection as the route handlers use it through mongoose:
    records keyed by their (unique) stored email, looked up by email, by id or
    by a single-use token, then saved, created or deleted one at a time. */
module UserDb {
  import opened Common
  import opened Token
  import opened UserModel
  import EmailPattern

  type Users = map<string, UserRecord>

  /** What one request does: the reply it sends and the collection it leaves behind. */
  datatype Step<R> = Step(reply: R, users: Users)

  /** A verification or reset token as `generateSecureToken` writes it: 64 lower-case hex digits. */
  predicate IsTokenText(t: string) {
    |t| == 64 && forall i :: 0 <= i < |t| ==> IsHexChar(t[i])
  }

  /** The shape every stored record keeps. */
  predicate RecordInvariant(u: UserRecord) {
    // what the schema's validators accept
    && NameError(u.name).None?
    && EmailError(u.email).None?
    // a verified account holds no verification token; a one-time code is issued only to verified accounts
    && (u.isVerified ==> u.verificationToken.None?)
    && (u.otpCode.Some? ==> u.isVerified)
    // tokens and codes are stored together with their expiry
    && (u.verificationToken.Some? <==> u.verificationTokenExpiry.Some?)
    && (u.resetPasswordToken.Some? <==> u.resetPasswordTokenExpiry.Some?)
    && (u.otpCode.Some? <==> u.otpExpiry.Some?)
    && (u.verificationToken.Some? ==> IsTokenText(u.verificationToken.value))
    && (u.resetPasswordToken.Some? ==> IsTokenText(u.resetPasswordToken.value))
    && (u.otpCode.Some? ==> |u.otpCode.value| == 4 && DigitsOnly(u.otpCode.value))
  }

  ghost predicate KeysAreEmails(users: Users) {
    forall e :: e in users ==> users[e].email == e
  }

  ghost predicate UniqueIds(users: Users) {
    forall e1, e2 :: e1 in users && e2 in users && users[e1].id == users[e2].id ==> e1 == e2
  }

  ghost predicate UniqueVerificationTokens(users: Users) {
    forall e1, e2 ::
      (e1 in users && e2 in users && users[e1].verificationToken.Some? &&
       users[e1].verificationToken == users[e2].verificationToken) ==> e1 == e2
  }

  ghost predicate UniqueResetTokens(users: Users) {
    forall e1, e2 ::
      (e1 in users && e2 in users && users[e1].resetPasswordToken.Some? &&
       users[e1].resetPasswordToken == users[e2].resetPasswordToken) ==> e1 == e2
  }

  /** The collection invariant every handler preserves. */
  ghost predicate StoreInvariant(users: Users) {
    && KeysAreEmails(users)
    && UniqueIds(users)
    && UniqueVerificationTokens(users)
    && UniqueResetTokens(users)
    && (forall e {:trigger RecordInvariant(users[e])} :: e in users ==> RecordInvariant(users[e]))
  }

  /** Each stored record keeps the per-record invariant (the store invariant states it only for the
      records a proof names this way). */
  lemma StoredRecord(users: Users, k: string)
    requires StoreInvariant(users) && k in users
    ensures RecordInvariant(users[k])
  {
  }

  /** A request never turns a verified account back into an unverified one, and never removes it. */
  ghost predicate NeverUnverifies(before: Users, after: Users) {
    forall e :: e in before && before[e].isVerified ==> e in after && after[e].isVerified
  }

  // ----- lookups -----

  /** `User.findOne({ email })`. Mongoose casts the filter value through the path's
      `lowercase` and `trim` setters, so the stored key looked for is the normalized address. */
  function ByEmail(users: Users, email: string): (u: Option<UserRecord>)
    ensures u.Some? <==> NormalizeEmail(email) in users
    ensures u.Some? ==> u.value == users[NormalizeEmail(email)]
  {
    var key := NormalizeEmail(email);
    if key in users then Some(users[key]) else None
  }

  /** Lower-casing an address before looking it up finds the same record. */
  lemma ByEmailAfterLower(users: Users, email: string)
    ensures ByEmail(users, ToLower(email)) == ByEmail(users, email)
  {
    NormalizeAfterLower(email);
  }

  /** The key of `User.findById(id)`'s record, if any. */
  ghost function KeyWithId(users: Users, id: string): (k: Option<string>)
    ensures k.Some? ==> k.value in users && users[k.value].id == id
    ensures k.None? <==> forall e :: e in users ==> users[e].id != id
  {
    if exists e :: e in users && users[e].id == id then
      Some(var e :| e in users && users[e].id == id; e)
    else None
  }

  /** The key of the record `findOne({ verificationToken })` returns, if any. */
  ghost function VerificationHolder(users: Users, token: string): (k: Option<string>)
    ensures k.Some? ==> k.value in users && users[k.value].verificationToken == Some(token)
    ensures k.None? <==> forall e :: e in users ==> users[e].verificationToken != Some(token)
  {
    if exists e :: e in users && users[e].verificationToken == Some(token) then
      Some(var e :| e in users && users[e].verificationToken == Some(token); e)
    else None
  }

  /** The key of the record `findOne({ resetPasswordToken })` returns, if any. */
  ghost function ResetHolder(users: Users, token: string): (k: Option<string>)
    ensures k.Some? ==> k.value in users && users[k.value].resetPasswordToken == Some(token)
    ensures k.None? <==> forall e :: e in users ==> users[e].resetPasswordToken != Some(token)
  {
    if exists e :: e in users && users[e].resetPasswordToken == Some(token) then
      Some(var e :| e in users && users[e].resetPasswordToken == Some(token); e)
    else None
  }

  /** With unique ids, `findById` names the only record that matches. */
  lemma IdHolderUnique(users: Users, id: string, e: string)
    requires UniqueIds(users) && e in users && users[e].id == id
    ensures KeyWithId(users, id) == Some(e)
  {
    var k := KeyWithId(users, id).value;
    assert users[k].id == users[e].id;
  }

  /** With unique verification tokens, the token lookup names the only record that matches. */
  lemma VerificationHolderUnique(users: Users, token: string, e: string)
    requires UniqueVerificationTokens(users) && e in users && users[e].verificationToken == Some(token)
    ensures VerificationHolder(users, token) == Some(e)
  {
    var k := VerificationHolder(users, token).value;
    assert users[k].verificationToken == users[e].verificationToken;
  }

  /** With unique reset tokens, the token lookup names the only record that matches. */
  lemma ResetHolderUnique(users: Users, token: string, e: string)
    requires UniqueResetTokens(users) && e in users && users[e].resetPasswordToken == Some(token)
    ensures ResetHolder(users, token) == Some(e)
  {
    var k := ResetHolder(users, token).value;
    assert users[k].resetPasswordToken == users[e].resetPasswordToken;
  }

  /** Replacing one record with one of the same email and id, whose tokens no other record
      holds and whose shape is right, keeps the invariant; when the replacement is verified
      wherever the old record was, no account is unverified either. */
  lemma {:induction false} ReplacePreserves(users: Users, u: UserRecord)
    requires StoreInvariant(users) && u.email in users && users[u.email].id == u.id
    requires RecordInvariant(u)
    requires u.verificationToken.Some? ==> forall e :: e in users && e != u.email ==> users[e].verificationToken != u.verificationToken
    requires u.resetPasswordToken.Some? ==> forall e :: e in users && e != u.email ==> users[e].resetPasswordToken != u.resetPasswordToken
    ensures StoreInvariant(users[u.email := u])
    ensures (users[u.email].isVerified ==> u.isVerified) ==> NeverUnverifies(users, users[u.email := u])
  {
    ReplaceKeepsIds(users, u);
    ReplaceKeepsVerificationTokens(users, u);
    ReplaceKeepsResetTokens(users, u);
  }

  lemma ReplaceKeepsIds(users: Users, u: UserRecord)
    requires UniqueIds(users) && u.email in users && users[u.email].id == u.id
    ensures UniqueIds(users[u.email := u])
  {
    var after := users[u.email := u];
    forall e1, e2 | e1 in after && e2 in after && after[e1].id == after[e2].id ensures e1 == e2 {
      assert after[e1].id == users[e1].id && after[e2].id == users[e2].id;
    }
  }

  lemma ReplaceKeepsVerificationTokens(users: Users, u: UserRecord)
    requires UniqueVerificationTokens(users)
    requires u.verificationToken.Some? ==> forall e :: e in users && e != u.email ==> users[e].verificationToken != u.verificationToken
    ensures UniqueVerificationTokens(users[u.email := u])
  {
    var after := users[u.email := u];
    forall e1, e2 | e1 in after && e2 in after && after[e1].verificationToken.Some? &&
                    after[e1].verificationToken == after[e2].verificationToken
      ensures e1 == e2
    {
      if e1 != u.email && e2 != u.email {
        assert users[e1].verificationToken == users[e2].verificationToken;
      }
    }
  }

  lemma ReplaceKeepsResetTokens(users: Users, u: UserRecord)
    requires UniqueResetTokens(users)
    requires u.resetPasswordToken.Some? ==> forall e :: e in users && e != u.email ==> users[e].resetPasswordToken != u.resetPasswordToken
    ensures UniqueResetTokens(users[u.email := u])
  {
    var after := users[u.email := u];
    forall e1, e2 | e1 in after && e2 in after && after[e1].resetPasswordToken.Some? &&
                    after[e1].resetPasswordToken == after[e2].resetPasswordToken
      ensures e1 == e2
    {
      if e1 != u.email && e2 != u.email {
        assert users[e1].resetPasswordToken == users[e2].resetPasswordToken;
      }
    }
  }

  /** Adding a record under a new email, with a new id and a token no record holds, keeps the invariant
      and leaves every existing account as it was. */
  lemma {:induction false} InsertPreserves(users: Users, u: UserRecord)
    requires StoreInvariant(users) && u.email !in users
    requires RecordInvariant(u) && u.resetPasswordToken.None?
    requires forall e :: e in users ==> users[e].id != u.id
    requires u.verificationToken.Some? ==> forall e :: e in users ==> users[e].verificationToken != u.verificationToken
    ensures StoreInvariant(users[u.email := u])
    ensures NeverUnverifies(users, users[u.email := u])
  {
  }

  /** A record after an update that sets at most its name. */
  function Renamed(u: UserRecord, name: Option<string>): UserRecord {
    if name.Some? then u.(name := name.value) else u
  }

  /** Renaming a record to a name the validators accept keeps the invariant. */
  lemma RenamePreserves(users: Users, k: string, name: Option<string>)
    requires StoreInvariant(users) && k in users
    requires name.Some? ==> NameError(name.value).None?
    ensures StoreInvariant(users[k := Renamed(users[k], name)])
    ensures NeverUnverifies(users, users[k := Renamed(users[k], name)])
  {
    var u := Renamed(users[k], name);
    StoredRecord(users, k);
    ReplacePreserves(users, u);
  }

  /** Tokens produced for a request are assumed to differ from every stored one (32 random bytes). */
  ghost predicate FreshVerificationToken(users: Users, token: string) {
    forall e :: e in users ==> users[e].verificationToken != Some(token)
  }

  ghost predicate FreshResetToken(users: Users, token: string) {
    forall e :: e in users ==> users[e].resetPasswordToken != Some(token)
  }

  /** The mongoose model over the collection. */
  class UserStore {
    var users: Users

    ghost predicate Valid()
      reads this
    {
      StoreInvariant(users)
    }

    constructor ()
      ensures users == map[] && Valid()
    {
      users := map[];
    }

    /** `User.findOne({ email })` */
    method FindByEmail(email: string) returns (u: Option<UserRecord>)
      ensures u == ByEmail(users, email)
    {
      var key := NormalizeEmail(email);
      if key in users {
        u := Some(users[key]);
      } else {
        u := None;
      }
    }

    /** `User.findById(id)` */
    method FindById(id: string) returns (u: Option<UserRecord>)
      requires UniqueIds(users)
      ensures u.None? <==> KeyWithId(users, id).None?
      ensures u.Some? ==> u.value == users[KeyWithId(users, id).value]
    {
      if e :| e in users && users[e].id == id {
        IdHolderUnique(users, id, e);
        u := Some(users[e]);
      } else {
        u := None;
      }
    }

    /** `User.findOne({ verificationToken: token })` */
    method FindByVerificationToken(token: string) returns (u: Option<UserRecord>)
      requires UniqueVerificationTokens(users)
      ensures u.None? <==> VerificationHolder(users, token).None?
      ensures u.Some? ==> u.value == users[VerificationHolder(users, token).value]
    {
      if e :| e in users && users[e].verificationToken == Some(token) {
        VerificationHolderUnique(users, token, e);
        u := Some(users[e]);
      } else {
        u := None;
      }
    }

    /** `User.findOne({ resetPasswordToken: token })` */
    method FindByResetToken(token: string) returns (u: Option<UserRecord>)
      requires UniqueResetTokens(users)
      ensures u.None? <==> ResetHolder(users, token).None?
      ensures u.Some? ==> u.value == users[ResetHolder(users, token).value]
    {
      if e :| e in users && users[e].resetPasswordToken == Some(token) {
        ResetHolderUnique(users, token, e);
        u := Some(users[e]);
      } else {
        u := None;
      }
    }

    /** `user.save()` on a fetched record whose password was not assigned: the pre-save hook keeps the hash. */
    method Save(u: UserRecord)
      requires u.email in users && users[u.email].id == u.id
      modifies this
      ensures users == old(users)[u.email := u]
    {
      users := users[u.email := u];
    }

    /** `user.password = plain; user.save()`: the pre-save hook hashes the new password with a fresh salt. */
    method SaveWithNewPassword(u: UserRecord, plain: string, salt: string)
      requires u.email in users && users[u.email].id == u.id
      modifies this
      ensures users == old(users)[u.email := u.(password := PreSaveHash(u.password, Some(plain), salt))]
    {
      users := users[u.email := u.(password := HashPassword(plain, salt))];
    }

    /** `User.findByIdAndUpdate(id, update, { new: true })` for an update that sets at most the name,
        already passed through the schema's setter and validators: the record after the update, if any. */
    method UpdateNameById(id: string, name: Option<string>) returns (u: Option<UserRecord>)
      requires UniqueIds(users)
      modifies this
      ensures KeyWithId(old(users), id).None? ==> u.None? && users == old(users)
      ensures KeyWithId(old(users), id).Some? ==>
        var k := KeyWithId(old(users), id).value;
        u == Some(Renamed(old(users)[k], name)) && users == old(users)[k := Renamed(old(users)[k], name)]
    {
      if e :| e in users && users[e].id == id {
        IdHolderUnique(users, id, e);
        u := Some(Renamed(users[e], name));
        users := users[e := u.value];
      } else {
        u := None;
      }
    }

    /** The insert `User.create` performs once validation has passed and the email is free. */
    method Insert(u: UserRecord)
      requires u.email !in users
      modifies this
      ensures users == old(users)[u.email := u]
    {
      users := users[u.email := u];
    }

    /** `User.deleteOne({ _id: id })`: removes one record with that id, if there is one. */
    method DeleteById(id: string)
      modifies this
      ensures (forall e :: e in old(users) ==> old(users)[e].id != id) ==> users == old(users)
      ensures (exists e :: e in old(users) && old(users)[e].id == id) ==>
        exists e :: e in old(users) && old(users)[e].id == id && users == old(users) - {e}
    {
      if e :| e in users && users[e].id == id {
        users := users - {e};
      }
    }
  }
}

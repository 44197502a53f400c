/**
 * `AccountService` of account/services/__init__.py: the input guards in front of the
 * account ORM, the credential check of `login_with_credential`, and the verification
 * of a Google id token against Google's tokeninfo endpoint (whose reply is a
 * parameter of the model).
 */
module AccountService {
  import opened Common
  import opened Errors
  import opened Schema
  import opened AccountModels
  import opened AccountUtils
  import opened AccountOrm

  /** `register`: empty email, then empty password, then a used email are refused before the ORM runs. */
  method Register(db: Db, email: string, password: string, env: Env, now: Instant, sign: Signer) returns (db': Db, r: Outcome)
    requires Valid(db)
    ensures email == "" ==> r == Fail(EmailRequired) && db' == db
    ensures email != "" && password == "" ==> r == Fail(PasswordRequired) && db' == db
    ensures email != "" && password != "" && EmailTaken(db.users, Some(email)) ==> r == Fail(EmailAlreadyExists) && db' == db
    ensures email != "" && password != "" && !EmailTaken(db.users, Some(email)) ==>
      && db'.users == db.users[db.nextId := Registrant(email, password)]
      && !db'.users[db.nextId].isActive
    ensures r == Pass ==> Truthy(env.backendUrl) && !EmailTaken(db.users, Some(email))
    ensures Valid(db')
  {
    if email == "" {
      return db, Fail(EmailRequired);
    }
    if password == "" {
      return db, Fail(PasswordRequired);
    }
    if EmailTaken(db.users, Some(email)) {
      return db, Fail(EmailAlreadyExists);
    }
    db', r := AccountOrm.Register(db, email, password, env, now, sign);
  }

  /** `verify_email_register`: an empty token is refused before any lookup. */
  method VerifyEmailRegister(db: Db, token: string, now: Instant) returns (db': Db, r: Outcome)
    requires Valid(db)
    ensures r.Fail? <==> token == "" || FindToken(db.tokens, AvailableWith(token, now)).None?
    ensures r.Fail? ==> r == Fail(InvalidOrExpiredToken) && db' == db
    ensures r.Pass? ==> FindToken(db'.tokens, AvailableWith(token, now)).None?
    ensures Valid(db')
  {
    if token == "" {
      return db, Fail(InvalidOrExpiredToken);
    }
    db', r := AccountOrm.VerifyEmailRegister(db, token, now);
  }

  /**
   * `login_with_credential`: an unknown email and a wrong password give the same
   * `EmailOrPasswordInvalid`; only a correct password reveals `UserNotActive`; an
   * active user with the right password gets a token string.
   */
  method LoginWithCredential(db: Db, email: string, password: string, env: Env, now: Instant, sign: Signer)
    returns (db': Db, r: Result<string>)
    requires Valid(db)
    ensures var user := FirstWhere(db.users, WithEmail(email), db.nextId);
      && (user.None? || !CheckPassword(db.users[user.value], password) <==> r == Err(EmailOrPasswordInvalid))
      && (r == Err(EmailOrPasswordInvalid) || r == Err(UserNotActive) ==> db' == db)
      && (r == Err(UserNotActive) <==> user.Some? && CheckPassword(db.users[user.value], password) && !db.users[user.value].isActive)
      && (r.Ok? ==>
            && user.Some? && CheckPassword(db.users[user.value], password) && db.users[user.value].isActive
            && exists i :: 0 <= i < |db'.tokens| && db'.tokens[i].user == user.value && db'.tokens[i].token == r.value)
    ensures Valid(db')
  {
    var user := FirstWhere(db.users, WithEmail(email), db.nextId);
    if user.None? || !CheckPassword(db.users[user.value], password) {
      return db, Err(EmailOrPasswordInvalid);
    }
    if !db.users[user.value].isActive {
      return db, Err(UserNotActive);
    }
    db', r := AccountOrm.LoginWithCredential(db, user.value, env, now, sign);
  }

  /** What Google's tokeninfo endpoint gives back for an id token: no answer, or a status and a JSON object of strings. */
  datatype GoogleReply = Unreachable | Reply(status: int, data: map<string, string>)

  /**
   * `verify_id_token`: a request failure or a status other than 200 is an invalid
   * token; an unset `GOOGLE_CLIENT_ID` is a configuration error; the data is accepted
   * only when its `aud` is the configured client id.
   */
  function VerifyIdToken(reply: GoogleReply, env: Env): (r: Result<map<string, string>>)
    ensures r.Ok? <==>
      reply.Reply? && reply.status == 200 && Truthy(env.googleClientId)
      && "aud" in reply.data && reply.data["aud"] == env.googleClientId.value
    ensures r.Ok? ==> r.value == reply.data
    ensures r == Err(GoogleClientIDNotConfigured) <==> reply.Reply? && reply.status == 200 && !Truthy(env.googleClientId)
    ensures r.Err? && r.error != GoogleClientIDNotConfigured ==> r.error == InvalidOrExpiredToken
  {
    if reply.Unreachable? || reply.status != 200 then Err(InvalidOrExpiredToken)
    else if !Truthy(env.googleClientId) then Err(GoogleClientIDNotConfigured)
    else if "aud" !in reply.data || reply.data["aud"] != env.googleClientId.value then Err(InvalidOrExpiredToken)
    else Ok(reply.data)
  }

  /** `google_data.get(key)` read as a truthy string. */
  predicate HasText(data: map<string, string>, key: string) {
    key in data && data[key] != ""
  }

  /**
   * `login_with_google`: an empty id token, a token Google does not vouch for, or data
   * without `sub` or `email` are refused; otherwise the ORM logs the Google user in,
   * with `name` defaulting to "".
   */
  method LoginWithGoogle(db: Db, idToken: string, tokeninfo: string -> GoogleReply, env: Env, now: Instant, sign: Signer)
    returns (db': Db, r: Result<string>)
    requires Valid(db)
    ensures idToken == "" ==> r == Err(InvalidOrExpiredToken) && db' == db
    ensures idToken != "" && VerifyIdToken(tokeninfo(idToken), env).Err? ==> r == Err(VerifyIdToken(tokeninfo(idToken), env).error) && db' == db
    ensures r.Ok? ==>
      var data := VerifyIdToken(tokeninfo(idToken), env).value;
      && idToken != "" && VerifyIdToken(tokeninfo(idToken), env).Ok?
      && HasText(data, "sub") && HasText(data, "email")
      && var known := FirstWhere(db.users, WithGoogleId(data["sub"]), db.nextId);
         known.None? ==>
           db'.users == db.users[db.nextId := User(Some(data["email"]), Some(data["sub"]), if "name" in data then data["name"] else "", Unusable, false, false, true)]
    ensures Valid(db')
  {
    if idToken == "" {
      return db, Err(InvalidOrExpiredToken);
    }
    var verified := VerifyIdToken(tokeninfo(idToken), env);
    if verified.Err? {
      return db, Err(verified.error);
    }
    var data := verified.value;
    if !HasText(data, "sub") || !HasText(data, "email") {
      return db, Err(InvalidOrExpiredToken);
    }
    var name := if "name" in data then data["name"] else "";
    db', r := AccountOrm.LoginWithGoogle(db, data["sub"], data["email"], name, env, now, sign);
  }

  /** `logout`: an empty token is refused; expiry is not looked at. */
  method Logout(db: Db, token: string, now: Instant) returns (db': Db, r: Outcome)
    requires Valid(db)
    ensures r.Fail? <==> token == "" || FindToken(db.tokens, UnrevokedWith(token)).None?
    ensures r.Fail? ==> r == Fail(InvalidOrExpiredToken) && db' == db
    ensures r.Pass? ==> FindToken(db'.tokens, UnrevokedWith(token)).None? && FindToken(db'.tokens, AvailableWith(token, now)).None?
    ensures Valid(db')
  {
    if token == "" {
      return db, Fail(InvalidOrExpiredToken);
    }
    db', r := AccountOrm.Logout(db, token, now);
    if r.Pass? {
      UnrevokedCoversAvailable(db'.tokens, token, now);
    }
  }

  /** No unrevoked token with a string means no available one either. */
  lemma {:induction false} UnrevokedCoversAvailable(tokens: seq<AuthToken>, s: string, now: Instant)
    requires FindToken(tokens, UnrevokedWith(s)).None?
    ensures FindToken(tokens, AvailableWith(s, now)).None?
  {
    forall i | 0 <= i < |tokens| ensures !AvailableWith(s, now)(tokens[i]) {
      assert !UnrevokedWith(s)(tokens[i]);
    }
  }

  /** `change_password`: the old password must check, else `OldPasswordInvalid` and the password stays. */
  method ChangePassword(db: Db, user: Uid, oldPassword: string, newPassword: string) returns (db': Db, r: Outcome)
    requires Valid(db) && user in db.users
    ensures r.Fail? <==> !CheckPassword(db.users[user], oldPassword)
    ensures r.Fail? ==> r.error == OldPasswordInvalid && db' == db
    ensures r.Pass? ==> db' == SetPassword(db, user, newPassword) && CheckPassword(db'.users[user], newPassword)
    ensures user in db'.users
    ensures Valid(db')
  {
    if !CheckPassword(db.users[user], oldPassword) {
      return db, Fail(OldPasswordInvalid);
    }
    db' := AccountOrm.ChangePassword(db, user, newPassword);
    r := Pass;
  }

  /** `reset_password`: an empty email is refused before the lookup. */
  method ResetPassword(db: Db, email: string, env: Env, now: Instant, sign: Signer) returns (db': Db, r: Outcome)
    requires Valid(db)
    ensures email == "" ==> r == Fail(EmailRequired) && db' == db
    ensures email != "" && FirstWhere(db.users, WithEmail(email), db.nextId).None? ==> r == Fail(EmailNotExists) && db' == db
    ensures r.Pass? ==> email != "" && FirstWhere(db.users, WithEmail(email), db.nextId).Some? && Truthy(env.backendUrl)
    ensures Valid(db')
  {
    if email == "" {
      return db, Fail(EmailRequired);
    }
    db', r := AccountOrm.ResetPassword(db, email, env, now, sign);
  }

  /** `verify_email_reset_password`: an empty token is refused; otherwise the token's user, the token spent. */
  method VerifyEmailResetPassword(db: Db, token: string, now: Instant) returns (db': Db, r: Result<Uid>)
    requires Valid(db)
    ensures r.Err? <==> token == "" || FindToken(db.tokens, AvailableWith(token, now)).None?
    ensures r.Err? ==> r.error == InvalidOrExpiredToken && db' == db
    ensures r.Ok? ==> r.value in db.users
    ensures Valid(db')
  {
    if token == "" {
      return db, Err(InvalidOrExpiredToken);
    }
    db', r := AccountOrm.VerifyEmailResetPassword(db, token, now);
  }

  /**
   * `save_password`: an empty token, then an empty new password, are refused before the
   * lookup; whenever it fails every password stays as it was.
   */
  method SavePassword(db: Db, token: string, newPassword: string, now: Instant) returns (db': Db, r: Outcome)
    requires Valid(db)
    ensures token == "" ==> r == Fail(InvalidOrExpiredToken)
    ensures token != "" && newPassword == "" ==> r == Fail(PasswordRequired)
    ensures r.Fail? ==> db' == db
    ensures r.Pass? <==> token != "" && newPassword != "" && FindToken(db.tokens, AvailableWith(token, now)).Some?
    ensures r.Pass? ==>
      var u := db.tokens[FindToken(db.tokens, AvailableWith(token, now)).value].user;
      u in db'.users && CheckPassword(db'.users[u], newPassword)
    ensures Valid(db')
  {
    if token == "" {
      return db, Fail(InvalidOrExpiredToken);
    }
    if newPassword == "" {
      return db, Fail(PasswordRequired);
    }
    db', r := AccountOrm.SavePassword(db, token, newPassword, now);
  }
}

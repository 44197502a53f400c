/**
 * `AccountORM` of account/orm/account.py: the token lifecycle. A token is handed out
 * by `get_key`, and spent (blacklisted at `now`) by email verification, logout,
 * password reset and password saving. None of these operations runs in a
 * transaction: `register`, `login_with_google` and `reset_password` keep what they
 * wrote before a later step fails. Sending email is not part of this model.
 */
module AccountOrm {
  import opened Common
  import opened Errors
  import opened Schema
  import opened AccountModels
  import opened AccountUtils

  /** The first stored token satisfying `p`, and there is none before it. */
  function FindToken(tokens: seq<AuthToken>, p: AuthToken -> bool): (r: Option<nat>)
    ensures r.Some? ==> r.value < |tokens| && p(tokens[r.value])
    ensures r.Some? ==> forall i :: 0 <= i < r.value ==> !p(tokens[i])
    ensures r.None? <==> forall i :: 0 <= i < |tokens| ==> !p(tokens[i])
    decreases |tokens|
  {
    if |tokens| == 0 then None
    else
      var n := |tokens| - 1;
      var front := FindToken(tokens[..n], p);
      assert forall i :: 0 <= i < n ==> tokens[..n][i] == tokens[i];
      if front.Some? then front else if p(tokens[n]) then Some(n) else None
  }

  /** The filter `token=s, blacklisted_at__isnull=True, expires_at__gte=now`. */
  function AvailableWith(s: string, now: Instant): AuthToken -> bool {
    (t: AuthToken) => t.token == s && IsAvailable(t, now)
  }

  /** The filter `token=s, blacklisted_at__isnull=True` of `logout`: expiry is not looked at. */
  function UnrevokedWith(s: string): AuthToken -> bool {
    (t: AuthToken) => t.token == s && t.blacklistedAt.None?
  }

  /** The filter `email=email`. */
  function WithEmail(email: string): User -> bool {
    (u: User) => u.email == Some(email)
  }

  /** The filter `google_id=google_id`. */
  function WithGoogleId(googleId: string): User -> bool {
    (u: User) => u.googleId == Some(googleId)
  }

  /** `token_object.blacklisted_at = now()` saved. */
  function Blacklist(db: Db, i: nat, now: Instant): (db': Db)
    requires i < |db.tokens|
  {
    db.(tokens := db.tokens[i := db.tokens[i].(blacklistedAt := Some(now))])
  }

  /** `user.is_active = True` saved, only when the user is inactive. */
  function Activate(db: Db, u: Uid): (db': Db)
    requires u in db.users
  {
    if db.users[u].isActive then db else db.(users := db.users[u := db.users[u].(isActive := true)])
  }

  /** `user.set_password(p)` saved. */
  function SetPassword(db: Db, u: Uid, password: string): (db': Db)
    requires u in db.users
  {
    db.(users := db.users[u := db.users[u].(password := Hashed(password))])
  }

  /**
   * A spent token is spent for good: with unique token strings, once the token at `i`
   * is blacklisted no available or unrevoked token carries its string, at any moment.
   */
  lemma {:induction false} SpentTokenIsGone(db: Db, i: nat, at: Instant, now: Instant)
    requires TokensUnique(db.tokens) && i < |db.tokens|
    ensures FindToken(Blacklist(db, i, at).tokens, AvailableWith(db.tokens[i].token, now)).None?
    ensures FindToken(Blacklist(db, i, at).tokens, UnrevokedWith(db.tokens[i].token)).None?
  {
    var tokens := Blacklist(db, i, at).tokens;
    forall j | 0 <= j < |tokens| ensures tokens[j].token != db.tokens[i].token || tokens[j].blacklistedAt.Some? {
      if j != i {
        assert tokens[j] == db.tokens[j];
      }
    }
  }

  lemma {:induction false} BlacklistKeepsValid(db: Db, i: nat, now: Instant)
    requires Valid(db) && i < |db.tokens|
    ensures Valid(Blacklist(db, i, now))
  {
    var db' := Blacklist(db, i, now);
    assert forall j :: 0 <= j < |db'.tokens| ==> db'.tokens[j].token == db.tokens[j].token && db'.tokens[j].user == db.tokens[j].user;
    assert TokensUnique(db'.tokens);
    assert TokenRefs(db'.tokens, db'.users);
  }

  /** Changing a user's flags or password keeps the store consistent: keys, emails and Google ids stay. */
  lemma {:induction false} RewriteUserKeepsValid(db: Db, u: Uid, v: User)
    requires Valid(db) && u in db.users
    requires v.email == db.users[u].email && v.googleId == db.users[u].googleId
    ensures Valid(db.(users := db.users[u := v]))
  {
    var db' := db.(users := db.users[u := v]);
    assert db'.users.Keys == db.users.Keys;
    assert UserIdentitiesUnique(db'.users);
  }

  /** The user `register` saves: email and password given, `is_active` False, defaults elsewhere. */
  function Registrant(email: string, password: string): User {
    User(Some(email), None, "", Hashed(password), false, false, false)
  }

  /**
   * `register`: saves the inactive user first, then gets a token for them, then
   * checks `BACKEND_URL`. A failure after the save keeps the user (and the token).
   */
  method Register(db: Db, email: string, password: string, env: Env, now: Instant, sign: Signer) returns (db': Db, r: Outcome)
    requires Valid(db)
    ensures EmailTaken(db.users, Some(email)) ==> r == Fail(IntegrityError) && db' == db
    ensures !EmailTaken(db.users, Some(email)) ==>
      && db.nextId in db'.users && db'.users[db.nextId] == Registrant(email, password)
      && db'.users == db.users[db.nextId := Registrant(email, password)]
      && db' == GetKeyResult(SaveNewUser(db, Registrant(email, password)).0, db.nextId, env, now, sign).0
    ensures !EmailTaken(db.users, Some(email)) && GetKeyResult(SaveNewUser(db, Registrant(email, password)).0, db.nextId, env, now, sign).1.Ok? ==>
      r == (if Truthy(env.backendUrl) then Pass else Fail(BackendURLNotConfigured))
    ensures !EmailTaken(db.users, Some(email)) && GetKeyResult(SaveNewUser(db, Registrant(email, password)).0, db.nextId, env, now, sign).1.Err? ==>
      r == Fail(GetKeyResult(SaveNewUser(db, Registrant(email, password)).0, db.nextId, env, now, sign).1.error)
    ensures r == Pass ==> Truthy(env.backendUrl)
    ensures Valid(db')
  {
    var saved := SaveNewUser(db, Registrant(email, password));
    SaveNewUserKeepsValid(db, Registrant(email, password));
    if saved.1.Err? {
      return db, Fail(saved.1.error);
    }
    var uid := saved.1.value;
    var key;
    db', key := GetKey(saved.0, uid, env, now, sign);
    GetKeyKeepsValid(saved.0, uid, env, now, sign);
    if key.Err? {
      return db', Fail(key.error);
    }
    if !Truthy(env.backendUrl) {
      return db', Fail(BackendURLNotConfigured);
    }
    r := Pass;
  }

  /**
   * `verify_email_register`: only an available token with that string verifies; its
   * user becomes active (if not already) and the token is spent.
   */
  method VerifyEmailRegister(db: Db, token: string, now: Instant) returns (db': Db, r: Outcome)
    requires Valid(db)
    ensures r.Fail? <==> FindToken(db.tokens, AvailableWith(token, now)).None?
    ensures r.Fail? ==> r.error == InvalidOrExpiredToken && db' == db
    ensures r.Pass? ==>
      var i := FindToken(db.tokens, AvailableWith(token, now)).value;
      && db' == Blacklist(Activate(db, db.tokens[i].user), i, now)
      && ActiveUser(db', db.tokens[i].user)
      && FindToken(db'.tokens, AvailableWith(token, now)).None?
    ensures Valid(db')
  {
    var found := FindToken(db.tokens, AvailableWith(token, now));
    if found.None? {
      return db, Fail(InvalidOrExpiredToken);
    }
    var i := found.value;
    ActivateAndSpend(db, i, now);
    db' := Blacklist(Activate(db, db.tokens[i].user), i, now);
    r := Pass;
  }

  /** The user exists and may log in. */
  predicate ActiveUser(db: Db, u: Uid) {
    u in db.users && db.users[u].isActive
  }

  /** Verifying through the token at `i` activates its user, spends the token for good and keeps the store consistent. */
  lemma {:induction false} ActivateAndSpend(db: Db, i: nat, now: Instant)
    requires Valid(db) && i < |db.tokens|
    ensures db.tokens[i].user in db.users
    ensures ActiveUser(Blacklist(Activate(db, db.tokens[i].user), i, now), db.tokens[i].user)
    ensures FindToken(Blacklist(Activate(db, db.tokens[i].user), i, now).tokens, AvailableWith(db.tokens[i].token, now)).None?
    ensures Valid(Blacklist(Activate(db, db.tokens[i].user), i, now))
  {
    var u := db.tokens[i].user;
    assert TokenRefs(db.tokens, db.users);
    ActivateKeepsValid(db, u);
    var db1 := Activate(db, u);
    BlacklistKeepsValid(db1, i, now);
    SpentTokenIsGone(db1, i, now, now);
  }

  lemma {:induction false} ActivateKeepsValid(db: Db, u: Uid)
    requires Valid(db) && u in db.users
    ensures Activate(db, u).tokens == db.tokens
    ensures Valid(Activate(db, u))
  {
    if !db.users[u].isActive {
      RewriteUserKeepsValid(db, u, db.users[u].(isActive := true));
    }
  }

  /** Verifying an already active user leaves every user as it was; only the token is spent. */
  lemma {:induction false} VerifyActiveUserOnlySpendsToken(db: Db, i: nat, now: Instant)
    requires i < |db.tokens| && db.tokens[i].user in db.users && db.users[db.tokens[i].user].isActive
    ensures Blacklist(Activate(db, db.tokens[i].user), i, now).users == db.users
  {
  }

  /** `login_with_credential`: the string of the token `get_key` gives the user. */
  method LoginWithCredential(db: Db, user: Uid, env: Env, now: Instant, sign: Signer) returns (db': Db, r: Result<string>)
    requires Valid(db) && user in db.users
    ensures db' == GetKeyResult(db, user, env, now, sign).0
    ensures r.Err? <==> GetKeyResult(db, user, env, now, sign).1.Err?
    ensures r.Err? ==> r.error == GetKeyResult(db, user, env, now, sign).1.error
    ensures r.Err? ==> r.error.ValueError? || r.error == IntegrityError
    ensures r.Ok? ==> exists i :: 0 <= i < |db'.tokens| && db'.tokens[i].user == user && db'.tokens[i].token == r.value
    ensures Valid(db')
  {
    var key;
    db', key := GetKey(db, user, env, now, sign);
    GetKeyKeepsValid(db, user, env, now, sign);
    if key.Err? {
      return db', Err(key.error);
    }
    r := Ok(key.value.token);
    KeyIsStored(db, user, env, now, sign);
  }

  /** The token `get_key` hands out is stored for that user. */
  lemma {:induction false} KeyIsStored(db: Db, user: Uid, env: Env, now: Instant, sign: Signer)
    requires GetKeyResult(db, user, env, now, sign).1.Ok?
    ensures var out := GetKeyResult(db, user, env, now, sign);
      exists i :: 0 <= i < |out.0.tokens| && out.0.tokens[i] == out.1.value && out.1.value.user == user
  {
    var out := GetKeyResult(db, user, env, now, sign);
    if Newest(db.tokens, user, now).Some? {
      assert out.0.tokens[Newest(db.tokens, user, now).value] == out.1.value;
    } else {
      GenerateKeyMints(db, user, env, now, sign);
      assert out.0.tokens[|db.tokens|] == out.1.value;
    }
  }

  /** The user `login_with_google` creates: active, with the Google id, email and name given. */
  function GoogleUser(googleId: string, email: string, name: string): User {
    User(Some(email), Some(googleId), name, Unusable, false, false, true)
  }

  /**
   * `login_with_google`: the user with that Google id, or else a newly created active
   * one (an email already in use refuses it); then that user's token string. The
   * creation is not undone when `get_key` fails.
   */
  method LoginWithGoogle(db: Db, googleId: string, email: string, name: string, env: Env, now: Instant, sign: Signer)
    returns (db': Db, r: Result<string>)
    requires Valid(db)
    ensures var known := FirstWhere(db.users, WithGoogleId(googleId), db.nextId);
      && (known.Some? ==> db'.users == db.users)
      && (known.Some? && r.Ok? ==> exists i :: 0 <= i < |db'.tokens| && db'.tokens[i].user == known.value && db'.tokens[i].token == r.value)
      && (known.None? && r.Ok? ==>
            && db'.users == db.users[db.nextId := GoogleUser(googleId, email, name)]
            && db.nextId !in db.users)
    ensures var known := FirstWhere(db.users, WithGoogleId(googleId), db.nextId);
      known.Some? ==>
        var key := GetKeyResult(db, known.value, env, now, sign);
        && db' == key.0
        && (r.Ok? <==> key.1.Ok?)
        && (r.Ok? ==> r.value == key.1.value.token && key.1.value.user == known.value)
        && (r.Err? ==> r.error == key.1.error)
    ensures var known := FirstWhere(db.users, WithGoogleId(googleId), db.nextId);
      known.None? && EmailTaken(db.users, Some(email)) ==> r == Err(IntegrityError) && db' == db
    ensures var known := FirstWhere(db.users, WithGoogleId(googleId), db.nextId);
      var saved := SaveNewUser(db, GoogleUser(googleId, email, name));
      known.None? && saved.1.Err? ==> r == Err(IntegrityError) && db' == db
    ensures var known := FirstWhere(db.users, WithGoogleId(googleId), db.nextId);
      var saved := SaveNewUser(db, GoogleUser(googleId, email, name));
      var key := GetKeyResult(saved.0, db.nextId, env, now, sign);
      known.None? && saved.1.Ok? ==>
        && db' == key.0
        && db'.users == db.users[db.nextId := GoogleUser(googleId, email, name)]
        && (r.Ok? <==> key.1.Ok?)
        && (r.Ok? ==> r.value == key.1.value.token && key.1.value.user == db.nextId)
        && (r.Err? ==> r.error == key.1.error)
    ensures Valid(db')
  {
    var known := FirstWhere(db.users, WithGoogleId(googleId), db.nextId);
    var work := db;
    var uid: Uid;
    if known.Some? {
      uid := known.value;
    } else {
      var saved := SaveNewUser(db, GoogleUser(googleId, email, name));
      SaveNewUserKeepsValid(db, GoogleUser(googleId, email, name));
      if saved.1.Err? {
        return db, Err(saved.1.error);
      }
      work, uid := saved.0, saved.1.value;
    }
    var key;
    db', key := GetKey(work, uid, env, now, sign);
    GetKeyKeepsValid(work, uid, env, now, sign);
    if key.Err? {
      return db', Err(key.error);
    }
    r := Ok(key.value.token);
    KeyIsStored(work, uid, env, now, sign);
  }

  /**
   * `logout`: the token must exist and not be blacklisted, whether or not it has
   * expired; it is then blacklisted.
   */
  method Logout(db: Db, token: string, now: Instant) returns (db': Db, r: Outcome)
    requires Valid(db)
    ensures r.Fail? <==> FindToken(db.tokens, UnrevokedWith(token)).None?
    ensures r.Fail? ==> r.error == InvalidOrExpiredToken && db' == db
    ensures r.Pass? ==>
      var i := FindToken(db.tokens, UnrevokedWith(token)).value;
      && db' == Blacklist(db, i, now)
      && FindToken(db'.tokens, UnrevokedWith(token)).None?
    ensures Valid(db')
  {
    var found := FindToken(db.tokens, UnrevokedWith(token));
    if found.None? {
      return db, Fail(InvalidOrExpiredToken);
    }
    db' := Blacklist(db, found.value, now);
    BlacklistKeepsValid(db, found.value, now);
    SpentTokenIsGone(db, found.value, now, now);
    r := Pass;
  }

  /** An expired token that was never blacklisted can still be logged out, though it cannot verify anything. */
  lemma {:induction false} LogoutIgnoresExpiry(tokens: seq<AuthToken>, s: string, now: Instant)
    requires forall i :: 0 <= i < |tokens| && tokens[i].token == s ==> tokens[i].expiresAt.Some? && tokens[i].expiresAt.value < now
    requires exists i :: 0 <= i < |tokens| && tokens[i].token == s && tokens[i].blacklistedAt.None?
    ensures FindToken(tokens, UnrevokedWith(s)).Some?
    ensures FindToken(tokens, AvailableWith(s, now)).None?
  {
    var i :| 0 <= i < |tokens| && tokens[i].token == s && tokens[i].blacklistedAt.None?;
    assert UnrevokedWith(s)(tokens[i]);
  }

  /** `change_password`: the user's password is replaced; nothing else changes. */
  method ChangePassword(db: Db, user: Uid, newPassword: string) returns (db': Db)
    requires Valid(db) && user in db.users
    ensures db' == SetPassword(db, user, newPassword)
    ensures CheckPassword(db'.users[user], newPassword)
    ensures Valid(db')
  {
    db' := SetPassword(db, user, newPassword);
    RewriteUserKeepsValid(db, user, db.users[user].(password := Hashed(newPassword)));
  }

  /**
   * `reset_password`: an unknown email raises `EmailNotExists`; a missing `BACKEND_URL`
   * raises before any token is made; otherwise the user's token is got (and mailed).
   */
  method ResetPassword(db: Db, email: string, env: Env, now: Instant, sign: Signer) returns (db': Db, r: Outcome)
    requires Valid(db)
    ensures var user := FirstWhere(db.users, WithEmail(email), db.nextId);
      && (user.None? ==> r == Fail(EmailNotExists) && db' == db)
      && (user.Some? && !Truthy(env.backendUrl) ==> r == Fail(BackendURLNotConfigured) && db' == db)
      && (user.Some? && Truthy(env.backendUrl) ==>
            && db' == GetKeyResult(db, user.value, env, now, sign).0
            && (r.Pass? <==> GetKeyResult(db, user.value, env, now, sign).1.Ok?))
    ensures Valid(db')
  {
    var user := FirstWhere(db.users, WithEmail(email), db.nextId);
    if user.None? {
      return db, Fail(EmailNotExists);
    }
    if !Truthy(env.backendUrl) {
      return db, Fail(BackendURLNotConfigured);
    }
    var key;
    db', key := GetKey(db, user.value, env, now, sign);
    GetKeyKeepsValid(db, user.value, env, now, sign);
    r := if key.Ok? then Pass else Fail(key.error);
  }

  /** `verify_email_reset_password`: an available token is spent and its user returned. */
  method VerifyEmailResetPassword(db: Db, token: string, now: Instant) returns (db': Db, r: Result<Uid>)
    requires Valid(db)
    ensures r.Err? <==> FindToken(db.tokens, AvailableWith(token, now)).None?
    ensures r.Err? ==> r.error == InvalidOrExpiredToken && db' == db
    ensures r.Ok? ==>
      var i := FindToken(db.tokens, AvailableWith(token, now)).value;
      && r.value == db.tokens[i].user && r.value in db.users
      && db' == Blacklist(db, i, now)
    ensures Valid(db')
  {
    var found := FindToken(db.tokens, AvailableWith(token, now));
    if found.None? {
      return db, Err(InvalidOrExpiredToken);
    }
    var i := found.value;
    assert TokenRefs(db.tokens, db.users);
    db' := Blacklist(db, i, now);
    BlacklistKeepsValid(db, i, now);
    r := Ok(db.tokens[i].user);
  }

  /**
   * `save_password`: with an available token the token's user gets the new password
   * and the token is spent; otherwise `InvalidOrExpiredToken` and the password stays.
   */
  method SavePassword(db: Db, token: string, newPassword: string, now: Instant) returns (db': Db, r: Outcome)
    requires Valid(db)
    ensures r.Fail? <==> FindToken(db.tokens, AvailableWith(token, now)).None?
    ensures r.Fail? ==> r.error == InvalidOrExpiredToken && db' == db
    ensures r.Pass? ==>
      var i := FindToken(db.tokens, AvailableWith(token, now)).value;
      && db' == Blacklist(SetPassword(db, db.tokens[i].user, newPassword), i, now)
      && CheckPassword(db'.users[db.tokens[i].user], newPassword)
      && FindToken(db'.tokens, AvailableWith(token, now)).None?
    ensures Valid(db')
  {
    var found := FindToken(db.tokens, AvailableWith(token, now));
    if found.None? {
      return db, Fail(InvalidOrExpiredToken);
    }
    var i := found.value;
    var u := db.tokens[i].user;
    assert TokenRefs(db.tokens, db.users);
    var db1 := SetPassword(db, u, newPassword);
    RewriteUserKeepsValid(db, u, db.users[u].(password := Hashed(newPassword)));
    db' := Blacklist(db1, i, now);
    BlacklistKeepsValid(db1, i, now);
    SpentTokenIsGone(db1, i, now, now);
    r := Pass;
  }

  // The operations below model account/orm/account.py as written: every call of
  // `get_key` there leaves out its required `key_type`, so it raises TypeError
  // (`AccountUtils.GetKeyAsWritten`). What was saved before that call stays saved.

  /**
   * `register` as written: the inactive user is saved, then `get_key` raises; no token
   * is made and `BACKEND_URL` is never read.
   */
  function RegisterAsWritten(db: Db, email: string, password: string): (out: (Db, Outcome))
    ensures out.1.Fail?
    ensures EmailTaken(db.users, Some(email)) ==> out == (db, Fail(IntegrityError))
    ensures !EmailTaken(db.users, Some(email)) ==>
      && out.1.error.TypeError?
      && out.0 == db.(users := db.users[db.nextId := Registrant(email, password)], nextId := db.nextId + 1)
  {
    var saved := SaveNewUser(db, Registrant(email, password));
    if saved.1.Err? then (db, Fail(saved.1.error))
    else
      var key := GetKeyAsWritten(saved.0, saved.1.value);
      (key.0, Fail(key.1.error))
  }

  /**
   * The discrepancy: for a fresh email, where the corrected registration gets the new
   * user a token, the registration as written keeps the same inactive user, stores
   * one token fewer and fails with TypeError.
   */
  lemma {:induction false} RegisterAsWrittenKeepsUser(db: Db, email: string, password: string, env: Env, now: Instant, sign: Signer)
    requires Valid(db) && !EmailTaken(db.users, Some(email))
    requires GetKeyResult(SaveNewUser(db, Registrant(email, password)).0, db.nextId, env, now, sign).1.Ok?
    ensures var written := RegisterAsWritten(db, email, password);
      var intended := GetKeyResult(SaveNewUser(db, Registrant(email, password)).0, db.nextId, env, now, sign);
      && written.1.error.TypeError?
      && written.0.users == intended.0.users && !written.0.users[db.nextId].isActive
      && |intended.0.tokens| == |written.0.tokens| + 1
  {
    var saved := SaveNewUser(db, Registrant(email, password)).0;
    assert TokenRefs(saved.tokens, db.users);
    assert db.nextId !in db.users;
    assert Newest(saved.tokens, db.nextId, now).None?;
  }

  /** `login_with_credential` as written: `get_key` raises, so no login ever succeeds. */
  function LoginWithCredentialAsWritten(db: Db, user: Uid): (out: (Db, Result<string>))
    ensures out.0 == db
    ensures out.1.Err? && out.1.error.TypeError?
  {
    var key := GetKeyAsWritten(db, user);
    (key.0, Err(key.1.error))
  }

  /**
   * `login_with_google` as written: a known Google id gets TypeError with the store
   * unchanged; an unknown one creates the user first, and that user stays.
   */
  function LoginWithGoogleAsWritten(db: Db, googleId: string, email: string, name: string): (out: (Db, Result<string>))
    ensures out.1.Err?
    ensures FirstWhere(db.users, WithGoogleId(googleId), db.nextId).Some? ==> out.0 == db && out.1.error.TypeError?
    ensures var saved := SaveNewUser(db, GoogleUser(googleId, email, name));
      FirstWhere(db.users, WithGoogleId(googleId), db.nextId).None? ==>
        && (saved.1.Err? ==> out == (db, Err(IntegrityError)))
        && (saved.1.Ok? ==> out.0 == saved.0 && out.1.error.TypeError?)
  {
    var known := FirstWhere(db.users, WithGoogleId(googleId), db.nextId);
    if known.Some? then
      var key := GetKeyAsWritten(db, known.value);
      (key.0, Err(key.1.error))
    else
      var saved := SaveNewUser(db, GoogleUser(googleId, email, name));
      if saved.1.Err? then (db, Err(saved.1.error))
      else
        var key := GetKeyAsWritten(saved.0, saved.1.value);
        (key.0, Err(key.1.error))
  }

  /**
   * The discrepancy: for an unknown Google id and a free email, the login as written
   * keeps the newly created active user, with no token, and fails.
   */
  lemma {:induction false} LoginWithGoogleAsWrittenKeepsUser(db: Db, googleId: string, email: string, name: string)
    requires Valid(db) && !EmailTaken(db.users, Some(email))
    requires FirstWhere(db.users, WithGoogleId(googleId), db.nextId).None?
    ensures var written := LoginWithGoogleAsWritten(db, googleId, email, name);
      && written.1.error.TypeError?
      && written.0.users == db.users[db.nextId := GoogleUser(googleId, email, name)]
      && written.0.users[db.nextId].isActive
      && written.0.tokens == db.tokens
  {
    assert !GoogleIdTaken(db.users, Some(googleId)) by {
      forall k | k in db.users
        ensures db.users[k].googleId != Some(googleId)
      {
        assert k < db.nextId;
        assert !WithGoogleId(googleId)(db.users[k]);
      }
    }
  }

  /**
   * `reset_password` as written: the email and `BACKEND_URL` checks behave as intended,
   * and past them `get_key` raises; the store never changes.
   */
  function ResetPasswordAsWritten(db: Db, email: string, env: Env): (out: (Db, Outcome))
    ensures out.0 == db && out.1.Fail?
    ensures var user := FirstWhere(db.users, WithEmail(email), db.nextId);
      && (user.None? ==> out.1.error == EmailNotExists)
      && (user.Some? && !Truthy(env.backendUrl) ==> out.1.error == BackendURLNotConfigured)
      && (user.Some? && Truthy(env.backendUrl) ==> out.1.error.TypeError?)
  {
    var user := FirstWhere(db.users, WithEmail(email), db.nextId);
    if user.None? then (db, Fail(EmailNotExists))
    else if !Truthy(env.backendUrl) then (db, Fail(BackendURLNotConfigured))
    else
      var key := GetKeyAsWritten(db, user.value);
      (key.0, Fail(key.1.error))
  }

  /**
   * The discrepancy for both token hand-outs that save nothing first: wherever the
   * corrected `get_key` gives a token, the login as written fails, and the reset as
   * written fails where the corrected one would mail a link.
   */
  lemma {:induction false} TokenHandOutsAsWrittenFail(db: Db, email: string, env: Env, now: Instant, sign: Signer)
    requires FirstWhere(db.users, WithEmail(email), db.nextId).Some? && Truthy(env.backendUrl)
    requires GetKeyResult(db, FirstWhere(db.users, WithEmail(email), db.nextId).value, env, now, sign).1.Ok?
    ensures LoginWithCredentialAsWritten(db, FirstWhere(db.users, WithEmail(email), db.nextId).value).1.Err?
    ensures ResetPasswordAsWritten(db, email, env).1.Fail?
    ensures ResetPasswordAsWritten(db, email, env).1.error.TypeError?
  {
  }
}

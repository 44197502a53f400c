/**
 * account/utils.py: minting an authentication token (`generate_key`) and reusing the
 * user's newest available one (`get_key`). The environment, the clock and the JWT
 * signer are parameters; the `key_type` argument changes nothing in either function
 * and is not modelled.
 */
module AccountUtils {
  import opened Common
  import opened Errors
  import opened Schema
  import opened AccountModels

  /** The environment variables the account code reads; `tokenExpiresIn` is already converted by `int()`. */
  datatype Env = Env(
    secretKey: Option<string>,
    tokenExpiresIn: Option<int>,
    backendUrl: Option<string>,
    googleClientId: Option<string>)

  /** `AUTHENTICATE_TOKEN_EXPIRES_IN` when unset, in minutes: one day. */
  const DefaultExpiresMinutes: int := 1440

  /** The claims signed into a token. */
  datatype Payload = Payload(userId: Uid, iat: int, exp: int)

  /** `jwt.encode(payload, secret, algorithm="HS256")`, outside this model. */
  type Signer = (Payload, string) -> string

  /** `int(dt.timestamp())`: whole seconds, truncated toward zero. */
  function Timestamp(t: Instant): (s: int)
    ensures t >= 0 ==> s >= 0 && s * MicrosPerSecond <= t < (s + 1) * MicrosPerSecond
  {
    TruncDiv(t, MicrosPerSecond)
  }

  function ExpiresMinutes(env: Env): int {
    env.tokenExpiresIn.GetOr(DefaultExpiresMinutes)
  }

  /** `now + timedelta(minutes=...)`. */
  function ExpiryFrom(env: Env, now: Instant): Instant {
    now + ExpiresMinutes(env) * MicrosPerMinute
  }

  /** The token row `generate_key` builds for a configured secret. */
  function MintedToken(user: Uid, env: Env, now: Instant, sign: Signer): AuthToken
    requires Truthy(env.secretKey)
  {
    var exp := ExpiryFrom(env, now);
    AuthToken(user, sign(Payload(user, Timestamp(now), Timestamp(exp)), env.secretKey.value), Some(exp), None, now)
  }

  /** A token string already stored. */
  predicate TokenTaken(tokens: seq<AuthToken>, s: string) {
    exists i :: 0 <= i < |tokens| && tokens[i].token == s
  }

  /**
   * `generate_key`: a missing or empty `SECRET_KEY` raises ValueError; otherwise the
   * signed token is saved for the user, unless its string is already stored (the
   * unique column refuses it).
   */
  function GenerateKey(db: Db, user: Uid, env: Env, now: Instant, sign: Signer): (out: (Db, Result<AuthToken>))
    ensures !Truthy(env.secretKey) ==> out.1 == Err(ValueError("SECRET_KEY is not set in environment variables"))
    ensures Truthy(env.secretKey) && out.1.Err? ==> out.1 == Err(IntegrityError)
    ensures out.1.Err? ==> out.0 == db
    ensures out.1.Ok? ==> Truthy(env.secretKey) && out.0 == db.(tokens := db.tokens + [out.1.value])
    ensures out.1.Ok? ==> !TokenTaken(db.tokens, out.1.value.token)
  {
    if !Truthy(env.secretKey) then (db, Err(ValueError("SECRET_KEY is not set in environment variables")))
    else
      var t := MintedToken(user, env, now, sign);
      if TokenTaken(db.tokens, t.token) then (db, Err(IntegrityError))
      else (db.(tokens := db.tokens + [t]), Ok(t))
  }

  /**
   * A minted token belongs to the user, was created now, expires the configured number
   * of minutes later (a day by default), and is signed over the whole-second timestamps
   * of both moments; with a non-negative lifetime it is available when created.
   */
  lemma {:induction false} GenerateKeyMints(db: Db, user: Uid, env: Env, now: Instant, sign: Signer)
    requires GenerateKey(db, user, env, now, sign).1.Ok?
    ensures var t := GenerateKey(db, user, env, now, sign).1.value;
      && t.user == user && t.createdAt == now && t.blacklistedAt.None?
      && t.expiresAt == Some(now + ExpiresMinutes(env) * MicrosPerMinute)
      && (env.tokenExpiresIn.None? ==> t.expiresAt == Some(now + 1440 * 60_000_000))
      && t.token == sign(Payload(user, Timestamp(now), Timestamp(t.expiresAt.value)), env.secretKey.value)
      && (ExpiresMinutes(env) >= 0 ==> IsAvailable(t, now))
  {
  }

  /** After the epoch, `exp - iat` is the lifetime in seconds. */
  lemma {:induction false} PayloadSpan(now: Instant, minutes: int)
    requires now >= 0 && minutes >= 0
    ensures Timestamp(now + minutes * MicrosPerMinute) == Timestamp(now) + minutes * 60
  {
    var s := Timestamp(now);
    var t := now + minutes * MicrosPerMinute;
    assert t == (now - s * MicrosPerSecond) + (s + minutes * 60) * MicrosPerSecond;
    assert 0 <= now - s * MicrosPerSecond < MicrosPerSecond;
  }

  /** The user's token that `get_key` may reuse: theirs, not blacklisted, not expired. */
  predicate Reusable(t: AuthToken, user: Uid, now: Instant) {
    t.user == user && IsAvailable(t, now)
  }

  /**
   * The position of the user's most recently created reusable token
   * (`order_by("-created_at").first()`); among equal creation times the earliest row.
   */
  function Newest(tokens: seq<AuthToken>, user: Uid, now: Instant): (r: Option<nat>)
    ensures r.Some? ==> r.value < |tokens| && Reusable(tokens[r.value], user, now)
    ensures r.Some? ==> forall i :: 0 <= i < |tokens| && Reusable(tokens[i], user, now) ==> tokens[i].createdAt <= tokens[r.value].createdAt
    ensures r.None? <==> forall i :: 0 <= i < |tokens| ==> !Reusable(tokens[i], user, now)
    decreases |tokens|
  {
    if |tokens| == 0 then None
    else
      var n := |tokens| - 1;
      var front := Newest(tokens[..n], user, now);
      assert forall i :: 0 <= i < n ==> tokens[..n][i] == tokens[i];
      if Reusable(tokens[n], user, now) && (front.None? || tokens[n].createdAt > tokens[front.value].createdAt) then Some(n)
      else front
  }

  /** What `get_key` does to the store and returns: reuse the newest reusable token, or mint one. */
  function GetKeyResult(db: Db, user: Uid, env: Env, now: Instant, sign: Signer): (out: (Db, Result<AuthToken>))
    ensures out.0.users == db.users && out.0.nextId == db.nextId
  {
    match Newest(db.tokens, user, now)
    case Some(i) => (db, Ok(db.tokens[i]))
    case None => GenerateKey(db, user, env, now, sign)
  }

  /**
   * `get_key` as account/orm/account.py calls it, `get_key(user=user)`: `key_type` is a
   * required parameter left out, so Python raises TypeError before the body runs and
   * the store is untouched.
   */
  function GetKeyAsWritten(db: Db, user: Uid): (out: (Db, Result<AuthToken>))
    ensures out.0 == db
    ensures out.1.Err? && out.1.error.TypeError?
  {
    (db, Err(TypeError("get_key() missing 1 required positional argument: 'key_type'")))
  }

  /**
   * `get_key`: scans the user's tokens for the newest reusable one and returns it with
   * the store unchanged; only when there is none is a token minted, exactly one.
   */
  method GetKey(db: Db, user: Uid, env: Env, now: Instant, sign: Signer) returns (db': Db, r: Result<AuthToken>)
    ensures db' == GetKeyResult(db, user, env, now, sign).0 && r == GetKeyResult(db, user, env, now, sign).1
    ensures Newest(db.tokens, user, now).Some? ==> db' == db && r.Ok? && Reusable(r.value, user, now)
    ensures Newest(db.tokens, user, now).None? && r.Ok? ==> |db'.tokens| == |db.tokens| + 1 && r.value.user == user
  {
    var best: Option<nat> := None;
    var i := 0;
    while i < |db.tokens|
      invariant 0 <= i <= |db.tokens|
      invariant best == Newest(db.tokens[..i], user, now)
    {
      assert db.tokens[..i + 1][..i] == db.tokens[..i];
      var t := db.tokens[i];
      if Reusable(t, user, now) && (best.None? || t.createdAt > db.tokens[best.value].createdAt) {
        best := Some(i);
      }
      i := i + 1;
    }
    assert db.tokens[..i] == db.tokens;
    if best.Some? {
      return db, Ok(db.tokens[best.value]);
    }
    var out := GenerateKey(db, user, env, now, sign);
    db', r := out.0, out.1;
    if r.Ok? {
      GenerateKeyMints(db, user, env, now, sign);
    }
  }

  /**
   * A token just minted is reused: asking again at the same moment returns it and
   * changes nothing, as long as its lifetime is not negative.
   */
  lemma {:induction false} GetKeyReusesMinted(db: Db, user: Uid, env: Env, now: Instant, sign: Signer)
    requires Newest(db.tokens, user, now).None? && ExpiresMinutes(env) >= 0
    requires GenerateKey(db, user, env, now, sign).1.Ok?
    ensures var first := GetKeyResult(db, user, env, now, sign);
      && GetKeyResult(first.0, user, env, now, sign).0 == first.0
      && GetKeyResult(first.0, user, env, now, sign).1 == first.1
  {
    var first := GenerateKey(db, user, env, now, sign);
    var t := first.1.value;
    GenerateKeyMints(db, user, env, now, sign);
    var tokens := first.0.tokens;
    assert tokens == db.tokens + [t];
    var r := Newest(tokens, user, now);
    assert tokens[|db.tokens|] == t;
    assert r.Some?;
    assert forall i :: 0 <= i < |db.tokens| ==> tokens[i] == db.tokens[i] && !Reusable(tokens[i], user, now);
  }

  lemma {:induction false} GenerateKeyKeepsValid(db: Db, user: Uid, env: Env, now: Instant, sign: Signer)
    requires Valid(db) && user in db.users
    ensures Valid(GenerateKey(db, user, env, now, sign).0)
  {
    var out := GenerateKey(db, user, env, now, sign);
    if out.1.Ok? {
      var t := out.1.value;
      var db' := db.(tokens := db.tokens + [t]);
      assert out.0 == db';
      assert forall i :: 0 <= i < |db.tokens| ==> db'.tokens[i] == db.tokens[i] && db.tokens[i].token != t.token;
      assert db'.tokens[|db.tokens|] == t;
      assert TokensUnique(db'.tokens);
      GenerateKeyMints(db, user, env, now, sign);
      assert TokenRefs(db'.tokens, db'.users);
    }
  }

  lemma {:induction false} GetKeyKeepsValid(db: Db, user: Uid, env: Env, now: Instant, sign: Signer)
    requires Valid(db) && user in db.users
    ensures Valid(GetKeyResult(db, user, env, now, sign).0)
  {
    if Newest(db.tokens, user, now).None? {
      GenerateKeyKeepsValid(db, user, env, now, sign);
    }
  }
}

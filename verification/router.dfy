/**
 * router/authenticate.py and router/authorize.py: the bearer-token check that puts the
 * token's user on the request, and the two permission checks that split users into
 * customers and staff.
 */
module Router {
  import opened Common
  import opened Errors
  import opened Schema
  import opened AccountModels
  import opened AccountOrm

  /** `AuthBear.verify_token`: the first available token with exactly that string. */
  function VerifyToken(db: Db, token: string, now: Instant): (r: Result<AuthToken>)
    ensures r.Ok? ==> r.value.token == token && IsAvailable(r.value, now) && r.value in db.tokens
    ensures r.Err? <==> forall i :: 0 <= i < |db.tokens| ==> db.tokens[i].token != token || !IsAvailable(db.tokens[i], now)
    ensures r.Err? ==> r.error == InvalidOrExpiredToken
  {
    var found := FindToken(db.tokens, AvailableWith(token, now));
    if found.None? then Err(InvalidOrExpiredToken) else Ok(db.tokens[found.value])
  }

  /**
   * A logged-out token is rejected from then on: once the token at `i` is
   * blacklisted, its string authenticates no request at any later (or earlier) moment.
   */
  lemma {:induction false} LoggedOutTokenRejected(db: Db, i: nat, at: Instant, now: Instant)
    requires TokensUnique(db.tokens) && i < |db.tokens|
    ensures VerifyToken(Blacklist(db, i, at), db.tokens[i].token, now) == Err(InvalidOrExpiredToken)
  {
    SpentTokenIsGone(db, i, at, now);
  }

  /** A token that expired before `now` is rejected, whatever else holds. */
  lemma {:induction false} ExpiredTokenRejected(db: Db, token: string, now: Instant)
    requires forall i :: 0 <= i < |db.tokens| && db.tokens[i].token == token ==>
      db.tokens[i].expiresAt.None? || db.tokens[i].expiresAt.value < now
    ensures VerifyToken(db, token, now).Err?
  {
  }

  /** The request as the handlers see it: before authentication it carries no user and no token. */
  class Request {
    var user: Option<User>
    var token: Option<AuthToken>

    constructor()
      ensures user.None? && token.None?
    {
      user := None;
      token := None;
    }

    /**
     * `AuthBear.authenticate`: a rejected token leaves the request as it was; an
     * accepted one puts the token and its user on the request.
     */
    method Authenticate(db: Db, bearer: string, now: Instant) returns (r: Outcome)
      requires Valid(db)
      modifies this
      ensures VerifyToken(db, bearer, now).Err? ==> r == Fail(InvalidOrExpiredToken) && user == old(user) && token == old(token)
      ensures VerifyToken(db, bearer, now).Ok? ==>
        var t := VerifyToken(db, bearer, now).value;
        && r == Pass && t.user in db.users
        && token == Some(t) && user == Some(db.users[t.user])
    {
      var verified := VerifyToken(db, bearer, now);
      if verified.Err? {
        return Fail(verified.error);
      }
      var t := verified.value;
      assert TokenRefs(db.tokens, db.users);
      user := Some(db.users[t.user]);
      token := Some(t);
      r := Pass;
    }
  }

  /** `IsUser`: staff are turned away from customer endpoints. */
  function IsUser(u: User): (r: Outcome)
    ensures r.Fail? <==> u.isStaff
    ensures r.Fail? ==> r.error == HttpError(Forbidden, "Admin is not allowed to access this resource")
  {
    if u.isStaff then Fail(HttpError(Forbidden, "Admin is not allowed to access this resource")) else Pass
  }

  /** `IsAdmin`: only staff reach admin endpoints. */
  function IsAdmin(u: User): (r: Outcome)
    ensures r.Fail? <==> !u.isStaff
    ensures r.Fail? ==> r.error == HttpError(Forbidden, "Admin permission required")
  {
    if u.isStaff then Pass else Fail(HttpError(Forbidden, "Admin permission required"))
  }

  /** Every user passes exactly one of the two checks, and a refusal is always a 403. */
  lemma {:induction false} ExactlyOneRolePasses(u: User)
    ensures IsUser(u).Pass? != IsAdmin(u).Pass?
    ensures IsUser(u).Fail? ==> IsUser(u).error.status == 403
    ensures IsAdmin(u).Fail? ==> IsAdmin(u).error.status == 403
  {
  }
}

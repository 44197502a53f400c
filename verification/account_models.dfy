/**
 * account/models.py: the availability test of an authentication token, and the user
 * manager's `create_user` / `create_superuser` with the `User` defaults. A user is
 * saved into the store as a new row keyed by `nextId`; the unique columns `email`
 * and `google_id` refuse a duplicate with an IntegrityError.
 */
module AccountModels {
  import opened Common
  import opened Errors
  import opened Schema

  /**
   * `AuthenticateToken.is_available`: not blacklisted (a set datetime is always
   * truthy), and an expiry that is set and not before `now`.
   */
  predicate IsAvailable(t: AuthToken, now: Instant) {
    t.blacklistedAt.None? && t.expiresAt.Some? && t.expiresAt.value >= now
  }

  /** A blacklisted token is never available again, and an available token stays available at any earlier moment. */
  lemma {:induction false} AvailabilityOverTime(t: AuthToken, at: Instant, now: Instant, earlier: Instant)
    ensures !IsAvailable(t.(blacklistedAt := Some(at)), now)
    ensures IsAvailable(t, now) && earlier <= now ==> IsAvailable(t, earlier)
    ensures t.expiresAt.None? ==> !IsAvailable(t, now)
  {
  }

  /** `set_password`: a given password is stored hashed, `None` makes the password unusable. */
  function PasswordOf(password: Option<string>): (h: PasswordHash)
    ensures h.Unusable? <==> password.None?
  {
    match password
    case None => Unusable
    case Some(raw) => Hashed(raw)
  }

  /** `check_password`: hashing is not modelled, so a hash matches exactly the password it was made from. */
  predicate CheckPassword(u: User, raw: string) {
    u.password == Hashed(raw)
  }

  /** Keyword arguments of `create_user` / `create_superuser` beyond the identifier and password. */
  datatype ExtraFields = ExtraFields(
    name: string,
    googleId: Option<string>,
    isStaff: Option<bool>,
    isSuperuser: Option<bool>,
    isActive: Option<bool>)

  /** `dict.setdefault`: keep a value the caller gave, otherwise use the default. */
  function SetDefault(given: Option<bool>, default: bool): (r: Option<bool>)
    ensures r.Some?
    ensures given.Some? ==> r == given
    ensures given.None? ==> r.value == default
  {
    if given.Some? then given else Some(default)
  }

  /** An email already used by some user (a NULL email never clashes). */
  predicate EmailTaken(users: map<Uid, User>, email: Option<string>) {
    email.Some? && exists k :: k in users && users[k].email == email
  }

  /** A Google id already used by some user (a NULL id never clashes). */
  predicate GoogleIdTaken(users: map<Uid, User>, googleId: Option<string>) {
    googleId.Some? && exists k :: k in users && users[k].googleId == googleId
  }

  /** `user.save()` of a new user: the unique columns decide, and the user gets the next key. */
  function SaveNewUser(db: Db, u: User): (out: (Db, Result<Uid>))
    ensures out.1.Err? <==> EmailTaken(db.users, u.email) || GoogleIdTaken(db.users, u.googleId)
    ensures out.1.Err? ==> out.1.error == IntegrityError && out.0 == db
    ensures out.1.Ok? ==> out.1.value == db.nextId && out.0 == db.(users := db.users[db.nextId := u], nextId := db.nextId + 1)
  {
    if EmailTaken(db.users, u.email) || GoogleIdTaken(db.users, u.googleId) then (db, Err(IntegrityError))
    else (db.(users := db.users[db.nextId := u], nextId := db.nextId + 1), Ok(db.nextId))
  }

  lemma {:induction false} SaveNewUserKeepsValid(db: Db, u: User)
    requires Valid(db)
    ensures Valid(SaveNewUser(db, u).0)
  {
    if SaveNewUser(db, u).1.Ok? {
      var db' := db.(users := db.users[db.nextId := u], nextId := db.nextId + 1);
      assert SaveNewUser(db, u).0 == db';
      assert UserIdentitiesUnique(db'.users);
      assert KeysBelow(db');
    }
  }

  /**
   * `create_user` as written: an empty identifier raises ValueError; any other is
   * passed as the keyword `identifier` to the `User` model, which has no such field,
   * so the model constructor raises TypeError before anything is saved.
   */
  function CreateUserAsWritten(db: Db, identifier: string, password: Option<string>, extra: ExtraFields): (out: (Db, Result<Uid>))
    ensures out.0 == db && out.1.Err?
    ensures identifier == "" ==> out.1.error.ValueError?
    ensures identifier != "" ==> out.1.error.TypeError?
  {
    if identifier == "" then (db, Err(ValueError("User must have a username")))
    else (db, Err(TypeError("User() got unexpected keyword arguments: 'identifier'")))
  }

  /** `create_user("a@b.c")` never creates a user, whatever the store. */
  lemma {:induction false} CreateUserAsWrittenNeverCreates(db: Db)
    ensures CreateUserAsWritten(db, "a@b.c", Some("pw"), ExtraFields("", None, None, None, None)).1 ==
      Err(TypeError("User() got unexpected keyword arguments: 'identifier'"))
    ensures CreateUserAsWritten(db, "a@b.c", Some("pw"), ExtraFields("", None, None, None, None)).0.users == db.users
  {
  }

  /** The user `create_user` builds, with the identifier stored in the username field `email`. */
  function NewUser(identifier: string, password: Option<string>, extra: ExtraFields): User {
    User(Some(identifier), extra.googleId, extra.name, PasswordOf(password),
         extra.isStaff.GetOr(false), extra.isSuperuser.GetOr(false), extra.isActive.GetOr(true))
  }

  /**
   * `create_user` as evidently intended: an empty identifier raises ValueError and
   * creates nothing; otherwise the user is saved with the model's defaults
   * (`is_active` True, `is_staff` and `is_superuser` False) for what the caller left out.
   */
  function CreateUser(db: Db, identifier: string, password: Option<string>, extra: ExtraFields): (out: (Db, Result<Uid>))
    ensures identifier == "" ==> out == (db, Err(ValueError("User must have a username")))
    ensures out.1.Err? ==> out.0 == db
    ensures out.1.Ok? ==> identifier != "" && out.1.value == db.nextId && out.1.value in out.0.users
    ensures out.1.Ok? ==> out.0.users == db.users[db.nextId := out.0.users[db.nextId]]
    ensures out.1.Ok? ==>
      var u := out.0.users[out.1.value];
      && u.email == Some(identifier)
      && u.isActive == extra.isActive.GetOr(true) && u.isStaff == extra.isStaff.GetOr(false)
      && u.isSuperuser == extra.isSuperuser.GetOr(false)
      && (u.password.Unusable? <==> password.None?)
  {
    if identifier == "" then (db, Err(ValueError("User must have a username")))
    else SaveNewUser(db, NewUser(identifier, password, extra))
  }

  /** A user created without extra flags is active, not staff and not superuser. */
  lemma {:induction false} CreateUserDefaults(db: Db, identifier: string, password: Option<string>, name: string)
    requires CreateUser(db, identifier, password, ExtraFields(name, None, None, None, None)).1.Ok?
    ensures var out := CreateUser(db, identifier, password, ExtraFields(name, None, None, None, None));
      var u := out.0.users[out.1.value];
      u.isActive && !u.isStaff && !u.isSuperuser
  {
  }

  /** `create_superuser`: `is_superuser` and `is_staff` default to True, then `create_user`. */
  function CreateSuperuser(db: Db, identifier: string, password: Option<string>, extra: ExtraFields): (out: (Db, Result<Uid>))
  {
    CreateUser(db, identifier, password,
      extra.(isSuperuser := SetDefault(extra.isSuperuser, true), isStaff := SetDefault(extra.isStaff, true)))
  }

  /** A superuser is staff and superuser unless the caller says otherwise; a caller's choice is kept. */
  lemma {:induction false} SuperuserFlags(db: Db, identifier: string, password: Option<string>, extra: ExtraFields)
    requires CreateSuperuser(db, identifier, password, extra).1.Ok?
    ensures var out := CreateSuperuser(db, identifier, password, extra);
      var u := out.0.users[out.1.value];
      && (extra.isStaff.None? ==> u.isStaff) && (extra.isSuperuser.None? ==> u.isSuperuser)
      && (extra.isStaff.Some? ==> u.isStaff == extra.isStaff.value)
      && (extra.isSuperuser.Some? ==> u.isSuperuser == extra.isSuperuser.value)
  {
  }

  lemma {:induction false} CreateUserKeepsValid(db: Db, identifier: string, password: Option<string>, extra: ExtraFields)
    requires Valid(db)
    ensures Valid(CreateUser(db, identifier, password, extra).0)
  {
    if identifier != "" {
      SaveNewUserKeepsValid(db, NewUser(identifier, password, extra));
    }
  }
}

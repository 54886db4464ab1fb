/**
 * The authentication routes. Each is a chain of early returns over the
 * store: register and login read the users table and then write through
 * the store, refresh only reads, logout blacklists its own token.
 * Request fields are optional strings; a missing key and JSON null are None.
 */
module Auth {
  import opened Seqs
  import opened Model
  import opened Dao
  import opened Tokens
  import opened Http

  predicate UsernameTaken(users: seq<User>, username: string) {
    exists u :: u in users && u.username == username
  }

  predicate EmailTaken(users: seq<User>, email: string) {
    exists u :: u in users && u.email == email
  }

  /**
   * register's checks in order: all three fields present and non-empty,
   * then a free username, then a free email. The error code of the first
   * that fails, or None.
   */
  function RegisterCheck(users: seq<User>, username: Option<string>, email: Option<string>, password: Option<string>)
    : (r: Option<string>)
    ensures r == Some("missing_fields") <==> !Truthy(username) || !Truthy(email) || !Truthy(password)
    ensures r == Some("username_exists") <==>
      Truthy(username) && Truthy(email) && Truthy(password) && UsernameTaken(users, username.value)
    ensures r == Some("email_exists") <==>
      && Truthy(username) && Truthy(email) && Truthy(password)
      && !UsernameTaken(users, username.value) && EmailTaken(users, email.value)
    ensures r.None? <==>
      && Truthy(username) && Truthy(email) && Truthy(password)
      && !UsernameTaken(users, username.value) && !EmailTaken(users, email.value)
  {
    if !Truthy(username) || !Truthy(email) || !Truthy(password) then Some("missing_fields")
    else if GetUserByUsername(users, username.value).Some? then Some("username_exists")
    else if GetUserByEmail(users, email.value).Some? then Some("email_exists")
    else None
  }

  /**
   * register: on a failed check 400 with its code and no change; otherwise
   * one new user whose stored hash is the password's, answered with 201,
   * or 500 create_failed when the insert fails.
   */
  method Register(store: Store, username: Option<string>, email: Option<string>, password: Option<string>,
                  h: Hasher, salt: string, now: int, dbError: bool) returns (reply: Reply<User>)
    requires store.Valid()
    modifies store
    ensures store.Valid()
    ensures reply.Failure? ==> unchanged(store)
    ensures var check := RegisterCheck(old(store.users), username, email, password);
      && (check.Some? ==> reply == Failure(400, check.value))
      && (check.None? && dbError ==> reply == Failure(500, "create_failed"))
      && (reply.Success? <==> check.None? && !dbError)
    ensures reply.Success? ==>
      && reply.status == 201
      && reply.value == NewUser(old(store.nextUserId), username.value, email.value, HashPassword(h, salt, password.value), now)
      && store.Snapshot() == old(store.Snapshot()).(users := old(store.users) + [reply.value])
  {
    var check := RegisterCheck(store.users, username, email, password);
    if check.Some? {
      return Failure(400, check.value);
    }
    var hashed := HashPassword(h, salt, password.value);
    var user := store.CreateUser(username.value, email.value, hashed, now, dbError);
    if user.None? {
      return Failure(500, "create_failed");
    }
    reply := Success(201, user.value);
  }

  /** A registered user's stored hash checks against the password, and is not the password text itself. */
  lemma RegisteredPasswordChecks(h: Hasher, salt: string, password: string, id: int, username: string, email: string, now: int)
    ensures var u := NewUser(id, username, email, HashPassword(h, salt, password), now);
      && CheckPassword(h, u.passwordHash, password)
      && u.passwordHash == PasswordHash(salt, h.digest(salt, password))
      && u.isActive && u.lastLogin.None?
  {
  }

  /** What a successful login answers. */
  datatype Session = Session(accessToken: string, refreshToken: string, user: User)

  /** login's checks: both fields present, a user with that name, a matching password. */
  function LoginCheck(users: seq<User>, username: Option<string>, password: Option<string>, h: Hasher)
    : (r: Reply<User>)
    requires UniqueBy(users, (u: User) => u.username)
    ensures r.Failure? ==> r == Failure(400, "missing_fields") || r == Failure(401, "invalid_credentials")
    ensures r.Failure? && r.status == 400 <==> !Truthy(username) || !Truthy(password)
    ensures r.Success? <==>
      && Truthy(username) && Truthy(password)
      && exists u :: u in users && u.username == username.value && CheckPassword(h, u.passwordHash, password.value)
    ensures r.Success? ==> r.value in users && r.value.username == username.value
  {
    if !Truthy(username) || !Truthy(password) then Failure(400, "missing_fields")
    else match GetUserByUsername(users, username.value)
      case None => Failure(401, "invalid_credentials")
      case Some(u) =>
        if !CheckPassword(h, u.passwordHash, password.value) then Failure(401, "invalid_credentials")
        else
          LoginUserUnique(users, u, username.value);
          Success(200, u)
  }

  /** Usernames are unique, so the user found by name is the only one with it. */
  lemma LoginUserUnique(users: seq<User>, u: User, username: string)
    requires UniqueBy(users, (u: User) => u.username)
    requires u in users && u.username == username
    ensures forall v :: v in users && v.username == username ==> v == u
  {
    forall v | v in users && v.username == username ensures v == u {
      var i :| 0 <= i < |users| && users[i] == u;
      var j :| 0 <= j < |users| && users[j] == v;
      assert users[i].username == users[j].username;
      assert !(i < j) && !(j < i);
    }
  }

  /**
   * login: on a failed check its reply and no change; otherwise stamp the
   * user's login time (a failure there is ignored) and answer 200 with an
   * access and a refresh token for the user's id and the user as now stored.
   */
  method Login(store: Store, username: Option<string>, password: Option<string>, h: Hasher, codec: Codec,
               now: int, dbError: bool) returns (reply: Reply<Session>)
    requires store.Valid()
    modifies store
    ensures store.Valid()
    ensures var check := LoginCheck(old(store.users), username, password, h);
      && (check.Failure? ==> reply == Failure(check.status, check.code) && unchanged(store))
      && (check.Success? ==>
            var u := check.value;
            && reply.Success? && reply.status == 200
            && reply.value.accessToken == GenerateAccessToken(codec, u.id, now)
            && reply.value.refreshToken == GenerateRefreshToken(codec, u.id, now)
            && reply.value.user == (if dbError then u else LoggedIn(u, now))
            && (dbError ==> unchanged(store))
            && (!dbError ==> store.users == old(store.users)[UserIndex(old(store.users), u.id).value := LoggedIn(u, now)])
            && (!dbError ==> GetUserById(store.users, u.id) == Some(LoggedIn(u, now)))
            && store.Snapshot().(users := old(store.users)) == old(store.Snapshot()))
  {
    var check := LoginCheck(store.users, username, password, h);
    if check.Failure? {
      return Failure(check.status, check.code);
    }
    var u := check.value;
    ghost var i := UserIndex(store.users, u.id).value;
    SameIdSameUser(store.users, i, u);
    var stamped := store.UpdateUserLastLogin(u.id, now, dbError);
    var access := GenerateAccessToken(codec, u.id, now);
    var refresh := GenerateRefreshToken(codec, u.id, now);
    var current := GetUserById(store.users, u.id);
    reply := Success(200, Session(access, refresh, current.value));
  }

  /** Ids are unique, so the user at the first index with u's id is u. */
  lemma SameIdSameUser(users: seq<User>, i: int, u: User)
    requires UniqueBy(users, (u: User) => u.id)
    requires u in users && 0 <= i < |users| && users[i].id == u.id
    ensures users[i] == u
  {
    var j :| 0 <= j < |users| && users[j] == u;
    assert users[i].id == users[j].id;
    assert !(i < j) && !(j < i);
  }

  /**
   * refresh: behind refresh_token_required, a new access token for the
   * token's user. It reads only, so the refresh token is neither rotated
   * nor blacklisted.
   */
  function Refresh(codec: Codec, users: seq<User>, blacklist: seq<BlacklistedToken>, header: Option<string>,
                   now: int, lookupError: bool): (r: Reply<string>)
    ensures var g := RefreshTokenRequired(codec, users, blacklist, header, now, lookupError);
      && (g.Reject? ==> r == Failure(GuardStatus, ErrorCode(g.error)))
      && (g.Admit? ==> r == Success(200, GenerateAccessToken(codec, g.user.id, now)))
  {
    match RefreshTokenRequired(codec, users, blacklist, header, now, lookupError)
    case Reject(e) => Failure(GuardStatus, ErrorCode(e))
    case Admit(u) => Success(200, GenerateAccessToken(codec, u.id, now))
  }

  /**
   * A live refresh token of an existing user is answered with an access
   * token for that user, which token_required then admits.
   */
  lemma RefreshIssuesAccess(codec: Codec, users: seq<User>, blacklist: seq<BlacklistedToken>, scheme: string,
                            userId: int, iat: int, now: int)
    requires Sound(codec) && ' ' !in scheme
    requires now < iat + RefreshLifetime
    requires !IsTokenBlacklisted(blacklist, GenerateRefreshToken(codec, userId, iat), false)
    requires !IsTokenBlacklisted(blacklist, GenerateAccessToken(codec, userId, now), false)
    requires GetUserById(users, userId).Some?
    ensures var r := Refresh(codec, users, blacklist, Some(scheme + " " + GenerateRefreshToken(codec, userId, iat)), now, false);
      && r == Success(200, GenerateAccessToken(codec, userId, now))
      && TokenRequired(codec, users, blacklist, Some(scheme + " " + r.value), now, false) == Admit(GetUserById(users, userId).value)
  {
    RefreshTokenAdmitted(codec, users, blacklist, scheme, userId, iat, now);
    AccessTokenAdmitted(codec, users, blacklist, scheme, userId, now, now);
  }

  /**
   * logout: behind token_required, blacklist the presented token and
   * answer 204; 500 logout_failed when the insert fails.
   */
  method Logout(store: Store, codec: Codec, header: Option<string>, now: int, lookupError: bool, dbError: bool)
    returns (reply: Reply<()>)
    requires store.Valid()
    modifies store
    ensures store.Valid()
    ensures var g := TokenRequired(codec, old(store.users), old(store.blacklist), header, now, lookupError);
      && (g.Reject? ==> reply == Failure(GuardStatus, ErrorCode(g.error)) && unchanged(store))
      && (g.Admit? && dbError ==> reply == Failure(500, "logout_failed") && unchanged(store))
      && (g.Admit? && !dbError ==>
            && reply == Success(204, ())
            && store.Snapshot() == old(store.Snapshot()).(blacklist := old(store.blacklist) + [BlacklistedToken(BearerToken(header).value, now)]))
    ensures reply.Success? ==>
      forall later, e :: Authenticate(codec, store.users, store.blacklist, header, later, e, AccessType) == Reject(TokenInvalid)
  {
    var g := TokenRequired(codec, store.users, store.blacklist, header, now, lookupError);
    if g.Reject? {
      return Failure(GuardStatus, ErrorCode(g.error));
    }
    var token := BearerToken(header).value;
    var ok := store.AddTokenToBlacklist(token, now, dbError);
    if !ok {
      return Failure(500, "logout_failed");
    }
    forall later, e ensures Authenticate(codec, store.users, store.blacklist, header, later, e, AccessType) == Reject(TokenInvalid) {
      RevokedTokenRejected(codec, store.users, store.blacklist, header, later, e, AccessType);
    }
    reply := Success(204, ());
  }

  /** The first half of the service's API script: register on a fresh store, then log in. */
  method RegisterThenLogin(codec: Codec, h: Hasher, salt: string, username: string, email: string, password: string, t0: int)
    returns (store: Store, registered: Reply<User>, login: Reply<Session>)
    requires username != "" && email != "" && password != ""
    ensures fresh(store) && store.Valid()
    ensures registered.Success? && registered.status == 201 && registered.value.username == username
    ensures var u := registered.value;
      && login == Success(200, Session(GenerateAccessToken(codec, u.id, t0 + 1), GenerateRefreshToken(codec, u.id, t0 + 1), LoggedIn(u, t0 + 1)))
      && store.Snapshot() == Tables([LoggedIn(u, t0 + 1)], [], [], [], [])
  {
    store := new Store();
    registered := Register(store, Some(username), Some(email), Some(password), h, salt, t0, false);
    var u := registered.value;
    assert store.Snapshot() == Tables([u], [], [], [], []);
    assert CheckPassword(h, HashPassword(h, salt, password), password);
    assert LoginCheck(store.users, Some(username), Some(password), h) == Success(200, u);
    login := Login(store, Some(username), Some(password), h, codec, t0 + 1, false);
  }

  /**
   * The client session of the service's API script, on a fresh store: register,
   * log in, use the access token, refresh, log out with the new access
   * token. Every step succeeds; afterwards the revoked access token is
   * refused as invalid, while the refresh token still yields access.
   */
  method SessionScenario(codec: Codec, h: Hasher, salt: string, username: string, email: string, password: string, t0: int)
    returns (me: Guard, refreshed: Reply<string>, loggedOut: Reply<()>, revoked: Guard, refreshedAgain: Reply<string>)
    requires Sound(codec)
    requires username != "" && email != "" && password != ""
    ensures me.Admit? && me.user.username == username && me.user.lastLogin == Some(t0 + 1)
    ensures refreshed.Success? && refreshed.status == 200
    ensures loggedOut == Success(204, ())
    ensures revoked == Reject(TokenInvalid)
    ensures refreshedAgain.Success?
  {
    var store, registered, login := RegisterThenLogin(codec, h, salt, username, email, password, t0);
    var session := login.value;
    var v := session.user;
    var id := v.id;
    var users := [v];
    assert store.users == users && store.blacklist == [];
    assert GetUserById(users, id) == Some(v);
    AccessTokenAdmitted(codec, users, [], "Bearer", id, t0 + 1, t0 + 2);
    me := TokenRequired(codec, store.users, store.blacklist, Some("Bearer" + " " + session.accessToken), t0 + 2, false);

    RefreshTokenAdmitted(codec, users, [], "Bearer", id, t0 + 1, t0 + 3);
    refreshed := Refresh(codec, store.users, store.blacklist, Some("Bearer" + " " + session.refreshToken), t0 + 3, false);
    var access := GenerateAccessToken(codec, id, t0 + 3);
    var header := Some("Bearer" + " " + access);

    AccessTokenAdmitted(codec, users, [], "Bearer", id, t0 + 3, t0 + 4);
    assert TokenRequired(codec, store.users, store.blacklist, header, t0 + 4, false) == Admit(v);
    BearerTokenOfHeader("Bearer", access);
    loggedOut := Logout(store, codec, header, t0 + 4, false, false);
    revoked := TokenRequired(codec, store.users, store.blacklist, header, t0 + 5, false);

    var blacklist := [BlacklistedToken(access, t0 + 4)];
    assert store.blacklist == blacklist;
    SoundInjective(codec, RefreshClaims(id, t0 + 1), AccessClaims(id, t0 + 3));
    assert !IsTokenBlacklisted(blacklist, session.refreshToken, false);
    RefreshTokenAdmitted(codec, users, blacklist, "Bearer", id, t0 + 1, t0 + 5);
    refreshedAgain := Refresh(codec, store.users, store.blacklist, Some("Bearer" + " " + session.refreshToken), t0 + 5, false);
  }
}

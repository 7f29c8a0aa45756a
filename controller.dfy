/** The authentication controller as it runs: a user collection that each handler reads,
    changes in a local copy of one user document, and saves back. Every handler is proved
    to produce the reply and the collection that the matching `Sessions` function gives. */
module AuthController {
  import opened AuthTypes
  import opened Sessions
  import AuthMiddleware
  import SessionProperties

  /** The `users` collection of the database. */
  class UserStore {
    var users: map<UserId, User>
    /** Every id below `nextId` may be taken; the next document created gets `nextId`. */
    var nextId: UserId

    /** Emails are unique, and every stored id was handed out before. */
    predicate Valid()
      reads this
    {
      && EmailsUnique(users)
      && forall id :: id in users ==> id < nextId
    }

    /** An empty collection (the test suite's `User.deleteMany()`). */
    constructor ()
      ensures Valid()
      ensures users == map[] && nextId == 0
    {
      users := map[];
      nextId := 0;
    }

    /** `register`: the handler in src/controllers/authController.ts. */
    method Register(username: Option<string>, email: Option<string>, password: Option<string>,
                    hash: string -> string, issued: TokenPair) returns (reply: Reply)
      requires Valid()
      modifies this
      ensures Valid()
      ensures Outcome(reply, users) == Sessions.Register(old(users), old(nextId), username, email, password, hash, issued)
      ensures nextId == if reply.status == 201 then old(nextId) + 1 else old(nextId)
    {
      if !Truthy(username) || !Truthy(email) || !Truthy(password) {
        return Reply(400, Message(RequiredFields));
      }
      var existing := UserByEmail(users, email.value);
      if existing.Some? {
        return Reply(409, Message(EmailInUse));
      }
      var passwordHash := hash(password.value);
      // User.create: a fresh id, an empty whitelist, persisted at once
      var id := nextId;
      nextId := nextId + 1;
      var user := User(username.value, email.value, passwordHash, []);
      users := users[id := user];
      // push the issued refresh token, then save
      user := user.(refreshTokens := user.refreshTokens + [issued.refreshToken]);
      users := users[id := user];
      reply := Reply(201, Issued(issued));
    }

    /** `login`. */
    method Login(email: Option<string>, password: Option<string>,
                 matches: (string, string) -> bool, issued: TokenPair) returns (reply: Reply)
      requires Valid()
      modifies this
      ensures Valid()
      ensures Outcome(reply, users) == Sessions.Login(old(users), email, password, matches, issued)
      ensures nextId == old(nextId)
    {
      if !Truthy(email) || !Truthy(password) {
        return Reply(400, Message(CredentialsRequired));
      }
      var found := UserByEmail(users, email.value);
      if found.None? {
        return Reply(401, Message(InvalidCredentials));
      }
      var id := found.value;
      var user := users[id];
      if !matches(password.value, user.passwordHash) {
        return Reply(401, Message(InvalidCredentials));
      }
      user := user.(refreshTokens := user.refreshTokens + [issued.refreshToken]);
      users := users[id := user];
      reply := Reply(200, Issued(issued));
    }

    /** `logout`. */
    method Logout(presented: Option<string>, verify: string -> Option<UserId>) returns (reply: Reply)
      requires Valid()
      modifies this
      ensures Valid()
      ensures Outcome(reply, users) == Sessions.Logout(old(users), presented, verify)
      ensures nextId == old(nextId)
    {
      if !Truthy(presented) {
        return Reply(400, Message(RefreshTokenRequired));
      }
      var t := presented.value;
      var payload := verify(t);
      if payload.None? {
        return Reply(500, Message(LogoutFailed));
      }
      var id := payload.value;
      if id !in users {
        return Reply(401, Message(InvalidRefreshToken));
      }
      var user := users[id];
      if t !in user.refreshTokens {
        // possible token theft: empty the whitelist
        user := user.(refreshTokens := []);
        users := users[id := user];
        return Reply(401, Message(InvalidRefreshToken));
      }
      user := user.(refreshTokens := Without(user.refreshTokens, t));
      users := users[id := user];
      reply := Reply(200, Message(LoggedOut));
    }

    /** `refreshToken`. */
    method RefreshToken(presented: Option<string>, verify: string -> Option<UserId>, issued: TokenPair)
      returns (reply: Reply)
      requires Valid()
      modifies this
      ensures Valid()
      ensures Outcome(reply, users) == Sessions.Refresh(old(users), presented, verify, issued)
      ensures nextId == old(nextId)
    {
      if !Truthy(presented) {
        return Reply(400, Message(RefreshTokenRequired));
      }
      var t := presented.value;
      var payload := verify(t);
      if payload.None? {
        return Reply(500, Message(RefreshFailed));
      }
      var id := payload.value;
      if id !in users {
        return Reply(401, Message(InvalidRefreshToken));
      }
      var user := users[id];
      if t !in user.refreshTokens {
        user := user.(refreshTokens := []);
        users := users[id := user];
        return Reply(401, Message(InvalidRefreshToken));
      }
      user := user.(refreshTokens := Without(user.refreshTokens, t));
      user := user.(refreshTokens := user.refreshTokens + [issued.refreshToken]);
      users := users[id := user];
      reply := Reply(200, Issued(issued));
    }
  }

  /** The `POST /register` tests of src/tests/auth.test.ts on the emptied collection:
      registering succeeds, and registering the same email again is refused. A refused call
      issues nothing, so the pair passed to it is never returned. */
  method RegisterTests(store: UserStore, username: string, email: string, password: string,
                       otherUsername: string, otherPassword: string,
                       hash: string -> string, matches: (string, string) -> bool,
                       atRegister: TokenPair, unused: TokenPair)
    returns (statuses: seq<int>)
    requires store.Valid() && store.users == map[] && store.nextId == 0
    requires username != "" && email != "" && password != ""
    requires otherUsername != "" && otherPassword != ""
    requires matches(password, hash(password))
    modifies store
    ensures store.Valid()
    ensures SessionProperties.CanLogIn(store.users, email, password, matches, 0)
    ensures store.users[0].passwordHash == hash(password)
    ensures statuses == [201, 409]
  {
    SessionProperties.RegisterGivesCredentials(username, email, password, hash, matches, atRegister);
    var registered := store.Register(Some(username), Some(email), Some(password), hash, atRegister);
    var duplicate := store.Register(Some(otherUsername), Some(email), Some(otherPassword), hash, unused);
    statuses := [registered.status, duplicate.status];
  }

  /** The `POST /login` tests: the registered credentials log in, and a wrong password is
      refused. The token the login issued ends up on the whitelist. */
  method LoginTests(store: UserStore, email: string, password: string, wrongPassword: string,
                    matches: (string, string) -> bool, atLogin: TokenPair, unused: TokenPair)
    returns (statuses: seq<int>)
    requires store.Valid() && SessionProperties.CanLogIn(store.users, email, password, matches, 0)
    requires wrongPassword != "" && !matches(wrongPassword, store.users[0].passwordHash)
    modifies store
    ensures store.Valid() && SessionProperties.CanLogIn(store.users, email, password, matches, 0)
    ensures atLogin.refreshToken in store.users[0].refreshTokens
    ensures statuses == [200, 401]
  {
    SessionProperties.OneLogin(store.users, email, password, matches, atLogin, 0);
    var loggedIn := store.Login(Some(email), Some(password), matches, atLogin);
    SessionProperties.WrongPasswordRefused(store.users, email, wrongPassword, matches, unused, 0);
    var wrong := store.Login(Some(email), Some(wrongPassword), matches, unused);
    statuses := [loggedIn.status, wrong.status];
  }

  /** The `POST /refresh-token` rotation tests: the login token is rotated, the token that
      rotation issued is rotated again, and presenting it once more is refused. */
  method RefreshTests(store: UserStore, email: string, password: string,
                      matches: (string, string) -> bool, verify: string -> Option<UserId>,
                      loginToken: string, atFirst: TokenPair, atSecond: TokenPair, unused: TokenPair)
    returns (statuses: seq<int>)
    requires store.Valid() && SessionProperties.CanLogIn(store.users, email, password, matches, 0)
    requires loginToken in store.users[0].refreshTokens
    requires loginToken != "" && verify(loginToken) == Some(0)
    requires atFirst.refreshToken != "" && verify(atFirst.refreshToken) == Some(0)
    requires atSecond.refreshToken != atFirst.refreshToken
    modifies store
    ensures store.Valid() && SessionProperties.CanLogIn(store.users, email, password, matches, 0)
    ensures statuses == [200, 200, 401]
  {
    ghost var before := store.users;
    SessionProperties.RotateTwiceThenReplay(store.users, 0, loginToken, verify, atFirst, atSecond, unused);
    var first := store.RefreshToken(Some(loginToken), verify, atFirst);
    var second := store.RefreshToken(Some(atFirst.refreshToken), verify, atSecond);
    var replayed := store.RefreshToken(Some(atFirst.refreshToken), verify, unused);
    SessionProperties.CredentialsSurvive(before, store.users, email, password, matches, 0);
    statuses := [first.status, second.status, replayed.status];
  }

  /** The `POST /logout` tests, each preceded by the suite's fresh login: a logout succeeds,
      a refresh with a logged-out token is refused, and a logout with a token that fails
      verification is a server error. */
  method LogoutTests(store: UserStore, email: string, password: string,
                     matches: (string, string) -> bool, verify: string -> Option<UserId>,
                     atLogin1: TokenPair, atLogin2: TokenPair, atLogin3: TokenPair, unused: TokenPair)
    returns (statuses: seq<int>)
    requires store.Valid() && SessionProperties.CanLogIn(store.users, email, password, matches, 0)
    requires atLogin1.refreshToken != "" && verify(atLogin1.refreshToken) == Some(0)
    requires atLogin2.refreshToken != "" && verify(atLogin2.refreshToken) == Some(0)
    requires verify("invalid.token.here").None?
    modifies store
    ensures store.Valid() && SessionProperties.CanLogIn(store.users, email, password, matches, 0)
    ensures statuses == [200, 200] + [200, 200, 401] + [200, 500]
  {
    var s := LogoutOnce(store, email, password, matches, verify, atLogin1);
    var t := LogoutThenRefresh(store, email, password, matches, verify, atLogin2, unused);
    SessionProperties.OneLogin(store.users, email, password, matches, atLogin3, 0);
    var login := store.Login(Some(email), Some(password), matches, atLogin3);
    var invalid := store.Logout(Some("invalid.token.here"), verify);
    statuses := s + t + [login.status, invalid.status];
  }

  /** "should logout successfully": log in, then log out with the token just issued. */
  method LogoutOnce(store: UserStore, email: string, password: string,
                    matches: (string, string) -> bool, verify: string -> Option<UserId>, atLogin: TokenPair)
    returns (statuses: seq<int>)
    requires store.Valid() && SessionProperties.CanLogIn(store.users, email, password, matches, 0)
    requires atLogin.refreshToken != "" && verify(atLogin.refreshToken) == Some(0)
    modifies store
    ensures store.Valid() && SessionProperties.CanLogIn(store.users, email, password, matches, 0)
    ensures statuses == [200, 200]
  {
    SessionProperties.OneLogin(store.users, email, password, matches, atLogin, 0);
    var login := store.Login(Some(email), Some(password), matches, atLogin);
    ghost var before := store.users;
    var logout := store.Logout(Some(atLogin.refreshToken), verify);
    SessionProperties.CredentialsSurvive(before, store.users, email, password, matches, 0);
    statuses := [login.status, logout.status];
  }

  /** "should fail to refresh token after logout": log in, log out, then refresh with the
      logged-out token. */
  method LogoutThenRefresh(store: UserStore, email: string, password: string,
                           matches: (string, string) -> bool, verify: string -> Option<UserId>,
                           atLogin: TokenPair, unused: TokenPair)
    returns (statuses: seq<int>)
    requires store.Valid() && SessionProperties.CanLogIn(store.users, email, password, matches, 0)
    requires atLogin.refreshToken != "" && verify(atLogin.refreshToken) == Some(0)
    modifies store
    ensures store.Valid() && SessionProperties.CanLogIn(store.users, email, password, matches, 0)
    ensures statuses == [200, 200, 401]
  {
    SessionProperties.OneLogin(store.users, email, password, matches, atLogin, 0);
    var login := store.Login(Some(email), Some(password), matches, atLogin);
    ghost var before := store.users;
    var logout := store.Logout(Some(atLogin.refreshToken), verify);
    ghost var afterLogout := store.users;
    SessionProperties.LogoutConsumes(before, atLogin.refreshToken, verify, unused);
    var refresh := store.RefreshToken(Some(atLogin.refreshToken), verify, unused);
    SessionProperties.CredentialsSurvive(before, afterLogout, email, password, matches, 0);
    SessionProperties.CredentialsSurvive(afterLogout, store.users, email, password, matches, 0);
    statuses := [login.status, logout.status, refresh.status];
  }

  /** The remaining `POST /refresh-token` tests: no token is a bad request, and a token that
      fails verification is a server error. Neither changes the collection. */
  method RefreshErrorTests(store: UserStore, verify: string -> Option<UserId>, unused: TokenPair)
    returns (statuses: seq<int>)
    requires store.Valid()
    requires verify("invalid.token").None?
    modifies store
    ensures store.Valid() && store.users == old(store.users)
    ensures statuses == [400, 500]
  {
    var missing := store.RefreshToken(None, verify, unused);
    var invalid := store.RefreshToken(Some("invalid.token"), verify, unused);
    statuses := [missing.status, invalid.status];
  }

  /** The whole of src/tests/auth.test.ts, in order, on one collection emptied first. Each
      refresh token the suite presents and the issuer produced for the test user verifies to
      that user (id 0); the two literal tokens fail verification. */
  method AuthTestSuite(username: string, email: string, password: string,
                       otherUsername: string, otherPassword: string, wrongPassword: string,
                       hash: string -> string, matches: (string, string) -> bool,
                       verify: string -> Option<UserId>,
                       atRegister: TokenPair, atLogin: TokenPair, atFirst: TokenPair, atSecond: TokenPair,
                       atLogin1: TokenPair, atLogin2: TokenPair, atLogin3: TokenPair, unused: TokenPair)
    returns (statuses: seq<int>)
    requires username != "" && email != "" && password != ""
    requires otherUsername != "" && otherPassword != "" && wrongPassword != ""
    requires matches(password, hash(password)) && !matches(wrongPassword, hash(password))
    requires atLogin.refreshToken != "" && verify(atLogin.refreshToken) == Some(0)
    requires atFirst.refreshToken != "" && verify(atFirst.refreshToken) == Some(0)
    requires atSecond.refreshToken != atFirst.refreshToken
    requires atLogin1.refreshToken != "" && verify(atLogin1.refreshToken) == Some(0)
    requires atLogin2.refreshToken != "" && verify(atLogin2.refreshToken) == Some(0)
    requires verify("invalid.token.here").None? && verify("invalid.token").None?
    ensures statuses == [201, 409] + [200, 401] + [200, 200, 401] + [200, 200, 200, 200, 401, 200, 500] + [400, 500]
  {
    var store := new UserStore();
    var register := RegisterTests(store, username, email, password, otherUsername, otherPassword,
                                  hash, matches, atRegister, unused);
    var login := LoginTests(store, email, password, wrongPassword, matches, atLogin, unused);
    var refresh := RefreshTests(store, email, password, matches, verify, atLogin.refreshToken,
                                atFirst, atSecond, unused);
    var logout := LogoutTests(store, email, password, matches, verify, atLogin1, atLogin2, atLogin3, unused);
    var errors := RefreshErrorTests(store, verify, unused);
    statuses := register + login + refresh + logout + errors;
  }

  /** Not one of the repository's tests: after a logout, the guard still accepts the access
      token issued with the logged-out refresh token, because it never reads the collection;
      a second logout with the same refresh token is refused. */
  method AccessTokenOutlivesLogout(username: string, email: string, password: string,
                                   hash: string -> string, verifyRefresh: string -> Option<UserId>,
                                   verifyAccess: string -> Option<UserId>, atRegister: TokenPair)
    returns (statuses: seq<int>, decision: AuthMiddleware.Decision)
    requires username != "" && email != "" && password != ""
    requires atRegister.refreshToken != "" && verifyRefresh(atRegister.refreshToken) == Some(0)
    requires atRegister.token != "" && ' ' !in atRegister.token
    requires verifyAccess(atRegister.token) == Some(0)
    ensures statuses == [201, 200, 401]
    ensures decision == AuthMiddleware.Accept(0)
  {
    var store := new UserStore();
    var registered := store.Register(Some(username), Some(email), Some(password), hash, atRegister);
    ghost var afterRegister := store.users;
    assert afterRegister[0].refreshTokens == [atRegister.refreshToken];
    var loggedOut := store.Logout(Some(atRegister.refreshToken), verifyRefresh);
    AuthMiddleware.BearerTokenForm(atRegister.token, "", verifyAccess);
    assert AuthMiddleware.BearerPrefix + atRegister.token + "" == AuthMiddleware.BearerPrefix + atRegister.token;
    decision := AuthMiddleware.Authenticate(Some(AuthMiddleware.BearerPrefix + atRegister.token), verifyAccess);
    SessionProperties.LogoutConsumes(afterRegister, atRegister.refreshToken, verifyRefresh, atRegister);
    var again := store.Logout(Some(atRegister.refreshToken), verifyRefresh);
    statuses := [registered.status, loggedOut.status, again.status];
  }
}

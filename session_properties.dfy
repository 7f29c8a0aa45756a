/** Properties of sequences of authentication operations: rotation consumes the presented
    token, a replay empties the whitelist, logout consumes its token, logins accumulate
    without limit, and the whitelist only ever holds tokens issued for its owner. */
module SessionProperties {
  import opened AuthTypes
  import opened Sessions

  /** At most one user is the first match for an email. */
  lemma FirstMatchUnique(users: map<UserId, User>, email: string, a: UserId, b: UserId)
    requires IsFirstMatch(users, email, a) && IsFirstMatch(users, email, b)
    ensures a == b
  {
  }

  /** `findOne({ email })` looks only at emails, so it gives the same user before and after
      an operation that changes nothing but refresh-token lists. */
  lemma UserByEmailSameAccounts(before: map<UserId, User>, after: map<UserId, User>, email: string)
    requires SameAccounts(before, after)
    ensures UserByEmail(before, email) == UserByEmail(after, email)
  {
    var x, y := UserByEmail(before, email), UserByEmail(after, email);
    if x.Some? {
      assert after[x.value].email == email;
      assert IsFirstMatch(after, email, x.value);
      FirstMatchUnique(after, email, x.value, y.value);
    }
  }

  /** A user who has just registered can log in with the same password, provided
      `bcrypt.compare` accepts the password against its own hash; the whitelist then holds
      the two issued refresh tokens in order. */
  lemma RegisterThenLogin(users: map<UserId, User>, newId: UserId,
                          username: string, email: string, password: string,
                          hash: string -> string, matches: (string, string) -> bool,
                          atRegister: TokenPair, atLogin: TokenPair)
    requires newId !in users
    requires Register(users, newId, Some(username), Some(email), Some(password), hash, atRegister).reply.status == 201
    requires matches(password, hash(password))
    ensures var registered := Register(users, newId, Some(username), Some(email), Some(password), hash, atRegister).users;
            var out := Login(registered, Some(email), Some(password), matches, atLogin);
            && out.reply == Reply(200, Issued(atLogin))
            && out.users[newId].refreshTokens == [atRegister.refreshToken, atLogin.refreshToken]
  {
    var registered := Register(users, newId, Some(username), Some(email), Some(password), hash, atRegister).users;
    assert IsFirstMatch(registered, email, newId);
    FirstMatchUnique(registered, email, newId, UserByEmail(registered, email).value);
  }

  /** A whitelisted token `t0` is rotated to `t1`, and `t1` is rotated to a different token:
      both rotations succeed, and presenting `t1` once more is then refused. */
  lemma RotateTwiceThenReplay(users: map<UserId, User>, id: UserId, t0: string,
                              verify: string -> Option<UserId>,
                              first: TokenPair, second: TokenPair, replayIssued: TokenPair)
    requires id in users && t0 in users[id].refreshTokens
    requires t0 != "" && verify(t0) == Some(id)
    requires first.refreshToken != "" && verify(first.refreshToken) == Some(id)
    requires second.refreshToken != first.refreshToken
    ensures var once := Refresh(users, Some(t0), verify, first);
            var twice := Refresh(once.users, Some(first.refreshToken), verify, second);
            && once.reply == Reply(200, Issued(first))
            && twice.reply == Reply(200, Issued(second))
            && Refresh(twice.users, Some(first.refreshToken), verify, replayIssued).reply.status == 401
  {
    var once := Refresh(users, Some(t0), verify, first);
    assert first.refreshToken in once.users[id].refreshTokens;
    ReplayAfterRotation(once.users, first.refreshToken, verify, second, replayIssued);
  }

  /** Rotation consumes the presented token: presenting it again (with the issuer having
      produced a different token) is refused as theft and empties the owner's whitelist. */
  lemma ReplayAfterRotation(users: map<UserId, User>, t: string, verify: string -> Option<UserId>,
                            issued: TokenPair, replayIssued: TokenPair)
    requires Refresh(users, Some(t), verify, issued).reply.status == 200
    requires issued.refreshToken != t
    ensures var rotated := Refresh(users, Some(t), verify, issued).users;
            var id := verify(t).value;
            && id in rotated
            && Refresh(rotated, Some(t), verify, replayIssued)
               == Outcome(Reply(401, Message(InvalidRefreshToken)), SetTokens(rotated, id, []))
  {
    var id := verify(t).value;
    var rotated := Refresh(users, Some(t), verify, issued).users;
    WithoutCounts(users[id].refreshTokens, t);
    assert t !in rotated[id].refreshTokens;
  }

  /** Once a user's whitelist is empty, every refresh token that verifies to that user is
      refused by both `refreshToken` and `logout`, and nothing changes. */
  lemma EmptiedWhitelistRefusesAll(users: map<UserId, User>, id: UserId, t: string,
                                   verify: string -> Option<UserId>, issued: TokenPair)
    requires id in users && users[id].refreshTokens == []
    requires t != "" && verify(t) == Some(id)
    ensures Refresh(users, Some(t), verify, issued) == Outcome(Reply(401, Message(InvalidRefreshToken)), users)
    ensures Logout(users, Some(t), verify) == Outcome(Reply(401, Message(InvalidRefreshToken)), users)
  {
    assert SetTokens(users, id, []) == users;
  }

  /** The whole-session invalidation of a replay: after rotating `t` to `next`, replaying
      `t` is refused, and then `next` is refused too. */
  lemma ReplayRevokesRotatedToken(users: map<UserId, User>, t: string, verify: string -> Option<UserId>,
                                  issued: TokenPair, replayIssued: TokenPair, laterIssued: TokenPair)
    requires Refresh(users, Some(t), verify, issued).reply.status == 200
    requires issued.refreshToken != t && issued.refreshToken != ""
    requires verify(issued.refreshToken) == verify(t)
    ensures var rotated := Refresh(users, Some(t), verify, issued).users;
            var replayed := Refresh(rotated, Some(t), verify, replayIssued);
            && replayed.reply.status == 401
            && Refresh(replayed.users, Some(issued.refreshToken), verify, laterIssued).reply.status == 401
  {
    ReplayAfterRotation(users, t, verify, issued, replayIssued);
    var rotated := Refresh(users, Some(t), verify, issued).users;
    var id := verify(t).value;
    EmptiedWhitelistRefusesAll(SetTokens(rotated, id, []), id, issued.refreshToken, verify, laterIssued);
  }

  /** Logout consumes its token: a later `refreshToken` or a second `logout` with it is
      refused as theft and empties the owner's whitelist. Logout is not idempotent. */
  lemma LogoutConsumes(users: map<UserId, User>, t: string, verify: string -> Option<UserId>, issued: TokenPair)
    requires Logout(users, Some(t), verify).reply.status == 200
    ensures var after := Logout(users, Some(t), verify).users;
            var id := verify(t).value;
            && id in after
            && Refresh(after, Some(t), verify, issued)
               == Outcome(Reply(401, Message(InvalidRefreshToken)), SetTokens(after, id, []))
            && Logout(after, Some(t), verify)
               == Outcome(Reply(401, Message(InvalidRefreshToken)), SetTokens(after, id, []))
  {
    var id := verify(t).value;
    WithoutCounts(Logout(users, Some(t), verify).users[id].refreshTokens, t);
  }

  /** The replies and the final collection of a run of logins. */
  datatype Run = Run(statuses: seq<int>, users: map<UserId, User>)

  /** A run of logins, one per issued pair, each performed by `login` on the collection the
      previous one left. */
  function LoginRun(users: map<UserId, User>, pairs: seq<TokenPair>,
                    login: (map<UserId, User>, TokenPair) -> Outcome): Run
    decreases |pairs|
  {
    if pairs == [] then Run([], users)
    else
      var first := login(users, pairs[0]);
      var rest := LoginRun(first.users, pairs[1..], login);
      Run([first.reply.status] + rest.statuses, rest.users)
  }

  /** Logging in again and again with the same email and password. */
  function LoginMany(users: map<UserId, User>, email: string, password: string,
                     matches: (string, string) -> bool, pairs: seq<TokenPair>): Run
  {
    LoginRun(users, pairs, (u, pair) => Login(u, Some(email), Some(password), matches, pair))
  }

  /** The refresh tokens of the given pairs, in order. */
  function RefreshTokensOf(pairs: seq<TokenPair>): (tokens: seq<string>)
    ensures |tokens| == |pairs|
    ensures forall i :: 0 <= i < |pairs| ==> tokens[i] == pairs[i].refreshToken
  {
    if pairs == [] then [] else [pairs[0].refreshToken] + RefreshTokensOf(pairs[1..])
  }

  lemma OnlyChangedTransitive(a: map<UserId, User>, b: map<UserId, User>, c: map<UserId, User>, owner: UserId)
    requires OnlyChanged(a, b, owner) && OnlyChanged(b, c, owner)
    ensures OnlyChanged(a, c, owner)
  {
  }

  /** `email` and `password` are accepted by `login` as the credentials of user `id`. */
  predicate CanLogIn(users: map<UserId, User>, email: string, password: string,
                     matches: (string, string) -> bool, id: UserId)
  {
    && email != "" && password != ""
    && UserByEmail(users, email) == Some(id)
    && matches(password, users[id].passwordHash)
  }

  /** One login with `pair` succeeded for user `id`: it appended the issued token to the
      user's whitelist and changed no one else. */
  predicate Appended(users: map<UserId, User>, out: Outcome, pair: TokenPair, id: UserId)
  {
    && id in users
    && out.reply.status == 200
    && OnlyChanged(users, out.users, id)
    && out.users[id].refreshTokens == users[id].refreshTokens + [pair.refreshToken]
  }

  /** One login with valid credentials succeeds and leaves them valid for the next one. */
  lemma OneLogin(users: map<UserId, User>, email: string, password: string,
                 matches: (string, string) -> bool, pair: TokenPair, id: UserId)
    requires CanLogIn(users, email, password, matches, id)
    ensures var out := Login(users, Some(email), Some(password), matches, pair);
            Appended(users, out, pair, id) && CanLogIn(out.users, email, password, matches, id)
  {
    var out := Login(users, Some(email), Some(password), matches, pair);
    UserByEmailSameAccounts(users, out.users, email);
  }

  /** Registering on an empty collection succeeds, and the email and password registered
      are then valid login credentials for the new user. */
  lemma RegisterGivesCredentials(username: string, email: string, password: string,
                                 hash: string -> string, matches: (string, string) -> bool,
                                 issued: TokenPair)
    requires username != "" && email != "" && password != ""
    requires matches(password, hash(password))
    ensures var r := Register(map[], 0, Some(username), Some(email), Some(password), hash, issued);
            r.reply.status == 201 && CanLogIn(r.users, email, password, matches, 0)
  {
    var r := Register(map[], 0, Some(username), Some(email), Some(password), hash, issued).users;
    assert IsFirstMatch(r, email, 0);
    FirstMatchUnique(r, email, 0, UserByEmail(r, email).value);
  }

  /** Credentials stay valid across any operation that changes only refresh-token lists. */
  lemma CredentialsSurvive(before: map<UserId, User>, after: map<UserId, User>, email: string,
                           password: string, matches: (string, string) -> bool, id: UserId)
    requires CanLogIn(before, email, password, matches, id)
    requires SameAccounts(before, after)
    ensures CanLogIn(after, email, password, matches, id)
  {
    UserByEmailSameAccounts(before, after, email);
  }

  /** A password that `bcrypt.compare` rejects against the hash of the user found by email
      is answered with the same 401 as an unknown email, and nothing changes. */
  lemma WrongPasswordRefused(users: map<UserId, User>, email: string, wrongPassword: string,
                             matches: (string, string) -> bool, issued: TokenPair, id: UserId)
    requires email != "" && wrongPassword != ""
    requires UserByEmail(users, email) == Some(id)
    requires !matches(wrongPassword, users[id].passwordHash)
    ensures Login(users, Some(email), Some(wrongPassword), matches, issued)
            == Outcome(Reply(401, Message(InvalidCredentials)), users)
  {
  }

  /** A run of logins where, as long as `holds`, each login succeeds for user `id` and keeps
      `holds`: every login returns 200. */
  lemma {:induction false} RunSucceeds(users: map<UserId, User>, pairs: seq<TokenPair>,
                                       login: (map<UserId, User>, TokenPair) -> Outcome,
                                       holds: map<UserId, User> -> bool, id: UserId)
    requires holds(users)
    requires forall u, pair :: holds(u) ==> Appended(u, login(u, pair), pair, id) && holds(login(u, pair).users)
    ensures var run := LoginRun(users, pairs, login);
            && |run.statuses| == |pairs|
            && forall i :: 0 <= i < |pairs| ==> run.statuses[i] == 200
    decreases |pairs|
  {
    if pairs != [] {
      RunSucceeds(login(users, pairs[0]).users, pairs[1..], login, holds, id);
    }
  }

  /** In the same run, no user other than `id` changes. */
  lemma {:induction false} RunOnlyChanges(users: map<UserId, User>, pairs: seq<TokenPair>,
                                          login: (map<UserId, User>, TokenPair) -> Outcome,
                                          holds: map<UserId, User> -> bool, id: UserId)
    requires holds(users)
    requires forall u, pair :: holds(u) ==> Appended(u, login(u, pair), pair, id) && holds(login(u, pair).users)
    ensures OnlyChanged(users, LoginRun(users, pairs, login).users, id)
    decreases |pairs|
  {
    if pairs != [] {
      var next := login(users, pairs[0]).users;
      RunOnlyChanges(next, pairs[1..], login, holds, id);
      OnlyChangedTransitive(users, next, LoginRun(next, pairs[1..], login).users, id);
    }
  }

  lemma AppendThenConcat(front: seq<string>, t: string, back: seq<string>)
    ensures (front + [t]) + back == front + ([t] + back)
  {
  }

  /** In the same run, the whitelist of user `id` grows by exactly the issued refresh tokens,
      in order. */
  lemma {:induction false} RunAppends(users: map<UserId, User>, pairs: seq<TokenPair>,
                                      login: (map<UserId, User>, TokenPair) -> Outcome,
                                      holds: map<UserId, User> -> bool, id: UserId)
    requires holds(users) && id in users
    requires forall u, pair :: holds(u) ==> Appended(u, login(u, pair), pair, id) && holds(login(u, pair).users)
    ensures var after := LoginRun(users, pairs, login).users;
            id in after && after[id].refreshTokens == users[id].refreshTokens + RefreshTokensOf(pairs)
    decreases |pairs|
  {
    if pairs != [] {
      var next := login(users, pairs[0]).users;
      assert Appended(users, login(users, pairs[0]), pairs[0], id);
      RunAppends(next, pairs[1..], login, holds, id);
      assert LoginRun(users, pairs, login).users == LoginRun(next, pairs[1..], login).users;
      AppendThenConcat(users[id].refreshTokens, pairs[0].refreshToken, RefreshTokensOf(pairs[1..]));
    }
  }

  /** There is no limit on logins: with valid credentials, any number of logins all return
      200, the whitelist grows by exactly the issued refresh tokens in order, and no other
      user changes. */
  lemma RepeatedLogins(users: map<UserId, User>, email: string, password: string,
                       matches: (string, string) -> bool, pairs: seq<TokenPair>, id: UserId)
    requires CanLogIn(users, email, password, matches, id)
    ensures var run := LoginMany(users, email, password, matches, pairs);
            && |run.statuses| == |pairs|
            && (forall i :: 0 <= i < |pairs| ==> run.statuses[i] == 200)
            && OnlyChanged(users, run.users, id)
            && run.users[id].refreshTokens == users[id].refreshTokens + RefreshTokensOf(pairs)
  {
    var login := (u, pair) => Login(u, Some(email), Some(password), matches, pair);
    var holds := u => CanLogIn(u, email, password, matches, id);
    forall u, pair | holds(u)
      ensures Appended(u, login(u, pair), pair, id) && holds(login(u, pair).users)
    {
      OneLogin(u, email, password, matches, pair, id);
    }
    RunSucceeds(users, pairs, login, holds, id);
    RunOnlyChanges(users, pairs, login, holds, id);
    RunAppends(users, pairs, login, holds, id);
  }

  /** Every refresh token on a user's whitelist verifies to that user. */
  predicate TokensBound(users: map<UserId, User>, verify: string -> Option<UserId>)
  {
    forall id, t :: id in users && t in users[id].refreshTokens ==> verify(t) == Some(id)
  }

  /** `register` keeps every whitelist bound to its owner when the issued refresh token
      verifies to the new user. */
  lemma RegisterKeepsTokensBound(users: map<UserId, User>, newId: UserId,
                                 username: Option<string>, email: Option<string>, password: Option<string>,
                                 hash: string -> string, issued: TokenPair, verify: string -> Option<UserId>)
    requires newId !in users
    requires TokensBound(users, verify)
    requires verify(issued.refreshToken) == Some(newId)
    ensures TokensBound(Register(users, newId, username, email, password, hash, issued).users, verify)
  {
  }

  /** `login` keeps every whitelist bound when the issued refresh token verifies to the user
      who logs in. */
  lemma LoginKeepsTokensBound(users: map<UserId, User>, email: Option<string>, password: Option<string>,
                              matches: (string, string) -> bool, issued: TokenPair, verify: string -> Option<UserId>)
    requires TokensBound(users, verify)
    requires Truthy(email) && UserByEmail(users, email.value).Some? ==>
               verify(issued.refreshToken) == UserByEmail(users, email.value)
    ensures TokensBound(Login(users, email, password, matches, issued).users, verify)
  {
  }

  /** `logout` keeps every whitelist bound: it only removes tokens. */
  lemma {:induction false} LogoutKeepsTokensBound(users: map<UserId, User>, presented: Option<string>,
                                                  verify: string -> Option<UserId>)
    requires TokensBound(users, verify)
    ensures TokensBound(Logout(users, presented, verify).users, verify)
  {
    if Truthy(presented) && Classify(users, presented.value, verify).Current? {
      var id := verify(presented.value).value;
      WithoutCounts(users[id].refreshTokens, presented.value);
    }
  }

  /** `refreshToken` keeps every whitelist bound when the new refresh token verifies to the
      owner of the presented one. */
  lemma {:induction false} RefreshKeepsTokensBound(users: map<UserId, User>, presented: Option<string>,
                                                   verify: string -> Option<UserId>, issued: TokenPair)
    requires TokensBound(users, verify)
    requires Owner(presented, verify).Some? ==> verify(issued.refreshToken) == Owner(presented, verify)
    ensures TokensBound(Refresh(users, presented, verify, issued).users, verify)
  {
    if Truthy(presented) && Classify(users, presented.value, verify).Current? {
      var id := verify(presented.value).value;
      WithoutCounts(users[id].refreshTokens, presented.value);
    }
  }
}

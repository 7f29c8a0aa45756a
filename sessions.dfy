/** The four authentication operations (`register`, `login`, `logout`, `refreshToken`)
    as functions from the user collection before the call to the reply and the user
    collection after it. The class `AuthController.UserStore` performs the same steps
    in place and is proved to agree with these functions. */
module Sessions {
  import opened AuthTypes

  const RequiredFields := "Username, email and password are required"
  const EmailInUse := "Email already in use"
  const CredentialsRequired := "Email and password are required"
  const InvalidCredentials := "Invalid email or password"
  const RefreshTokenRequired := "Refresh token is required"
  const InvalidRefreshToken := "Invalid refresh token"
  const LogoutFailed := "Error logging out"
  const RefreshFailed := "Error refreshing token"
  const LoggedOut := "Logged out successfully"

  /** The reply of an operation and the user collection it leaves behind. */
  datatype Outcome = Outcome(reply: Reply, users: map<UserId, User>)

  /** `tokens.filter(token => token !== t)`: every occurrence of `t` removed, order kept. */
  function Without(tokens: seq<string>, t: string): seq<string>
  {
    if tokens == [] then []
    else (if tokens[0] == t then [] else [tokens[0]]) + Without(tokens[1..], t)
  }

  /** `Without` drops exactly the copies of `t`: the multiset of what is left is the old
      one with the count of `t` set to zero. */
  lemma {:induction false} WithoutCounts(tokens: seq<string>, t: string)
    ensures multiset(Without(tokens, t)) == multiset(tokens)[t := 0]
    ensures forall x :: x in Without(tokens, t) <==> x in tokens && x != t
    ensures |Without(tokens, t)| == |tokens| - multiset(tokens)[t]
  {
    if tokens != [] {
      WithoutCounts(tokens[1..], t);
      assert tokens == [tokens[0]] + tokens[1..];
    }
    assert forall x :: x in Without(tokens, t) <==> multiset(Without(tokens, t))[x] > 0;
  }

  /** The store invariant that `register`'s 409 check maintains: no two users share an email. */
  predicate EmailsUnique(users: map<UserId, User>)
  {
    forall a, b :: a in users && b in users && users[a].email == users[b].email ==> a == b
  }

  /** `id` is the first user (in id order) whose email is `email`. */
  predicate IsFirstMatch(users: map<UserId, User>, email: string, id: UserId)
  {
    && id in users
    && users[id].email == email
    && forall other :: other in users && users[other].email == email ==> id <= other
  }

  /** A non-empty set of ids has a least element, `least`. */
  lemma {:induction false} LeastId(ids: set<UserId>) returns (least: UserId)
    requires ids != {}
    ensures least in ids
    ensures forall y :: y in ids ==> least <= y
    decreases ids
  {
    var x :| x in ids;
    var rest := ids - {x};
    if rest == {} {
      least := x;
      forall y | y in ids
        ensures least <= y
      {
        assert y !in rest;
      }
    } else {
      var m := LeastId(rest);
      least := if x < m then x else m;
      forall y | y in ids
        ensures least <= y
      {
        if y != x { assert y in rest; }
      }
    }
  }

  /** Some user has `email`, so a first one exists. */
  lemma FirstMatchExists(users: map<UserId, User>, email: string)
    requires exists id :: id in users && users[id].email == email
    ensures exists id :: IsFirstMatch(users, email, id)
  {
    var matching := set id | id in users && users[id].email == email;
    var some :| some in users && users[some].email == email;
    assert some in matching;
    var first := LeastId(matching);
    forall other | other in users && users[other].email == email
      ensures first <= other
    {
      assert other in matching;
    }
    assert IsFirstMatch(users, email, first);
  }

  /** `User.findOne({ email })`: the first user with that email, if any. */
  function UserByEmail(users: map<UserId, User>, email: string): (found: Option<UserId>)
    ensures found.Some? ==> IsFirstMatch(users, email, found.value)
    ensures found.None? <==> forall id :: id in users ==> users[id].email != email
  {
    if exists id :: id in users && users[id].email == email then
      FirstMatchExists(users, email);
      var id :| IsFirstMatch(users, email, id);
      Some(id)
    else
      None
  }

  /** The user collection with the refresh-token list of `id` replaced. */
  function SetTokens(users: map<UserId, User>, id: UserId, tokens: seq<string>): map<UserId, User>
    requires id in users
  {
    users[id := users[id].(refreshTokens := tokens)]
  }

  /** `after` holds the same users as `before` with the same usernames, emails and password
      hashes; only refresh-token lists may differ. */
  predicate SameAccounts(before: map<UserId, User>, after: map<UserId, User>)
  {
    && after.Keys == before.Keys
    && forall id :: id in before ==>
         && after[id].username == before[id].username
         && after[id].email == before[id].email
         && after[id].passwordHash == before[id].passwordHash
  }

  /** Of all users, at most `owner` differs between `before` and `after`. */
  predicate OnlyChanged(before: map<UserId, User>, after: map<UserId, User>, owner: UserId)
  {
    && SameAccounts(before, after)
    && forall id :: id in before && id != owner ==> after[id] == before[id]
  }

  /** `register(username, email, password)`. `newId` is the id the database gives the new
      document; `hash` is `bcrypt.hash` with this call's salt; `issued` is what
      `generateTokens` returns for the new user. */
  function Register(users: map<UserId, User>, newId: UserId,
                    username: Option<string>, email: Option<string>, password: Option<string>,
                    hash: string -> string, issued: TokenPair): (out: Outcome)
    requires newId !in users
    ensures out.reply.status == 400 <==> !(Truthy(username) && Truthy(email) && Truthy(password))
    ensures out.reply.status == 409 <==>
              && Truthy(username) && Truthy(email) && Truthy(password)
              && exists id :: id in users && users[id].email == email.value
    ensures out.reply.status != 201 ==> out.reply.status in {400, 409} && out.users == users
    ensures out.reply.status == 201 ==>
              && out.reply.body == Issued(issued)
              && out.users.Keys == users.Keys + {newId}
              && (forall id :: id in users ==> out.users[id] == users[id])
              && out.users[newId].username == username.value
              && out.users[newId].email == email.value
              && out.users[newId].passwordHash == hash(password.value)
              && out.users[newId].refreshTokens == [issued.refreshToken]
    ensures EmailsUnique(users) ==> EmailsUnique(out.users)
  {
    if !(Truthy(username) && Truthy(email) && Truthy(password)) then
      Outcome(Reply(400, Message(RequiredFields)), users)
    else if UserByEmail(users, email.value).Some? then
      Outcome(Reply(409, Message(EmailInUse)), users)
    else
      var created := User(username.value, email.value, hash(password.value), []);
      Outcome(Reply(201, Issued(issued)),
              users[newId := created.(refreshTokens := created.refreshTokens + [issued.refreshToken])])
  }

  /** `login(email, password)`. `matches` is `bcrypt.compare`; `issued` is what
      `generateTokens` returns for the user who logs in. */
  function Login(users: map<UserId, User>, email: Option<string>, password: Option<string>,
                 matches: (string, string) -> bool, issued: TokenPair): (out: Outcome)
    ensures out.reply.status == 400 <==> !(Truthy(email) && Truthy(password))
    ensures out.reply.status == 200 <==>
              && Truthy(email) && Truthy(password)
              && exists id :: IsFirstMatch(users, email.value, id) && matches(password.value, users[id].passwordHash)
    ensures out.reply.status != 200 ==>
              && out.reply.status in {400, 401}
              && out.users == users
              && out.reply.body.Message?
    // an unknown email and a wrong password are answered identically
    ensures out.reply.status == 401 ==> out.reply == Reply(401, Message(InvalidCredentials))
    ensures out.reply.status == 200 ==>
              && out.reply.body == Issued(issued)
              && var id := UserByEmail(users, email.value).value;
              && id in users
              && OnlyChanged(users, out.users, id)
              && out.users[id].refreshTokens == users[id].refreshTokens + [issued.refreshToken]
  {
    if !Truthy(email) || !Truthy(password) then
      Outcome(Reply(400, Message(CredentialsRequired)), users)
    else
      match UserByEmail(users, email.value)
      case None => Outcome(Reply(401, Message(InvalidCredentials)), users)
      case Some(id) =>
        if !matches(password.value, users[id].passwordHash) then
          Outcome(Reply(401, Message(InvalidCredentials)), users)
        else
          Outcome(Reply(200, Issued(issued)),
                  SetTokens(users, id, users[id].refreshTokens + [issued.refreshToken]))
  }

  /** What the shared prefix of `logout` and `refreshToken` finds out about a presented token:
      it fails verification, it names no user, it is verified but not on the user's
      whitelist (reuse, treated as theft), or it is on the whitelist. */
  datatype TokenCheck = Unverified | UnknownUser(id: UserId) | Reused(id: UserId) | Current(id: UserId)

  /** `jwt.verify` (the oracle `verify`), then `User.findById`, then `refreshTokens.includes`. */
  function Classify(users: map<UserId, User>, t: string, verify: string -> Option<UserId>): (c: TokenCheck)
    ensures c.Unverified? <==> verify(t).None?
    ensures !c.Unverified? ==> verify(t) == Some(c.id)
    ensures c.UnknownUser? <==> verify(t).Some? && verify(t).value !in users
    ensures c.Reused? <==> verify(t).Some? && verify(t).value in users && t !in users[verify(t).value].refreshTokens
    ensures c.Current? <==> verify(t).Some? && verify(t).value in users && t in users[verify(t).value].refreshTokens
  {
    match verify(t)
    case None => Unverified
    case Some(id) =>
      if id !in users then UnknownUser(id)
      else if t !in users[id].refreshTokens then Reused(id)
      else Current(id)
  }

  /** The user a truthy presented token verifies to, if any. */
  function Owner(presented: Option<string>, verify: string -> Option<UserId>): Option<UserId>
  {
    if Truthy(presented) then verify(presented.value) else None
  }

  /** `logout(refreshToken)`. */
  function Logout(users: map<UserId, User>, presented: Option<string>,
                  verify: string -> Option<UserId>): (out: Outcome)
    ensures out.reply.status == 400 <==> !Truthy(presented)
    ensures out.reply.status == 500 <==> Truthy(presented) && verify(presented.value).None?
    ensures out.reply.status in {200, 400, 401, 500}
    ensures out.reply.body.Message?
    ensures out.reply.status == 200 <==>
              Truthy(presented) && Classify(users, presented.value, verify).Current?
    ensures out.reply.status != 401 && out.reply.status != 200 ==> out.users == users
    ensures SameAccounts(users, out.users)
    ensures forall id :: id in users && Owner(presented, verify) != Some(id) ==> out.users[id] == users[id]
    // theft detection: a verified token missing from its owner's whitelist empties the whitelist
    ensures Truthy(presented) && Classify(users, presented.value, verify).Reused? ==>
              && out.reply == Reply(401, Message(InvalidRefreshToken))
              && out.users[verify(presented.value).value].refreshTokens == []
    ensures out.reply.status == 200 ==>
              var id := verify(presented.value).value;
              && out.users[id].refreshTokens == Without(users[id].refreshTokens, presented.value)
              && presented.value !in out.users[id].refreshTokens
              && |out.users[id].refreshTokens| < |users[id].refreshTokens|
  {
    if !Truthy(presented) then
      Outcome(Reply(400, Message(RefreshTokenRequired)), users)
    else
      var t := presented.value;
      match Classify(users, t, verify)
      case Unverified => Outcome(Reply(500, Message(LogoutFailed)), users)
      case UnknownUser(_) => Outcome(Reply(401, Message(InvalidRefreshToken)), users)
      case Reused(id) => Outcome(Reply(401, Message(InvalidRefreshToken)), SetTokens(users, id, []))
      case Current(id) =>
        WithoutCounts(users[id].refreshTokens, t);
        Outcome(Reply(200, Message(LoggedOut)), SetTokens(users, id, Without(users[id].refreshTokens, t)))
  }

  /** `refreshToken(refreshToken)`: rotation. `issued` is what `generateTokens` returns for
      the token's owner. */
  function Refresh(users: map<UserId, User>, presented: Option<string>,
                   verify: string -> Option<UserId>, issued: TokenPair): (out: Outcome)
    ensures out.reply.status == 400 <==> !Truthy(presented)
    ensures out.reply.status == 500 <==> Truthy(presented) && verify(presented.value).None?
    ensures out.reply.status in {200, 400, 401, 500}
    ensures out.reply.status == 200 <==>
              Truthy(presented) && Classify(users, presented.value, verify).Current?
    ensures out.reply.status != 200 ==> out.reply.body.Message?
    ensures out.reply.status != 401 && out.reply.status != 200 ==> out.users == users
    ensures SameAccounts(users, out.users)
    ensures forall id :: id in users && Owner(presented, verify) != Some(id) ==> out.users[id] == users[id]
    // theft detection, as in Logout
    ensures Truthy(presented) && Classify(users, presented.value, verify).Reused? ==>
              && out.reply == Reply(401, Message(InvalidRefreshToken))
              && out.users[verify(presented.value).value].refreshTokens == []
    ensures out.reply.status == 200 ==>
              var id := verify(presented.value).value;
              && out.reply.body == Issued(issued)
              && out.users[id].refreshTokens == Without(users[id].refreshTokens, presented.value) + [issued.refreshToken]
              && (issued.refreshToken != presented.value ==> presented.value !in out.users[id].refreshTokens)
              && |out.users[id].refreshTokens| <= |users[id].refreshTokens|
  {
    if !Truthy(presented) then
      Outcome(Reply(400, Message(RefreshTokenRequired)), users)
    else
      var t := presented.value;
      match Classify(users, t, verify)
      case Unverified => Outcome(Reply(500, Message(RefreshFailed)), users)
      case UnknownUser(_) => Outcome(Reply(401, Message(InvalidRefreshToken)), users)
      case Reused(id) => Outcome(Reply(401, Message(InvalidRefreshToken)), SetTokens(users, id, []))
      case Current(id) =>
        WithoutCounts(users[id].refreshTokens, t);
        var kept := Without(users[id].refreshTokens, t);
        Outcome(Reply(200, Issued(issued)), SetTokens(users, id, kept + [issued.refreshToken]))
  }
}

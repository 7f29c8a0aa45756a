# Refresh-token sessions and the bearer guard, in Dafny

This project models the authentication core of a small Express/MongoDB REST backend:

- the four handlers of `src/controllers/authController.ts` — `register`, `login`, `logout`
  and `refreshToken` — over the `users` collection, where every user document carries a
  whitelist `refreshTokens` of the refresh tokens still valid for that user;
- the token issuer `generateTokens`;
- the bearer-header guard `authenticate` of `src/middleware/authMiddleware.ts`.

`register` and `login` append the newly issued refresh token to the whitelist. `refreshToken`
rotates: it filters the presented token out and appends the new one. `logout` filters the
presented token out. Both `refreshToken` and `logout` apply theft detection. A token that
verifies but is not on its owner's whitelist empties that whitelist and is answered 401.

## Layout

- `types.dfy` (`AuthTypes`): user documents, token pairs, replies, JavaScript truthiness of body fields.
- `tokens.dfy` (`TokenIssuer`): `generateTokens` over a signing oracle and a draw of `Math.random()`.
  It also proves that the 0–999 nonce cannot keep refresh tokens distinct.
- `sessions.dfy` (`Sessions`): each handler as a function from the collection before the call
  to the reply and the collection after it. The contracts state every branch and its status code.
- `session_properties.dfy` (`SessionProperties`): properties of sequences of calls. Rotation and
  logout consume the token. A replay revokes every session. Logins have no limit. Whitelists
  only hold tokens issued for their owner.
- `controller.dfy` (`AuthController`): class `UserStore` holding the collection as a `map` field.
  Each handler method reads a user document, changes a local copy step by step and saves it
  back. Each method is proved to agree with its `Sessions` function and to keep emails unique.
  One method per test group of `src/tests/auth.test.ts` runs that group's requests against
  one shared store, and `AuthTestSuite` runs the whole file in order. A further method shows
  a call sequence that no test contains: the guard after a logout.
- `middleware.dfy` (`AuthMiddleware`): `authenticate` as a function from the header and a
  verification oracle to `Reject401(message)` or `Accept(userId)`. It has no parameter for the
  user collection, so logging out cannot revoke an access token already issued.

External primitives become parameters:

- `bcrypt.hash` with its salt is a function `hash`.
- `bcrypt.compare` is a function `matches`.
- `jwt.verify` under the refresh secret or the access secret is a function
  `verify: string -> Option<UserId>`; `None` stands for a thrown verification error.
- `jwt.sign` is a function `sign` of the claims, for one signing second.
- The token pair returned by `generateTokens` is passed to each handler as `issued`.
- The id the database gives a new document is the store's counter `nextId`.
- `User.findOne({ email })` returns the user with the least id having that email.

Points where the code behaves in a way a reader may not expect, and which the model follows:

- A refresh token that fails verification yields 500 in both `refreshToken` and `logout`
  (the repository's tests expect 500), rather than the 401 given to other refused tokens.
- The refresh-token nonce ranges over 0–999 only, so freshness of an issued token is not
  guaranteed. Properties that need it take it as a precondition (`issued.refreshToken != t`).
- Only the email is checked for uniqueness at registration; the username is not.
- The guard matches the scheme `Bearer ` case-sensitively and ignores anything after the
  second space-separated field. The Authorization header form of section 2.1 of RFC 6750
  (with the scheme name case-insensitive, as in section 2.1 of RFC 7235) is stricter on
  trailing text, looser on case and looser on spacing: `Bearer  abc` (two spaces) is valid
  there and refused by the guard.

## Model

| member | source | states |
|---|---|---|
| TokenIssuer.Nonce | src/controllers/authController.ts:26 | `Math.floor(Math.random() * 1000)` for a draw in [0, 1) lies in 0..999 |
| TokenIssuer.GenerateTokens | src/controllers/authController.ts:15-34 | the access token signs the user id alone; the refresh token is the signature of the user id with one of only 1000 nonces |
| TokenIssuer.RefreshTokenCollision | src/controllers/authController.ts:26-31 | among any 1001 issuances for one user within one signing second, two refresh tokens are identical |
| Sessions.WithoutCounts | src/controllers/authController.ts:139 | the `filter` removes every copy of the presented token and nothing else: the multiset of the kept tokens is the old one with that token's count set to 0; membership and length follow |
| Sessions.UserByEmail | src/controllers/authController.ts:43 | `findOne({ email })` yields the first user with that email, and none exactly when no user has it |
| Sessions.Register | src/controllers/authController.ts:36-63 | 400 exactly when a field is missing or empty. 409 exactly when the email is taken. Both leave the store unchanged. 201 returns the issued pair and adds exactly one user with the given username, email and hashed password, whose whitelist is exactly the issued refresh token; other users are unchanged. Email uniqueness is preserved |
| Sessions.Login | src/controllers/authController.ts:65-89 | 400 exactly when email or password is missing. 200 exactly when the first user with the email passes the password check; it returns the issued pair and appends exactly that refresh token to that user's whitelist, changing no one else. Every other case is the identical 401 "Invalid email or password" with the store unchanged |
| Sessions.Classify | src/controllers/authController.ts:125-137 | the verified/known-user/whitelisted classification of a presented token, each case characterised by `verify` and the whitelist |
| Sessions.Logout | src/controllers/authController.ts:91-117 | 400 exactly when no token is given. 500 exactly when verification fails. A verified token naming no user gives 401 with no change. A verified token missing from its owner's whitelist gives 401 and empties that whitelist. 200 exactly when the token is whitelisted; the whitelist becomes the old one filtered of the token, which is then absent and the list strictly shorter. No pair is issued, and only the owner's whitelist can change |
| Sessions.Refresh | src/controllers/authController.ts:119-147 | the same 400/500/401/theft cases as `Logout`. 200 exactly when the token is whitelisted; it returns the issued pair and the whitelist becomes the filtered list plus the new token, so the presented token is gone unless the issuer repeated it. Only the owner's whitelist can change |
| SessionProperties.UserByEmailSameAccounts | src/controllers/authController.ts:72 | the user `login` finds depends only on emails, so it is unaffected by token-list changes |
| SessionProperties.RegisterThenLogin | src/controllers/authController.ts:56-85 | after a successful registration, logging in with the same password succeeds and the whitelist is the two issued refresh tokens in order |
| SessionProperties.ReplayAfterRotation | src/controllers/authController.ts:132-141 | after a successful rotation of `t` to a different token, presenting `t` again gives 401 and empties the owner's whitelist |
| SessionProperties.EmptiedWhitelistRefusesAll | src/controllers/authController.ts:104-108 | once a whitelist is empty, every token verifying to that user is refused with 401 by both `refreshToken` and `logout`, with no change |
| SessionProperties.ReplayRevokesRotatedToken | src/controllers/authController.ts:132-142 | rotate `t` to `t2`, replay `t` (401), and then `t2` is refused too: whole-session invalidation |
| SessionProperties.LogoutConsumes | src/tests/auth.test.ts:142-155 | after a successful logout with `t`, both refreshing with `t` and logging out again with `t` give 401 and empty the whitelist |
| SessionProperties.OneLogin | src/controllers/authController.ts:70-85 | a login with valid credentials returns 200, appends exactly the issued token to that user's whitelist, changes no one else, and leaves the credentials valid for the next login |
| SessionProperties.RunSucceeds | src/controllers/authController.ts:82-85 | in a run of logins where each login, while an invariant holds, succeeds and keeps it, every reply is 200 |
| SessionProperties.RunOnlyChanges | src/controllers/authController.ts:82-84 | in such a run no user other than the one logging in changes |
| SessionProperties.RunAppends | src/controllers/authController.ts:82-84 | in such a run the whitelist grows by exactly the issued refresh tokens, in order |
| SessionProperties.RepeatedLogins | src/controllers/authController.ts:65-89 | there is no limit on logins: any number of logins with valid credentials all return 200; the whitelist grows by exactly the issued refresh tokens in order; no other user changes |
| SessionProperties.RegisterKeepsTokensBound | src/controllers/authController.ts:56-58 | if every whitelisted token verifies to its owner before `register`, it still holds after, given the issued token verifies to the new user |
| SessionProperties.LoginKeepsTokensBound | src/controllers/authController.ts:82-84 | the same invariant across `login`, given the issued token verifies to the user who logs in |
| SessionProperties.LogoutKeepsTokensBound | src/controllers/authController.ts:104-112 | the same invariant across `logout`, unconditionally |
| SessionProperties.RefreshKeepsTokensBound | src/controllers/authController.ts:132-142 | the same invariant across `refreshToken`, given the new token verifies to the owner of the presented one |
| AuthController.UserStore.Register | src/controllers/authController.ts:36-63 | the in-place handler yields exactly the reply and collection of `Sessions.Register`; it takes a fresh id only on 201 and keeps emails unique |
| AuthController.UserStore.Login | src/controllers/authController.ts:65-89 | the in-place handler yields exactly `Sessions.Login` |
| AuthController.UserStore.Logout | src/controllers/authController.ts:91-117 | the in-place handler yields exactly `Sessions.Logout` |
| AuthController.UserStore.RefreshToken | src/controllers/authController.ts:119-147 | the in-place handler yields exactly `Sessions.Refresh` |
| AuthController.RegisterTests | src/tests/auth.test.ts:27-56 | on the emptied collection, registering gives 201 and registering the same email again gives 409; the registered email and password are then valid credentials |
| AuthController.LoginTests | src/tests/auth.test.ts:57-84 | the registered credentials log in with 200, a wrong password gives 401, and the issued token is whitelisted |
| AuthController.RefreshTests | src/tests/auth.test.ts:85-116 | rotating the login token gives 200, rotating the token that rotation issued gives 200, and presenting that token again gives 401 |
| AuthController.LogoutOnce | src/tests/auth.test.ts:120-141 | the suite's login before the test gives 200, and logging out with the token just issued gives 200 |
| AuthController.LogoutThenRefresh | src/tests/auth.test.ts:142-155 | after the login and a 200 logout, refreshing with the logged-out token gives 401 |
| AuthController.LogoutTests | src/tests/auth.test.ts:119-166 | the three logout tests, each after a login: 200, 200 / 200, 200, 401 / 200, and 500 for a token that fails verification |
| AuthController.RefreshErrorTests | src/tests/auth.test.ts:167-183 | a refresh without a token gives 400 and one with a token that fails verification gives 500, with the collection unchanged |
| AuthController.AuthTestSuite | src/tests/auth.test.ts:17-184 | the whole test file in order on one collection: 201, 409; 200, 401; 200, 200, 401; 200, 200, 200, 200, 401, 200, 500; 400, 500 |
| AuthController.AccessTokenOutlivesLogout | src/middleware/authMiddleware.ts:6-24 | a sequence no test contains: register, log out with 200, the guard still accepts the access token issued at registration, and a second logout gives 401 |
| SessionProperties.RegisterGivesCredentials | src/controllers/authController.ts:36-63 | registering on an empty collection gives 201, and the registered email and password then pass `login`'s lookup and password check |
| SessionProperties.CredentialsSurvive | src/controllers/authController.ts:72 | credentials stay valid across any change to refresh-token lists only |
| SessionProperties.WrongPasswordRefused | src/controllers/authController.ts:77-80 | a password that fails the check against the found user's hash gives the identical 401 "Invalid email or password" and changes nothing |
| SessionProperties.RotateTwiceThenReplay | src/controllers/authController.ts:119-147 | a whitelisted token rotated twice (the second issuing a different token) gives 200 twice, and presenting the once-rotated token again gives 401 |
| AuthMiddleware.Split | src/middleware/authMiddleware.ts:12 | `split(' ')` yields at least one field, none containing the separator |
| AuthMiddleware.JoinSplit | src/middleware/authMiddleware.ts:12 | joining the fields of a split gives back the header |
| AuthMiddleware.SplitJoin | src/middleware/authMiddleware.ts:12 | splitting a join of separator-free fields gives back the fields |
| AuthMiddleware.BearerSecondField | src/middleware/authMiddleware.ts:12 | after the `Bearer ` prefix, `split(' ')[1]` exists and is the text up to the next space |
| AuthMiddleware.Authenticate | src/middleware/authMiddleware.ts:6-24 | accepts exactly when the header is present, starts with `Bearer `, the credential after it is non-empty, and verification succeeds; it then carries the decoded user id. "Invalid token" exactly when the credential is non-empty and verification fails. Every other case is "No token provided" |
| AuthMiddleware.BearerTokenForm | src/middleware/authMiddleware.ts:12-20 | `Bearer <token>`, with or without trailing space-separated text, is decided by verifying `<token>` alone |
| AuthMiddleware.PrefixRequired | src/middleware/authMiddleware.ts:8-10 | no header, an empty one, `InvalidFormat`, `bearer abc` and `Bearer` are refused with "No token provided" |
| AuthMiddleware.EmptyCredentialRefused | src/middleware/authMiddleware.ts:12-15 | `Bearer ` and `Bearer  abc` (two spaces) give an empty second field and are refused |

## Left out

- Cryptography: bcrypt salting, hashing and comparison, and JWT signing, signature checking and expiry are oracles. Nothing is assumed about them beyond what a property states as a precondition.
- The clock: the signing oracle stands for one `iat` second. Expiry is part of the verification oracle.
- `Math.random()` is a real draw in [0, 1), not an IEEE double. `parseInt` of the environment's expiry values is not modelled.
- Persistence failures: a `findOne`, `create`, `findById` or `save` that throws yields 500 in the source; the model's collection never fails. Because of this, `register`'s intermediate state is not observable. That is the user created with an empty whitelist before the second save.
- A verified payload whose `_id` is not a valid ObjectId makes `findById` throw (500). The verification oracle returns ids directly, so this case is not represented.
- Request-body fields that are not strings (numbers, objects) are not modelled. A field is a string or missing, and falsy means missing or empty.
- Concurrency: two handlers interleaving between `findById` and `save` can lose an update. The model runs one handler at a time.
- AuthTestSuite: the tokens the issuer produces are parameters. That each verifies to the test user, and that the second rotation issues a token different from the first, are preconditions, because the 0–999 nonce does not guarantee them. The `toHaveProperty` checks on response bodies are not modelled beyond the returned token pair.
- `console.log`, and the JSON body shapes beyond the status, token pair and message.
- Routing, server bootstrap, API documentation, and the post, comment and user CRUD handlers are not part of this model.
- `src/models/userModel.ts` is not part of this model. Its `refreshTokens` field is taken to default to the empty list.

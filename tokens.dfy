/** Token issuance (`generateTokens`): an access token signed over the user id and a
    refresh token signed over the user id and a random nonce in 0..999.
    Signing is an oracle `sign`: one fixed pair of secrets, expiry durations and clock
    reading (the `iat` second), so equal claims yield equal tokens. */
module TokenIssuer {
  import opened AuthTypes

  /** The payloads handed to the signer. */
  datatype Claims = AccessClaims(userId: UserId) | RefreshClaims(userId: UserId, rand: int)

  /** Number of distinct nonces `Math.floor(Math.random() * 1000)` can produce. */
  const NonceRange: nat := 1000

  /** The nonce drawn from `draw`, a value of `Math.random()` in [0, 1). */
  function Nonce(draw: real): (n: int)
    requires 0.0 <= draw < 1.0
    ensures 0 <= n < NonceRange
  {
    (draw * 1000.0).Floor
  }

  /** `generateTokens(userId)` with the random draw and the signer as parameters. */
  function GenerateTokens(userId: UserId, draw: real, sign: Claims -> string): (pair: TokenPair)
    requires 0.0 <= draw < 1.0
    ensures pair.token == sign(AccessClaims(userId))
    ensures exists n :: 0 <= n < NonceRange && pair.refreshToken == sign(RefreshClaims(userId, n))
  {
    TokenPair(sign(AccessClaims(userId)), sign(RefreshClaims(userId, Nonce(draw))))
  }

  /** A sequence without repetitions has as many distinct elements as it has positions. */
  lemma {:induction false} DistinctCount(s: seq<int>)
    requires forall i, j :: 0 <= i < j < |s| ==> s[i] != s[j]
    ensures |set x | x in s| == |s|
  {
    if s != [] {
      var last := s[|s| - 1];
      var init := s[..|s| - 1];
      DistinctCount(init);
      assert (set x | x in s) == (set x | x in init) + {last};
      assert last !in (set x | x in init);
    }
  }

  /** A set of integers drawn from 0..n-1 has at most n elements. */
  lemma {:induction false} BoundedSetSize(values: set<int>, n: nat)
    requires forall x :: x in values ==> 0 <= x < n
    ensures |values| <= n
  {
    if n == 0 {
      assert forall x :: x !in values;
      assert values == {};
    } else {
      BoundedSetSize(values - {n - 1}, n - 1);
    }
  }

  /** More than `n` values drawn from 0..n-1 contain a repetition. */
  lemma Pigeonhole(s: seq<int>, n: nat)
    requires forall i :: 0 <= i < |s| ==> 0 <= s[i] < n
    requires |s| > n
    ensures exists i, j :: 0 <= i < j < |s| && s[i] == s[j]
  {
    if forall i, j :: 0 <= i < j < |s| ==> s[i] != s[j] {
      DistinctCount(s);
      BoundedSetSize((set x | x in s), n);
    }
  }

  /** Freshness of refresh tokens is not guaranteed: among any 1001 issuances for the same
      user within one signing instant, two refresh tokens are identical. */
  lemma RefreshTokenCollision(userId: UserId, draws: seq<real>, sign: Claims -> string)
    requires forall i :: 0 <= i < |draws| ==> 0.0 <= draws[i] < 1.0
    requires |draws| > NonceRange
    ensures exists i, j ::
              && 0 <= i < j < |draws|
              && GenerateTokens(userId, draws[i], sign).refreshToken == GenerateTokens(userId, draws[j], sign).refreshToken
  {
    var nonces := seq(|draws|, i requires 0 <= i < |draws| => Nonce(draws[i]));
    Pigeonhole(nonces, NonceRange);
    var i, j :| 0 <= i < j < |nonces| && nonces[i] == nonces[j];
    assert GenerateTokens(userId, draws[i], sign).refreshToken == GenerateTokens(userId, draws[j], sign).refreshToken;
  }
}

/** The bearer-header guard `authenticate`: it reads the `Authorization` header, takes the
    second space-separated field after a case-sensitive `Bearer ` prefix, and verifies it
    as an access token. It reads no user document. */
module AuthMiddleware {
  import opened AuthTypes

  const BearerPrefix := "Bearer "
  const NoTokenProvided := "Unauthorized: No token provided"
  const InvalidToken := "Unauthorized: Invalid token"

  /** The guard's verdict: a 401 reply with its message, or `next()` with `req.userId` set. */
  datatype Decision = Reject401(message: string) | Accept(userId: UserId)

  predicate StartsWith(s: string, prefix: string)
  {
    |prefix| <= |s| && s[..|prefix|] == prefix
  }

  /** JavaScript `s.split(sep)` for a one-character separator: the maximal runs between
      separators, empty runs included. */
  function Split(s: string, sep: char): (fields: seq<string>)
    ensures |fields| >= 1
    ensures forall i :: 0 <= i < |fields| ==> sep !in fields[i]
    decreases |s|
  {
    if s == [] then [""]
    else
      var rest := Split(s[1..], sep);
      if s[0] == sep then [""] + rest
      else [[s[0]] + rest[0]] + rest[1..]
  }

  /** `fields.join(sep)`. */
  function Join(fields: seq<string>, sep: char): string
    requires |fields| >= 1
    decreases |fields|
  {
    if |fields| == 1 then fields[0] else fields[0] + [sep] + Join(fields[1..], sep)
  }

  /** Joining the fields of a split gives back the string. */
  lemma {:induction false} JoinSplit(s: string, sep: char)
    ensures Join(Split(s, sep), sep) == s
    decreases |s|
  {
    if s != [] {
      JoinSplit(s[1..], sep);
      var rest := Split(s[1..], sep);
      if s[0] != sep && |rest| > 1 {
        assert Split(s, sep)[1..] == rest[1..];
      }
    }
  }

  /** Splitting a join of separator-free fields gives back the fields. */
  lemma {:induction false} SplitJoin(fields: seq<string>, sep: char)
    requires |fields| >= 1
    requires forall i :: 0 <= i < |fields| ==> sep !in fields[i]
    ensures Split(Join(fields, sep), sep) == fields
    decreases |fields|, |fields[0]|
  {
    var f := fields[0];
    if f == [] {
      if |fields| > 1 {
        SplitJoin(fields[1..], sep);
        assert Join(fields, sep) == [sep] + Join(fields[1..], sep);
        assert Join(fields, sep)[1..] == Join(fields[1..], sep);
        assert fields == [""] + fields[1..];
      }
    } else {
      var shorter := [f[1..]] + fields[1..];
      assert sep !in f[1..] by { assert forall c :: c in f[1..] ==> c in f; }
      SplitJoin(shorter, sep);
      assert Join(fields, sep) == [f[0]] + Join(shorter, sep);
      assert Join(fields, sep)[1..] == Join(shorter, sep);
      assert f == [f[0]] + f[1..];
      assert shorter[1..] == fields[1..];
      assert fields == [[f[0]] + f[1..]] + shorter[1..];
    }
  }

  /** The longest prefix of `s` without a space. */
  function Word(s: string): string
  {
    if s == [] || s[0] == ' ' then "" else [s[0]] + Word(s[1..])
  }

  /** The first field of a split on spaces is the leading word. */
  lemma {:induction false} FirstFieldIsWord(s: string)
    ensures Split(s, ' ')[0] == Word(s)
  {
    if s != [] && s[0] != ' ' {
      FirstFieldIsWord(s[1..]);
    }
  }

  /** A word followed by a space contributes exactly itself as the first field. */
  lemma {:induction false} SplitAfterWord(w: string, rest: string)
    requires ' ' !in w
    ensures Split(w + " " + rest, ' ') == [w] + Split(rest, ' ')
  {
    if w != [] {
      assert ' ' !in w[1..] by { assert forall c :: c in w[1..] ==> c in w; }
      SplitAfterWord(w[1..], rest);
      assert (w + " " + rest)[1..] == w[1..] + " " + rest;
      assert (w + " " + rest)[0] == w[0] && w[0] != ' ';
      assert w == [w[0]] + w[1..];
    } else {
      assert (w + " " + rest)[1..] == rest;
    }
  }

  /** A space-free word followed by nothing or by a space is read back whole by `Word`. */
  lemma {:induction false} WordOfWord(w: string, rest: string)
    requires ' ' !in w
    requires rest == [] || rest[0] == ' '
    ensures Word(w + rest) == w
  {
    if w != [] {
      assert ' ' !in w[1..] by { assert forall c :: c in w[1..] ==> c in w; }
      WordOfWord(w[1..], rest);
      assert (w + rest)[1..] == w[1..] + rest;
    } else {
      assert w + rest == rest;
    }
  }

  /** The credential the guard reads from a header that starts with `Bearer `: the
      characters after the prefix up to the next space. */
  function Credential(header: string): string
    requires StartsWith(header, BearerPrefix)
  {
    Word(header[|BearerPrefix|..])
  }

  /** With the `Bearer ` prefix, `header.split(' ')[1]` is the credential. */
  lemma BearerSecondField(header: string)
    requires StartsWith(header, BearerPrefix)
    ensures |Split(header, ' ')| >= 2 && Split(header, ' ')[1] == Credential(header)
  {
    var rest := header[|BearerPrefix|..];
    assert header == "Bearer" + " " + rest;
    SplitAfterWord("Bearer", rest);
    FirstFieldIsWord(rest);
  }

  /** `authenticate(req, res, next)` with `verify` standing for `jwt.verify` under the access
      secret. `header` is `req.headers.authorization`. */
  function Authenticate(header: Option<string>, verify: string -> Option<UserId>): (d: Decision)
    ensures d.Accept? <==>
              && Truthy(header) && StartsWith(header.value, BearerPrefix)
              && Credential(header.value) != ""
              && verify(Credential(header.value)).Some?
    ensures d.Accept? ==> verify(Credential(header.value)) == Some(d.userId)
    ensures d == Reject401(InvalidToken) <==>
              && Truthy(header) && StartsWith(header.value, BearerPrefix)
              && Credential(header.value) != ""
              && verify(Credential(header.value)).None?
    ensures d.Reject401? ==> d.message == NoTokenProvided || d.message == InvalidToken
  {
    if !Truthy(header) || !StartsWith(header.value, BearerPrefix) then
      Reject401(NoTokenProvided)
    else
      var fields := Split(header.value, ' ');
      BearerSecondField(header.value);
      var token := if |fields| > 1 then fields[1] else "";
      if token == "" then
        Reject401(NoTokenProvided)
      else
        match verify(token)
        case None => Reject401(InvalidToken)
        case Some(id) => Accept(id)
  }

  /** `Bearer <token>`, optionally followed by further space-separated text, is judged by
      verifying `<token>` alone. */
  lemma BearerTokenForm(token: string, trailing: string, verify: string -> Option<UserId>)
    requires token != "" && ' ' !in token
    requires trailing == [] || trailing[0] == ' '
    ensures Authenticate(Some(BearerPrefix + token + trailing), verify) ==
              match verify(token)
              case None => Reject401(InvalidToken)
              case Some(id) => Accept(id)
  {
    var header := BearerPrefix + token + trailing;
    assert header[..|BearerPrefix|] == BearerPrefix;
    assert header[|BearerPrefix|..] == token + trailing;
    WordOfWord(token, trailing);
  }

  /** Headers without the exact `Bearer ` prefix are refused before anything is verified:
      no header, an empty one, another format, the scheme in lower case, or no space. */
  lemma PrefixRequired(verify: string -> Option<UserId>)
    ensures Authenticate(None, verify) == Reject401(NoTokenProvided)
    ensures Authenticate(Some(""), verify) == Reject401(NoTokenProvided)
    ensures Authenticate(Some("InvalidFormat"), verify) == Reject401(NoTokenProvided)
    ensures Authenticate(Some("bearer abc"), verify) == Reject401(NoTokenProvided)
    ensures Authenticate(Some("Bearer"), verify) == Reject401(NoTokenProvided)
  {
    assert !StartsWith("InvalidFormat", BearerPrefix) by { assert "InvalidFormat"[0] != BearerPrefix[0]; }
    assert !StartsWith("bearer abc", BearerPrefix) by { assert "bearer abc"[0] != BearerPrefix[0]; }
  }

  /** With the prefix but nothing before the next space, the second field is empty and the
      header is refused: `Bearer ` and `Bearer  abc` (two spaces). */
  lemma EmptyCredentialRefused(verify: string -> Option<UserId>)
    ensures Authenticate(Some("Bearer "), verify) == Reject401(NoTokenProvided)
    ensures Authenticate(Some("Bearer  abc"), verify) == Reject401(NoTokenProvided)
  {
    assert StartsWith("Bearer ", BearerPrefix);
    assert Credential("Bearer ") == "" by { assert "Bearer "[|BearerPrefix|..] == ""; }
    assert StartsWith("Bearer  abc", BearerPrefix) by { assert "Bearer  abc"[..7] == BearerPrefix; }
    assert Credential("Bearer  abc") == "" by { assert "Bearer  abc"[|BearerPrefix|..][0] == ' '; }
  }
}

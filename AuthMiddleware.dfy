/** The server's two authentication middlewares. `authenticateToken` insists
    on a valid token of an existing user and answers the request itself
    otherwise; `optionalAuth` never answers and lets every request through,
    as a guest when the token is missing or does not check out. Token
    verification and the user lookup are outside the model: their outcomes
    are given as functions. */
module AuthMiddleware {
  import opened Wrappers
  import opened Accounts

  /** What token verification yields: the user id it carries, or the name of the error it throws. */
  datatype Verification = Decoded(userId: int) | VerifyError(name: string)

  /** What the user lookup yields: the user row, no row, or a failed query. */
  datatype Lookup = Found(user: User) | NoRows | QueryFailed

  /** The middleware's decision: pass the request on with this `req.user`, or answer it. */
  datatype Outcome = Proceed(user: Option<User>) | Respond(status: int, error: string)

  const BearerScheme := "Bearer "

  /** JavaScript's `s.split(sep)` with a one-character separator. */
  function Split(s: string, sep: char): (parts: seq<string>)
    ensures |parts| >= 1
    ensures forall i :: 0 <= i < |parts| ==> sep !in parts[i]
  {
    if s == [] then [""]
    else if s[0] == sep then [""] + Split(s[1..], sep)
    else
      var rest := Split(s[1..], sep);
      [[s[0]] + rest[0]] + rest[1..]
  }

  /** `parts.join(sep)`. */
  function Join(parts: seq<string>, sep: char): string
    requires |parts| >= 1
  {
    if |parts| == 1 then parts[0] else parts[0] + [sep] + Join(parts[1..], sep)
  }

  /** Splitting loses nothing: joining the parts with the separator gives the text back. */
  lemma {:induction false} JoinSplit(s: string, sep: char)
    ensures Join(Split(s, sep), sep) == s
  {
    if s != [] {
      JoinSplit(s[1..], sep);
      var rest := Split(s[1..], sep);
      if s[0] == sep {
        assert Split(s, sep)[1..] == rest;
      } else {
        var parts := Split(s, sep);
        assert parts[1..] == rest[1..];
        assert s == [s[0]] + s[1..];
      }
    }
  }

  lemma {:induction false} SplitWithoutSeparator(s: string, sep: char)
    requires sep !in s
    ensures Split(s, sep) == [s]
  {
    if s != [] {
      SplitWithoutSeparator(s[1..], sep);
      assert s == [s[0]] + s[1..];
    }
  }

  lemma {:induction false} SplitAfterWord(w: string, sep: char, rest: string)
    requires sep !in w
    ensures Split(w + [sep] + rest, sep) == [w] + Split(rest, sep)
  {
    if w == [] {
      assert w + [sep] + rest == [sep] + rest;
    } else {
      assert (w + [sep] + rest)[1..] == w[1..] + [sep] + rest;
      SplitAfterWord(w[1..], sep, rest);
      assert w == [w[0]] + w[1..];
    }
  }

  /** The token `authenticateToken` reads: the second space-separated field of
      the header, whatever the first one says; none when the header is
      missing or that field is missing or empty. */
  function StrictToken(header: Option<string>): (token: Option<string>)
    ensures token.Some? ==> token.value != "" && ' ' !in token.value
    ensures token.Some? ==> header.Some? && |Split(header.value, ' ')| >= 2 && token.value == Split(header.value, ' ')[1]
    ensures header.Some? && |Split(header.value, ' ')| >= 2 && Split(header.value, ' ')[1] != "" ==>
              token == Some(Split(header.value, ' ')[1])
  {
    if header.None? || header.value == "" then None
    else
      var parts := Split(header.value, ' ');
      if |parts| < 2 || parts[1] == "" then None else Some(parts[1])
  }

  /** The token `optionalAuth` reads: everything after `"Bearer "`, when the header starts with exactly that. */
  function OptionalToken(header: Option<string>): (token: Option<string>)
    ensures token.Some? ==> header.Some? && header.value == BearerScheme + token.value
    ensures token.None? ==> header.None? || |header.value| < |BearerScheme| || header.value[..|BearerScheme|] != BearerScheme
  {
    if header.Some? && |header.value| >= |BearerScheme| && header.value[..|BearerScheme|] == BearerScheme then
      assert header.value == BearerScheme + header.value[|BearerScheme|..];
      Some(header.value[|BearerScheme|..])
    else None
  }

  /** `authenticateToken`'s decision. */
  function AuthenticateDecision(header: Option<string>, verify: string -> Verification, lookup: int -> Lookup): (o: Outcome)
    ensures StrictToken(header).None? ==> o == Respond(401, "Access token required")
    ensures o.Proceed? <==> StrictToken(header).Some? && verify(StrictToken(header).value).Decoded?
                            && lookup(verify(StrictToken(header).value).userId).Found?
    ensures o.Proceed? ==> o.user == Some(lookup(verify(StrictToken(header).value).userId).user)
    ensures o.Respond? ==> o.status == 401 || o.status == 500
    // A verification error is answered by its name.
    ensures StrictToken(header).Some? && verify(StrictToken(header).value).VerifyError? ==>
              var name := verify(StrictToken(header).value).name;
              o == if name == "JsonWebTokenError" then Respond(401, "Invalid token")
                   else if name == "TokenExpiredError" then Respond(401, "Token expired")
                   else Respond(500, "Authentication error")
    // A token that verifies for a user who no longer exists.
    ensures (StrictToken(header).Some? && verify(StrictToken(header).value).Decoded?
             && lookup(verify(StrictToken(header).value).userId).NoRows?) ==> o == Respond(401, "User not found")
    // A failed user lookup is not a verification error: it is answered with 500.
    ensures (StrictToken(header).Some? && verify(StrictToken(header).value).Decoded?
             && lookup(verify(StrictToken(header).value).userId).QueryFailed?) ==> o == Respond(500, "Authentication error")
  {
    match StrictToken(header)
    case None => Respond(401, "Access token required")
    case Some(token) =>
      match verify(token)
      case VerifyError(name) =>
        if name == "JsonWebTokenError" then Respond(401, "Invalid token")
        else if name == "TokenExpiredError" then Respond(401, "Token expired")
        else Respond(500, "Authentication error")
      case Decoded(userId) =>
        match lookup(userId)
        case Found(user) => Proceed(Some(user))
        case NoRows => Respond(401, "User not found")
        case QueryFailed => Respond(500, "Authentication error")
  }

  /** `optionalAuth`'s decision: always pass on; a user only for a bearer token
      that verifies and names an existing user. */
  function OptionalDecision(header: Option<string>, verify: string -> Verification, lookup: int -> Lookup): (user: Option<User>)
    ensures user.Some? <==> OptionalToken(header).Some? && verify(OptionalToken(header).value).Decoded?
                            && lookup(verify(OptionalToken(header).value).userId).Found?
    ensures user.Some? ==> user.value == lookup(verify(OptionalToken(header).value).userId).user
  {
    match OptionalToken(header)
    case None => None
    case Some(token) =>
      match verify(token)
      case VerifyError(_) => None
      case Decoded(userId) =>
        match lookup(userId)
        case Found(user) => Some(user)
        case _ => None
  }

  /** The header the client builds gives the server back the client's token, under both middlewares. */
  lemma BearerHeaderRoundTrip(token: string)
    requires token != "" && ' ' !in token
    ensures StrictToken(Some(BearerScheme + token)) == Some(token)
    ensures OptionalToken(Some(BearerScheme + token)) == Some(token)
  {
    assert BearerScheme + token == "Bearer" + [' '] + token;
    SplitAfterWord("Bearer", ' ', token);
    SplitWithoutSeparator(token, ' ');
  }

  /** `authenticateToken` ignores the scheme word: `Basic t` yields `t` as well,
      while `optionalAuth` treats that header as a guest's. */
  lemma SchemeWordIgnoredByStrictOnly(token: string)
    requires token != "" && ' ' !in token
    ensures StrictToken(Some("Basic " + token)) == Some(token)
    ensures OptionalToken(Some("Basic " + token)) == None
  {
    assert "Basic " + token == "Basic" + [' '] + token;
    SplitAfterWord("Basic", ' ', token);
    SplitWithoutSeparator(token, ' ');
  }

  /** With two spaces after the scheme the strict middleware finds no token,
      while the optional one passes on a token that starts with a space. */
  lemma DoubleSpaceReadsDifferently(token: string)
    requires ' ' !in token
    ensures StrictToken(Some("Bearer  " + token)) == None
    ensures OptionalToken(Some("Bearer  " + token)) == Some(" " + token)
  {
    assert "Bearer  " + token == "Bearer" + [' '] + ([' '] + token);
    SplitAfterWord("Bearer", ' ', [' '] + token);
    assert [' '] + token == [] + [' '] + token;
    SplitAfterWord([], ' ', token);
  }

  /** The request as the middlewares leave it: `req.user`, how often `next`
      was called, and the answer sent, if any. */
  class Exchange {
    var user: Option<User>
    var nextCalls: nat
    var response: Option<(int, string)>

    constructor ()
      ensures user == None && nextCalls == 0 && response == None
    {
      user := None;
      nextCalls := 0;
      response := None;
    }

    /** `authenticateToken`: on success sets `req.user` and calls `next` once;
        otherwise answers and neither calls `next` nor sets `req.user`. */
    method AuthenticateToken(header: Option<string>, verify: string -> Verification, lookup: int -> Lookup)
      modifies this
      ensures var o := AuthenticateDecision(header, verify, lookup);
              if o.Proceed? then user == o.user && nextCalls == old(nextCalls) + 1 && response == old(response)
              else user == old(user) && nextCalls == old(nextCalls) && response == Some((o.status, o.error))
    {
      var token := StrictToken(header);
      if token.None? {
        response := Some((401, "Access token required"));
        return;
      }
      var verified := verify(token.value);
      if verified.VerifyError? {
        if verified.name == "JsonWebTokenError" {
          response := Some((401, "Invalid token"));
        } else if verified.name == "TokenExpiredError" {
          response := Some((401, "Token expired"));
        } else {
          response := Some((500, "Authentication error"));
        }
        return;
      }
      var row := lookup(verified.userId);
      if row.NoRows? {
        response := Some((401, "User not found"));
        return;
      } else if row.QueryFailed? {
        response := Some((500, "Authentication error"));
        return;
      }
      user := Some(row.user);
      nextCalls := nextCalls + 1;
    }

    /** `optionalAuth`: never answers, sets `req.user` on every path and calls `next` exactly once. */
    method OptionalAuth(header: Option<string>, verify: string -> Verification, lookup: int -> Lookup)
      modifies this
      ensures user == OptionalDecision(header, verify, lookup)
      ensures nextCalls == old(nextCalls) + 1 && response == old(response)
    {
      var token := OptionalToken(header);
      if token.None? {
        user := None;
        nextCalls := nextCalls + 1;
        return;
      }
      var verified := verify(token.value);
      if verified.VerifyError? {
        user := None;
        nextCalls := nextCalls + 1;
        return;
      }
      var row := lookup(verified.userId);
      if !row.Found? {
        user := None;
        nextCalls := nextCalls + 1;
        return;
      }
      user := Some(row.user);
      nextCalls := nextCalls + 1;
    }
  }
}

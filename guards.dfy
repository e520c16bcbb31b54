/**
 * The bearer-token guard (src/auth/guards.ts): it takes the token from the
 * `Authorization` header, verifies it, loads its user and rejects a token
 * issued before the user's last password change. Every rejection is a 401
 * passed to `next`; on success the user is attached to the request.
 */
module Guards {
  import opened Wrappers
  import opened Strings
  import opened Response
  import opened UserEntity
  import opened Password
  import opened Tables

  /** The claims `jwt.verify` returns: the user id and the issued-at time in seconds, if any. */
  datatype JwtPayload = JwtPayload(id: nat, iat: Option<int>)

  /**
   * The token of the header: when the header starts with "Bearer", the
   * second piece of its split on single spaces; none when that piece is
   * missing or empty (both falsy).
   */
  function BearerToken(header: Option<string>): (r: Option<string>)
    ensures r.Some? ==> header.Some? && StartsWith(header.value, "Bearer")
    ensures r.Some? ==> r.value != "" && ' ' !in r.value
  {
    if header.Some? && StartsWith(header.value, "Bearer") then
      var pieces := Split(header.value, ' ');
      if |pieces| > 1 && pieces[1] != "" then Some(pieces[1]) else None
    else None
  }

  lemma SplitFirstPiece(t: string, rest: string)
    requires ' ' !in t
    requires rest == [] || rest[0] == ' '
    ensures Split(t + rest, ' ')[0] == t
  {
    if rest == [] {
      assert t + rest == t;
      SplitNoSep(t, ' ');
    } else {
      assert t + rest == t + [' '] + rest[1..];
      SplitCut(t, rest[1..], ' ');
    }
  }

  /**
   * A header made of a one-word scheme starting with "Bearer", one space and
   * a token yields that token; anything after a further space is ignored.
   * The scheme need not be exactly "Bearer": "Bearerish abc" also yields "abc".
   */
  lemma BearerTokenExtracted(scheme: string, token: string, rest: string)
    requires StartsWith(scheme, "Bearer") && ' ' !in scheme
    requires token != "" && ' ' !in token
    requires rest == [] || rest[0] == ' '
    ensures BearerToken(Some(scheme + " " + token + rest)) == Some(token)
  {
    var h := scheme + " " + token + rest;
    assert h[..6] == scheme[..6];
    assert h == scheme + [' '] + (token + rest);
    SplitCut(scheme, token + rest, ' ');
    SplitFirstPiece(token, rest);
  }

  /** "Bearer abc" yields "abc". */
  lemma StandardHeader(token: string)
    requires token != "" && ' ' !in token
    ensures BearerToken(Some("Bearer " + token)) == Some(token)
  {
    BearerTokenExtracted("Bearer", token, "");
    assert "Bearer" + " " + token + "" == "Bearer " + token;
  }

  /** A header without a space ("Bearer", "Bearerabc") yields no token. */
  lemma NoSpaceNoToken(header: string)
    requires ' ' !in header
    ensures BearerToken(Some(header)) == None
  {
    SplitNoSep(header, ' ');
  }

  /** Two spaces after the scheme ("Bearer  abc") make the second piece empty: no token. */
  lemma DoubleSpaceNoToken(rest: string)
    ensures BearerToken(Some("Bearer  " + rest)) == None
  {
    var h := "Bearer  " + rest;
    assert h == "Bearer" + [' '] + (" " + rest);
    SplitCut("Bearer", " " + rest, ' ');
    SplitFirstPiece("", " " + rest);
    assert "" + (" " + rest) == " " + rest;
  }

  /** A header with another scheme yields no token. */
  lemma OtherSchemeNoToken(header: string)
    requires !StartsWith(header, "Bearer")
    ensures BearerToken(Some(header)) == None
  {
  }

  const NotLoggedIn := NewAppError("You are not logged in, please login", 401)
  const UserGone := NewAppError("The user belonging to this token, no longer exists", 401)
  const MissingIssuedAt := NewAppError("Invalid token: missing issued-at timestamp", 401)
  const PasswordChanged := NewAppError("User recently changed password! Please log in again.", 401)
  const InvalidToken := NewAppError("Invalid token. Please log in again", 401)

  /** The guard's verdict: admit with the loaded user, or reject with the error given to `next`. */
  datatype GuardOutcome = Admit(user: User) | Reject(error: AppError)

  /** The user whose id is `id`, as `findOneBy({ id })` returns it. */
  function FindUser(users: seq<User>, id: nat): (r: Option<User>)
    ensures r.Some? ==> r.value in users && r.value.id == id
    ensures r.None? ==> forall j :: 0 <= j < |users| ==> users[j].id != id
  {
    match FindFirst(users, (u: User) => u.id == id)
    case None => None
    case Some(i) => Some(users[i])
  }

  /**
   * The decision of `JwtAuthGuard` with `jwt.verify` as `verify` (`None`
   * when it throws). The checks run in order: a token is present, it
   * verifies, its user exists, it carries a non-zero issue time, and the
   * password was not changed after that time.
   */
  function Authenticate(header: Option<string>, verify: string -> Option<JwtPayload>, users: seq<User>): (r: GuardOutcome)
    ensures r.Reject? ==> r.error.statusCode == 401
    ensures r.Admit? ==>
      && BearerToken(header).Some?
      && verify(BearerToken(header).value).Some?
      && var payload := verify(BearerToken(header).value).value;
      && r.user in users && r.user.id == payload.id
      && payload.iat.Some? && payload.iat.value != 0
      && !ChangedPasswordAfter(r.user, payload.iat.value)
    ensures BearerToken(header).Some? && verify(BearerToken(header).value).Some? ==>
      var payload := verify(BearerToken(header).value).value;
      var found := FindUser(users, payload.id);
      found.Some? && payload.iat.Some? && payload.iat.value != 0 && !ChangedPasswordAfter(found.value, payload.iat.value)
      ==> r == Admit(found.value)
  {
    match BearerToken(header)
    case None => Reject(NotLoggedIn)
    case Some(token) =>
      match verify(token)
      case None => Reject(InvalidToken)
      case Some(payload) =>
        match FindUser(users, payload.id)
        case None => Reject(UserGone)
        case Some(user) =>
          if payload.iat.None? || payload.iat.value == 0 then Reject(MissingIssuedAt)
          else if ChangedPasswordAfter(user, payload.iat.value) then Reject(PasswordChanged)
          else Admit(user)
  }

  /** Which error each first failing check gives, in the order the guard makes them: all five rejections. */
  lemma GuardCheckOrder(header: Option<string>, verify: string -> Option<JwtPayload>, users: seq<User>)
    ensures BearerToken(header).None? ==> Authenticate(header, verify, users) == Reject(NotLoggedIn)
    ensures BearerToken(header).Some? && verify(BearerToken(header).value).None?
      ==> Authenticate(header, verify, users) == Reject(InvalidToken)
    ensures BearerToken(header).Some? && verify(BearerToken(header).value).Some?
      && (forall j :: 0 <= j < |users| ==> users[j].id != verify(BearerToken(header).value).value.id)
      ==> Authenticate(header, verify, users) == Reject(UserGone)
    ensures BearerToken(header).Some? && verify(BearerToken(header).value).Some? ==>
      var payload := verify(BearerToken(header).value).value;
      FindUser(users, payload.id).Some? && (payload.iat.None? || payload.iat.value == 0)
      ==> Authenticate(header, verify, users) == Reject(MissingIssuedAt)
    ensures BearerToken(header).Some? && verify(BearerToken(header).value).Some? ==>
      var payload := verify(BearerToken(header).value).value;
      var found := FindUser(users, payload.id);
      found.Some? && payload.iat.Some? && payload.iat.value != 0 && ChangedPasswordAfter(found.value, payload.iat.value)
      ==> Authenticate(header, verify, users) == Reject(PasswordChanged)
  {
  }

  /**
   * Changing a password revokes the tokens issued before the change: for a
   * verified token whose user changed the password after its issue time,
   * the guard rejects with the password-changed error.
   */
  lemma OlderTokenRejected(header: Option<string>, verify: string -> Option<JwtPayload>, users: seq<User>, i: nat)
    requires BearerToken(header).Some? && verify(BearerToken(header).value).Some?
    requires i < |users| && users[i].id == verify(BearerToken(header).value).value.id
    requires forall j :: 0 <= j < i ==> users[j].id != users[i].id
    requires var iat := verify(BearerToken(header).value).value.iat;
      iat.Some? && iat.value != 0 && users[i].passwordChangedAt.Some?
      && iat.value * 1000 < users[i].passwordChangedAt.value
    ensures Authenticate(header, verify, users) == Reject(PasswordChanged)
  {
    assert FindUser(users, users[i].id) == Some(users[i]);
  }

  /** The request object: the guard writes `req.user`. */
  class Request {
    var user: Option<User>

    constructor ()
      ensures user.None?
    {
      user := None;
    }
  }

  /**
   * `JwtAuthGuard(req, res, next)`: returns the error passed to `next`, or
   * `None` for a bare `next()` after attaching the user to the request.
   */
  method JwtAuthGuard(req: Request, header: Option<string>, verify: string -> Option<JwtPayload>, users: seq<User>)
    returns (nextError: Option<AppError>)
    modifies req
    ensures nextError.None? <==> Authenticate(header, verify, users).Admit?
    ensures nextError.Some? ==> nextError.value == Authenticate(header, verify, users).error
    ensures nextError.Some? ==> req.user == old(req.user)
    ensures nextError.None? ==> req.user == Some(Authenticate(header, verify, users).user)
  {
    var token: Option<string> := None;
    if header.Some? && StartsWith(header.value, "Bearer") {
      var pieces := Split(header.value, ' ');
      if |pieces| > 1 {
        token := Some(pieces[1]);
      }
    }
    if token.None? || token.value == "" {
      return Some(NotLoggedIn);
    }
    var payload := verify(token.value);
    if payload.None? {
      return Some(InvalidToken);
    }
    var userWithToken := FindUser(users, payload.value.id);
    if userWithToken.None? {
      return Some(UserGone);
    }
    var iat := payload.value.iat;
    if iat.None? || iat.value == 0 {
      return Some(MissingIssuedAt);
    }
    if ChangedPasswordAfter(userWithToken.value, iat.value) {
      return Some(PasswordChanged);
    }
    req.user := userWithToken;
    nextError := None;
  }
}

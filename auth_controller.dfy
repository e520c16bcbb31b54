/**
 * The account handlers of src/auth/auth.controller.ts over the user table:
 * sign-up, sign-in, the forgot/reset password pair and the password update.
 * Each handler either replies (through `createToken` or a plain JSON reply)
 * or passes an error to `next`.
 */
module AuthController {
  import opened Wrappers
  import opened Tables
  import opened Response
  import opened UserEntity
  import opened Password
  import opened Guards

  /**
   * The JSON reply of a handler. `createToken` clears the password on the
   * user object before it is sent, so `user` never carries one.
   */
  datatype AuthReply = AuthReply(statusCode: int, message: string, user: Option<User>)

  /** The reply `createToken(user, statusCode, res, message)` sends. */
  function TokenReply(user: User, statusCode: int, message: string): (r: AuthReply)
    ensures r.statusCode == statusCode && r.message == message
    ensures r.user.Some? && r.user.value.password.None?
    ensures r.user.value.(password := user.password) == user
  {
    AuthReply(statusCode, message, Some(user.(password := None)))
  }

  const EmailTaken := NewAppError("User already exists with that email", 400)
  const NoUserWithEmail := NewAppError("User does not exists with that email", 404)
  const EmailMissing := NewAppError("Email is missing for the user", 400)
  const PasswordMissing := NewAppError("Password is missing for the user", 400)
  const WrongPassword := NewAppError("Invalid Password, please try again", 400)
  const EnterEmail := NewAppError("Please enter your email", 400)
  const UnknownUser := NewAppError("User does not exist", 404)
  const ResetRejected := NewAppError("Reset Token has expired or it is invalid, try again", 400)
  const UserNotFound := NewAppError("User not found", 400)
  const CurrentPasswordMissing := NewAppError("Please provide your current password", 400)
  const StoredPasswordMissing := NewAppError("Please provide your  password", 400)
  const CurrentPasswordWrong := NewAppError("Current password is incorrect", 401)

  /** `!value` for an optional string: absent or empty. */
  predicate Falsy(value: Option<string>) {
    value.None? || value.value == ""
  }

  /** The path the reset link points to, ending with the raw token. */
  function ResetUrl(protocol: string, host: string, token: string): (url: string)
    ensures |url| >= |token| && url[|url| - |token|..] == token
  {
    protocol + "://" + host + "/api/v1/auth/reset-password/" + token
  }

  /**
   * The reset lookup as the code writes it: the stored digest equals the
   * digest of the presented token and the stored expiry EQUALS the current
   * instant (`passwordResetExpires: new Date()` is an equality condition).
   */
  predicate ResetMatchesAsWritten(u: User, digest: string, nowMs: int) {
    u.passwordResetToken == Some(digest) && u.passwordResetExpires == Some(nowMs)
  }

  /** The evidently intended lookup: the digest matches and the expiry is still ahead. */
  predicate ResetMatches(u: User, digest: string, nowMs: int) {
    u.passwordResetToken == Some(digest) && u.passwordResetExpires.Some? && u.passwordResetExpires.value > nowMs
  }

  /**
   * A token minted at `mintedMs` and presented one millisecond later, well
   * inside the ten-minute window, is refused by the lookup as written and
   * accepted by the intended one.
   */
  lemma ResetExpiryCounterexample(user: User, randomBytes: seq<byte>, mintedMs: int, crypto: Crypto)
    requires |randomBytes| == 32
    ensures var m := PasswordResetToken(user, randomBytes, mintedMs, crypto);
      && !ResetMatchesAsWritten(m.user, crypto.sha256Hex(m.token), mintedMs + 1)
      && ResetMatches(m.user, crypto.sha256Hex(m.token), mintedMs + 1)
  {
    var m := PasswordResetToken(user, randomBytes, mintedMs, crypto);
    assert m.user.passwordResetExpires == Some(mintedMs + 600000);
  }

  /** As written, a minted token is accepted at exactly one instant: the moment it expires. */
  lemma AsWrittenAcceptsOnlyAtExpiry(user: User, randomBytes: seq<byte>, mintedMs: int, nowMs: int, crypto: Crypto)
    requires |randomBytes| == 32
    ensures var m := PasswordResetToken(user, randomBytes, mintedMs, crypto);
      ResetMatchesAsWritten(m.user, crypto.sha256Hex(m.token), nowMs) <==> nowMs == mintedMs + ResetTokenLifetimeMs
  {
  }

  /**
   * With the intended lookup, the token mailed by forgotPassword opens the
   * reset exactly during the ten minutes after it was minted.
   */
  lemma MintedTokenRedeemable(user: User, randomBytes: seq<byte>, mintedMs: int, nowMs: int, crypto: Crypto)
    requires |randomBytes| == 32
    ensures var m := PasswordResetToken(user, randomBytes, mintedMs, crypto);
      ResetMatches(m.user, crypto.sha256Hex(m.token), nowMs) <==> nowMs < mintedMs + ResetTokenLifetimeMs
  {
  }

  /**
   * The row resetPassword stores, as the code writes it: the reset fields are
   * set to `undefined`, which `save` skips, so only the new hash reaches the
   * table and the stored digest and expiry stay.
   */
  function ResetRowAsWritten(u: User, hash: string): (v: User)
    ensures v.password == Some(hash)
    ensures v.passwordResetToken == u.passwordResetToken && v.passwordResetExpires == u.passwordResetExpires
    ensures v.(password := u.password) == u
  {
    u.(password := Some(hash))
  }

  /** As written, the row a token just reset still matches that token: it can reset again until expiry. */
  lemma ResetTokenReusableAsWritten(u: User, digest: string, nowMs: int, hash: string)
    requires ResetMatches(u, digest, nowMs)
    ensures ResetMatches(ResetRowAsWritten(u, hash), digest, nowMs)
  {
  }

  /** The evidently intended stored row: the new hash, and both reset fields cleared. */
  function ResetRow(u: User, hash: string): (v: User)
    ensures v.password == Some(hash)
    ensures v.passwordResetToken.None? && v.passwordResetExpires.None?
    ensures v.(password := u.password, passwordResetToken := u.passwordResetToken,
               passwordResetExpires := u.passwordResetExpires) == u
  {
    u.(password := Some(hash), passwordResetExpires := None, passwordResetToken := None)
  }

  /** With the reset fields cleared, no token matches the row any more, at any time. */
  lemma ResetTokenSpent(u: User, hash: string, digest: string, nowMs: int)
    ensures !ResetMatches(ResetRow(u, hash), digest, nowMs)
    ensures !ResetMatchesAsWritten(ResetRow(u, hash), digest, nowMs)
  {
  }

  /** Replacing a row by one with the same id does not move `findOneBy({ id })`. */
  lemma FindIdSameIds(users: seq<User>, i: nat, u: User, id: nat)
    requires i < |users| && u.id == users[i].id
    ensures FindFirst(users[i := u], (x: User) => x.id == id) == FindFirst(users, (x: User) => x.id == id)
  {
    FindFirstSamePattern(users[i := u], (x: User) => x.id == id, users, (x: User) => x.id == id);
  }

  /**
   * Neither resetPassword nor updatePassword touches `passwordChangedAt`, so
   * a token the guard admitted before the change is still admitted after it.
   */
  lemma PasswordChangeKeepsTokens(header: Option<string>, verify: string -> Option<JwtPayload>,
                                  users: seq<User>, i: nat, u: User)
    requires i < |users| && u.id == users[i].id && u.passwordChangedAt == users[i].passwordChangedAt
    ensures Authenticate(header, verify, users[i := u]).Admit? <==> Authenticate(header, verify, users).Admit?
  {
    if BearerToken(header).Some? && verify(BearerToken(header).value).Some? {
      FindIdSameIds(users, i, u, verify(BearerToken(header).value).value.id);
    }
  }

  /** Ids distinct and below the next id; the email column is unique. */
  ghost predicate UsersValid(users: seq<User>, nextId: nat) {
    && (forall i :: 0 <= i < |users| ==> users[i].id < nextId)
    && (forall i, j :: 0 <= i < j < |users| ==> users[i].id != users[j].id)
    && EmailsUnique(users)
  }

  /** Replacing a row by one with the same id and email keeps the table valid. */
  lemma ReplaceKeepsValid(users: seq<User>, nextId: nat, i: nat, u: User)
    requires UsersValid(users, nextId) && i < |users|
    requires u.id == users[i].id && u.email == users[i].email
    ensures UsersValid(users[i := u], nextId)
  {
  }

  class AuthController {
    var users: seq<User>
    var nextId: nat

    ghost predicate Valid()
      reads this
    {
      UsersValid(users, nextId)
    }

    constructor ()
      ensures Valid() && users == []
    {
      users, nextId := [], 0;
    }

    /**
     * `signUp`: a second account with an email already in the table is
     * refused; otherwise one row is added holding the bcrypt hash of the
     * password, never the password itself.
     */
    method SignUp(firstName: string, secondName: string, email: string, password: string, crypto: Crypto)
      returns (r: Result<AuthReply, AppError>)
      requires Valid()
      modifies this
      ensures Valid()
      ensures (exists i :: 0 <= i < |old(users)| && old(users)[i].email == email) ==>
        r == Err(EmailTaken) && users == old(users)
      ensures (forall i :: 0 <= i < |old(users)| ==> old(users)[i].email != email) ==>
        var row := NewUser(old(nextId), email, firstName, secondName, Some(crypto.bcryptHash(password)));
        && users == old(users) + [row]
        && r == Ok(TokenReply(row, 201, "Registered successfully"))
    {
      var existingUser := FindFirst(users, (u: User) => u.email == email);
      if existingUser.Some? {
        return Err(EmailTaken);
      }
      var hashedPassword := crypto.bcryptHash(password);
      var newUser := NewUser(nextId, email, firstName, secondName, Some(hashedPassword));
      users := users + [newUser];
      nextId := nextId + 1;
      r := Ok(TokenReply(newUser, 201, "Registered successfully"));
    }

    /**
     * `signIn`: the first row with the email decides; its email and stored
     * hash must be present, and the password must match the hash.
     */
    method SignIn(email: string, password: string, crypto: Crypto) returns (r: Result<AuthReply, AppError>)
      ensures var i := FindFirst(users, (u: User) => u.email == email);
        && (i.None? ==> r == Err(NoUserWithEmail))
        && (i.Some? && users[i.value].email == "" ==> r == Err(EmailMissing))
        && (i.Some? && users[i.value].email != "" && Falsy(users[i.value].password) ==> r == Err(PasswordMissing))
        && (i.Some? && users[i.value].email != "" && !Falsy(users[i.value].password) ==>
              r == if crypto.bcryptCompare(password, users[i.value].password.value)
                   then Ok(TokenReply(users[i.value], 200, "Login Succesfull"))
                   else Err(WrongPassword))
      ensures r.Ok? <==>
        exists i :: 0 <= i < |users| && users[i].email == email && users[i].email != ""
          && !Falsy(users[i].password) && crypto.bcryptCompare(password, users[i].password.value)
          && (forall j :: 0 <= j < i ==> users[j].email != email)
    {
      var found := FindFirst(users, (u: User) => u.email == email);
      if found.None? {
        return Err(NoUserWithEmail);
      }
      var user := users[found.value];
      if user.email == "" {
        return Err(EmailMissing);
      }
      if Falsy(user.password) {
        return Err(PasswordMissing);
      }
      var ifPasswordIsCorrect := crypto.bcryptCompare(password, user.password.value);
      if !ifPasswordIsCorrect {
        return Err(WrongPassword);
      }
      r := Ok(TokenReply(user, 200, "Login Succesfull"));
    }

    /**
     * `forgotPassword`: mints a reset token for the first row with the email
     * and mails a link ending with the raw token. `mailError` is the error
     * the mail call throws, if any; the new reset fields are saved only
     * after the mail call returns.
     */
    method ForgotPassword(email: Option<string>, protocol: string, host: string, randomBytes: seq<byte>,
                          nowMs: int, crypto: Crypto, mailError: Option<string>)
      returns (r: Result<AuthReply, Thrown>, mailedUrl: Option<string>)
      requires Valid() && |randomBytes| == 32
      modifies this
      ensures Valid()
      ensures r.Err? ==> users == old(users)
      ensures Falsy(email) ==> r == Err(App(EnterEmail, None)) && mailedUrl.None?
      ensures !Falsy(email) && FindFirst(old(users), (u: User) => u.email == email.value).None? ==>
        r == Err(App(UnknownUser, None)) && mailedUrl.None?
      ensures !Falsy(email) ==>
        var i := FindFirst(old(users), (u: User) => u.email == email.value);
        i.Some? ==>
          var m := PasswordResetToken(old(users)[i.value], randomBytes, nowMs, crypto);
          && mailedUrl == Some(ResetUrl(protocol, host, m.token))
          && (mailError.Some? ==> r == Err(Other(mailError.value, None)))
          && (mailError.None? ==>
                && users == old(users)[i.value := m.user]
                && r == Ok(AuthReply(200, "Token sent to your email!", None)))
    {
      mailedUrl := None;
      if Falsy(email) {
        return Err(App(EnterEmail, None)), mailedUrl;
      }
      var found := FindFirst(users, (u: User) => u.email == email.value);
      if found.None? {
        return Err(App(UnknownUser, None)), mailedUrl;
      }
      var mint := PasswordResetToken(users[found.value], randomBytes, nowMs, crypto);
      mailedUrl := Some(ResetUrl(protocol, host, mint.token));
      if mailError.Some? {
        return Err(Other(mailError.value, None)), mailedUrl;
      }
      ReplaceKeepsValid(users, nextId, found.value, mint.user);
      users := users[found.value := mint.user];
      r := Ok(AuthReply(200, "Token sent to your email!", None));
    }

    /**
     * `resetPassword` with the intended lookup (see `ResetMatchesAsWritten`)
     * and the intended write (see `ResetRowAsWritten`): the first row whose
     * stored digest matches the token's and whose expiry is ahead gets the
     * new hash, and its reset fields are cleared. The reply's user has the
     * reset fields unset either way, as the in-memory object does.
     */
    method ResetPassword(token: string, newPassword: string, nowMs: int, crypto: Crypto)
      returns (r: Result<AuthReply, AppError>)
      requires Valid()
      modifies this
      ensures Valid()
      ensures var i := FindFirst(old(users), (u: User) => ResetMatches(u, crypto.sha256Hex(token), nowMs));
        && (i.None? ==> r == Err(ResetRejected) && users == old(users))
        && (i.Some? ==>
              var u := ResetRow(old(users)[i.value], crypto.bcryptHash(newPassword));
              && users == old(users)[i.value := u]
              && r == Ok(TokenReply(u, 201, "Your password has been restted successfully")))
    {
      var userToken := crypto.sha256Hex(token);
      var found := FindFirst(users, (u: User) => ResetMatches(u, userToken, nowMs));
      if found.None? {
        return Err(ResetRejected);
      }
      var user := ResetRow(users[found.value], crypto.bcryptHash(newPassword));
      ReplaceKeepsValid(users, nextId, found.value, user);
      users := users[found.value := user];
      r := Ok(TokenReply(user, 201, "Your password has been restted successfully"));
    }

    /**
     * `updatePassword`: checks in order that the user exists, that a
     * current password was given, that a hash is stored and that the current
     * password matches it; then only the stored hash changes.
     */
    method UpdatePassword(id: nat, currentPassword: Option<string>, newPassword: string, crypto: Crypto)
      returns (r: Result<AuthReply, AppError>)
      requires Valid()
      modifies this
      ensures Valid()
      ensures r.Err? ==> users == old(users)
      ensures var i := FindFirst(old(users), (u: User) => u.id == id);
        && (i.None? ==> r == Err(UserNotFound))
        && (i.Some? && Falsy(currentPassword) ==> r == Err(CurrentPasswordMissing))
        && (i.Some? && !Falsy(currentPassword) && Falsy(old(users)[i.value].password) ==> r == Err(StoredPasswordMissing))
        && (i.Some? && !Falsy(currentPassword) && !Falsy(old(users)[i.value].password) ==>
              if crypto.bcryptCompare(currentPassword.value, old(users)[i.value].password.value) then
                var u := old(users)[i.value].(password := Some(crypto.bcryptHash(newPassword)));
                users == old(users)[i.value := u] && r == Ok(TokenReply(u, 200, "Your password has been updated successfully"))
              else r == Err(CurrentPasswordWrong))
    {
      var found := FindFirst(users, (u: User) => u.id == id);
      if found.None? {
        return Err(UserNotFound);
      }
      if Falsy(currentPassword) {
        return Err(CurrentPasswordMissing);
      }
      var user := users[found.value];
      if Falsy(user.password) {
        return Err(StoredPasswordMissing);
      }
      var isPasswordCorrect := crypto.bcryptCompare(currentPassword.value, user.password.value);
      if !isPasswordCorrect {
        return Err(CurrentPasswordWrong);
      }
      user := user.(password := Some(crypto.bcryptHash(newPassword)));
      ReplaceKeepsValid(users, nextId, found.value, user);
      users := users[found.value := user];
      r := Ok(TokenReply(user, 200, "Your password has been updated successfully"));
    }
  }
}

/**
 * Password helpers (src/utils/password.ts): hashing and comparing (bcrypt),
 * the "password changed after the token was issued" test, and minting a
 * password-reset token.
 *
 * bcrypt and SHA-256 are not modelled: they are the uninterpreted functions
 * of a `Crypto` value that the callers pass in.
 */
module Password {
  import opened Wrappers
  import opened UserEntity

  /**
   * The foreign primitives: `bcrypt.hash(p, 10)`, `bcrypt.compare(plain, hash)`
   * and the hex digest of SHA-256.
   */
  datatype Crypto = Crypto(
    bcryptHash: string -> string,
    bcryptCompare: (string, string) -> bool,
    sha256Hex: string -> string)

  /**
   * `changedPasswordAfter(user, iat)`: the token's issue time in seconds is
   * before the password change, which is stored in milliseconds.
   */
  function ChangedPasswordAfter(user: User, jwtTimestamp: int): (r: bool)
    ensures user.passwordChangedAt.None? ==> !r
    ensures user.passwordChangedAt.Some? ==>
      (r <==> (jwtTimestamp as real) < (user.passwordChangedAt.value as real) / 1000.0)
  {
    match user.passwordChangedAt
    case None => false
    case Some(changedMs) => jwtTimestamp * 1000 < changedMs
  }

  /** Once a token's issue time passes the test, every later issue time passes it too. */
  lemma ChangedPasswordAfterMonotone(user: User, t: int, t': int)
    requires t <= t'
    requires !ChangedPasswordAfter(user, t)
    ensures !ChangedPasswordAfter(user, t')
  {
  }

  /** A token issued in the very second of the change is not rejected: equality gives false. */
  lemma IssuedAtChangeSecond(user: User, seconds: int)
    requires user.passwordChangedAt == Some(seconds * 1000)
    ensures !ChangedPasswordAfter(user, seconds)
    ensures ChangedPasswordAfter(user, seconds - 1)
  {
  }

  newtype byte = x: int | 0 <= x < 256

  function HexDigit(d: int): (c: char)
    requires 0 <= d < 16
    ensures IsHexDigit(c)
  {
    if d < 10 then ('0' as int + d) as char else ('a' as int + d - 10) as char
  }

  predicate IsHexDigit(c: char) {
    '0' <= c <= '9' || 'a' <= c <= 'f'
  }

  function HexValue(c: char): (d: int)
    requires IsHexDigit(c)
    ensures 0 <= d < 16
  {
    if c <= '9' then c as int - '0' as int else c as int - 'a' as int + 10
  }

  /** `buffer.toString('hex')`: two lowercase hex digits per byte, high nibble first. */
  function Hex(bytes: seq<byte>): (r: string)
    ensures |r| == 2 * |bytes|
    ensures forall i :: 0 <= i < |r| ==> IsHexDigit(r[i])
  {
    if bytes == [] then []
    else [HexDigit(bytes[0] as int / 16), HexDigit(bytes[0] as int % 16)] + Hex(bytes[1..])
  }

  /** Reads hex text back into bytes. */
  function Unhex(s: string): seq<byte>
    requires |s| % 2 == 0
    requires forall i :: 0 <= i < |s| ==> IsHexDigit(s[i])
  {
    if s == [] then []
    else [(HexValue(s[0]) * 16 + HexValue(s[1])) as byte] + Unhex(s[2..])
  }

  /** The hex text of the random bytes determines them: no two byte strings share a token. */
  lemma {:induction false} UnhexHex(bytes: seq<byte>)
    ensures Unhex(Hex(bytes)) == bytes
  {
    if bytes != [] {
      var h := Hex(bytes);
      assert h[2..] == Hex(bytes[1..]);
      UnhexHex(bytes[1..]);
      var b := bytes[0] as int;
      assert h[0] == HexDigit(b / 16) && h[1] == HexDigit(b % 16);
      assert HexValue(h[0]) == b / 16 && HexValue(h[1]) == b % 16;
    }
  }

  /** Ten minutes in milliseconds. */
  const ResetTokenLifetimeMs: int := 10 * 60 * 1000

  /** The raw token returned to the caller, and the user object after the two assignments. */
  datatype ResetMint = ResetMint(token: string, user: User)

  /**
   * `passwordResetToken(user)` with `crypto.randomBytes(32)` as `randomBytes`
   * and `Date.now()` as `nowMs`: it returns the hex text of the random bytes
   * and stores only its digest, with an expiry ten minutes from now.
   */
  function PasswordResetToken(user: User, randomBytes: seq<byte>, nowMs: int, crypto: Crypto): (r: ResetMint)
    requires |randomBytes| == 32
    ensures |r.token| == 64 && forall i :: 0 <= i < 64 ==> IsHexDigit(r.token[i])
    ensures Unhex(r.token) == randomBytes
    ensures r.user.passwordResetToken == Some(crypto.sha256Hex(r.token))
    ensures r.user.passwordResetExpires == Some(nowMs + 600000)
    ensures r.user.(passwordResetToken := user.passwordResetToken,
                    passwordResetExpires := user.passwordResetExpires) == user
  {
    var token := Hex(randomBytes);
    UnhexHex(randomBytes);
    ResetMint(token, user.(passwordResetToken := Some(crypto.sha256Hex(token)),
                           passwordResetExpires := Some(nowMs + ResetTokenLifetimeMs)))
  }
}

/**
 * The body of a password reset (src/user/dto/resetPassword.dto.ts): one
 * `password` field with the same decorators as the entity's password column.
 */
module ResetPasswordDto {
  import opened Wrappers
  import opened UserEntity

  /** `RessetPasswordDto.password`: IsNotEmpty, IsString, MinLength(8), MaxLength(50), the pattern. */
  predicate PasswordAccepted(password: string) {
    password != "" && 8 <= |password| <= 50 && MatchesPasswordPattern(password)
  }

  /**
   * What the DTO demands: not empty, 8 to 50 characters, one line, an
   * uppercase letter, a digit and a listed special character.
   */
  lemma PasswordAcceptedMeaning(password: string)
    ensures PasswordAccepted(password) <==>
      password != "" && 8 <= |password| <= 50 && SingleLine(password)
      && Contains(password, Upper) && Contains(password, Digit) && Contains(password, Special)
  {
    PasswordPatternMeaning(password);
  }

  /** The DTO accepts exactly the passwords the `User` entity accepts. */
  lemma SameRuleAsEntity(password: string)
    ensures PasswordAccepted(password) <==> PasswordValid(Some(password))
  {
  }

  /** Lowercase letters are not required: "ABCDEF1!" is accepted. */
  lemma NoLowercaseNeeded()
    ensures PasswordAccepted("ABCDEF1!")
  {
    var s := "ABCDEF1!";
    assert InClass(s[0], Upper) && InClass(s[6], Digit);
    assert s[7] == '!';
    assert InClass(s[7], Special);
    assert SingleLine(s);
    PasswordPatternMeaning(s);
  }

  /** Fifty characters is the longest accepted password. */
  lemma LengthBounds(password: string)
    requires |password| < 8 || |password| > 50
    ensures !PasswordAccepted(password)
  {
  }
}

/**
 * The `User` entity (src/user/user.entity.ts): the row shape, the column
 * defaults, and the field constraints its validation decorators declare.
 */
module UserEntity {
  import opened Wrappers

  datatype Role = RegularUser | EventPlanner | Admin

  /**
   * A row of the user table. Timestamps are milliseconds since the epoch;
   * `None` is a NULL column.
   */
  datatype User = User(
    id: nat,
    email: string,
    firstName: string,
    secondName: string,
    password: Option<string>,
    role: Role,
    googleId: Option<string>,
    passwordChangedAt: Option<int>,
    passwordResetToken: Option<string>,
    passwordResetExpires: Option<int>,
    active: bool)

  /**
   * A row saved with only email, names and password given: `role` takes its
   * default REGULAR_USER, `active` its default true, the nullable columns NULL.
   */
  function NewUser(id: nat, email: string, firstName: string, secondName: string, password: Option<string>): (u: User)
    ensures u.id == id && u.email == email && u.firstName == firstName && u.secondName == secondName
    ensures u.password == password
    ensures u.role == RegularUser && u.active
    ensures u.googleId.None? && u.passwordChangedAt.None?
    ensures u.passwordResetToken.None? && u.passwordResetExpires.None?
  {
    User(id, email, firstName, secondName, password, RegularUser, None, None, None, None, true)
  }

  /** `first_name` / `second_name`: IsNotEmpty, IsString, MinLength(2), MaxLength(50). */
  predicate NameValid(name: string) {
    name != "" && 2 <= |name| <= 50
  }

  /** `email`: IsNotEmpty and IsEmail (the latter a library check, given as `isEmail`). */
  predicate EmailValid(email: string, isEmail: string -> bool) {
    email != "" && isEmail(email)
  }

  /** The `unique: true` constraint of the email column over a whole table. */
  predicate EmailsUnique(users: seq<User>) {
    forall i, j :: 0 <= i < j < |users| ==> users[i].email != users[j].email
  }

  /** The character classes the password pattern looks ahead for. */
  datatype CharClass = Upper | Special | Digit

  /** `[A-Z]`, `[!@#$%^&*(),.?":{}|<>]` and `\d` (ASCII digits only in JavaScript). */
  predicate InClass(c: char, k: CharClass) {
    match k
    case Upper => 'A' <= c <= 'Z'
    case Special => c in "!@#$%^&*(),.?\":{}|<>"
    case Digit => '0' <= c <= '9'
  }

  /** The characters JavaScript's `.` does not match without the `s` flag. */
  predicate IsLineTerminator(c: char) {
    c == '\n' || c == '\r' || c == '\U{2028}' || c == '\U{2029}'
  }

  /** `(?=.*[k])` at the start of the text: a `k` character before any line terminator. */
  predicate LookaheadFinds(s: string, k: CharClass) {
    exists i :: 0 <= i < |s| && InClass(s[i], k) && forall j :: 0 <= j < i ==> !IsLineTerminator(s[j])
  }

  /** `.*$` from the start, without the `m` flag: the whole text is one line. */
  predicate SingleLine(s: string) {
    forall j :: 0 <= j < |s| ==> !IsLineTerminator(s[j])
  }

  /** `/^(?=.*[A-Z])(?=.*[!@#$%^&*(),.?":{}|<>])(?=.*\d).*$/.test(s)` */
  predicate MatchesPasswordPattern(s: string) {
    LookaheadFinds(s, Upper) && LookaheadFinds(s, Special) && LookaheadFinds(s, Digit) && SingleLine(s)
  }

  predicate Contains(s: string, k: CharClass) {
    exists i :: 0 <= i < |s| && InClass(s[i], k)
  }

  /**
   * The pattern holds exactly for one-line texts with an uppercase letter,
   * a listed special character and a digit, anywhere and in any order.
   */
  lemma PasswordPatternMeaning(s: string)
    ensures MatchesPasswordPattern(s)
      <==> SingleLine(s) && Contains(s, Upper) && Contains(s, Special) && Contains(s, Digit)
  {
    if SingleLine(s) && Contains(s, Upper) && Contains(s, Special) && Contains(s, Digit) {
      var u :| 0 <= u < |s| && InClass(s[u], Upper);
      var p :| 0 <= p < |s| && InClass(s[p], Special);
      var d :| 0 <= d < |s| && InClass(s[d], Digit);
      assert LookaheadFinds(s, Upper) && LookaheadFinds(s, Special) && LookaheadFinds(s, Digit);
    }
  }

  /** `password`: IsNotEmpty (so not NULL), IsString, MinLength(8), MaxLength(50) and the pattern. */
  predicate PasswordValid(password: Option<string>) {
    password.Some? && password.value != "" && 8 <= |password.value| <= 50
    && MatchesPasswordPattern(password.value)
  }

  /** Every field constraint of the entity. */
  predicate UserValid(u: User, isEmail: string -> bool) {
    EmailValid(u.email, isEmail) && NameValid(u.firstName) && NameValid(u.secondName) && PasswordValid(u.password)
  }

  /** What a valid password looks like, stated character by character. */
  lemma PasswordValidMeaning(password: Option<string>)
    ensures PasswordValid(password) <==>
      password.Some? && 8 <= |password.value| <= 50 && SingleLine(password.value)
      && Contains(password.value, Upper) && Contains(password.value, Special) && Contains(password.value, Digit)
  {
    if password.Some? {
      PasswordPatternMeaning(password.value);
    }
  }

  /** A password that breaks a line fails the pattern, whatever else it holds. */
  lemma MultiLinePasswordRejected(before: string, after: string)
    ensures !MatchesPasswordPattern(before + "\n" + after)
  {
    var s := before + "\n" + after;
    assert IsLineTerminator(s[|before|]);
  }

  /** "Passw0rd!" satisfies every password constraint. */
  lemma PasswordAcceptedExample()
    ensures PasswordValid(Some("Passw0rd!"))
  {
    var s := "Passw0rd!";
    assert InClass(s[0], Upper) && InClass(s[5], Digit);
    assert s[8] == '!';
    assert InClass(s[8], Special);
    assert SingleLine(s);
    PasswordPatternMeaning(s);
  }

  /** A password without an uppercase letter fails the pattern. */
  lemma NoUppercaseRejected(s: string)
    requires forall i :: 0 <= i < |s| ==> !('A' <= s[i] <= 'Z')
    ensures !PasswordValid(Some(s))
  {
    PasswordPatternMeaning(s);
  }
}

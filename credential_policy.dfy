/**
 * The signup validation chain of the server: four checks in a fixed order,
 * the first one that fails decides the answer and no later check runs.
 * A field that is missing from the request body and a field that is the
 * empty string are both falsy and are rejected alike, so a missing field is
 * the empty string here.
 */
module CredentialPolicy {
  import opened Options
  import opened CharClasses

  const MinUsernameLength: nat := 8

  datatype Rejection = MissingField | UsernameTooShort | PasswordMismatch | WeakPassword

  function Message(r: Rejection): string
  {
    match r
    case MissingField => "All fields are required"
    case UsernameTooShort => "Username must be at least 8 characters long"
    case PasswordMismatch => "Passwords do not match"
    case WeakPassword => "Password must contain at least one lowercase letter, one uppercase letter, and one special character"
  }

  /** The server's strength rule: a lowercase, an uppercase and a special character; nothing else. */
  predicate StrongEnough(password: string)
  {
    HasLower(password) && HasUpper(password) && HasSpecial(password)
  }

  /** All the signup rules together, without regard to the order they are checked in. */
  predicate AcceptableSignup(username: string, password: string, confirmPassword: string)
  {
    && username != "" && password != "" && confirmPassword != ""
    && |username| >= MinUsernameLength
    && password == confirmPassword
    && StrongEnough(password)
  }

  function ValidateSignup(username: string, password: string, confirmPassword: string): (r: Option<Rejection>)
    ensures r.None? <==> AcceptableSignup(username, password, confirmPassword)
    ensures r == Some(MissingField) <==> username == "" || password == "" || confirmPassword == ""
    ensures r == Some(UsernameTooShort) <==>
              username != "" && password != "" && confirmPassword != "" && |username| < MinUsernameLength
    ensures r == Some(PasswordMismatch) <==>
              username != "" && password != "" && confirmPassword != ""
              && |username| >= MinUsernameLength && password != confirmPassword
    ensures r == Some(WeakPassword) <==>
              username != "" && password != "" && confirmPassword != ""
              && |username| >= MinUsernameLength && password == confirmPassword && !StrongEnough(password)
  {
    if username == "" || password == "" || confirmPassword == "" then Some(MissingField)
    else if |username| < MinUsernameLength then Some(UsernameTooShort)
    else if password != confirmPassword then Some(PasswordMismatch)
    else if !HasLower(password) || !HasUpper(password) || !HasSpecial(password) then Some(WeakPassword)
    else None
  }

  /** A short username is refused whatever the passwords are, as long as all three fields are given. */
  lemma ShortUsernameAlwaysRefused(username: string, password: string, confirmPassword: string)
    requires username != "" && password != "" && confirmPassword != ""
    requires |username| < MinUsernameLength
    ensures ValidateSignup(username, password, confirmPassword) == Some(UsernameTooShort)
  {
  }

  /**
   * Digits and length are never required of a password: a three-character
   * password without a digit is accepted.
   */
  lemma DigitsNeverRequired()
    ensures !HasDigit("aB!")
    ensures ValidateSignup("username", "aB!", "aB!") == None
  {
    var p := "aB!";
    assert IsLower(p[0]) && IsUpper(p[1]);
    assert IsSpecial(p[2]) by { assert SpecialChars[0] == '!'; }
  }
}

/**
 * The signup form's own checks: the live username-length and
 * confirm-mismatch entries of the error map, the password-strength meter,
 * and the required-field check that gates submission.  The form's fields
 * always hold strings; a field the user has not filled in is "".
 */
module SignupForm {
  import opened CharClasses

  const MinUsernameLength: nat := 8

  datatype Field = Username | Password | ConfirmPassword

  /** The `errors` object: at most one message per field. */
  type Errors = map<Field, string>

  datatype Form = Form(username: string, password: string, confirmPassword: string)
  {
    function Value(f: Field): string
    {
      match f
      case Username => username
      case Password => password
      case ConfirmPassword => confirmPassword
    }
  }

  const UsernameTooShortMessage: string := "Username must be at least 8 characters long"
  const MismatchMessage: string := "Passwords do not match"

  function RequiredMessage(f: Field): string
  {
    match f
    case Username => "Username is required"
    case Password => "Password is required"
    case ConfirmPassword => "Confirm Password is required"
  }

  /** `a` and `b` agree on field `f`: both lack it, or both hold the same message. */
  predicate SameEntry(a: Errors, b: Errors, f: Field)
  {
    (f in a <==> f in b) && (f in a ==> a[f] == b[f])
  }

  // ----- live checks -----

  /** The effect that runs when the username changes. */
  function UsernameEffect(errors: Errors, username: string): (r: Errors)
    ensures Username in r <==> username != "" && |username| < MinUsernameLength
    ensures Username in r ==> r[Username] == UsernameTooShortMessage
    ensures forall f :: f != Username ==> SameEntry(errors, r, f)
  {
    if username != "" && |username| < MinUsernameLength then errors[Username := UsernameTooShortMessage]
    else errors - {Username}
  }

  /** The effect that runs when the password or its confirmation changes. */
  function ConfirmEffect(errors: Errors, password: string, confirmPassword: string): (r: Errors)
    ensures ConfirmPassword in r <==> confirmPassword != "" && password != confirmPassword
    ensures ConfirmPassword in r ==> r[ConfirmPassword] == MismatchMessage
    ensures forall f :: f != ConfirmPassword ==> SameEntry(errors, r, f)
  {
    if confirmPassword != "" && password != confirmPassword then errors[ConfirmPassword := MismatchMessage]
    else errors - {ConfirmPassword}
  }

  /** Running an effect again on its own result changes nothing. */
  lemma UsernameEffectIdempotent(errors: Errors, username: string)
    ensures UsernameEffect(UsernameEffect(errors, username), username) == UsernameEffect(errors, username)
  {
  }

  lemma ConfirmEffectIdempotent(errors: Errors, password: string, confirmPassword: string)
    ensures ConfirmEffect(ConfirmEffect(errors, password, confirmPassword), password, confirmPassword)
            == ConfirmEffect(errors, password, confirmPassword)
  {
  }

  /**
   * The two live effects touch different keys, so the order in which React
   * runs them does not matter.
   */
  lemma EffectsCommute(errors: Errors, username: string, password: string, confirmPassword: string)
    ensures UsernameEffect(ConfirmEffect(errors, password, confirmPassword), username)
            == ConfirmEffect(UsernameEffect(errors, username), password, confirmPassword)
  {
  }

  // ----- strength meter -----

  /** The meter's label; `Unrated` is the empty label shown for an empty password. */
  datatype Strength = Unrated | Weak | Medium | Strong
  {
    function Label(): string
    {
      match this
      case Unrated => ""
      case Weak => "Weak"
      case Medium => "Medium"
      case Strong => "Strong"
    }
  }

  /** The five criteria the meter scores, in source order. */
  function Criteria(password: string): seq<bool>
  {
    [|password| >= 8, HasLower(password), HasUpper(password), HasDigit(password), HasSpecial(password)]
  }

  /** How many entries of `s` hold. */
  function CountTrue(s: seq<bool>): (n: nat)
    ensures n <= |s|
    ensures n == |s| <==> forall i :: 0 <= i < |s| ==> s[i]
    ensures n == 0 <==> forall i :: 0 <= i < |s| ==> !s[i]
  {
    if s == [] then 0
    else
      var rest := CountTrue(s[1..]);
      assert forall i :: 1 <= i < |s| ==> s[i] == s[1..][i - 1];
      (if s[0] then 1 else 0) + rest
  }

  lemma CountFive(a: bool, b: bool, c: bool, d: bool, e: bool)
    ensures CountTrue([a, b, c, d, e]) ==
            (if a then 1 else 0) + (if b then 1 else 0) + (if c then 1 else 0) + (if d then 1 else 0) + (if e then 1 else 0)
  {
    assert [a, b, c, d, e][1..] == [b, c, d, e];
    assert [b, c, d, e][1..] == [c, d, e];
    assert [c, d, e][1..] == [d, e];
    assert [d, e][1..] == [e];
    assert [e][1..] == [];
    assert CountTrue([e]) == if e then 1 else 0;
    assert CountTrue([d, e]) == (if d then 1 else 0) + CountTrue([e]);
    assert CountTrue([c, d, e]) == (if c then 1 else 0) + CountTrue([d, e]);
    assert CountTrue([b, c, d, e]) == (if b then 1 else 0) + CountTrue([c, d, e]);
  }

  /** The number of criteria the password meets. */
  function Score(password: string): (n: nat)
    ensures n <= 5
    ensures n == 5 <==>
              |password| >= 8 && HasLower(password) && HasUpper(password) && HasDigit(password) && HasSpecial(password)
  {
    var c := Criteria(password);
    assert c[0] == (|password| >= 8) && c[1] == HasLower(password) && c[2] == HasUpper(password);
    assert c[3] == HasDigit(password) && c[4] == HasSpecial(password);
    CountTrue(c)
  }

  /** The label the meter shows for a password. */
  function StrengthOf(password: string): (r: Strength)
    ensures r == Unrated <==> password == ""
    ensures r == Weak <==> password != "" && Score(password) <= 2
    ensures r == Medium <==> password != "" && 3 <= Score(password) <= 4
    ensures r == Strong <==>
              |password| >= 8 && HasLower(password) && HasUpper(password) && HasDigit(password) && HasSpecial(password)
  {
    if password == "" then Unrated
    else
      var score := Score(password);
      if score <= 2 then Weak
      else if score == 3 || score == 4 then Medium
      else Strong
  }

  /** The meter as the component runs it: a counter bumped once per criterion met, then a label. */
  method MeasureStrength(password: string) returns (strength: Strength)
    ensures strength == StrengthOf(password)
  {
    if password != "" {
      var score := 0;
      if |password| >= 8 { score := score + 1; }
      if HasLower(password) { score := score + 1; }
      if HasUpper(password) { score := score + 1; }
      if HasDigit(password) { score := score + 1; }
      if HasSpecial(password) { score := score + 1; }
      CountFive(|password| >= 8, HasLower(password), HasUpper(password), HasDigit(password), HasSpecial(password));
      assert score == Score(password);
      if score <= 2 {
        strength := Weak;
      } else if score == 3 || score == 4 {
        strength := Medium;
      } else {
        strength := Strong;
      }
    } else {
      strength := Unrated;
    }
  }

  // ----- submission -----

  /** validateForm: a "required" entry for every empty field and for no other. */
  function ValidateForm(form: Form): (r: Errors)
    ensures forall f :: f in r <==> form.Value(f) == ""
    ensures forall f :: f in r ==> r[f] == RequiredMessage(f)
  {
    var e1: Errors := if form.username == "" then map[Username := RequiredMessage(Username)] else map[];
    var e2 := if form.password == "" then e1[Password := RequiredMessage(Password)] else e1;
    if form.confirmPassword == "" then e2[ConfirmPassword := RequiredMessage(ConfirmPassword)] else e2
  }

  /** What pressing "Sign Up" does to the error map, and whether the request is sent. */
  datatype Submission = Submission(errors: Errors, sent: bool)

  /**
   * handleSubmit: when validateForm finds anything, its map replaces the
   * errors and nothing is sent; otherwise the form is sent and the errors
   * are left as they were.
   */
  function Submit(form: Form, errors: Errors): (r: Submission)
    ensures r.sent <==> form.username != "" && form.password != "" && form.confirmPassword != ""
    ensures r.sent ==> r.errors == errors
    ensures !r.sent ==> r.errors == ValidateForm(form) && |r.errors| > 0
  {
    var formErrors := ValidateForm(form);
    if |formErrors| > 0 then Submission(formErrors, false) else Submission(errors, true)
  }

  /**
   * Live entries do not block submission: whatever the username and confirm
   * effects left in the error map, the form is sent exactly when validateForm
   * finds no empty field.
   */
  lemma LiveErrorsDoNotBlock(form: Form, live: Errors)
    ensures Submit(form, live).sent == Submit(form, map[]).sent
    ensures Submit(form, live).sent <==> ValidateForm(form) == map[]
  {
  }
}

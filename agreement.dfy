/**
 * How the signup form's checks relate to the server's authoritative ones.
 * The form's required-field gate is exactly the server's first check; its
 * live username rule is the server's second; the strength meter is a
 * different rule from the server's, and only "Strong" implies it.
 */
module Agreement {
  import opened Options
  import opened CharClasses
  import CredentialPolicy
  import SignupForm

  /** The form sends a signup exactly when the server's presence check will pass. */
  lemma SubmitGateMatchesServerPresence(form: SignupForm.Form, errors: SignupForm.Errors)
    ensures SignupForm.Submit(form, errors).sent <==>
            CredentialPolicy.ValidateSignup(form.username, form.password, form.confirmPassword)
              != Some(CredentialPolicy.MissingField)
  {
  }

  /**
   * With all fields given, the username effect's result holds the entry
   * exactly when the server refuses the username as too short.  What the
   * form shows can differ: see MismatchEntryLostAfterFailedSubmit.
   */
  lemma LiveUsernameRuleMatchesServer(errors: SignupForm.Errors, username: string, password: string, confirmPassword: string)
    requires username != "" && password != "" && confirmPassword != ""
    ensures SignupForm.Username in SignupForm.UsernameEffect(errors, username) <==>
            CredentialPolicy.ValidateSignup(username, password, confirmPassword)
              == Some(CredentialPolicy.UsernameTooShort)
  {
  }

  /**
   * Whenever the server refuses the passwords as different, the confirm
   * effect's result holds the mismatch entry.  What the form shows can
   * differ: see MismatchEntryLostAfterFailedSubmit.
   */
  lemma ServerMismatchShownLive(errors: SignupForm.Errors, username: string, password: string, confirmPassword: string)
    requires CredentialPolicy.ValidateSignup(username, password, confirmPassword)
               == Some(CredentialPolicy.PasswordMismatch)
    ensures SignupForm.ConfirmPassword in SignupForm.ConfirmEffect(errors, password, confirmPassword)
  {
  }

  /**
   * A failed submit replaces the whole error map, and a live effect runs
   * again only when one of its own fields changes.  So a mismatch entry the
   * confirm effect wrote is gone after a submit with an empty username, stays
   * gone when only the username is then typed, and the next submit is sent
   * to a server that refuses it as "Passwords do not match".
   */
  lemma MismatchEntryLostAfterFailedSubmit()
    ensures var shown := SignupForm.ConfirmEffect(map[], "Abc!", "Abd!");
            var first := SignupForm.Submit(SignupForm.Form("", "Abc!", "Abd!"), shown);
            var typed := SignupForm.UsernameEffect(first.errors, "alice1234");
            var second := SignupForm.Submit(SignupForm.Form("alice1234", "Abc!", "Abd!"), typed);
            && SignupForm.ConfirmPassword in shown
            && !first.sent
            && SignupForm.ConfirmPassword !in first.errors
            && second.sent
            && SignupForm.ConfirmPassword !in second.errors
            && CredentialPolicy.ValidateSignup("alice1234", "Abc!", "Abd!")
                 == Some(CredentialPolicy.PasswordMismatch)
  {
  }

  /** A "Strong" password always meets the server's character rule. */
  lemma StrongMeetsServerRule(password: string)
    requires SignupForm.StrengthOf(password) == SignupForm.Strong
    ensures CredentialPolicy.StrongEnough(password)
  {
  }

  /** A password the server accepts rates at least "Medium": it meets three of the five criteria. */
  lemma AcceptedRatesAtLeastMedium(username: string, password: string, confirmPassword: string)
    requires CredentialPolicy.ValidateSignup(username, password, confirmPassword) == None
    ensures SignupForm.StrengthOf(password) in {SignupForm.Medium, SignupForm.Strong}
  {
    SignupForm.CountFive(|password| >= 8, HasLower(password), HasUpper(password),
                         HasDigit(password), HasSpecial(password));
  }

  /** A password the meter rates "Medium" can still be refused by the server. */
  lemma MediumMayBeRefused()
    ensures SignupForm.StrengthOf("abcdefgh1") == SignupForm.Medium
    ensures CredentialPolicy.ValidateSignup("username", "abcdefgh1", "abcdefgh1")
              == Some(CredentialPolicy.WeakPassword)
  {
    var p := "abcdefgh1";
    assert IsLower(p[0]) && IsDigit(p[8]);
    assert !HasUpper(p) && !HasSpecial(p) by {
      forall i | 0 <= i < |p| ensures !IsUpper(p[i]) && !IsSpecial(p[i]) {
        ClassesDisjoint(p[i]);
      }
    }
    SignupForm.CountFive(true, true, false, true, false);
  }
}

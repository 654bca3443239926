/** client/src/pages/auth/SignupPage.tsx: `signupSchema`, its field bounds and its password-match refinement. */
module Signup {
  import opened Forms

  datatype SignupForm = SignupForm(firstName: string, lastName: string, email: string, password: string, confirmPassword: string)

  /** The form's default values. */
  const DefaultValues := SignupForm("", "", "", "", "")

  const FirstNameEmpty := "First Name cannot be empty"
  const FirstNameTooLong := "First Name should be of max 20 character"
  const LastNameEmpty := "Last Name cannot be empty"
  /** The last name's too-long message, which reads "First Name" in the source. */
  const LastNameTooLong := "First Name should be of max 20 character"
  const PasswordsDontMatch := Issue("confirmPassword", "Passwords don't match")

  /** The object schema's field checks, in field order. */
  function FieldIssues(f: SignupForm, isEmail: string -> bool): seq<Issue>
  {
    LengthIssues("firstName", f.firstName, 1, FirstNameEmpty, 20, FirstNameTooLong)
    + LengthIssues("lastName", f.lastName, 1, LastNameEmpty, 20, LastNameTooLong)
    + EmailIssues("email", f.email, isEmail)
    + PasswordIssues("password", f.password)
    + PasswordIssues("confirmPassword", f.confirmPassword)
  }

  /** The `superRefine`: a custom issue on `confirmPassword` when the two passwords differ. */
  function MatchIssues(f: SignupForm): seq<Issue>
  {
    if f.confirmPassword != f.password then [PasswordsDontMatch] else []
  }

  /**
   * All issues of `signupSchema`. Field issues do not stop the refinement (they are not fatal
   * in zod), so a mismatch is reported alongside them.
   */
  function SignupIssues(f: SignupForm, isEmail: string -> bool): (issues: seq<Issue>)
    ensures issues == [] <==>
      && 1 <= |f.firstName| <= 20
      && 1 <= |f.lastName| <= 20
      && isEmail(f.email)
      && 3 <= |f.password| <= 20
      && 3 <= |f.confirmPassword| <= 20
      && f.confirmPassword == f.password
  {
    FieldIssues(f, isEmail) + MatchIssues(f)
  }

  /** The "Passwords don't match" issue is raised iff the two passwords differ. */
  lemma MismatchIssueIffDifferent(f: SignupForm, isEmail: string -> bool)
    ensures PasswordsDontMatch in SignupIssues(f, isEmail) <==> f.confirmPassword != f.password
  {
    var first := LengthIssues("firstName", f.firstName, 1, FirstNameEmpty, 20, FirstNameTooLong);
    var last := LengthIssues("lastName", f.lastName, 1, LastNameEmpty, 20, LastNameTooLong);
    var email := EmailIssues("email", f.email, isEmail);
    var password := PasswordIssues("password", f.password);
    var confirm := PasswordIssues("confirmPassword", f.confirmPassword);
    assert PasswordsDontMatch !in first && PasswordsDontMatch !in last && PasswordsDontMatch !in email;
    assert PasswordsDontMatch !in password && PasswordsDontMatch !in confirm;
    assert FieldIssues(f, isEmail) == first + last + email + password + confirm;
    assert PasswordsDontMatch !in FieldIssues(f, isEmail);
  }

  /** A last name over 20 characters is reported with the first name's message. */
  lemma LongLastNameMessage(f: SignupForm, isEmail: string -> bool)
    requires |f.lastName| > 20
    ensures Issue("lastName", "First Name should be of max 20 character") in SignupIssues(f, isEmail)
  {
    var first := LengthIssues("firstName", f.firstName, 1, FirstNameEmpty, 20, FirstNameTooLong);
    assert FieldIssues(f, isEmail)[|first|] == Issue("lastName", LastNameTooLong);
  }

  /** The all-empty defaults are rejected, with the first name's emptiness reported first. */
  lemma DefaultsRejected(isEmail: string -> bool)
    ensures SignupIssues(DefaultValues, isEmail) != []
    ensures SignupIssues(DefaultValues, isEmail)[0] == Issue("firstName", FirstNameEmpty)
  {
  }
}

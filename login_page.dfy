/** client/src/pages/auth/LoginPage.tsx: `loginSchema` and the form's default values. */
module Login {
  import opened Forms

  datatype LoginForm = LoginForm(email: string, password: string)

  const DefaultValues := LoginForm("", "")

  /** All issues of `loginSchema`: the email check, then the password rule. */
  function LoginIssues(f: LoginForm, isEmail: string -> bool): (issues: seq<Issue>)
    ensures issues == [] <==> isEmail(f.email) && 3 <= |f.password| <= 20
    ensures |f.password| < 3 ==> Issue("password", PasswordTooShort) in issues
    ensures |f.password| > 20 ==> Issue("password", PasswordTooLong) in issues
  {
    EmailIssues("email", f.email, isEmail) + PasswordIssues("password", f.password)
  }

  /** The empty default password fails the password rule, so the defaults never validate. */
  lemma DefaultsRejected(isEmail: string -> bool)
    ensures PasswordIssues("password", DefaultValues.password) == [Issue("password", PasswordTooShort)]
    ensures LoginIssues(DefaultValues, isEmail) != []
  {
  }
}

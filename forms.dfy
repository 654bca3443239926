/**
 * The part of zod the client's schemas use: string length bounds, each check reporting its own
 * issue, and an email check whose format rule belongs to zod and is passed in.
 */
module Forms {

  /** A validation issue: the field it is attached to, and its message. */
  datatype Issue = Issue(path: string, message: string)

  /** The values of the add-task and edit-task forms. */
  datatype TaskForm = TaskForm(title: string, description: string)

  const EmptyTaskForm := TaskForm("", "")

  /**
   * `.min(min, minMessage).max(max, maxMessage)` on a string field: the two checks run
   * independently and each adds its issue. Lengths count characters.
   */
  function LengthIssues(path: string, s: string, min: nat, minMessage: string, max: nat, maxMessage: string): (issues: seq<Issue>)
    requires min <= max
    ensures issues == [] <==> min <= |s| <= max
    ensures |s| < min ==> issues == [Issue(path, minMessage)]
    ensures |s| > max ==> issues == [Issue(path, maxMessage)]
  {
    (if |s| < min then [Issue(path, minMessage)] else []) + (if |s| > max then [Issue(path, maxMessage)] else [])
  }

  /** zod's default message for a string that is not an email address. */
  const InvalidEmail := "Invalid email"

  /** `.email()`: one issue when the format check (zod's own, not modelled) rejects the string. */
  function EmailIssues(path: string, s: string, isEmail: string -> bool): (issues: seq<Issue>)
    ensures issues == [] <==> isEmail(s)
    ensures !isEmail(s) ==> issues == [Issue(path, InvalidEmail)]
  {
    if isEmail(s) then [] else [Issue(path, InvalidEmail)]
  }

  const TitleBlank := "Please don't leave the title blank"
  const TitleTooLong := "Title should be of max 20 character"

  /**
   * The task form's schema, written out twice with the same rules (`addTaskSchema` and
   * `editTaskSchema`): a title of 1 to 20 characters, and any description.
   */
  function TaskFormIssues(values: TaskForm): (issues: seq<Issue>)
    ensures issues == [] <==> 1 <= |values.title| <= 20
    ensures values.title == "" ==> issues == [Issue("title", TitleBlank)]
    ensures |values.title| > 20 ==> issues == [Issue("title", TitleTooLong)]
  {
    LengthIssues("title", values.title, 1, TitleBlank, 20, TitleTooLong)
  }

  const PasswordTooShort := "Password should be of atleast 3 character"
  const PasswordTooLong := "Password should be of max 20 character"

  /** The password rule the login and signup schemas share: 3 to 20 characters. */
  function PasswordIssues(path: string, password: string): (issues: seq<Issue>)
    ensures issues == [] <==> 3 <= |password| <= 20
    ensures |password| < 3 ==> issues == [Issue(path, PasswordTooShort)]
    ensures |password| > 20 ==> issues == [Issue(path, PasswordTooLong)]
  {
    LengthIssues(path, password, 3, PasswordTooShort, 20, PasswordTooLong)
  }
}

/** client/src/components/dialogs/AddTaskDialog.tsx: the add-task schema and submission. */
module AddTask {
  import opened Common
  import opened Http
  import opened Tasks
  import opened Forms
  import opened Home

  const TaskAdded := "Task added successfully!"

  /** The dialog, rendered by a home page whose `openAdd` and `tasks` it updates. */
  class AddTaskDialog {
    var form: TaskForm
    const page: HomePage

    constructor (page: HomePage)
      ensures this.page == page && form == EmptyTaskForm
    {
      this.page := page;
      form := EmptyTaskForm;
    }

    /** The user edits the fields. */
    method Input(values: TaskForm)
      modifies this`form
      ensures form == values
    {
      form := values;
    }

    /**
     * Submitting: an invalid form only reports its issues; a valid one sends `POST /tasks` with
     * the form values and closes the dialog at once, before the request settles.
     */
    method Submit() returns (issues: seq<Issue>)
      modifies page`openAdd, page.api
      ensures issues == TaskFormIssues(form)
      ensures issues == [] ==>
        !page.openAdd && page.api.sent == old(page.api.sent) + [CreateTask(form.title, form.description)]
      ensures issues != [] ==>
        page.openAdd == old(page.openAdd) && page.api.sent == old(page.api.sent)
      ensures page.api.toasts == old(page.api.toasts)
    {
      issues := TaskFormIssues(form);
      if issues == [] {
        page.api.Send(CreateTask(form.title, form.description));
        page.openAdd := false;
      }
    }

    /** `POST /tasks` settled: append the created task, or toast the error and keep the collection. */
    method CreateSettled(result: Settled<Task>)
      modifies page`tasks, page.api
      ensures result.Ok? ==>
        && page.tasks == old(page.tasks) + [result.value]
        && page.api.toasts == old(page.api.toasts) + [SuccessToast(TaskAdded)]
      ensures result.Failed? ==>
        && page.tasks == old(page.tasks)
        && page.api.toasts == old(page.api.toasts) + [ErrorToastFor(result.error, SomethingWentWrong)]
      ensures page.api.sent == old(page.api.sent)
    {
      match result
      case Ok(task) =>
        page.tasks := page.tasks + [task];
        page.api.Notify(SuccessToast(TaskAdded));
      case Failed(err) =>
        page.api.Notify(ErrorToastFor(err, SomethingWentWrong));
    }
  }
}

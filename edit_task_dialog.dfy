/** client/src/components/dialogs/EditTaskDialog.tsx: the edit-task schema, prefill and submission. */
module EditTask {
  import opened Common
  import opened Http
  import opened Tasks
  import opened Forms
  import opened Home

  const TaskEdited := "Task edited successfully!"

  /** The body of `GET /tasks/:id` as far as the form reads it; either field may be missing. */
  datatype FetchedTask = FetchedTask(title: Option<string>, description: Option<string>)

  /** The prefill values: each fetched field, or `""` when it is missing (`|| ""`). */
  function Prefill(fetched: FetchedTask): (values: TaskForm)
    ensures fetched.title.Some? ==> values.title == fetched.title.value
    ensures fetched.title.None? ==> values.title == ""
    ensures fetched.description.Some? ==> values.description == fetched.description.value
    ensures fetched.description.None? ==> values.description == ""
  {
    TaskForm(fetched.title.GetOr(""), fetched.description.GetOr(""))
  }

  /** The dialog for one task. `open` is the flag its parent card owns; `page` holds the collection its `setTasks` prop replaces. */
  class EditTaskDialog {
    const taskId: string
    var open: bool
    var form: TaskForm
    const page: HomePage

    /** Mounting: empty form, and the task is fetched for the prefill. */
    constructor (taskId: string, open: bool, page: HomePage)
      modifies page.api
      ensures this.taskId == taskId && this.open == open && this.page == page && form == EmptyTaskForm
      ensures page.api.sent == old(page.api.sent) + [GetTask(taskId)]
      ensures page.api.toasts == old(page.api.toasts)
    {
      this.taskId := taskId;
      this.open := open;
      this.page := page;
      form := EmptyTaskForm;
      new;
      page.api.Send(GetTask(taskId));
    }

    /** The prefill fetch settled: reset the form to the fetched fields, or toast the error. */
    method PrefillSettled(result: Settled<FetchedTask>)
      modifies this`form, page.api
      ensures result.Ok? ==> form == Prefill(result.value) && page.api.toasts == old(page.api.toasts)
      ensures result.Failed? ==>
        form == old(form) && page.api.toasts == old(page.api.toasts) + [ErrorToastFor(result.error, SomethingWentWrong)]
      ensures page.api.sent == old(page.api.sent)
    {
      match result
      case Ok(fetched) => form := Prefill(fetched);
      case Failed(err) => page.api.Notify(ErrorToastFor(err, SomethingWentWrong));
    }

    /** The user edits the fields. */
    method Input(values: TaskForm)
      modifies this`form
      ensures form == values
    {
      form := values;
    }

    /**
     * Submitting: an invalid form only reports its issues; a valid one sends `PUT /tasks/:id`
     * whose body is exactly the form values, and closes the dialog at once.
     */
    method Submit() returns (issues: seq<Issue>)
      modifies this`open, page.api
      ensures issues == TaskFormIssues(form)
      ensures issues == [] ==>
        !open && page.api.sent == old(page.api.sent) + [UpdateTask(taskId, form.title, form.description)]
      ensures issues != [] ==> open == old(open) && page.api.sent == old(page.api.sent)
      ensures page.api.toasts == old(page.api.toasts)
    {
      issues := TaskFormIssues(form);
      if issues == [] {
        page.api.Send(UpdateTask(taskId, form.title, form.description));
        open := false;
      }
    }

    /** The PUT settled: on success toast, clear the form and refetch the list; on failure toast only. */
    method UpdateSettled(result: Settled<()>)
      modifies this`form, page.api
      ensures result.Ok? ==>
        && form == EmptyTaskForm
        && page.api.sent == old(page.api.sent) + [ListTasks]
        && page.api.toasts == old(page.api.toasts) + [SuccessToast(TaskEdited)]
      ensures result.Failed? ==>
        && form == old(form)
        && page.api.sent == old(page.api.sent)
        && page.api.toasts == old(page.api.toasts) + [ErrorToastFor(result.error, SomethingWentWrong)]
    {
      match result
      case Ok(_) =>
        page.api.Notify(SuccessToast(TaskEdited));
        form := EmptyTaskForm;
        page.api.Send(ListTasks);
      case Failed(err) =>
        page.api.Notify(ErrorToastFor(err, SomethingWentWrong));
    }

    /** The refetch after an edit settled: the page's collection is replaced only on success. */
    method RefetchSettled(result: Settled<seq<Task>>)
      modifies page`tasks, page.api
      ensures result.Ok? ==> page.tasks == result.value && page.api.toasts == old(page.api.toasts)
      ensures result.Failed? ==>
        page.tasks == old(page.tasks) && page.api.toasts == old(page.api.toasts) + [ErrorToastFor(result.error, SomethingWentWrong)]
      ensures page.api.sent == old(page.api.sent)
    {
      page.TasksLoaded(result);
    }
  }
}

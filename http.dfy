/**
 * The client's outbound traffic through its shared axios instance, and the toasts the
 * handlers raise, both recorded as logs. A request's completion is a separate input event
 * (a `Settled` value) given to the handler that awaits it.
 */
module Http {
  import opened Common

  /** One request sent through the axios instance. */
  datatype Request =
    | ListTasks                                                  // GET /tasks
    | GetTask(id: string)                                        // GET /tasks/:id
    | CreateTask(title: string, description: string)             // POST /tasks
    | UpdateStatus(id: string, status: string)                   // PUT /tasks/:id {status}
    | UpdateTask(id: string, title: string, description: string) // PUT /tasks/:id {title, description}

  /** A rejected request as axios reports it; the response, and so its status and message, may be absent. */
  datatype HttpError = HttpError(status: Option<int>, message: Option<string>)

  /** How a request settled: with its response body, or with an error. */
  datatype Settled<T> = Ok(value: T) | Failed(error: HttpError)

  /** A toast; an error toast may carry `undefined` when the server sent no message. */
  datatype Toast = SuccessToast(note: string) | ErrorToast(message: Option<string>)

  const SomethingWentWrong := "Error! Something Went Wrong!"
  /** The variant spelling used after a failed status update on the board. */
  const SomethingWentWrongLower := "Error! Something went wrong!"

  /** Every client error handler: show the server's message, unless the status is 500. */
  function ErrorToastFor(err: HttpError, generic: string): (t: Toast)
    ensures t.ErrorToast?
    ensures err.status == Some(500) ==> t.message == Some(generic)
    ensures err.status != Some(500) ==> t.message == err.message
  {
    if err.status != Some(500) then ErrorToast(err.message) else ErrorToast(Some(generic))
  }

  /** The axios instance and the toaster: what was sent, and what was shown, in order. */
  class Api {
    var sent: seq<Request>
    var toasts: seq<Toast>

    constructor ()
      ensures sent == [] && toasts == []
    {
      sent := [];
      toasts := [];
    }

    method Send(r: Request)
      modifies this
      ensures sent == old(sent) + [r] && toasts == old(toasts)
    {
      sent := sent + [r];
    }

    method Notify(t: Toast)
      modifies this
      ensures toasts == old(toasts) + [t] && sent == old(sent)
    {
      toasts := toasts + [t];
    }
  }
}

/** The create page of the current client: the form, its title check, the POST body, the loader wait and the reset. */
module CreatePage {
  import opened Wrappers
  import opened Text
  import opened Payload
  import opened Constants
  import opened Http
  import opened Validators
  import opened ClientRules

  /** The page's form; the date input's value is abstracted as a `DateField`. */
  datatype Form = Form(
    title: string,
    description: string,
    status: string,
    priority: string,
    dueDate: DateField,
    error: string,
    success: string)

  /** The form as the page first renders it and as it resets after a create. */
  const Fresh: Form := Form("", "", "pending", "medium", EmptyDate, "", "")

  const CreatedMessage: string := "Task created successfully! View all tasks to see it."
  const FailedMessage: string := "Failed to create task"
  const UnreachableMessage: string := "Error creating task. Make sure backend is running."

  /** The loader stays up for at least this many milliseconds. */
  const MinLoadingTime: int := 800

  /** The form after the checks, and the POST body if one is sent. */
  datatype Attempt = Attempt(form: Form, body: Option<TaskInput>)

  /** The synchronous part of `handleAddTask`: clear the banners, check the title, build the body. */
  function Submit(f: Form): (r: Attempt)
    ensures r.body.Some? <==> !IsBlank(f.title) && CodeUnits(f.title) <= TitleMaxLength
    ensures r.body.None? ==> r.form == f.(error := TitleProblem(f.title).value, success := "")
    ensures r.body.Some? ==> r.form == f.(error := "", success := "")
    ensures r.body.Some? ==>
      r.body.value == TaskInput(Str(f.title), Str(f.description), Str(f.status), Str(f.priority), f.dueDate)
  {
    match TitleProblem(f.title)
    case Some(message) => Attempt(f.(error := message, success := ""), None)
    case None =>
      Attempt(f.(error := "", success := ""),
              Some(TaskInput(Str(f.title), Str(f.description), Str(f.status), Str(f.priority), f.dueDate)))
  }

  /** `Math.max(0, minLoadingTime - elapsedTime)`. */
  function RemainingTime(elapsed: int): (wait: int)
    ensures wait >= 0
    ensures elapsed >= 0 ==> wait <= MinLoadingTime
    ensures elapsed + wait >= MinLoadingTime
    ensures wait == 0 <==> elapsed >= MinLoadingTime
    ensures elapsed <= MinLoadingTime ==> elapsed + wait == MinLoadingTime
  {
    if MinLoadingTime - elapsed > 0 then MinLoadingTime - elapsed else 0
  }

  /**
   * The form once the request has settled: `Some(response)` when the server
   * answered, `None` when the request itself failed.
   */
  function Settle(f: Form, answer: Option<Response>): (r: Form)
    ensures answer.Some? && Ok(answer.value.status) ==> r == Fresh.(success := CreatedMessage)
    ensures answer.Some? && !Ok(answer.value.status) ==>
      && r.title == f.title && r.description == f.description && r.status == f.status
      && r.priority == f.priority && r.dueDate == f.dueDate
      && r.error != []
    ensures answer.Some? && !Ok(answer.value.status) && !(answer.value.body.ErrorJson? && answer.value.body.error != []) ==>
      r.error == FailedMessage
    ensures answer.Some? && !Ok(answer.value.status) && answer.value.body.ErrorJson? && answer.value.body.error != [] ==>
      r.error == answer.value.body.error
    ensures answer.None? ==> r == f.(error := UnreachableMessage)
  {
    match answer
    case None => f.(error := UnreachableMessage)
    case Some(resp) =>
      if Ok(resp.status) then Fresh.(success := CreatedMessage)
      else
        var shown := if resp.body.ErrorJson? && resp.body.error != [] then resp.body.error else FailedMessage;
        f.(error := shown)
  }

  /** A refused request keeps what was typed, and shows the server's `error` text when it has one. */
  lemma FailureShowsServerError(f: Form, status: int, message: string)
    requires !Ok(status) && message != []
    ensures Settle(f, Some(Fail(status, message))) == f.(error := message)
  {
  }

  /** With status and priority from the selects, every body the page sends passes the create validator. */
  lemma SentBodyPassesCreate(f: Form)
    requires f.status in ValidStatuses && f.priority in ValidPriorities
    requires Submit(f).body.Some?
    ensures ValidateCreate(Submit(f).body.value).Pass?
  {
  }

  /** After a successful create the form is back to its first state, so the next submit is refused. */
  lemma ResetThenSubmitIsRefused(f: Form, resp: Response)
    requires Ok(resp.status)
    ensures Settle(f, Some(resp)).title == Fresh.title
    ensures Submit(Settle(f, Some(resp))).body.None?
  {
    assert IsBlank(Fresh.title);
  }
}

/** The create form of the earlier client: its fields, its title check and its reset. */
module TaskForm {
  import opened Wrappers
  import opened Text
  import opened Payload
  import opened Constants
  import opened Validators
  import opened ClientRules

  /** What `onAddTask` receives; the date input's value is abstracted as a `DateField`. */
  datatype NewTask = NewTask(title: string, description: string, priority: string, dueDate: DateField)

  datatype FormState = FormState(
    title: string,
    description: string,
    priority: string,
    dueDate: DateField,
    error: string,
    success: string)

  /** The empty form; the date input starts as "". */
  const Blank: FormState := FormState("", "", "medium", EmptyDate, "", "")

  const CreatedMessage: string := "Task created successfully!"

  /** The form after a submit, and the task handed to `onAddTask`, if any. */
  datatype Submission = Submission(state: FormState, sent: Option<NewTask>)

  /** `handleSubmit`. */
  function Submit(s: FormState): (r: Submission)
    ensures r.sent.Some? <==> !IsBlank(s.title) && CodeUnits(s.title) <= TitleMaxLength
    ensures IsBlank(s.title) ==> r.state == s.(error := TitleRequiredMessage, success := "")
    ensures !IsBlank(s.title) && CodeUnits(s.title) > TitleMaxLength ==>
      r.state == s.(error := TitleTooLongMessage, success := "")
    ensures r.sent.Some? ==>
      && r.sent.value == NewTask(s.title, s.description, s.priority, s.dueDate)
      && r.state == Blank.(success := CreatedMessage)
      && r.state.priority == PriorityName(DefaultPriority)
  {
    match TitleProblem(s.title)
    case Some(message) => Submission(s.(error := message, success := ""), None)
    case None =>
      Submission(Blank.(success := CreatedMessage), Some(NewTask(s.title, s.description, s.priority, s.dueDate)))
  }

  /** The JSON the client posts for a new task: no status, so the server's default applies. */
  function Body(t: NewTask): (b: TaskInput)
    ensures b.title == Str(t.title) && b.status == Undefined
  {
    TaskInput(Str(t.title), Str(t.description), Undefined, Str(t.priority), t.dueDate)
  }

  /** The form sends a title exactly when the server's create title rule would accept it. */
  lemma FormAgreesWithServer(s: FormState)
    ensures Submit(s).sent.Some? <==> ServerAcceptsTitle(s.title)
  {
    ClientMatchesServer(s.title);
  }

  /** With a priority from the select, everything the form sends passes the create validator. */
  lemma SentTaskPassesCreate(s: FormState)
    requires s.priority in ValidPriorities
    requires Submit(s).sent.Some?
    ensures ValidateCreate(Body(Submit(s).sent.value)).Pass?
  {
    assert s.priority in ValidPriorities;
  }

  /** Submitting twice in a row sends nothing the second time: the title was cleared. */
  lemma SecondSubmitIsRefused(s: FormState)
    requires Submit(s).sent.Some?
    ensures Submit(Submit(s).state).sent.None?
    ensures Submit(Submit(s).state).state.error == TitleRequiredMessage
  {
    assert Submit(s).state.title == [];
  }
}

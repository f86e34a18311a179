/**
 * The title check the three task forms run before sending anything:
 * `!title.trim()` is "Title is required", `title.length > 100` is
 * "Title must not exceed 100 characters", checked in that order.
 */
module ClientRules {
  import opened Wrappers
  import opened Text
  import opened Payload
  import opened Constants
  import opened Validators

  /** `fetch`'s `response.ok`: a status in 200..299. */
  predicate Ok(status: int) {
    200 <= status <= 299
  }

  /** The message a form shows for `title`, or `None` when it may be sent. */
  function TitleProblem(title: string): (r: Option<string>)
    ensures r.None? <==> !IsBlank(title) && CodeUnits(title) <= TitleMaxLength
    ensures r.Some? ==> r.value == (if IsBlank(title) then TitleRequiredMessage else TitleTooLongMessage)
  {
    if IsBlank(title) then Some(TitleRequiredMessage)
    else if CodeUnits(title) > TitleMaxLength then Some(TitleTooLongMessage)
    else None
  }

  /** For a string title, a form lets it through exactly when the create validator's title rules do. */
  lemma ClientMatchesServer(title: string)
    ensures TitleProblem(title).None? <==> ServerAcceptsTitle(title)
  {
    ServerTitleRule(title);
  }

  /** A form's message is the message the create validator reports first for the same title. */
  lemma ClientMessageIsServerMessage(title: string)
    requires TitleProblem(title).Some?
    ensures var errs := CreateErrors(TaskInput(Str(title), Undefined, Undefined, Undefined, NoDate));
      errs != [] && TitleProblem(title).value == Message(errs[0])
  {
    ServerTitleRule(title);
  }
}

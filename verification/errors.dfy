/**
 * The error middleware: how a thrown error becomes a status and a JSON body,
 * and the 404 answer for a request no route matched.
 */
module Errors {
  import opened Wrappers
  import opened TaskModel
  import opened Http

  /**
   * A thrown error as the handler sees it: `name`, the optional `status`
   * property, `message`, `stack`, and for a Mongoose ValidationError the
   * message of each failed field.
   */
  datatype AppError = AppError(name: string, status: Option<int>, message: string, stack: string, fieldMessages: seq<string>)

  const ValidationErrorName: string := "ValidationError"
  const CastErrorName: string := "CastError"
  const TypeErrorName: string := "TypeError"

  function FaultMessages(fs: seq<Fault>): (ms: seq<string>)
    ensures |ms| == |fs|
    ensures forall k :: 0 <= k < |fs| ==> ms[k] == FaultMessage(fs[k])
  {
    seq(|fs|, k requires 0 <= k < |fs| => FaultMessage(fs[k]))
  }

  /** The ValidationError `save()` rejects with, one field message per failed check. */
  function ValidationFailure(fs: seq<Fault>, stack: string): (e: AppError)
    ensures e.name == ValidationErrorName && e.fieldMessages == FaultMessages(fs)
  {
    AppError(ValidationErrorName, None, "Validation failed", stack, FaultMessages(fs))
  }

  /** The CastError `findById` rejects a malformed id with. */
  function CastFailure(value: string, stack: string): (e: AppError)
    ensures e.name == CastErrorName
  {
    AppError(CastErrorName, None, "Cast to ObjectId failed for value \"" + value + "\"", stack, [])
  }

  /** The TypeError of calling `trim` on a value that is not a string. */
  function TypeFailure(field: string, stack: string): (e: AppError)
    ensures e.name == TypeErrorName && e.status.None?
  {
    AppError(TypeErrorName, None, "Cannot read properties of " + field + " (reading 'trim')", stack, [])
  }

  /** `errorHandler`: classify by name; any other error keeps its own status and message when it has them. */
  function HandleError(err: AppError, development: bool): (r: Response)
    ensures err.name == ValidationErrorName ==>
      r == Response(400, ErrorJson("Validation error", Details(err.fieldMessages)))
    ensures err.name == CastErrorName ==> r == Response(400, ErrorJson("Invalid ID format", NoExtra))
    ensures err.name != ValidationErrorName && err.name != CastErrorName ==>
      && r.body.ErrorJson?
      && (err.status.Some? && err.status.value != 0 ==> r.status == err.status.value)
      && (err.status.None? || err.status.value == 0 ==> r.status == 500)
      && (err.message != [] ==> r.body.error == err.message)
      && (err.message == [] ==> r.body.error == "Internal server error")
      && (development <==> r.body.extra == Stack(err.stack))
      && (!development ==> r.body.extra == NoExtra)
  {
    if err.name == ValidationErrorName then
      Response(400, ErrorJson("Validation error", Details(err.fieldMessages)))
    else if err.name == CastErrorName then
      Response(400, ErrorJson("Invalid ID format", NoExtra))
    else
      var status := if err.status.Some? && err.status.value != 0 then err.status.value else 500;
      var message := if err.message != [] then err.message else "Internal server error";
      Response(status, ErrorJson(message, if development then Stack(err.stack) else NoExtra))
  }

  /** A ValidationError lists one detail per failed field check, in order. */
  lemma ValidationDetailsPerFault(fs: seq<Fault>, stack: string, development: bool)
    ensures var r := HandleError(ValidationFailure(fs, stack), development);
      && r.status == 400 && r.body.extra.Details?
      && |r.body.extra.items| == |fs|
      && forall k :: 0 <= k < |fs| ==> r.body.extra.items[k] == FaultMessage(fs[k])
  {
  }

  /** A malformed id is reported as a bad request, never as "not found", and never leaks a stack. */
  lemma MalformedIdIsBadRequest(value: string, stack: string, development: bool)
    ensures var r := HandleError(CastFailure(value, stack), development);
      r.status == 400 && r.status != 404 && r.body == ErrorJson("Invalid ID format", NoExtra)
  {
  }

  /** `notFoundHandler`: 404 "Route not found" carrying the request's URL. */
  function RouteNotFound(originalUrl: string): (r: Response)
    ensures r.status == 404
    ensures r.body == ErrorJson("Route not found", RoutePath(originalUrl))
  {
    Response(404, ErrorJson("Route not found", RoutePath(originalUrl)))
  }
}

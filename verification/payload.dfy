/**
 * JSON request payloads as the backend receives them after `express.json()`:
 * every field may be absent (`undefined`), `null`, or any JSON value.
 */
module Payload {

  /**
   * A JavaScript value as found in a parsed request body. Numbers are
   * modelled by their integer value; `Obj` stands for any array or object.
   */
  datatype JsValue = Undefined | Null | Bool(b: bool) | Num(n: int) | Str(s: string) | Obj

  /** JavaScript truthiness: `undefined`, `null`, `false`, `0` and `""` are falsy. */
  predicate Truthy(v: JsValue) {
    match v
    case Undefined => false
    case Null => false
    case Bool(b) => b
    case Num(n) => n != 0
    case Str(s) => s != []
    case Obj => true
  }

  /**
   * A `dueDate` field, described by its truthiness and by what Mongoose's
   * Date cast makes of it: `NoDate` is an absent field; `NullDate` is `null`
   * and `EmptyDate` is `""`, both cast to no date; `FalseDate` is `false`,
   * which the cast rejects; `ZeroDate` is the number 0, which casts to the
   * epoch; `DateAt(t)` is a truthy value (a date string or a non-zero
   * number) that casts to instant `t` (milliseconds), and `BadDate` a truthy
   * value the cast rejects.
   */
  datatype DateField = NoDate | NullDate | EmptyDate | FalseDate | ZeroDate | DateAt(t: int) | BadDate

  /** Truthiness of the raw `dueDate` value: `undefined`, `null`, `""`, `false` and `0` are falsy. */
  predicate DateTruthy(d: DateField) {
    d.DateAt? || d.BadDate?
  }

  /** The body of a POST or PATCH request on the task collection. */
  datatype TaskInput = TaskInput(
    title: JsValue,
    description: JsValue,
    status: JsValue,
    priority: JsValue,
    dueDate: DateField)

  /** A body with no field at all: `{}`. */
  const EmptyInput := TaskInput(Undefined, Undefined, Undefined, Undefined, NoDate)
}

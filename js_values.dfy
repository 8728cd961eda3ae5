/** Values shared by every part of the model: the JSON-like data that flows
    through unchanged from the remote APIs into the stores, the uniform
    `{success, data|message}` result envelope, and the two ways a JavaScript
    expression can finish (with a value, or by throwing). */
module JsValues {

  datatype Option<+T> = None | Some(value: T)

  /** A parsed JSON value as the JavaScript code sees it. `Undefined` stands
      for a property that is absent. Numbers are abstracted as integers: the
      model never computes with them, it only passes them along. */
  datatype Json =
    | Undefined
    | Null
    | Bool(b: bool)
    | Num(n: int)
    | Str(s: string)
    | Arr(items: seq<Json>)
    | Obj(fields: map<string, Json>)

  /** `{success: true, data}` or `{success: false, message}`. */
  datatype Envelope<+T> = Success(data: T) | Failure(message: string)

  /** How an expression finishes: it returns a value or it throws an error
      carrying a message. */
  datatype Completion<+T> = Returns(value: T) | Throws(error: string)
}

/**
 * The JavaScript values that reach the API through a JSON request body, and
 * JavaScript's notion of a "falsy" value that the handlers' `!x` tests use.
 */
module JsValues {

  /**
   * A value of a parsed JSON body. `Undefined` stands for a field that the
   * body does not have; the other cases are the values JSON can express.
   */
  datatype JsValue =
    | Undefined
    | Null
    | Bool(b: bool)
    | Number(n: real)
    | Str(s: string)
    | Array(items: seq<JsValue>)
    | Object(fields: seq<(string, JsValue)>)

  /**
   * `!v` is true exactly for these values (NaN cannot come out of a JSON body;
   * `-0` and `0` are the same real here).
   */
  predicate Falsy(v: JsValue)
  {
    v == Undefined || v == Null || v == Bool(false) || v == Number(0.0) || v == Str("")
  }
}

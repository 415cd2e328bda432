/** `getErrorMessage` (utils/getErrorMessage.ts): the message to show for a form error value. */
module ErrorMessage {
  import Js

  /**
   * The JavaScript values the helper can be given. An object is reduced to its
   * `message` property, `Undefined` when absent.
   */
  datatype JsValue =
    | Undefined
    | Null
    | Bool(b: bool)
    | Number(n: Js.Number)
    | Str(s: string)
    | Obj(message: JsValue)

  /** `!!v` */
  predicate Truthy(v: JsValue)
  {
    match v
    case Undefined => false
    case Null => false
    case Bool(b) => b
    case Number(n) => Js.Truthy(n)
    case Str(s) => s != ""
    case Obj(_) => true
  }

  /**
   * A falsy value gives undefined, a string is returned as it is, an object
   * with a truthy `message` gives that message, and anything else (an object
   * without one, `true`, a non-zero number) gives undefined.
   */
  function GetErrorMessage(error: JsValue): (r: JsValue)
    ensures !Truthy(error) ==> r == Undefined
    ensures error.Str? && error.s != "" ==> r == error
    ensures error.Obj? && Truthy(error.message) ==> r == error.message
    ensures error.Obj? && !Truthy(error.message) ==> r == Undefined
    ensures (error.Bool? || error.Number?) ==> r == Undefined
    ensures r == Undefined || Truthy(r)
  {
    if !Truthy(error) then Undefined
    else if error.Str? then error
    else if error.Obj? && Truthy(error.message) then error.message
    else Undefined
  }
}

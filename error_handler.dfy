/** The Express error middleware: status and message with `||` fallbacks, and a two-field JSON body. */
module ErrorHandler {
  import opened Wrappers
  import opened Errors

  /** What the middleware reads of a thrown value; an absent property is `None`. */
  datatype ThrownObject = ThrownObject(name: Option<string>, message: Option<string>, statusCode: Option<int>)

  /** The JSON body holds exactly these two fields. */
  datatype ErrorBody = ErrorBody(error: string, message: string)

  datatype Response = Response(status: int, body: ErrorBody)

  /** JavaScript's `value || fallback` on an optional string: the empty string is falsy. */
  function OrText(value: Option<string>, fallback: string): (r: string)
    ensures value.Some? && value.value != "" ==> r == value.value
    ensures value.None? || value.value == "" ==> r == fallback
  {
    if value.Some? && value.value != "" then value.value else fallback
  }

  function OrNumber(value: Option<int>, fallback: int): (r: int)
    ensures value.Some? && value.value != 0 ==> r == value.value
    ensures value.None? || value.value == 0 ==> r == fallback
  {
    if value.Some? && value.value != 0 then value.value else fallback
  }

  function Respond(err: ThrownObject): (r: Response)
    ensures r.status == OrNumber(err.statusCode, 500)
    ensures r.body.message == OrText(err.message, "Internal Server Error")
    ensures r.body.error == OrText(err.name, "Error")
  {
    Response(OrNumber(err.statusCode, 500), ErrorBody(OrText(err.name, "Error"), OrText(err.message, "Internal Server Error")))
  }

  /** The properties an application error carries when it reaches the middleware. */
  function AsThrown(e: AppError): ThrownObject {
    ThrownObject(Some(ClassName(e.cls)), Some(e.message), StatusCode(e.cls))
  }

  /**
   * A custom error answers with its own status code and its own message (unless that is empty);
   * anything else answers 500.
   */
  lemma RespondToAppError(e: AppError)
    ensures Respond(AsThrown(e)).status == if e.cls.PlainError? then 500 else StatusCode(e.cls).value
    ensures e.message != "" ==> Respond(AsThrown(e)).body.message == e.message
    ensures e.message == "" ==> Respond(AsThrown(e)).body.message == "Internal Server Error"
    ensures !e.cls.PlainError? ==> Respond(AsThrown(e)).body.error == ClassName(e.cls)
  {
  }
}

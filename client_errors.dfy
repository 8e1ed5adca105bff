/**
 * `getErrorMessage`: the browser's translation of a failed request into the text shown to the user. A
 * request that got no answer, and one that was never sent, have fixed or local texts; an answer is read by
 * its status, falling back to the server's `message` for the statuses where that is meaningful.
 */
module ClientErrors {
  import opened Wrappers
  import opened Strings
  import opened JsNumbers
  import opened Errors
  import ErrorHandler

  /** One value of a `data.errors` object: a single message or an array of them (`flat` opens arrays only). */
  datatype FieldErrors = One(text: string) | Many(items: seq<string>)

  /** The response body as far as it is read; an absent property is `None`. */
  datatype Body = Body(message: Option<string>, errors: Option<seq<FieldErrors>>)

  datatype Response = Response(status: int, data: Body)

  /** The failed request: the answer if one came, whether a request went out, and the error's own message. */
  datatype RequestError = RequestError(response: Option<Response>, requestSent: bool, message: Option<string>)

  const Unreachable: string := "Unable to connect to the server. Please check your internet connection."
  const Unexpected: string := "An unexpected error occurred."
  const InvalidRequest: string := "Invalid request. Please check your input."
  const LoginAgain: string := "Authentication failed. Please log in again."
  const NoPermission: string := "You do not have permission to perform this action."
  const NotFoundText: string := "The requested resource was not found."
  const ConflictText: string := "This operation conflicts with existing data."
  const InvalidData: string := "The data provided is invalid."
  const TooMany: string := "Too many requests. Please try again later."
  const ServerFailed: string := "Internal server error. Please try again later."
  const Unavailable: string := "The server is temporarily unavailable. Please try again later."

  /** `${status}` for an integer. */
  function IntText(n: int): string {
    if n < 0 then "-" + NatToDigits(-n) else NatToDigits(n)
  }

  function OtherStatus(status: int): string {
    "An error occurred (" + IntText(status) + "). Please try again."
  }

  /** `Object.values(errors).flat()`: the values in order, each array opened one level. */
  function Flat(values: seq<FieldErrors>): seq<string> {
    if values == [] then []
    else (match values[0] case One(t) => [t] case Many(items) => items) + Flat(values[1..])
  }

  /** The statuses whose text does not depend on the body. */
  predicate FixedStatus(status: int) {
    status == 401 || status == 403 || status == 429 || status == 500 || status == 502 || status == 503 ||
    status == 504
  }

  /** The `switch` on the status of an answer. */
  function ForStatus(status: int, data: Body): string {
    if status == 400 then
      if data.errors.Some? then Join(Flat(data.errors.value), ", ")
      else ErrorHandler.OrText(data.message, InvalidRequest)
    else if status == 401 then LoginAgain
    else if status == 403 then NoPermission
    else if status == 404 then ErrorHandler.OrText(data.message, NotFoundText)
    else if status == 409 then ErrorHandler.OrText(data.message, ConflictText)
    else if status == 422 then ErrorHandler.OrText(data.message, InvalidData)
    else if status == 429 then TooMany
    else if status == 500 then ServerFailed
    else if status == 502 || status == 503 || status == 504 then Unavailable
    else ErrorHandler.OrText(data.message, OtherStatus(status))
  }

  function GetErrorMessage(e: RequestError): string {
    match e.response
    case None => if e.requestSent then Unreachable else ErrorHandler.OrText(e.message, Unexpected)
    case Some(r) => ForStatus(r.status, r.data)
  }

  /** A message is in the flattened list exactly when some value is that message or an array holding it. */
  lemma {:induction false} FlatMembers(values: seq<FieldErrors>, m: string)
    ensures m in Flat(values) <==>
              exists k :: 0 <= k < |values| && ((values[k].One? && values[k].text == m) || (values[k].Many? && m in values[k].items))
  {
    if values != [] {
      FlatMembers(values[1..], m);
      if m in Flat(values[1..]) {
        var k :| 0 <= k < |values[1..]| &&
                 ((values[1..][k].One? && values[1..][k].text == m) || (values[1..][k].Many? && m in values[1..][k].items));
        assert values[k + 1] == values[1..][k];
      }
      forall k | 1 <= k < |values| && ((values[k].One? && values[k].text == m) || (values[k].Many? && m in values[k].items))
        ensures m in Flat(values[1..])
      {
        assert values[1..][k - 1] == values[k];
      }
    }
  }

  /** For the fixed statuses the body is not read at all. */
  lemma FixedStatusIgnoresBody(status: int, a: Body, b: Body)
    requires FixedStatus(status)
    ensures ForStatus(status, a) == ForStatus(status, b)
  {
  }

  /** The three gateway statuses read the same. */
  lemma GatewayStatusesAgree(data: Body)
    ensures ForStatus(502, data) == Unavailable
    ensures ForStatus(503, data) == Unavailable
    ensures ForStatus(504, data) == Unavailable
  {
  }

  /**
   * Outside the fixed statuses and the list of field errors of a 400, a non-empty server message is
   * shown as it is.
   */
  lemma ServerMessageShown(status: int, data: Body)
    requires !FixedStatus(status) && !(status == 400 && data.errors.Some?)
    requires data.message.Some? && data.message.value != ""
    ensures ForStatus(status, data) == data.message.value
  {
  }

  /** Only a 400 with a list of field errors that joins to nothing reads as the empty text. */
  lemma EmptyOnlyFromErrorList(e: RequestError)
    ensures GetErrorMessage(e) == "" <==>
              e.response.Some? && e.response.value.status == 400 && e.response.value.data.errors.Some? &&
              Join(Flat(e.response.value.data.errors.value), ", ") == ""
  {
    if e.response.Some? {
      var r := e.response.value;
      if !(r.status == 400 && r.data.errors.Some?) && !FixedStatus(r.status) {
        assert |OtherStatus(r.status)| > 0;
      }
    }
  }

  /** An empty `errors` object is truthy, so a 400 carrying one reads as the empty text. */
  lemma EmptyErrorObjectReadsEmpty(message: Option<string>)
    ensures ForStatus(400, Body(message, Some([]))) == ""
  {
  }

  /** The body the browser receives for an error the server's middleware answers. */
  function Received(e: AppError): Response {
    var answer := ErrorHandler.Respond(ErrorHandler.AsThrown(e));
    Response(answer.status, Body(Some(answer.body.message), None))
  }

  /**
   * Across the wire: a validation, not-found or conflict error with a message is shown with the server's
   * message; an authentication or forbidden error is replaced by its fixed text; anything the server
   * answers with 500 reads as the fixed server-failure text.
   */
  lemma ServerErrorsAsShown(e: AppError)
    ensures e.cls in {ValidationError, NotFoundError, ConflictError} && e.message != "" ==>
              GetErrorMessage(RequestError(Some(Received(e)), true, None)) == e.message
    ensures e.cls == AuthenticationError ==> GetErrorMessage(RequestError(Some(Received(e)), true, None)) == LoginAgain
    ensures e.cls == ForbiddenError ==> GetErrorMessage(RequestError(Some(Received(e)), true, None)) == NoPermission
    ensures e.cls.PlainError? ==> GetErrorMessage(RequestError(Some(Received(e)), true, None)) == ServerFailed
  {
    ErrorHandler.RespondToAppError(e);
  }
}

/** The error utilities of the frontend: the error types and their default messages,
    `AppError`, the mapping from HTTP status codes to types, and the classification,
    formatting and retryability of errors thrown by requests. */
module ErrorUtils {
  import opened Common

  datatype ErrorType = Network | Auth | Validation | Permission | NotFound | Server | Client | Unknown

  /** `ERROR_TYPES`: the string each type is known by. */
  function TypeName(t: ErrorType): (r: string)
    ensures |r| > 6 && r[|r| - 6..] == "_ERROR"
  {
    match t
    case Network => "NETWORK_ERROR"
    case Auth => "AUTH_ERROR"
    case Validation => "VALIDATION_ERROR"
    case Permission => "PERMISSION_ERROR"
    case NotFound => "NOT_FOUND_ERROR"
    case Server => "SERVER_ERROR"
    case Client => "CLIENT_ERROR"
    case Unknown => "UNKNOWN_ERROR"
  }

  /** `ERROR_MESSAGES`: the default message of each type. */
  function DefaultMessage(t: ErrorType): (r: string)
    ensures r != ""
  {
    match t
    case Network => "Network error occurred. Please check your connection."
    case Auth => "Authentication error. Please log in again."
    case Validation => "Validation error. Please check your input."
    case Permission => "Permission denied. You do not have access to this resource."
    case NotFound => "Resource not found."
    case Server => "Server error occurred. Please try again later."
    case Client => "Client error occurred. Please check your input."
    case Unknown => "An unknown error occurred. Please try again."
  }

  /** An `AppError`; its creation time is not modelled. The message is a string, as
      `Error` converts whatever it is given. */
  datatype AppError = AppError(errorType: ErrorType, message: string, details: JsValue)

  /** The `AppError` constructor (and `createError`): a falsy message is replaced by the
      type's default message and any other is converted to a string; omitted details
      default to `null`. Only a truthy array can render as the empty message. */
  function NewAppError(t: ErrorType, message: JsValue, details: JsValue): (r: AppError)
    ensures r.errorType == t
    ensures r.details == if details.Undefined? then Null else details
    ensures Truthy(message) ==> r.message == JsToString(message)
    ensures !Truthy(message) ==> r.message == DefaultMessage(t)
    ensures r.message == "" ==> Truthy(message) && message.Arr?
  {
    var text := if Truthy(message) then JsToString(message) else DefaultMessage(t);
    AppError(t, text, if details.Undefined? then Null else details)
  }

  /** The response part of an HTTP client error. */
  datatype HttpResponse = HttpResponse(status: int, data: JsValue)

  /** An error thrown by a request: an `AppError`, or a plain error with an optional
      response, a flag for a request that was sent, and its own message. */
  datatype ThrownError =
    | App(app: AppError)
    | Plain(response: Option<HttpResponse>, requestSent: bool, message: JsValue)

  /** `getErrorTypeFromStatus`. */
  function TypeFromStatus(status: int): (r: ErrorType)
    ensures r == Validation <==> status == 400
    ensures r == Auth <==> status == 401
    ensures r == Permission <==> status == 403
    ensures r == NotFound <==> status == 404
    ensures r == Server <==> status == 500
    ensures r == Unknown <==> status !in {400, 401, 403, 404, 500}
    ensures r != Network && r != Client
  {
    if status == 400 then Validation
    else if status == 401 then Auth
    else if status == 403 then Permission
    else if status == 404 then NotFound
    else if status == 500 then Server
    else Unknown
  }

  /** `getErrorMessageFromStatus`: every status has a non-empty message, the default
      message of its type. */
  function MessageFromStatus(status: int): (r: string)
    ensures r != ""
    ensures r == DefaultMessage(TypeFromStatus(status))
    ensures status !in {400, 401, 403, 404, 500} ==> r == DefaultMessage(Unknown)
  {
    DefaultMessage(TypeFromStatus(status))
  }

  /** `handleApiError`. An `AppError` is returned as it is. With a response, the type is
      the status's type; a 400 takes the message and `errors` of the response body, and
      reading them from a missing body throws (`None`). A request without a response is
      a network error; anything else is a client error with the error's own message. */
  function HandleApiError(e: ThrownError): (r: Option<AppError>)
    ensures e.App? ==> r == Some(e.app)
    ensures r.None? <==> e.Plain? && e.response.Some? && e.response.value.status == 400 && Nullish(e.response.value.data)
    ensures r.Some? && e.Plain? && r.value.message == "" ==>
              (e.response.Some? && e.response.value.status == 400 && BodyMessage(e.response).Arr?)
              || (e.response.None? && !e.requestSent && e.message.Arr?)
    ensures r.Some? && e.Plain? && e.response.Some? && e.response.value.status == 400
            && !Nullish(e.response.value.data) ==>
              r.value.details == if GetProp(e.response.value.data, "errors").value.Undefined? then Null
                                 else GetProp(e.response.value.data, "errors").value
    ensures r.Some? && e.Plain? && (e.response.None? || e.response.value.status != 400) ==> r.value.details == Null
    ensures r.Some? && e.Plain? && e.response.Some? ==> r.value.errorType == TypeFromStatus(e.response.value.status)
    ensures r.Some? && e.Plain? && e.response.None? && e.requestSent ==> r.value.errorType == Network
    ensures r.Some? && e.Plain? && e.response.None? && !e.requestSent ==> r.value.errorType == Client
  {
    match e
    case App(app) => Some(app)
    case Plain(response, requestSent, message) =>
      if response.Some? then
        var status := response.value.status;
        var data := response.value.data;
        if status == 400 then
          if Nullish(data) then None
          else Some(NewAppError(Validation, GetProp(data, "message").value, GetProp(data, "errors").value))
        else if status == 401 then Some(NewAppError(Auth, Str("Please log in again"), Null))
        else if status == 403 then Some(NewAppError(Permission, Str("You do not have permission to perform this action"), Null))
        else if status == 404 then Some(NewAppError(NotFound, Str("Resource not found"), Null))
        else if status == 500 then Some(NewAppError(Server, Str("Server error occurred"), Null))
        else Some(NewAppError(Unknown, Str("An error occurred"), Null))
      else if requestSent then Some(NewAppError(Network, Str("No response from server"), Null))
      else Some(NewAppError(Client, message, Null))
  }

  /** `isRetryableError`. */
  predicate IsRetryable(e: ThrownError) {
    match e
    case App(app) => app.errorType in {Network, Server}
    case Plain(response, _, _) => response.Some? && response.value.status in {500, 502, 503, 504}
  }

  /** Classifying a response error loses retryability for 502, 503 and 504: those map to
      the unknown type, and only a 500 stays retryable once it is an `AppError`. */
  lemma RetryableAfterHandling(status: int, data: JsValue, message: JsValue)
    ensures var e := Plain(Some(HttpResponse(status, data)), true, message);
            && (IsRetryable(e) <==> status in {500, 502, 503, 504})
            && (HandleApiError(e).Some? ==> (IsRetryable(App(HandleApiError(e).value)) <==> status == 500))
  {
  }

  /** `formatError`: the `AppError` message, else the response body's truthy message,
      else the error's own truthy message, else the unknown-error text. */
  function FormatError(e: ThrownError): (r: JsValue)
    ensures e.App? ==> r == Str(e.app.message)
    ensures e.Plain? ==> Truthy(r)
    ensures e.Plain? && Truthy(BodyMessage(e.response)) ==> r == BodyMessage(e.response)
    ensures e.Plain? && !Truthy(BodyMessage(e.response)) && Truthy(e.message) ==> r == e.message
    ensures e.Plain? && !Truthy(BodyMessage(e.response)) && !Truthy(e.message) ==> r == Str(DefaultMessage(Unknown))
  {
    match e
    case App(app) => Str(app.message)
    case Plain(response, _, message) =>
      var bodyMessage := BodyMessage(response);
      if Truthy(bodyMessage) then bodyMessage
      else if Truthy(message) then message
      else Str(DefaultMessage(Unknown))
  }

  /** `error.response?.data?.message`. */
  function BodyMessage(response: Option<HttpResponse>): JsValue {
    if response.Some? && !Nullish(response.value.data) then GetProp(response.value.data, "message").value
    else Undefined
  }

  /** Every raw error formats to a truthy message, and so does every error classified
      by `handleApiError` unless the message it was given is an array whose string form
      is empty. */
  lemma FormattedHandledErrorIsTruthy(e: ThrownError)
    requires e.Plain?
    ensures HandleApiError(e).Some? && !Truthy(FormatError(App(HandleApiError(e).value))) ==>
              BodyMessage(e.response).Arr? || e.message.Arr?
    ensures Truthy(FormatError(e))
  {
  }

  /** A 400 response whose body message is an empty array is classified with an empty
      message, which formats to a falsy value. */
  lemma EmptyArrayBodyMessage()
    ensures var e := Plain(Some(HttpResponse(400, Obj([("message", Arr([]))]))), true, Undefined);
            && HandleApiError(e) == Some(AppError(Validation, "", Null))
            && !Truthy(FormatError(App(HandleApiError(e).value)))
  {
    var data := Obj([("message", Arr([]))]);
    FieldValueSmall("message", Arr([]), "", Null, "message");
    assert GetProp(data, "message") == Some(Arr([]));
    FieldValueSmall("message", Arr([]), "", Null, "errors");
    assert GetProp(data, "errors") == Some(Undefined);
    assert JsToString(Arr([])) == "";
  }
}

/** The HTTP error handler: how a thrown error becomes the status code, name
    and message of the reply, including the redaction of unexpected errors in
    production. The logging of unexpected errors is not modelled. */
module ErrorHandler {
  import opened Common

  /** The names of the status codes the handler knows. */
  const StatusNames: map<int, string> := map[
    400 := "Bad Request",
    401 := "Unauthorized",
    403 := "Forbidden",
    404 := "Not Found",
    409 := "Conflict",
    422 := "Unprocessable Entity",
    500 := "Internal Server Error",
    502 := "Bad Gateway",
    503 := "Service Unavailable",
    504 := "Gateway Timeout"
  ]

  const GenericName := "Error"
  const ValidationMessage := "Validation error"
  const RedactedMessage := "An unexpected error occurred"

  /** `getErrorName`: the listed name of a known code, "Error" for any other. */
  function GetErrorName(statusCode: int): (name: string)
    ensures statusCode in StatusNames ==> name == StatusNames[statusCode]
    ensures statusCode !in StatusNames ==> name == GenericName
    ensures name == GenericName <==> statusCode !in StatusNames
  {
    if statusCode in StatusNames && StatusNames[statusCode] != "" then StatusNames[statusCode] else GenericName
  }

  /** What reaches the handler.
      - Zod: a failed request validation, with its formatted issues;
      - App: an `AppError` with its own status code; `errors` is present when
        it is a `ValidationError` that carries them;
      - Unexpected: any other error, such as a plain `Error` or a database
        client error. */
  datatype Thrown =
    | Zod(formatted: string)
    | App(statusCode: int, message: string, errors: Option<string>)
    | Unexpected(message: string, stack: Option<string>)

  /** The body of the reply; its status code is the reply's status. */
  datatype Reply = Reply(
    statusCode: int,
    error: string,
    message: string,
    validationErrors: Option<string>,
    stack: Option<string>)

  predicate IsProduction(nodeEnv: Option<string>) {
    nodeEnv == Some("production")
  }

  /** The handler. A validation error is a 400 with a fixed message; an
      `AppError` keeps its status and message; anything else is a 500 whose
      message and stack are shown only outside production. */
  function Handle(e: Thrown, nodeEnv: Option<string>): (r: Reply)
    ensures r.error == GetErrorName(r.statusCode)
    ensures e.Zod? ==>
      r.statusCode == 400 && r.message == ValidationMessage && r.validationErrors == Some(e.formatted) &&
      r.stack.None?
    ensures e.App? ==>
      r.statusCode == e.statusCode && r.message == e.message && r.validationErrors == e.errors &&
      r.stack.None?
    ensures e.Unexpected? ==> r.statusCode == 500 && r.validationErrors.None?
    ensures e.Unexpected? && IsProduction(nodeEnv) ==> r.message == RedactedMessage && r.stack.None?
    ensures e.Unexpected? && !IsProduction(nodeEnv) ==> r.message == e.message && r.stack == e.stack
  {
    match e
    case Zod(formatted) =>
      Reply(400, "Bad Request", ValidationMessage, Some(formatted), None)
    case App(code, message, errors) =>
      Reply(code, GetErrorName(code), message, errors, None)
    case Unexpected(message, stack) =>
      if IsProduction(nodeEnv) then
        Reply(500, "Internal Server Error", RedactedMessage, None, None)
      else
        Reply(500, "Internal Server Error", message, None, stack)
  }

  /** How a repository or service failure is thrown: a NotFound is an
      `AppError` with the NotFound status code; a domain guard's plain
      `Error` and a database client error are neither. */
  function ToThrown(f: Failure, notFoundStatus: int, stack: Option<string>): (e: Thrown)
    ensures f.NotFound? <==> e.App?
    ensures e.App? ==> e.statusCode == notFoundStatus && e.errors.None?
    ensures !e.Zod? && e.message == f.message
  {
    match f
    case NotFound(message) => App(notFoundStatus, message, None)
    case Plain(message) => Unexpected(message, stack)
    case StoreFailure(message) => Unexpected(message, stack)
  }

  /** The production setting changes only the replies to unexpected errors,
      and even those keep their status code and name. */
  lemma ProductionRedactsOnlyUnexpected(e: Thrown, nodeEnv: Option<string>)
    ensures Handle(e, nodeEnv).statusCode == Handle(e, None).statusCode
    ensures Handle(e, nodeEnv).error == Handle(e, None).error
    ensures !e.Unexpected? ==> Handle(e, nodeEnv) == Handle(e, None)
    ensures e.Unexpected? && IsProduction(nodeEnv) ==>
      Handle(e, nodeEnv).message == RedactedMessage && Handle(e, nodeEnv).stack.None?
  {
  }

  /** A domain guard's plain error and a database client error reach the
      client as a 500 Internal Server Error, whatever their message says, and
      in production their message is hidden. */
  lemma GuardFailuresAreServerErrors(f: Failure, notFoundStatus: int, stack: Option<string>, nodeEnv: Option<string>)
    requires f.Plain? || f.StoreFailure?
    ensures Handle(ToThrown(f, notFoundStatus, stack), nodeEnv).statusCode == 500
    ensures Handle(ToThrown(f, notFoundStatus, stack), nodeEnv).error == "Internal Server Error"
    ensures IsProduction(nodeEnv) ==> Handle(ToThrown(f, notFoundStatus, stack), nodeEnv).message == RedactedMessage
    ensures !IsProduction(nodeEnv) ==> Handle(ToThrown(f, notFoundStatus, stack), nodeEnv).message == f.message
  {
  }

  /** A NotFound reaches the client with its own status code, the name of
      that code, and its message, in every environment. */
  lemma NotFoundKeepsItsMessage(message: string, notFoundStatus: int, stack: Option<string>, nodeEnv: Option<string>)
    ensures Handle(ToThrown(NotFound(message), notFoundStatus, stack), nodeEnv) ==
      Reply(notFoundStatus, GetErrorName(notFoundStatus), message, None, None)
    ensures notFoundStatus == 404 ==>
      Handle(ToThrown(NotFound(message), notFoundStatus, stack), nodeEnv).error == "Not Found"
  {
  }
}

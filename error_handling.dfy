/**
 * The global error handler (src/middleware/errorHandling.ts): every error
 * that reaches `next(error)` becomes one JSON reply. An `AppError` keeps its
 * code, status and message; anything else is masked as a generic 500.
 */
module ErrorHandling {
  import opened Wrappers
  import opened Strings
  import opened Response

  /**
   * The optional `stack` key: absent, or present with the stack's lines.
   * `Included(None)` is `{ stack: undefined }` for an error without a stack,
   * which `res.json` drops when it serialises, so the sent body has no
   * `stack` key then either.
   */
  datatype StackField = Omitted | Included(lines: Option<seq<string>>)

  /** `res.status(httpStatus).json({ statusCode, status, message, stack? })`. */
  datatype ErrorReply = ErrorReply(httpStatus: int, statusCode: int, status: string, message: string, stack: StackField)

  const GenericMessage := "An unexpected error occurred"

  /** `globalErrorHandler(err, ...)` with `process.env.NODE_ENV` as `nodeEnv`. */
  function GlobalErrorHandler(err: Thrown, nodeEnv: Option<string>): (r: ErrorReply)
    ensures r.httpStatus == r.statusCode
    ensures err.App? ==> r.statusCode == err.err.statusCode && r.status == err.err.status && r.message == err.err.message
    ensures err.Other? ==> r.statusCode == 500 && r.status == "error" && r.message == GenericMessage
    ensures r.stack.Included? <==> nodeEnv == Some("development")
    ensures r.stack.Included? ==> (r.stack.lines.Some? <==> err.stack.Some?)
  {
    var statusCode := if err.App? then err.err.statusCode else 500;
    var status := if err.App? then err.err.status else "error";
    var message := if err.App? then err.err.message else GenericMessage;
    var stack :=
      if nodeEnv == Some("development") then
        Included(if err.stack.Some? then Some(Split(err.stack.value, '\n')) else None)
      else Omitted;
    ErrorReply(statusCode, statusCode, status, message, stack)
  }

  /** The message of an error that is not an `AppError` never reaches the reply. */
  lemma ForeignMessageNeverExposed(m1: string, m2: string, stack: Option<string>, nodeEnv: Option<string>)
    ensures GlobalErrorHandler(Other(m1, stack), nodeEnv) == GlobalErrorHandler(Other(m2, stack), nodeEnv)
  {
  }

  /** In development the stack is sent line by line, and its lines joined back give the whole stack. */
  lemma StackLinesRoundTrip(err: Thrown)
    requires err.stack.Some?
    ensures GlobalErrorHandler(err, Some("development")).stack.Included?
    ensures Join(GlobalErrorHandler(err, Some("development")).stack.lines.value, '\n') == err.stack.value
  {
    JoinSplit(err.stack.value, '\n');
  }
}

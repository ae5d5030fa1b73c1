/** middleware/errorHandlers.js as wired by app.ts: an unmatched route answers
    404 "Invalid url"; an error passed on by a controller goes through
    psqlErrors, then customErrors, then serverError, and the first handler
    that sends a response decides it (the later sends are not modelled). */
module ErrorHandlers {
  import opened Outcomes

  /** What `res.send` is given: a `{msg}` object, or plain text. */
  datatype Body = MsgBody(msg: string) | TextBody(text: string)

  datatype Response = Response(status: int, body: Body)

  /** The four SQLSTATE codes psqlErrors answers. */
  predicate IsMappedCode(code: string)
  {
    code == NotNullViolation || code == InvalidTextRepresentation
    || code == ForeignKeyViolation || code == UniqueViolation
  }

  /** `psqlErrors`: a response for the four codes it knows, otherwise none. */
  function PsqlErrors(e: AppError): (r: Option<Response>)
    ensures r.Some? <==> IsMappedCode(e.code)
  {
    if e.code == NotNullViolation || e.code == InvalidTextRepresentation then
      Some(Response(400, MsgBody("Bad request")))
    else if e.code == ForeignKeyViolation then
      Some(Response(404, MsgBody("Not found")))
    else if e.code == UniqueViolation then
      Some(Response(404, MsgBody("Value already exists")))
    else
      None
  }

  /** `customErrors`: an error carrying a truthy status and msg is answered
      with exactly those. */
  function CustomErrors(e: AppError): (r: Option<Response>)
    ensures r.Some? <==> e.status != 0 && e.msg != ""
    ensures r.Some? ==> r.value.status == e.status && r.value.body == MsgBody(e.msg)
  {
    if e.status != 0 && e.msg != "" then Some(Response(e.status, MsgBody(e.msg))) else None
  }

  /** `serverError`: the last handler answers everything with 500. */
  function ServerError(e: AppError): Response
  {
    Response(500, TextBody("Server Error!"))
  }

  /** `invalidRoute`, registered with `app.all("*")` after the API router. */
  function InvalidRoute(): (r: Response)
    ensures r.status == 404 && r.body == MsgBody("Invalid url")
  {
    Response(404, MsgBody("Invalid url"))
  }

  /** The response the client receives for an error: the first handler, in
      the order app.ts registers them, that sends one. */
  function Respond(e: AppError): (r: Response)
    ensures e.code == NotNullViolation || e.code == InvalidTextRepresentation ==>
      r == Response(400, MsgBody("Bad request"))
    ensures e.code == ForeignKeyViolation ==> r == Response(404, MsgBody("Not found"))
    ensures e.code == UniqueViolation ==> r == Response(404, MsgBody("Value already exists"))
    ensures !IsMappedCode(e.code) && e.status != 0 && e.msg != "" ==>
      r == Response(e.status, MsgBody(e.msg))
    ensures !IsMappedCode(e.code) && (e.status == 0 || e.msg == "") ==>
      r == Response(500, TextBody("Server Error!"))
  {
    match PsqlErrors(e)
    case Some(r) => r
    case None =>
      match CustomErrors(e)
      case Some(r) => r
      case None => ServerError(e)
  }

  /** A recognised SQLSTATE decides the response before customErrors looks
      at the error: status and msg make no difference. */
  lemma CodeDecidesFirst(e1: AppError, e2: AppError)
    requires e1.code == e2.code && IsMappedCode(e1.code)
    ensures Respond(e1) == Respond(e2)
  {
  }

  /** A rejection the models build reaches the client as it was built. */
  lemma RejectionReachesClient(status: int, msg: string)
    requires status != 0 && msg != ""
    ensures Respond(Rejection(status, msg)) == Response(status, MsgBody(msg))
  {
  }

  /** A database error with a code psqlErrors does not know is a 500. */
  lemma UnmappedDbErrorIsServerError(code: string)
    requires !IsMappedCode(code)
    ensures Respond(DbError(code)) == Response(500, TextBody("Server Error!"))
  {
  }
}

/** The JSON envelope every auth endpoint answers with:
    `{success, message, [token], [user], [errors]}` and its status code. */
module Http {
  import opened Wrappers
  import opened Payload
  import opened Users

  datatype Reply = Reply(
    status: int,
    success: bool,
    message: Option<string>,
    token: Option<string>,
    user: Option<PublicUser>,
    errors: seq<FieldError>)

  /** `res.status(status).json({success: false, message})`. */
  function Failure(status: int, message: string): Reply
  {
    Reply(status, false, Some(message), None, None, [])
  }

  /** What a middleware does with a request: pass it to the next handler,
      or answer it. */
  datatype Outcome = Next | Respond(reply: Reply)
}

/** The HTTP status codes the handlers write, and a handler's reply. */
module Http {
  import opened Wrappers

  const OK: nat := 200
  const BadRequest: nat := 400
  const Unauthorized: nat := 401
  const Forbidden: nat := 403
  const NotFound: nat := 404
  const Conflict: nat := 409
  const InternalServerError: nat := 500

  /** A reply: its status code and, when the handler encodes one, a body. */
  datatype Reply<T> = Reply(status: nat, body: Option<T>)
}

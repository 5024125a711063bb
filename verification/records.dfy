/** Rows of the `disruption-report` table as the handlers see them, the
    outcomes of the database calls the handlers make, and their HTTP replies.
    Every column may be missing in a stored row; the model keeps that
    possibility because the handlers react to it. */
module Records {
  import opened Base

  /** A row as read with `select('*')`. `route` and `type` are legacy column
      names some rows may still carry. `created_at` is kept as text. */
  datatype Row = Row(
    id: Option<string>,
    createdAt: Option<string>,
    routeNumber: Option<string>,
    route: Option<string>,
    location: Option<string>,
    severity: Option<string>,
    description: Option<string>,
    disruption: Option<string>,
    kind: Option<string>,
    userId: Option<string>)

  /** The outcome of a database call: the data, or the error object the
      client library returned (its `code` and `message`). */
  datatype DbResult<T> = Ok(data: T) | DbError(code: string, message: string)

  /** The body of a JSON reply. */
  datatype Body<T> = Message(message: string, data: T) | Error(error: string)

  /** An HTTP reply: a status and a body. */
  datatype Reply<T> = Reply(status: nat, body: Body<T>)
}

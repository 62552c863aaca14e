/** The outcome of a request handler: its result, or the status and message of the error it throws. */
module Http {
  datatype Outcome<+T> = Done(value: T) | Failed(status: nat, message: string)

  const BadRequest: nat := 400
  const Forbidden: nat := 403
  const NotFound: nat := 404
}

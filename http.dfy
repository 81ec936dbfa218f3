/** What an Express handler answers: a status code with a JSON payload, or an error body. */
module Http {
  /** `res.status(status).json(payload)`, or `res.status(status).json({ error, message })`. */
  datatype Reply<T> = Success(status: nat, payload: T) | Failure(status: nat, error: string, message: string)
}

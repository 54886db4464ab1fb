/** What a route answers: a status with the JSON it returns, or a status with an error code. */
module Http {
  datatype Reply<T> = Success(status: int, value: T) | Failure(status: int, code: string)
}

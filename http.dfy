/** The shape of the replies both Express servers send: a status code and a JSON body
    that is either the payload, an `{ error }` object or a `{ message }` object. */
module Http {

  const OK: int := 200
  const CREATED: int := 201
  const BAD_REQUEST: int := 400
  const NOT_FOUND: int := 404

  datatype Body<T> = Value(value: T) | Error(error: string) | Message(message: string)

  datatype Response<T> = Response(status: int, body: Body<T>)
}

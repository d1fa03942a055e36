/** The pieces of an HTTP exchange that the handlers and middleware produce. */
module Http {
  import opened Wrappers

  /** A thrown JavaScript error: its `name` and its `message`. */
  datatype Error = Error(name: string, message: string)

  /** A response body: `{ error: ... }`, a JSON value, or nothing (`response.end()`). */
  datatype Body<T> = ErrorBody(error: string) | JsonBody(value: T) | NoBody

  /** A response: its status code and its body. */
  datatype Response<T> = Response(status: int, body: Body<T>)

  /** JavaScript truthiness of an optional string: absent and "" are falsy. */
  predicate Truthy(s: Option<string>) {
    s.Some? && s.value != ""
  }
}

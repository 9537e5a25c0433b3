/** Failure-compatible value types shared by every module of the model. */
module Wrappers {

  /** A value that may be absent: a JSON field left out (or null), a missing document. */
  datatype Option<+T> = None | Some(value: T)

  /** The outcome of a schema validation: the cast document, or the validation message. */
  datatype Result<+T> = Ok(value: T) | Err(message: string)

  /**
   * JavaScript truthiness of an optional string: `undefined`, `null` and `""` are falsy.
   * Every `if (!x)` guard of the route handlers is the negation of this.
   */
  predicate Truthy(s: Option<string>)
  {
    s.Some? && s.value != ""
  }
}

/** What a route handler sends back: an HTTP status with a payload or an error message. */
module Http {

  const OK: nat := 200
  const CREATED: nat := 201
  const BAD_REQUEST: nat := 400
  const UNAUTHORIZED: nat := 401
  const FORBIDDEN: nat := 403
  const NOT_FOUND: nat := 404
  const SERVER_ERROR: nat := 500

  /**
   * `Done` is a response whose body carries the handler's value (`success: true` where the
   * handler sends that flag); `Refused` carries only an error message.
   */
  datatype Reply<+T> = Done(status: nat, value: T) | Refused(status: nat, message: string)
}

/** Values shared by the route handlers: optional values, request bodies,
    the `errors` objects the handlers answer with, and what a validator returns. */
module Common {

  datatype Option<+T> = None | Some(value: T)

  /** A parsed request body: the string-valued fields a client sent with the request. */
  type Body = map<string, string>

  /** An `errors` object: field name to message. */
  type ErrorMap = map<string, string>

  /** What a `validateXInput(req.body)` call returns: `{errors, isValid}`. */
  datatype Validation = Validation(errors: ErrorMap, isValid: bool)

  /** JavaScript truthiness of `body[key]` for a string field: present and not empty. */
  predicate Truthy(body: Body, key: string)
  {
    key in body && body[key] != ""
  }

  /** `body[key]`, which is `undefined` when the field is absent. */
  function Get(body: Body, key: string): Option<string>
  {
    if key in body then Some(body[key]) else None
  }
}

/** The request/response shim shared by the handlers, reduced to a status
    code and an abstract body, and JavaScript's truthiness of query values. */
module Http {
  import opened Wrappers

  datatype Response<B> = Response(status: nat, body: B)

  /** The exception a handler throws; only `TypeError` arises in the core. */
  datatype Exception = TypeError

  /** `if (s)` on an optional query string: `undefined` and `""` are falsy. */
  predicate Truthy(s: Option<string>) {
    s.Some? && s.value != ""
  }
}

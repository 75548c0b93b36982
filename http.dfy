/** The part of an HTTP response the application looks at: the status code
    and the `message` (on success) or `error` (on failure) text of the JSON body. */
module Http {

  datatype Reply = Reply(status: int, message: string)

  /** `response.ok`. */
  predicate Ok(r: Reply) {
    200 <= r.status < 300
  }
}

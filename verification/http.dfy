/**
 * A provider call's outcome as the providers see it: the request failed (the
 * fetch rejected), or a reply arrived with a status and a body that decoded to
 * the expected shape or did not.
 */
module Http {
  import opened Wrappers

  datatype Response<T> = Failed | Reply(status: int, body: Option<T>)

  /** `response.ok`: a status in 200-299. */
  predicate IsOk(status: int) {
    200 <= status <= 299
  }
}

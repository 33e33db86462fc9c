/**
 * What a store sees of a call to the back end: the response data, or a
 * rejection carrying the server's JSON `error` field (absent when the
 * request never got a response) and the transport's own message.
 */
module ApiResults {
  import opened Wrappers

  datatype ApiError = ApiError(serverError: Option<string>, message: string)

  datatype ApiResult<T> = Ok(data: T) | Failed(err: ApiError)

  /** `err.response?.data?.error || fallback`: the server's message unless
      it is missing or empty, which JavaScript treats as false. */
  function ErrorMessage(e: ApiError, fallback: string): (m: string)
    ensures e.serverError.Some? && e.serverError.value != "" ==> m == e.serverError.value
    ensures e.serverError.None? || e.serverError.value == "" ==> m == fallback
    ensures fallback != "" ==> m != ""
  {
    match e.serverError
    case Some(s) => if s != "" then s else fallback
    case None => fallback
  }
}

/**
  Outcomes shared by the backend and the frontend: an optional value, the
  result of a backend operation (a value or an HTTP error the endpoint raises),
  and the outcome of a request the frontend sends with axios.
*/
module Outcome {

  datatype Option<T> = None | Some(value: T)

  /** A backend operation either produces a value or raises an HTTPException
      with a status code and a detail message. */
  datatype Result<T> = Ok(value: T) | Err(status: int, detail: string)

  /** What an awaited API call gives a frontend handler: the response body, or a
      rejection whose `response.data.detail` may be present. */
  datatype Response<T> = Success(data: T) | Failure(detail: Option<string>)

  /** `err.response?.data?.detail || fallback`: a missing or empty detail falls
      back to the handler's own message. */
  function FailureMessage(detail: Option<string>, fallback: string): (m: string)
    ensures detail.Some? && detail.value != "" ==> m == detail.value
    ensures (detail.None? || detail.value == "") ==> m == fallback
  {
    if detail.Some? && detail.value != "" then detail.value else fallback
  }
}

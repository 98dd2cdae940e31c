/** The uniform response envelope (`ApiResponse`) and what a controller does with a request:
    send an HTTP response carrying an envelope, or throw an `ApiError` that the framework's
    error handler turns into a response with that status. */
module ApiResponses {
  import opened Js

  /** `{statusCode, data, message, success}` as built by `new ApiResponse(...)`. */
  datatype ApiResponse<T> = ApiResponse(statusCode: int, data: T, message: string, success: bool)

  /** `new ApiResponse(statusCode, data, message)`; `message` is None when the argument is
      omitted (JavaScript's default applies only then, not to an empty string). */
  function NewApiResponse<T>(statusCode: int, data: T, message: Option<string>): (r: ApiResponse<T>)
    ensures r.success <==> statusCode < 400
    ensures r.statusCode == statusCode && r.data == data
    ensures message.None? ==> r.message == "Success"
    ensures message.Some? ==> r.message == message.value
  {
    ApiResponse(statusCode, data, if message.Some? then message.value else "Success", statusCode < 400)
  }

  /** Cookie headers set or cleared on a response (all are `httpOnly` and `secure`). */
  datatype Cookie = SetCookie(name: string, value: string) | ClearCookie(name: string)

  /** The outcome of a request handler: a response sent with an HTTP status, cookies and an
      envelope, or an `ApiError` with a status code thrown to the error handler. */
  datatype Reply<T> =
    | Sent(httpStatus: int, cookies: seq<Cookie>, body: ApiResponse<T>)
    | Thrown(statusCode: int)

  /** `res.status(httpStatus).json(new ApiResponse(envelopeStatus, data, message))` with no cookies. */
  function Json<T>(httpStatus: int, envelopeStatus: int, data: T, message: string): Reply<T> {
    Sent(httpStatus, [], NewApiResponse(envelopeStatus, data, Some(message)))
  }

  /** A request handler's effect on one collection of the store, together with its reply. */
  datatype Outcome<S, T> = Outcome(state: S, reply: Reply<T>)
}

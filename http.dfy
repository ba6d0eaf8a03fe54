/**
 * What the handlers hand back to the gateway, with JSON and message text
 * abstracted: a status code, a body that is either an error (its code and
 * the request detail its message mentions) or a `ResultSet`, and headers.
 */
module Http {
  import opened Wrappers

  /** `ErrorHandler`: an error code and the part of the request it is about. */
  datatype ErrorHandler = ErrorHandler(code: string, area: Option<string>)

  datatype Body<T> =
    | ErrorBody(code: string, detail: Option<string>)
    | ResultSet(apiVersion: string, result: T)

  datatype Response<T> = Response(statusCode: int, body: Body<T>, headers: map<string, string>)

  /** A handler either answers or throws (the gateway then reports a failure). */
  datatype Outcome<T> = Responded(response: Response<T>) | Raised

  const ApiVersion := "0.0.1"
  const UnhandledError := "unhandledError"
  const ProvidedVideoIdIsNotFound := "ProvidedVideoIdIsNotFound"

  /** An error response as a `makeErrorResponse` builds it: no headers. */
  function Error<T>(statusCode: int, code: string, detail: Option<string>): Response<T> {
    Response(statusCode, ErrorBody(code, detail), map[])
  }

  /** The response of the `default:` branch of every `makeErrorResponse`. */
  function Unhandled<T>(): Response<T> {
    Error(500, UnhandledError, None)
  }

  /** A successful response: status 200 and the current API version. */
  function Ok<T>(result: T): Response<T> {
    Response(200, ResultSet(ApiVersion, result), map[])
  }
}

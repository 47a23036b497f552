/** The exceptions a page load can raise, as far as the core tells them apart. */
module Exceptions {
  import opened Wrappers

  /** Retrofit's `Response`: its status code and its error body, when there is one. */
  datatype HttpResponse = HttpResponse(code: int, errorBody: Option<string>)

  /** A Retrofit `HttpException` (its `response()` may be absent), a `java.io.IOException`,
      or any other exception. Only the HTTP case carries what the core reads. */
  datatype Exception =
    | HttpException(response: Option<HttpResponse>)
    | IOException
    | OtherException
}

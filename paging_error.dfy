/**
 * The user-visible message for a failed page load
 * (`getPagingError`, `errorMessage` and `convertErrorBody` in
 * presentation/newslist/NewsListScreen.kt). Gson is a parameter: a function
 * from an error body to the parsed `ErrorResponse`, absent when Gson throws
 * a `JsonParseException` or yields null (an empty body).
 */
module PagingErrors {
  import opened Wrappers
  import opened Exceptions

  const NETWORK_ERROR: string := "Network error"
  const UNKNOWN_ERROR: string := "Unknown error"

  /** The API's error payload. Gson fills fields by reflection, so a field missing from the
      JSON is null at run time even though Kotlin declares it non-null. */
  datatype ErrorResponse = ErrorResponse(status: Option<string>, code: Option<string>, message: Option<string>)

  /** The message the server sent, when there is a response with an error body that
      parses and carries a message. */
  function ServerMessage(response: Option<HttpResponse>, parse: string -> Option<ErrorResponse>): Option<string> {
    if response.Some? && response.value.errorBody.Some?
       && parse(response.value.errorBody.value).Some?
    then parse(response.value.errorBody.value).value.message
    else None
  }

  /** `convertErrorBody<ErrorResponse>(e)`: `response()?.errorBody()?` parsed, null on a
      missing response, a missing body or a parse failure. */
  function ConvertErrorBody(response: Option<HttpResponse>, parse: string -> Option<ErrorResponse>): (r: Option<ErrorResponse>)
    ensures response.None? ==> r.None?
    ensures response.Some? && response.value.errorBody.None? ==> r.None?
    ensures response.Some? && response.value.errorBody.Some? ==> r == parse(response.value.errorBody.value)
  {
    match response
    case None => None
    case Some(resp) =>
      match resp.errorBody
      case None => None
      case Some(body) => parse(body)
  }

  /** `errorMessage(e)`: the parsed message, else "Unknown error". */
  function ErrorMessage(response: Option<HttpResponse>, parse: string -> Option<ErrorResponse>): (r: string)
    ensures ServerMessage(response, parse).Some? ==> r == ServerMessage(response, parse).value
    ensures ServerMessage(response, parse).None? ==> r == UNKNOWN_ERROR
  {
    var errorResponse := ConvertErrorBody(response, parse);
    if errorResponse.Some? && errorResponse.value.message.Some? then errorResponse.value.message.value
    else UNKNOWN_ERROR
  }

  /** `LoadState.Error.getPagingError()`: HTTP errors show the server's message, I/O errors
      a network message, anything else the unknown-error message. */
  function GetPagingError(error: Exception, parse: string -> Option<ErrorResponse>): (r: string)
    ensures error.IOException? ==> r == NETWORK_ERROR
    ensures error.OtherException? ==> r == UNKNOWN_ERROR
    ensures error.HttpException? && ServerMessage(error.response, parse).Some? ==>
      r == ServerMessage(error.response, parse).value
    ensures error.HttpException? && ServerMessage(error.response, parse).None? ==> r == UNKNOWN_ERROR
    // the message is empty only when the server itself sent an empty message
    ensures r == "" <==> error.HttpException? && ServerMessage(error.response, parse) == Some("")
  {
    match error
    case HttpException(response) => ErrorMessage(response, parse)
    case IOException => NETWORK_ERROR
    case OtherException => UNKNOWN_ERROR
  }

  /** A 401 response whose body parses to an `apiKeyInvalid` payload shows that payload's
      message. */
  lemma InvalidApiKeyMessage(body: string, parse: string -> Option<ErrorResponse>)
    requires parse(body) == Some(ErrorResponse(Some("error"), Some("apiKeyInvalid"), Some("Your API key is invalid")))
    ensures GetPagingError(HttpException(Some(HttpResponse(401, Some(body)))), parse) == "Your API key is invalid"
  {
  }
}

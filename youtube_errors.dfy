/**
 * `extractYouTubeAPIError`: turn whatever the YouTube client threw into a
 * message, an HTTP status code and the API's own error object, falling back
 * field by field with JavaScript's `||`.
 */
module YouTubeErrors {
  import opened Wrappers

  /** One entry of `error.errors`, `{ reason? }`. */
  datatype ErrorReason = ErrorReason(reason: Option<string>)

  /** The API's error object, `response.data.error`: `{ message?, errors?, code? }`. */
  datatype ApiErrorData = ApiErrorData(message: Option<string>, errors: Option<seq<ErrorReason>>, code: Option<int>)

  /** `response.data`. */
  datatype ResponseData = ResponseData(error: Option<ApiErrorData>)

  /** `response`: `{ data?, status? }`. */
  datatype ErrorResponse = ErrorResponse(data: Option<ResponseData>, status: Option<int>)

  /** What the client threw, read as `{ response?, message? }`. */
  datatype ThrownError = ThrownError(response: Option<ErrorResponse>, message: Option<string>)

  /** The result, `{ message, statusCode, details }`; `details` is undefined when `None`. */
  datatype ExtractedError = ExtractedError(message: string, statusCode: int, details: Option<ApiErrorData>)

  const DefaultMessage := "An error occurred with the YouTube API"
  const DefaultStatus := 500

  /** A string is truthy when it is present and not empty. */
  predicate TruthyString(s: Option<string>) {
    s.Some? && s.value != ""
  }

  /** A number is truthy when it is present and not zero. */
  predicate TruthyNumber(n: Option<int>) {
    n.Some? && n.value != 0
  }

  /** `errorObj.response?.data?.error`, when present. */
  function ErrorData(error: ThrownError): (r: Option<ApiErrorData>)
    ensures r.Some? <==> error.response.Some? && error.response.value.data.Some? && error.response.value.data.value.error.Some?
  {
    match error.response
    case None => None
    case Some(response) =>
      match response.data
      case None => None
      case Some(data) => data.error
  }

  /** `a || b` on optional strings. */
  function OrString(a: Option<string>, b: string): (r: string)
    ensures TruthyString(a) ==> r == a.value
    ensures !TruthyString(a) ==> r == b
  {
    if TruthyString(a) then a.value else b
  }

  /** `a || b` on optional numbers. */
  function OrNumber(a: Option<int>, b: int): (r: int)
    ensures TruthyNumber(a) ==> r == a.value
    ensures !TruthyNumber(a) ==> r == b
  {
    if TruthyNumber(a) then a.value else b
  }

  /**
   * `extractYouTubeAPIError`.  The message is never empty and the status code
   * never 0.  With an API error object: its message if non-empty, else the
   * default; its code if non-zero, else the response status if non-zero, else
   * 500; and the object itself as `details`.  Without one: the thrown message
   * if non-empty, else the default; 500; no `details`.
   */
  function ExtractYouTubeAPIError(error: ThrownError): (r: ExtractedError)
    ensures r.message != "" && r.statusCode != 0
    ensures r.details == ErrorData(error)
    ensures r.statusCode == 500
      || (ErrorData(error).Some? && ErrorData(error).value.code == Some(r.statusCode))
      || (error.response.Some? && error.response.value.status == Some(r.statusCode))
    ensures ErrorData(error).Some? ==>
      var errData := ErrorData(error).value;
      && (TruthyString(errData.message) ==> r.message == errData.message.value)
      && (!TruthyString(errData.message) ==> r.message == DefaultMessage)
      && (TruthyNumber(errData.code) ==> r.statusCode == errData.code.value)
      && (!TruthyNumber(errData.code) && TruthyNumber(error.response.value.status) ==>
            r.statusCode == error.response.value.status.value)
      && (!TruthyNumber(errData.code) && !TruthyNumber(error.response.value.status) ==> r.statusCode == 500)
    ensures ErrorData(error).None? ==>
      && (TruthyString(error.message) ==> r.message == error.message.value)
      && (!TruthyString(error.message) ==> r.message == DefaultMessage)
      && r.statusCode == 500
  {
    var message := DefaultMessage;
    var statusCode := DefaultStatus;
    match ErrorData(error)
    case Some(errData) =>
      var response := error.response.value;
      ExtractedError(OrString(errData.message, message),
                     OrNumber(errData.code, OrNumber(response.status, DefaultStatus)),
                     Some(errData))
    case None =>
      ExtractedError(OrString(error.message, message), statusCode, None)
  }
}

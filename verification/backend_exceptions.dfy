/**
 * The backend's HTTP exceptions and the two handlers that turn an exception
 * into a JSON response.
 */
module HttpErrors {
  import opened JsonValue

  /** Status codes of section 15.5 of RFC 9110. */
  const BadRequestStatus: int := 400
  const NotFoundStatus: int := 404
  const InternalServerErrorStatus: int := 500

  /** A raised HTTP exception: its status code and its detail. */
  datatype HttpException = HttpException(statusCode: int, detail: string)

  /** A JSON response: status code and body. */
  datatype Response = Response(status: int, body: Json)

  /** The base HTTP error: any status code; the detail defaults to "An error occurred". */
  function BaseHttpError(statusCode: int, detail: string := "An error occurred"): (e: HttpException)
    ensures e.statusCode == statusCode && e.detail == detail
  {
    HttpException(statusCode, detail)
  }

  /** Not found: status 404; the detail defaults to "Resource not found". */
  function NotFoundError(detail: string := "Resource not found"): (e: HttpException)
    ensures e.statusCode == 404 && e.detail == detail
  {
    BaseHttpError(NotFoundStatus, detail)
  }

  /** Bad request: status 400; the detail defaults to "Bad request". */
  function BadRequestError(detail: string := "Bad request"): (e: HttpException)
    ensures e.statusCode == 400 && e.detail == detail
  {
    BaseHttpError(BadRequestStatus, detail)
  }

  lemma DefaultDetails(statusCode: int)
    ensures BaseHttpError(statusCode) == HttpException(statusCode, "An error occurred")
    ensures NotFoundError() == HttpException(404, "Resource not found")
    ensures BadRequestError() == HttpException(400, "Bad request")
  {
  }

  /**
   * `base_error_handler`: the exception's own status, and the bare detail
   * string as the body (not an object with a `detail` key).
   */
  function BaseErrorHandler(exc: HttpException): (r: Response)
    ensures r.status == exc.statusCode
    ensures r.body == JStr(exc.detail)
  {
    Response(exc.statusCode, JStr(exc.detail))
  }

  /** `internal_exception_handler`: status 500 and an object with the code 500 and the exception's text. */
  function InternalExceptionHandler(excText: string): (r: Response)
    ensures r.status == 500
    ensures r.body.JObj? && r.body.fields.Keys == {"code", "err"}
    ensures r.body.fields["code"] == JNum(500) && r.body.fields["err"] == JStr(excText)
  {
    Response(InternalServerErrorStatus, JObj(map["code" := JNum(500), "err" := JStr(excText)]))
  }
}

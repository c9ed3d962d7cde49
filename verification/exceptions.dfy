/** The API error envelope (backend/apps/core/api/exceptions.py): every error response DRF
    builds is rewritten to `{"code", "detail", "field_errors"}`. */
module Exceptions {

  import opened Wrappers
  import opened Json

  /** The exception being handled: whether it is a DRF `ValidationError`, and its
      `default_code` attribute when it has one. */
  datatype Raised = Raised(isValidation: bool, defaultCode: Option<string>)

  /** A response of DRF's own handler. */
  datatype ApiResponse = ApiResponse(status: int, data: Json)

  const ValidationCode: string := "validation_error"
  const ValidationDetail: string := "Request validation failed."

  /** The codes fixed by status. */
  const StatusCodes: set<string> := {"internal_error", "authentication_failed", "permission_denied", "not_found"}

  /** The code of a non-validation error: by status for 5xx, 401, 403 and 404, otherwise the
      exception's default code or "api_error". */
  function ErrorCode(raised: Raised, status: int): (code: string)
    ensures status >= 500 ==> code == "internal_error"
    ensures status == 401 ==> code == "authentication_failed"
    ensures status == 403 ==> code == "permission_denied"
    ensures status == 404 ==> code == "not_found"
    ensures status < 500 && status !in {401, 403, 404} ==>
              code == (if raised.defaultCode.Some? then raised.defaultCode.value else "api_error")
    ensures code in StatusCodes || code == raised.defaultCode.GetOr("api_error")
  {
    if status >= 500 then "internal_error"
    else if status == 401 then "authentication_failed"
    else if status == 403 then "permission_denied"
    else if status == 404 then "not_found"
    else raised.defaultCode.GetOr("api_error")
  }

  function Envelope(code: string, detail: string, fieldErrors: Json): Json {
    JObj(map["code" := JStr(code), "detail" := JStr(detail), "field_errors" := fieldErrors])
  }

  /** `cookops_exception_handler`: nothing for an exception DRF does not handle; a validation
      error keeps DRF's data as its field errors; any other error gets a code and DRF's
      `detail` (or the whole data when it is not an object) as text. The status is kept. */
  function HandleException(show: Json -> string, raised: Raised, response: Option<ApiResponse>): (r: Option<ApiResponse>)
    ensures r.None? <==> response.None?
    ensures r.Some? ==> r.value.status == response.value.status
    ensures r.Some? ==> r.value.data.JObj? && r.value.data.fields.Keys == {"code", "detail", "field_errors"}
    ensures r.Some? && raised.isValidation ==>
              && Get(r.value.data, "code") == JStr(ValidationCode)
              && Get(r.value.data, "detail") == JStr(ValidationDetail)
              && Get(r.value.data, "field_errors") == response.value.data
    ensures r.Some? && !raised.isValidation ==>
              && Get(r.value.data, "field_errors") == EmptyObject
              && Get(r.value.data, "detail").JStr?
              && Get(r.value.data, "code") == JStr(ErrorCode(raised, response.value.status))
  {
    match response
    case None => None
    case Some(ApiResponse(status, data)) =>
      if raised.isValidation then Some(ApiResponse(status, Envelope(ValidationCode, ValidationDetail, data)))
      else
        var detail := if data.JObj? then Get(data, "detail") else data;
        Some(ApiResponse(status, Envelope(ErrorCode(raised, status), Str(detail, show), EmptyObject)))
  }

  /** The detail text of a non-validation error: the object's `detail` key (the text "None"
      when it is missing), or the whole data otherwise. */
  lemma ErrorDetail(show: Json -> string, raised: Raised, status: int, data: Json)
    requires !raised.isValidation
    ensures var r := HandleException(show, raised, Some(ApiResponse(status, data))).value;
            data.JObj? && "detail" in data.fields && data.fields["detail"].JStr? ==>
              Get(r.data, "detail") == data.fields["detail"]
    ensures var r := HandleException(show, raised, Some(ApiResponse(status, data))).value;
            data.JObj? && "detail" !in data.fields ==> Get(r.data, "detail") == JStr("None")
    ensures var r := HandleException(show, raised, Some(ApiResponse(status, data))).value;
            data.JStr? ==> Get(r.data, "detail") == data
  {
  }

  /** For a server error, 401, 403 or 404 the code depends on the status alone, whatever the
      exception's own default code. */
  lemma StatusDecidesCode(a: Raised, b: Raised, status: int)
    requires status >= 500 || status in {401, 403, 404}
    ensures ErrorCode(a, status) == ErrorCode(b, status) && ErrorCode(a, status) in StatusCodes
  {
  }

  /** Reading the code back: a status-fixed code that is not also the exception's own default
      code tells the status class it came from, and any other code is the exception's default. */
  lemma CodeRevealsStatus(raised: Raised, status: int)
    ensures var code := ErrorCode(raised, status);
            code != raised.defaultCode.GetOr("api_error") ==>
              && (code == "internal_error" <==> status >= 500)
              && (code == "authentication_failed" <==> status == 401)
              && (code == "permission_denied" <==> status == 403)
              && (code == "not_found" <==> status == 404)
    ensures ErrorCode(raised, status) !in StatusCodes ==>
              status < 500 && status !in {401, 403, 404} &&
              ErrorCode(raised, status) == raised.defaultCode.GetOr("api_error")
  {
  }

  /** Every envelope has one of the known codes, or the exception's default code. */
  lemma EnvelopeCodes(show: Json -> string, raised: Raised, response: ApiResponse)
    ensures var r := HandleException(show, raised, Some(response)).value;
            Get(r.data, "code") in {JStr(ValidationCode), JStr(raised.defaultCode.GetOr("api_error"))}
                                   + set c | c in StatusCodes :: JStr(c)
  {
    var r := HandleException(show, raised, Some(response)).value;
    if !raised.isValidation {
      var c := ErrorCode(raised, response.status);
      if c in StatusCodes {
        assert JStr(c) in set c | c in StatusCodes :: JStr(c);
      }
    }
  }
}

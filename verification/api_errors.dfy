/** The structured error replies of the REST API (backend/internal/api/errors.go). */
module ApiErrors {

  /** What the request context holds under `"correlation_id"`: nothing, a
      string, or a value of some other type. */
  datatype CtxValue = Absent | StringVal(s: string) | OtherVal

  /** The `error` object of the reply. An empty `details` or `requestId`
      is omitted from the JSON. */
  datatype ApiError = ApiError(code: int, message: string, details: string, requestId: string, timestamp: string)

  /** The whole reply: the HTTP status and the body `{success, error}`. */
  datatype ErrorBody = ErrorBody(status: int, success: bool, error: ApiError)

  /** `ErrorResponse`; `now` is the RFC 3339 UTC timestamp of the call. */
  function ErrorResponse(correlation: CtxValue, status: int, message: string, details: seq<string>, now: string): (r: ErrorBody)
    ensures r.status == status && r.error.code == status && !r.success
    ensures r.error.message == message && r.error.timestamp == now
    ensures correlation.StringVal? ==> r.error.requestId == correlation.s
    ensures !correlation.StringVal? ==> r.error.requestId == ""
    ensures |details| > 0 ==> r.error.details == details[0]
    ensures |details| == 0 ==> r.error.details == ""
  {
    var requestId := if correlation.StringVal? then correlation.s else "";
    var detail := if |details| > 0 then details[0] else "";
    ErrorBody(status, false, ApiError(status, message, detail, requestId, now))
  }

  function BadRequest(correlation: CtxValue, message: string, details: seq<string>, now: string): (r: ErrorBody)
    ensures r.status == 400 && r == ErrorResponse(correlation, 400, message, details, now)
  {
    ErrorResponse(correlation, 400, message, details, now)
  }

  function Unauthorized(correlation: CtxValue, message: string, now: string): (r: ErrorBody)
    ensures r.status == 401 && r.error.details == ""
    ensures r == ErrorResponse(correlation, 401, message, [], now)
  {
    ErrorResponse(correlation, 401, message, [], now)
  }

  function Forbidden(correlation: CtxValue, message: string, now: string): (r: ErrorBody)
    ensures r.status == 403 && r.error.details == ""
    ensures r == ErrorResponse(correlation, 403, message, [], now)
  {
    ErrorResponse(correlation, 403, message, [], now)
  }

  function NotFound(correlation: CtxValue, message: string, now: string): (r: ErrorBody)
    ensures r.status == 404 && r.error.details == ""
    ensures r == ErrorResponse(correlation, 404, message, [], now)
  {
    ErrorResponse(correlation, 404, message, [], now)
  }

  function InternalServerError(correlation: CtxValue, message: string, details: seq<string>, now: string): (r: ErrorBody)
    ensures r.status == 500 && r == ErrorResponse(correlation, 500, message, details, now)
  {
    ErrorResponse(correlation, 500, message, details, now)
  }

  /** Only the first detail reaches the reply; the rest are dropped. */
  lemma ExtraDetailsDropped(correlation: CtxValue, status: int, message: string, first: string, rest: seq<string>, now: string)
    ensures ErrorResponse(correlation, status, message, [first] + rest, now)
         == ErrorResponse(correlation, status, message, [first], now)
  {
  }

  /** A correlation value that is not a string leaves the request ID empty,
      exactly as if there were none. */
  lemma NonStringCorrelationIgnored(status: int, message: string, details: seq<string>, now: string)
    ensures ErrorResponse(OtherVal, status, message, details, now)
         == ErrorResponse(Absent, status, message, details, now)
  {
  }

  /** The five helpers answer with five distinct error statuses, so the
      status alone tells a client which one replied. */
  lemma HelperStatusesDistinct(c: CtxValue, m: string, d: seq<string>, now: string)
    ensures var s := [BadRequest(c, m, d, now).status, Unauthorized(c, m, now).status,
                      Forbidden(c, m, now).status, NotFound(c, m, now).status,
                      InternalServerError(c, m, d, now).status];
            && (forall i, j :: 0 <= i < j < |s| ==> s[i] != s[j])
            && (forall i :: 0 <= i < |s| ==> 400 <= s[i] <= 599)
  {
  }
}

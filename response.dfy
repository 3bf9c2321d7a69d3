// The JSON envelope of the Go API (`APIResponse`) and the table that turns
// an error code into an HTTP status. The timestamp is the caller's clock
// reading, already formatted.
module Response {
  import opened Wrappers

  /** `APIError`: a machine-readable code and a message. */
  datatype ApiError = ApiError(code: string, message: string)

  /** `APIResponse`: the success flag, the payload or the error, and the time it was made. */
  datatype ApiResponse<T> = ApiResponse(success: bool, data: Option<T>, error: Option<ApiError>, timestamp: string)
  {
    /** A response either succeeded without an error, or failed with one. */
    predicate WellFormed()
    {
      success <==> error.None?
    }
  }

  /** `NewSuccessResponse`. */
  function NewSuccessResponse<T>(data: T, now: string): (r: ApiResponse<T>)
    ensures r.WellFormed() && r.success
    ensures r.data == Some(data) && r.timestamp == now
  {
    ApiResponse(true, Some(data), None, now)
  }

  /** `NewErrorResponse`. */
  function NewErrorResponse<T>(code: string, message: string, now: string): (r: ApiResponse<T>)
    ensures r.WellFormed() && !r.success
    ensures r.error == Some(ApiError(code, message)) && r.data.None? && r.timestamp == now
  {
    ApiResponse(false, None, Some(ApiError(code, message)), now)
  }

  /** The codes the status table names. */
  const MappedCodes: set<string> :=
    {"BAD_REQUEST", "FORBIDDEN", "NOT_FOUND", "INVALID_JSONL", "BV_NOT_INSTALLED",
     "BV_TIMEOUT", "BV_ERROR", "BV_INVALID_OUTPUT", "ALREADY_RUNNING"}

  /** `GetErrorStatusCode` as written. */
  function GetErrorStatusCode(code: string): (status: int)
    ensures 400 <= status <= 599
    ensures status == 500 <==> code !in MappedCodes
  {
    match code
    case "BAD_REQUEST" => 400
    case "FORBIDDEN" => 403
    case "NOT_FOUND" => 404
    case "INVALID_JSONL" => 422
    case "BV_NOT_INSTALLED" => 503
    case "BV_TIMEOUT" => 504
    case "BV_ERROR" => 502
    case "BV_INVALID_OUTPUT" => 502
    case "ALREADY_RUNNING" => 409
    case _ => 500
  }

  /** Client errors are exactly the request, permission, lookup and format codes. */
  lemma ClientErrorCodes(code: string)
    ensures GetErrorStatusCode(code) < 500 <==>
              code in {"BAD_REQUEST", "FORBIDDEN", "NOT_FOUND", "INVALID_JSONL", "ALREADY_RUNNING"}
  {
  }

  /**
   * The table the status-code test expects also maps the ralph codes, as the
   * beads-viewer ones are mapped; as written they fall through to 500.
   */
  lemma RalphCodesUnmapped()
    ensures GetErrorStatusCode("RALPH_NOT_INSTALLED") == 500
    ensures GetErrorStatusCode("RALPH_ERROR") == 500
    ensures GetErrorStatusCode("BV_NOT_INSTALLED") == 503 && GetErrorStatusCode("BV_ERROR") == 502
  {
  }

  /** The status table with the ralph codes mapped like their beads-viewer counterparts. */
  function ErrorStatusCode(code: string): (status: int)
    ensures code == "RALPH_NOT_INSTALLED" ==> status == GetErrorStatusCode("BV_NOT_INSTALLED")
    ensures code == "RALPH_ERROR" ==> status == GetErrorStatusCode("BV_ERROR")
    ensures code != "RALPH_NOT_INSTALLED" && code != "RALPH_ERROR" ==> status == GetErrorStatusCode(code)
  {
    match code
    case "RALPH_NOT_INSTALLED" => 503
    case "RALPH_ERROR" => 502
    case _ => GetErrorStatusCode(code)
  }

  /** The corrected table gives every status the test's table lists. */
  lemma ErrorStatusCodeTable()
    ensures ErrorStatusCode("BAD_REQUEST") == 400 && ErrorStatusCode("FORBIDDEN") == 403
    ensures ErrorStatusCode("NOT_FOUND") == 404 && ErrorStatusCode("INVALID_JSONL") == 422
    ensures ErrorStatusCode("BV_NOT_INSTALLED") == 503 && ErrorStatusCode("RALPH_NOT_INSTALLED") == 503
    ensures ErrorStatusCode("BV_TIMEOUT") == 504 && ErrorStatusCode("BV_ERROR") == 502
    ensures ErrorStatusCode("BV_INVALID_OUTPUT") == 502 && ErrorStatusCode("RALPH_ERROR") == 502
    ensures ErrorStatusCode("ALREADY_RUNNING") == 409
    ensures ErrorStatusCode("UNKNOWN_ERROR") == 500 && ErrorStatusCode("") == 500
  {
  }
}

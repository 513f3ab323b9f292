/** The errors the restore tool sees and the retry classifier it hands to the pacer
    (main.go, `shouldRetry`). */
module Errors {
  import opened Wrappers

  /** An error value.
      `Api` is a `*googleapi.Error`: its HTTP status code and the `Reason` of each entry of its
      `Errors` list, in order. `Other` is any error of another dynamic type. `Unretrievable` is
      the error the page fetchers build with `fmt.Errorf("Unable to retrieve files: %v", err)`:
      the `%v` verb keeps the text of the cause but not its type, so it is not an `Api` error. */
  datatype Error =
    | Api(code: int, reasons: seq<string>)
    | Other(text: string)
    | Unretrievable(cause: Error)

  /** A status code of the 5xx class. */
  predicate IsServerError(code: int) {
    500 <= code < 600
  }

  /** A reason the Drive API gives when a caller is being throttled. */
  predicate IsRateLimitReason(reason: string) {
    reason in {"rateLimitExceeded", "userRateLimitExceeded"}
  }

  /** Whether the pacer should try a call again after it returned `err`, together with the
      error itself, which is always handed back unchanged. */
  function ShouldRetry(err: Option<Error>): (r: (bool, Option<Error>))
    ensures r.1 == err
    ensures r.0 ==> err.Some? && err.value.Api?
    ensures err.Some? && err.value.Api? && IsServerError(err.value.code) ==> r.0
    ensures err.Some? && err.value.Api? && !IsServerError(err.value.code) ==>
              (r.0 <==> |err.value.reasons| > 0 && IsRateLimitReason(err.value.reasons[0]))
  {
    match err
    case Some(Api(code, reasons)) =>
      if code >= 500 && code < 600 then
        (true, err)
      else if |reasons| > 0 && (reasons[0] == "rateLimitExceeded" || reasons[0] == "userRateLimitExceeded") then
        (true, err)
      else
        (false, err)
    case _ => (false, err)
  }

  /** Only the first reason of an API error is ever looked at: two errors with the same code
      and the same first reason are classified alike, whatever follows. */
  lemma OnlyFirstReasonInspected(code: int, reasons: seq<string>, others: seq<string>)
    requires |reasons| > 0 && |others| > 0 && reasons[0] == others[0]
    ensures ShouldRetry(Some(Api(code, reasons))).0 == ShouldRetry(Some(Api(code, others))).0
  {
  }
}

/**
 * Error handling shared by the setup scripts (shared/error-utils.js): telling
 * Google API rate and quota errors apart from other failures, turning any
 * error into a one-line message, and retrying an operation with exponential
 * backoff while it keeps hitting an API limit.
 */
module ErrorUtils {
  import opened Wrappers
  import opened Strings

  // ---------------------------------------------------------------- errors

  /** One entry of `response.data.error.errors`; its `reason` may be missing. */
  datatype ErrorItem = ErrorItem(reason: Option<string>)

  /** `response.data.error`: the API's own message and list of error entries, each optional. */
  datatype ApiErrorBody = ApiErrorBody(message: Option<string>, errors: Option<seq<ErrorItem>>)

  /** `error.response`: the HTTP status and, when the body carries one, its `error` object. */
  datatype Response = Response(status: int, body: Option<ApiErrorBody>)

  /** A thrown error: its message, the HTTP response if any, and the file-system `code` and `path`. */
  datatype Error = Error(message: string, response: Option<Response>, code: Option<string>, path: Option<string>)

  /** The `reason` values Google uses for rate and quota limits. */
  const LIMIT_REASONS: set<string> := {"rateLimitExceeded", "userRateLimitExceeded", "quotaExceeded", "dailyLimitExceeded"}

  predicate IsLimitReason(item: ErrorItem) {
    item.reason.Some? && item.reason.value in LIMIT_REASONS
  }

  /** `isApiLimitError`. */
  predicate IsApiLimitError(error: Error) {
    if error.response.None? then false
    else
      var status := error.response.value.status;
      if status == 429 then true
      else if status == 403 && error.response.value.body.Some? && error.response.value.body.value.errors.Some? then
        var errors := error.response.value.body.value.errors.value;
        exists k :: 0 <= k < |errors| && IsLimitReason(errors[k])
      else false
  }

  /**
   * Only a response with status 429, or with status 403 and at least one
   * rate or quota reason, is an API limit error.
   */
  lemma ApiLimitCases(error: Error)
    ensures IsApiLimitError(error) <==>
      error.response.Some?
      && (error.response.value.status == 429
          || (error.response.value.status == 403 && LimitReasonListed(error.response.value)))
  {
  }

  /** Some entry of the response's error list names a rate or quota reason. */
  predicate LimitReasonListed(response: Response) {
    response.body.Some? && response.body.value.errors.Some?
    && exists item :: item in response.body.value.errors.value && IsLimitReason(item)
  }

  // ------------------------------------------------------------- messages

  /** The leading symbol of each kind of message. */
  const LIMIT_ICON := '\U{1F6AB}'
  const NOT_FOUND_ICON := '\U{274C}'
  const AUTH_ICON := '\U{1F510}'
  const FORBIDDEN_ICON := '\U{26D4}'
  const BAD_REQUEST_ICON := '\U{1F4DD}'
  const API_ICON := '\U{1F4E1}'
  const FILE_ICON := '\U{1F4C1}'
  const LOCKED_ICON := '\U{1F512}'
  const UNEXPECTED_ICON := '\U{1F4A5}'

  /** The kinds of message, in the order `getDetailedError` tests for them. */
  datatype Kind =
    | ApiLimit | NotFound | Unauthorized | Forbidden | BadRequest | OtherStatus
    | FileNotFound | FileForbidden | Unexpected

  /** The kind of an error, stated case by case rather than as a chain of tests. */
  ghost predicate IsKind(error: Error, kind: Kind) {
    var limit := IsApiLimitError(error);
    var status := if error.response.Some? then error.response.value.status else 0;
    match kind
    case ApiLimit => limit
    case NotFound => !limit && error.response.Some? && status == 404
    case Unauthorized => !limit && error.response.Some? && status == 401
    case Forbidden => !limit && error.response.Some? && status == 403
    case BadRequest => !limit && error.response.Some? && status == 400
    case OtherStatus => !limit && error.response.Some? && status !in {400, 401, 403, 404}
    case FileNotFound => error.response.None? && error.code == Some("ENOENT")
    case FileForbidden => error.response.None? && error.code == Some("EACCES")
    case Unexpected => error.response.None? && error.code != Some("ENOENT") && error.code != Some("EACCES")
  }

  function Icon(kind: Kind): char {
    match kind
    case ApiLimit => LIMIT_ICON
    case NotFound => NOT_FOUND_ICON
    case Unauthorized => AUTH_ICON
    case Forbidden => FORBIDDEN_ICON
    case BadRequest => BAD_REQUEST_ICON
    case OtherStatus => API_ICON
    case FileNotFound => FILE_ICON
    case FileForbidden => LOCKED_ICON
    case Unexpected => UNEXPECTED_ICON
  }

  /** `` context ? `[${context}] ` : '' ``: the empty context is falsy. */
  function Prefix(context: string): (p: string)
    ensures p == "" <==> context == ""
    ensures p != "" ==> p[0] == '['
  {
    if context != "" then "[" + context + "] " else ""
  }

  /** `a || b` on strings: the empty or missing string is falsy. */
  function Or(a: Option<string>, b: string): (r: string)
    ensures a.Some? && a.value != "" ==> r == a.value
    ensures a.None? || a.value == "" ==> r == b
  {
    if a.Some? && a.value != "" then a.value else b
  }

  /** `data?.error?.message || error.message`. */
  function ApiMessage(error: Error): string {
    var body := if error.response.Some? then error.response.value.body else None;
    Or(if body.Some? then body.value.message else None, error.message)
  }

  /** `getDetailedError`. */
  function GetDetailedError(error: Error, context: string): (r: string)
    ensures StartsWith(r, Prefix(context)) && |r| > |Prefix(context)|
    ensures forall kind :: IsKind(error, kind) ==> r[|Prefix(context)|] == Icon(kind)
  {
    var prefix := Prefix(context);
    if IsApiLimitError(error) then
      prefix + [LIMIT_ICON] + " Google Calendar API limit exceeded: " + error.message + ". Please wait and try again later."
    else if error.response.Some? then
      var status := error.response.value.status;
      if status == 404 then prefix + [NOT_FOUND_ICON] + " Resource not found: " + error.message
      else if status == 401 then prefix + [AUTH_ICON] + " Authentication failed: " + error.message
      else if status == 403 then prefix + [FORBIDDEN_ICON] + " Permission denied: " + error.message
      else if status == 400 then prefix + [BAD_REQUEST_ICON] + " Bad request: " + ApiMessage(error)
      else prefix + [API_ICON] + " API error (" + IntToString(status) + "): " + ApiMessage(error)
    else if error.code == Some("ENOENT") then
      prefix + [FILE_ICON] + " File not found: " + Or(error.path, error.message)
    else if error.code == Some("EACCES") then
      prefix + [LOCKED_ICON] + " Permission denied: " + Or(error.path, error.message)
    else prefix + [UNEXPECTED_ICON] + " Unexpected error: " + error.message
  }

  /** Every error has exactly one kind. */
  lemma KindExists(error: Error) returns (kind: Kind)
    ensures IsKind(error, kind)
    ensures forall other :: IsKind(error, other) ==> other == kind
  {
    var limit := IsApiLimitError(error);
    if limit {
      kind := ApiLimit;
    } else if error.response.Some? {
      var status := error.response.value.status;
      kind := if status == 404 then NotFound else if status == 401 then Unauthorized
        else if status == 403 then Forbidden else if status == 400 then BadRequest else OtherStatus;
    } else {
      kind := if error.code == Some("ENOENT") then FileNotFound
        else if error.code == Some("EACCES") then FileForbidden else Unexpected;
    }
  }

  /**
   * The symbol after the prefix names the kind of the error: it is a kind's
   * symbol exactly when the error is of that kind.
   */
  lemma MessageNamesKind(error: Error, context: string, kind: Kind)
    ensures GetDetailedError(error, context)[|Prefix(context)|] == Icon(kind) <==> IsKind(error, kind)
  {
    var actual := KindExists(error);
  }

  /**
   * The API-limit test comes before the status switch: a 403 that lists a
   * rate or quota reason reads as a limit, not as "Permission denied".
   */
  lemma RateLimitedForbidden(error: Error, context: string)
    requires error.response.Some? && error.response.value.status == 403
    requires LimitReasonListed(error.response.value)
    ensures GetDetailedError(error, context)[|Prefix(context)|] == LIMIT_ICON
    ensures GetDetailedError(error, context)[|Prefix(context)|] != FORBIDDEN_ICON
  {
    ApiLimitCases(error);
  }

  /** The message opens with `[` exactly when a context is given. */
  lemma ContextShown(error: Error, context: string)
    ensures GetDetailedError(error, context)[0] == '[' <==> context != ""
  {
    var kind := KindExists(error);
  }

  /** Without a response, only ENOENT and EACCES get their own message; anything else is unexpected. */
  lemma FileSystemErrors(error: Error, context: string)
    requires error.response.None?
    ensures var icon := GetDetailedError(error, context)[|Prefix(context)|];
      (icon == FILE_ICON <==> error.code == Some("ENOENT"))
      && (icon == LOCKED_ICON <==> error.code == Some("EACCES"))
      && (icon == UNEXPECTED_ICON <==> error.code != Some("ENOENT") && error.code != Some("EACCES"))
  {
    MessageNamesKind(error, context, FileNotFound);
    MessageNamesKind(error, context, FileForbidden);
    MessageNamesKind(error, context, Unexpected);
  }

  /** The message ends with the detail the error carries. */
  lemma MessageEndsWithDetail(error: Error, context: string)
    ensures var r := GetDetailedError(error, context);
      (!IsApiLimitError(error) && error.response.Some? ==>
        var status := error.response.value.status;
        EndsWith(r, if status in {401, 403, 404} then error.message else ApiMessage(error)))
      && (error.response.None? && error.code in {Some("ENOENT"), Some("EACCES")} ==>
        EndsWith(r, Or(error.path, error.message)))
      && (error.response.None? && error.code !in {Some("ENOENT"), Some("EACCES")} ==>
        EndsWith(r, error.message))
  {
  }

  // ---------------------------------------------------------------- retry

  /** `2 ** n`. */
  function Pow2(n: nat): (r: nat)
    ensures r >= 1
  {
    if n == 0 then 1 else 2 * Pow2(n - 1)
  }

  /** The waits before retries 1 .. n: `baseDelay * 2 ** attempt` after each failed attempt. */
  function Delays(baseDelay: int, n: nat): (r: seq<int>)
    ensures |r| == n
    ensures forall k :: 0 <= k < n ==> r[k] == baseDelay * Pow2(k)
  {
    if n == 0 then [] else Delays(baseDelay, n - 1) + [baseDelay * Pow2(n - 1)]
  }

  /** A failed attempt that is worth retrying. */
  predicate Retryable<T>(outcome: Result<T, Error>) {
    outcome.Failure? && IsApiLimitError(outcome.error)
  }

  /**
   * `retryWithBackoff`. The operation is given by `outcome(k)`, the result of
   * its `k`-th call, and the sleeps are returned as `waits` instead of taken.
   * The attempts stop at the first success, at the first failure that is not
   * an API limit, or after `maxRetries + 1` attempts; what the last attempt
   * gave is what comes back.
   */
  method RetryWithBackoff<T>(outcome: nat -> Result<T, Error>, maxRetries: nat, baseDelay: int)
    returns (result: Result<T, Error>, attempts: nat, waits: seq<int>)
    ensures 1 <= attempts <= maxRetries + 1
    ensures result == outcome(attempts - 1)
    ensures forall k :: 0 <= k < attempts - 1 ==> Retryable(outcome(k))
    ensures attempts - 1 < maxRetries ==> !Retryable(outcome(attempts - 1))
    ensures waits == Delays(baseDelay, attempts - 1)
  {
    waits := [];
    var lastError: Option<Error> := None;
    var attempt := 0;
    while attempt <= maxRetries
      invariant attempt <= maxRetries
      invariant forall k :: 0 <= k < attempt ==> Retryable(outcome(k))
      invariant waits == Delays(baseDelay, attempt)
    {
      var current := outcome(attempt);
      if current.Success? {
        return current, attempt + 1, waits;
      }
      lastError := Some(current.error);
      if attempt == maxRetries {
        break;
      }
      if IsApiLimitError(current.error) {
        waits := waits + [baseDelay * Pow2(attempt)];
      } else {
        return current, attempt + 1, waits;
      }
      attempt := attempt + 1;
    }
    result, attempts := Failure(lastError.value), attempt + 1;
  }

  function Sum(xs: seq<int>): int {
    if xs == [] then 0 else Sum(xs[..|xs| - 1]) + xs[|xs| - 1]
  }

  /** Before the `n`-th retry the operation has waited `baseDelay * (2 ** n - 1)` in total. */
  lemma {:induction false} TotalWait(baseDelay: int, n: nat)
    ensures Sum(Delays(baseDelay, n)) == baseDelay * (Pow2(n) - 1)
  {
    if n > 0 {
      TotalWait(baseDelay, n - 1);
      assert Delays(baseDelay, n)[..n - 1] == Delays(baseDelay, n - 1);
    }
  }
}

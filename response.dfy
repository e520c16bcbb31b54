/**
 * Error values and response payloads (src/utils/response.ts): `AppError` and
 * its two subclasses, and the three `ResponseUtil` payload builders with
 * their defaults.
 */
module Response {
  import opened Wrappers
  import opened Strings

  /**
   * An operational error: the message, the HTTP status code it carries, the
   * status text ('failed', 'fail' or 'error') and the operational flag.
   */
  datatype AppError = AppError(message: string, statusCode: int, status: string, isOperational: bool)

  /** What a handler can throw: an `AppError`, or anything else (an exception of a library). */
  datatype Thrown =
    | App(err: AppError, stack: Option<string>)
    | Other(message: string, stack: Option<string>)

  /** `${statusCode}`.startsWith('4') ? 'failed' : 'error' */
  function StatusText(statusCode: int): string {
    if IntText(statusCode)[0] == '4' then "failed" else "error"
  }

  /** `new AppError(message, statusCode)`. */
  function NewAppError(message: string, statusCode: int): (e: AppError)
    ensures e.message == message && e.statusCode == statusCode && e.isOperational
    ensures e.status == "failed" || e.status == "error"
    ensures e.status == "failed" <==> statusCode >= 0 && LeadingDigit(statusCode) == 4
  {
    if statusCode >= 0 then DecimalTextHead(statusCode); AppError(message, statusCode, StatusText(statusCode), true)
    else AppError(message, statusCode, StatusText(statusCode), true)
  }

  /** `new ValidationError(message)`: a 400 whose status is overwritten with 'fail'. */
  function NewValidationError(message: string): (e: AppError)
    ensures e.statusCode == 400 && e.status == "fail" && e.message == message && e.isOperational
  {
    NewAppError(message, 400).(status := "fail")
  }

  /** `new DatabaseError(message)`: a 500 whose status is overwritten with 'error'. */
  function NewDatabaseError(message: string): (e: AppError)
    ensures e.statusCode == 500 && e.status == "error" && e.message == message && e.isOperational
  {
    NewAppError(message, 500).(status := "error")
  }

  lemma Pow10Grows(i: nat, j: nat)
    requires i < j
    ensures 10 * Pow10(i) <= Pow10(j)
    decreases j
  {
    if i + 1 < j {
      Pow10Grows(i, j - 1);
    }
  }

  lemma MulMonotone(a: nat, b: nat, p: nat)
    requires a <= b
    ensures a * p <= b * p
  {
  }

  /** Two digit ranges `[d * p, (d+1) * p)` that share a point have the same digit. */
  lemma SameDigit(d: nat, e: nat, p: nat, n: int)
    requires p >= 1
    requires d * p <= n < (d + 1) * p
    requires e * p <= n < (e + 1) * p
    ensures d == e
  {
    if d < e {
      MulMonotone(d + 1, e, p);
    } else if e < d {
      MulMonotone(e + 1, d, p);
    }
  }

  /**
   * The status of an `AppError` is 'failed' exactly for the codes whose
   * decimal text starts with 4: 4, 40..49, 400..499, 4000..4999, and so on.
   */
  lemma AppErrorFailedRange(message: string, statusCode: int)
    ensures NewAppError(message, statusCode).status == "failed"
      <==> exists k: nat :: 4 * Pow10(k) <= statusCode < 5 * Pow10(k)
  {
    var e := NewAppError(message, statusCode);
    if e.status == "failed" {
      var k := Magnitude(statusCode);
      LeadingDigitRange(statusCode, k);
      assert 4 * Pow10(k) <= statusCode < 5 * Pow10(k);
    }
    if exists k: nat :: 4 * Pow10(k) <= statusCode < 5 * Pow10(k) {
      var k: nat :| 4 * Pow10(k) <= statusCode < 5 * Pow10(k);
      var m := Magnitude(statusCode);
      if k < m {
        Pow10Grows(k, m);
      } else if m < k {
        Pow10Grows(m, k);
      }
      assert k == m;
      LeadingDigitRange(statusCode, k);
      SameDigit(LeadingDigit(statusCode), 4, Pow10(k), statusCode);
    }
  }

  /** Every 4xx code gives 'failed'; every 5xx code and every negative code gives 'error'. */
  lemma AppErrorStatusClasses(message: string, statusCode: int)
    ensures 400 <= statusCode < 500 ==> NewAppError(message, statusCode).status == "failed"
    ensures 500 <= statusCode < 600 ==> NewAppError(message, statusCode).status == "error"
    ensures statusCode < 0 ==> NewAppError(message, statusCode).status == "error"
  {
    AppErrorFailedRange(message, statusCode);
    if 400 <= statusCode < 500 {
      assert Pow10(2) == 100;
      assert 4 * Pow10(2) <= statusCode < 5 * Pow10(2);
    }
    if 500 <= statusCode < 600 {
      var k := Magnitude(statusCode);
      LeadingDigitRange(statusCode, k);
      assert Pow10(2) == 100 && Pow10(3) == 1000;
      if k < 2 { Pow10Grows(k, 2); }
      if k > 2 { Pow10Grows(2, k); }
      assert k == 2;
    }
  }

  /**
   * The two subclasses are an `AppError` of their code with the status text
   * overwritten; for `ValidationError` that overwrite changes 'failed' to
   * 'fail', for `DatabaseError` it writes the value already there.
   */
  lemma SubclassesOverwriteStatus(message: string)
    ensures NewValidationError(message) == NewAppError(message, 400).(status := "fail")
    ensures NewAppError(message, 400).status == "failed"
    ensures NewDatabaseError(message) == NewAppError(message, 500)
  {
    AppErrorStatusClasses(message, 400);
    AppErrorStatusClasses(message, 500);
  }

  /** The `data` argument of `ResponseUtil.success`; `None` is `null`. */
  datatype SuccessBody<D> = SuccessBody(httpStatus: int, status: string, message: string, data: Option<D>)

  /**
   * `ResponseUtil.success(res, { message, data, statusCode })`; an absent
   * argument takes its default.
   */
  function Success<D>(message: Option<string>, data: Option<D>, statusCode: Option<int>): (r: SuccessBody<D>)
    ensures r.status == "success"
    ensures r.httpStatus == (if statusCode.Some? then statusCode.value else 200)
    ensures r.message == (if message.Some? then message.value else "Request successful")
    ensures r.data == data
  {
    SuccessBody(statusCode.GetOr(200), "success", message.GetOr("Request successful"), data)
  }

  /** The `error` argument of `ResponseUtil.error`: a string, or an object with an optional message. */
  datatype ErrorArg = Text(text: string) | Object(message: Option<string>)

  /** JavaScript truthiness of the error argument. */
  predicate Truthy(error: Option<ErrorArg>) {
    error.Some? && (error.value.Text? ==> error.value.text != "")
  }

  /** The `error` field of an error payload. */
  datatype ErrorField = NullError | ErrorMessage(text: string) | RawError(arg: ErrorArg)

  datatype ErrorBody = ErrorBody(httpStatus: int, status: string, message: string, error: ErrorField)

  /** `error ? error.message || error : null`. */
  function ErrorFieldOf(error: Option<ErrorArg>): (f: ErrorField)
    ensures f.NullError? <==> !Truthy(error)
    ensures f.ErrorMessage? <==> Truthy(error) && error.value.Object? && error.value.message.Some? && error.value.message.value != ""
    ensures f.ErrorMessage? ==> f.text == error.value.message.value
    ensures f.RawError? ==> error == Some(f.arg)
  {
    if !Truthy(error) then NullError
    else match error.value
      case Object(Some(m)) => if m != "" then ErrorMessage(m) else RawError(error.value)
      case _ => RawError(error.value)
  }

  /** `ResponseUtil.error(res, { message, error, statusCode })`. */
  function Error(message: Option<string>, error: Option<ErrorArg>, statusCode: Option<int>): (r: ErrorBody)
    ensures r.status == "error"
    ensures r.httpStatus == (if statusCode.Some? then statusCode.value else 500)
    ensures r.message == (if message.Some? then message.value else "An error occurred")
    ensures r.error == ErrorFieldOf(error)
  {
    ErrorBody(statusCode.GetOr(500), "error", message.GetOr("An error occurred"), ErrorFieldOf(error))
  }

  datatype ValidationBody<V> = ValidationBody(httpStatus: int, status: string, message: string, errors: seq<V>)

  /** `ResponseUtil.validationError(res, { message, errors, statusCode })`. */
  function ValidationErrorBody<V>(message: Option<string>, errors: Option<seq<V>>, statusCode: Option<int>): (r: ValidationBody<V>)
    ensures r.status == "error"
    ensures r.httpStatus == (if statusCode.Some? then statusCode.value else 400)
    ensures r.message == (if message.Some? then message.value else "Validation errors occurred")
    ensures r.errors == (if errors.Some? then errors.value else [])
  {
    ValidationBody(statusCode.GetOr(400), "error", message.GetOr("Validation errors occurred"), errors.GetOr([]))
  }
}

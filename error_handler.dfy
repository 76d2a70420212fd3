/**
 * `AppError` and the central error handler. The handler's Express calls
 * (`res.status(..).json(..)`, `res.render('error', ..)`) are modelled as the
 * response value it chooses.
 */
module ErrorHandler {
  import opened Wrappers
  import opened JsText

  /** `${statusCode}`.startsWith('4') ? 'fail' : 'error' */
  function StatusForCode(statusCode: int): (s: string)
    ensures s == "fail" || s == "error"
  {
    if StartsWith(IntToString(statusCode), "4") then "fail" else "error"
  }

  /**
   * The derived status is 'fail' exactly for the non-negative codes whose
   * first decimal digit is 4, and 'error' for every other code.
   */
  lemma StatusForCodeMeaning(statusCode: int)
    ensures StatusForCode(statusCode) == "fail" <==> statusCode >= 0 && LeadingDigit(statusCode) == 4
    ensures StatusForCode(statusCode) != "fail" ==> StatusForCode(statusCode) == "error"
  {
    IntToStringStartsWithDigit(statusCode, 4);
    assert [DigitChar(4)] == "4";
  }

  /** On three-digit HTTP codes: 'fail' for the client errors 4xx, 'error' for the rest. */
  lemma StatusForHttpCode(statusCode: int)
    requires 100 <= statusCode <= 999
    ensures StatusForCode(statusCode) == "fail" <==> 400 <= statusCode <= 499
    ensures StatusForCode(statusCode) == "error" <==> !(400 <= statusCode <= 499)
  {
    StatusForCodeMeaning(statusCode);
    LeadingDigitOfThreeDigits(statusCode);
  }

  /**
   * An error's `status` property: the string an `AppError` derives, or the
   * number HTTP libraries such as body-parser set (`status: 400` on a
   * malformed JSON body).
   */
  datatype StatusValue = TextStatus(text: string) | NumberStatus(number: int)

  /** JavaScript truthiness of a status: the empty string and 0 are falsy. */
  predicate Truthy(status: StatusValue) {
    status != TextStatus("") && status != NumberStatus(0)
  }

  /**
   * A thrown value as the handler sees it. A missing or NaN `statusCode` is
   * None, a missing `status` is None, and `isOperational` is None when the
   * error has no such own property (it then reads as falsy).
   */
  class ThrownError {
    var message: string
    var statusCode: Option<int>
    var status: Option<StatusValue>
    var isOperational: Option<bool>

    /** `new AppError(message, statusCode)`: status derived from the code, always operational. */
    constructor AppError(message: string, statusCode: int)
      ensures this.message == message && this.statusCode == Some(statusCode)
      ensures this.status == Some(TextStatus(StatusForCode(statusCode)))
      ensures this.isOperational == Some(true)
    {
      this.message := message;
      this.statusCode := Some(statusCode);
      this.status := Some(TextStatus(StatusForCode(statusCode)));
      this.isOperational := Some(true);
    }

    /** Any other thrown error, such as a plain `Error` or one raised by a library. */
    constructor Other(message: string, statusCode: Option<int>, status: Option<StatusValue>, isOperational: Option<bool>)
      ensures this.message == message && this.statusCode == statusCode
      ensures this.status == status && this.isOperational == isOperational
    {
      this.message := message;
      this.statusCode := statusCode;
      this.status := status;
      this.isOperational := isOperational;
    }
  }

  /** `err.statusCode || 500` */
  function FilledCode(statusCode: Option<int>): (c: int)
    ensures c != 0
    ensures statusCode.Some? && statusCode.value != 0 ==> c == statusCode.value
    ensures statusCode.None? || statusCode.value == 0 ==> c == 500
  {
    if statusCode.None? || statusCode.value == 0 then 500 else statusCode.value
  }

  /** `err.status || 'error'`: a truthy status is kept whatever its type. */
  function FilledStatus(status: Option<StatusValue>): (s: StatusValue)
    ensures Truthy(s)
    ensures status.Some? && Truthy(status.value) ==> s == status.value
    ensures status.None? || !Truthy(status.value) ==> s == TextStatus("error")
  {
    if status.None? || !Truthy(status.value) then TextStatus("error") else status.value
  }

  /** The error's fields once the handler has filled in the defaults. */
  datatype ErrorView = ErrorView(message: string, statusCode: int, status: StatusValue, isOperational: Option<bool>)

  /** `err.isOperational` read as a condition: only an own `true` passes. */
  predicate Operational(err: ErrorView) {
    err.isOperational == Some(true)
  }

  /**
   * What `JSON.stringify` writes for the error object: its own enumerable
   * properties. The handler has made `statusCode` and `status` own properties;
   * `isOperational` is present only where the error set it; `message` and
   * `stack` are not enumerable on an `Error` and never appear.
   */
  datatype SerializedError = SerializedError(statusCode: int, status: StatusValue, isOperational: Option<bool>)

  /** A JSON error body, or the rendered `error` page with its title and message. */
  datatype Response =
    | Json(httpStatus: int, status: StatusValue, message: string, error: Option<SerializedError>)
    | Page(httpStatus: int, title: string, msg: string)

  const GenericTitle: string := "Something went wrong!"
  const GenericPageMessage: string := "Please try again later."

  /** `req.originalUrl.startsWith('/api')` */
  predicate IsApi(originalUrl: string) {
    StartsWith(originalUrl, "/api")
  }

  /**
   * In development an API client gets the status, the message and the
   * serialized error object; the message travels only in the top-level
   * field, since the serialized error does not carry it.
   */
  function SendErrorDev(err: ErrorView, originalUrl: string): (r: Response)
    ensures r.httpStatus == err.statusCode
    ensures IsApi(originalUrl) ==> r == Json(err.statusCode, err.status, err.message, Some(Serialized(err)))
    ensures !IsApi(originalUrl) ==> r == Page(err.statusCode, GenericTitle, err.message)
  {
    if IsApi(originalUrl) then Json(err.statusCode, err.status, err.message, Some(Serialized(err)))
    else Page(err.statusCode, GenericTitle, err.message)
  }

  /** The own enumerable properties of the error once the defaults are filled in. */
  function Serialized(err: ErrorView): SerializedError {
    SerializedError(err.statusCode, err.status, err.isOperational)
  }

  /**
   * In production an API client sees an operational error's own status code,
   * status and message, and for any other error only a 500 with a generic
   * message; a rendered page shows an unexpected error's message never, and
   * no JSON body carries the error object.
   */
  function SendErrorProd(err: ErrorView, originalUrl: string): (r: Response)
    ensures IsApi(originalUrl) && Operational(err) ==> r == Json(err.statusCode, err.status, err.message, None)
    ensures IsApi(originalUrl) && !Operational(err) ==> r == Json(500, TextStatus("error"), GenericTitle, None)
    ensures !IsApi(originalUrl) ==> r.Page? && r.httpStatus == err.statusCode && r.title == GenericTitle
    ensures !IsApi(originalUrl) ==> r.msg == if Operational(err) then err.message else GenericPageMessage
    ensures r.Json? ==> r.error.None?
  {
    if IsApi(originalUrl) then
      if Operational(err) then Json(err.statusCode, err.status, err.message, None)
      else Json(500, TextStatus("error"), GenericTitle, None)
    else Page(err.statusCode, GenericTitle, if Operational(err) then err.message else GenericPageMessage)
  }

  /** The response `errorHandler` sends, by `NODE_ENV`; None when it sends nothing. */
  function Respond(mode: Option<string>, originalUrl: string, err: ErrorView): (r: Option<Response>)
    ensures r.Some? <==> mode == Some("development") || mode == Some("production")
  {
    if mode == Some("development") then Some(SendErrorDev(err, originalUrl))
    else if mode == Some("production") then Some(SendErrorProd(err, originalUrl))
    else None
  }

  /**
   * `errorHandler`: fill in the missing status code and status on the error
   * object itself, then answer according to the mode.
   */
  method HandleError(err: ThrownError, mode: Option<string>, originalUrl: string) returns (r: Option<Response>)
    modifies err
    ensures err.statusCode == Some(FilledCode(old(err.statusCode)))
    ensures err.status == Some(FilledStatus(old(err.status)))
    ensures err.message == old(err.message) && err.isOperational == old(err.isOperational)
    ensures r == Respond(mode, originalUrl, ErrorView(err.message, err.statusCode.value, err.status.value, err.isOperational))
  {
    err.statusCode := Some(FilledCode(err.statusCode));
    err.status := Some(FilledStatus(err.status));
    var view := ErrorView(err.message, err.statusCode.value, err.status.value, err.isOperational);
    if mode == Some("development") {
      r := Some(SendErrorDev(view, originalUrl));
    } else if mode == Some("production") {
      r := Some(SendErrorProd(view, originalUrl));
    } else {
      r := None;
    }
  }

  /**
   * Whatever the error, a production response depends on its message only
   * when the error is operational: two unexpected errors that differ only in
   * their message get the same response.
   */
  lemma ProductionHidesUnexpectedMessages(a: ErrorView, b: ErrorView, originalUrl: string)
    requires !Operational(a) && !Operational(b)
    requires a.statusCode == b.statusCode && a.status == b.status
    ensures SendErrorProd(a, originalUrl) == SendErrorProd(b, originalUrl)
  {
  }

  /**
   * An `AppError` thrown with a non-zero code reaches the client with that
   * code and its derived status untouched: the handler's defaults never
   * overwrite them.
   */
  lemma AppErrorKeepsCodeAndStatus(message: string, statusCode: int, originalUrl: string)
    requires statusCode != 0
    ensures FilledCode(Some(statusCode)) == statusCode
    ensures FilledStatus(Some(TextStatus(StatusForCode(statusCode)))) == TextStatus(StatusForCode(statusCode))
    ensures var view := ErrorView(message, statusCode, TextStatus(StatusForCode(statusCode)), Some(true));
      && Respond(Some("production"), originalUrl, view) ==
           Some(if IsApi(originalUrl) then Json(statusCode, TextStatus(StatusForCode(statusCode)), message, None)
                else Page(statusCode, GenericTitle, message))
      && Respond(Some("development"), originalUrl, view).value.httpStatus == statusCode
      && (IsApi(originalUrl) ==>
            Respond(Some("development"), originalUrl, view).value.error ==
              Some(SerializedError(statusCode, TextStatus(StatusForCode(statusCode)), Some(true))))
  {
    StatusForCodeMeaning(statusCode);
  }

  /** Client-error AppErrors (4xx) are reported with status 'fail', server errors (5xx) with 'error'. */
  lemma AppErrorStatusOnHttpCodes(statusCode: int)
    requires 400 <= statusCode <= 599
    ensures 400 <= statusCode <= 499 ==> FilledStatus(Some(TextStatus(StatusForCode(statusCode)))) == TextStatus("fail")
    ensures 500 <= statusCode ==> FilledStatus(Some(TextStatus(StatusForCode(statusCode)))) == TextStatus("error")
  {
    StatusForHttpCode(statusCode);
  }

  /**
   * A library error that carries a numeric `status` and `statusCode`, such as
   * body-parser's refusal of malformed JSON, keeps both: the JSON body's
   * `status` is the number, not 'fail'.
   */
  lemma NumericStatusKept(message: string, code: int, originalUrl: string)
    requires code != 0 && IsApi(originalUrl)
    ensures var view := ErrorView(message, FilledCode(Some(code)), FilledStatus(Some(NumberStatus(code))), None);
      && Respond(Some("development"), originalUrl, view) ==
           Some(Json(code, NumberStatus(code), message, Some(SerializedError(code, NumberStatus(code), None))))
      && Respond(Some("production"), originalUrl, view) == Some(Json(500, TextStatus("error"), GenericTitle, None))
  {
  }

  /**
   * An error with neither `statusCode` nor `status` that is not an `AppError`
   * (a TypeError, say) is answered with 500 and status 'error' in either mode,
   * and in production its message does not reach an API client. In
   * development its serialized form holds only the two filled-in fields.
   */
  lemma PlainErrorIs500(message: string, mode: Option<string>, originalUrl: string)
    requires mode == Some("development") || mode == Some("production")
    ensures var r := Respond(mode, originalUrl, ErrorView(message, FilledCode(None), FilledStatus(None), None));
      && r.Some? && r.value.httpStatus == 500
      && (r.value.Json? ==> r.value.status == TextStatus("error"))
      && (mode == Some("production") && IsApi(originalUrl) ==> r.value.message == GenericTitle)
      && (mode == Some("development") && IsApi(originalUrl) ==>
            r.value.error == Some(SerializedError(500, TextStatus("error"), None)))
  {
  }
}

/**
 * The uniform response envelope: one record shape with a status tag and
 * optional message, data and error parts, and the three builders that fill
 * it in. A part left `undefined` (and so absent from the JSON) is None.
 */
module Envelope {
  import opened Wrappers

  datatype Status = Success | Error | Fail

  /** The `code?: string | number` of an error part. */
  datatype Code = TextCode(text: string) | NumberCode(number: int)

  datatype ErrorInfo<D> = ErrorInfo(code: Option<Code>, message: string, details: Option<D>)

  datatype ApiResponse<T, D> = ApiResponse(
    status: Status,
    message: Option<string>,
    data: Option<T>,
    error: Option<ErrorInfo<D>>)

  const DefaultSuccessMessage: string := "Operation successful"

  /** The `status` field as it appears in the JSON body. */
  function StatusText(s: Status): (t: string)
    ensures s == Success <==> t == "success"
    ensures s == Fail <==> t == "fail"
  {
    match s
    case Success => "success"
    case Error => "error"
    case Fail => "fail"
  }

  /** `ApiResponse.success(data, message?)`; an omitted message (None) takes the default. */
  function SuccessOf<T, D>(data: T, message: Option<string>): (r: ApiResponse<T, D>)
    ensures r.status == Success && r.data == Some(data) && r.error.None?
    ensures message.Some? ==> r.message == message
    ensures message.None? ==> r.message == Some(DefaultSuccessMessage)
  {
    ApiResponse(Success, Some(message.GetOr(DefaultSuccessMessage)), Some(data), None)
  }

  /** `ApiResponse.error(message, code?, details?)`: no data and no top-level message. */
  function ErrorOf<T, D>(message: string, code: Option<Code>, details: Option<D>): (r: ApiResponse<T, D>)
    ensures r.status == Error && r.data.None? && r.message.None?
    ensures r.error == Some(ErrorInfo(code, message, details))
  {
    ApiResponse(Error, None, None, Some(ErrorInfo(code, message, details)))
  }

  /** `ApiResponse.fail(message, details?)`: the message appears at the top and in the error part. */
  function FailOf<T, D>(message: string, details: Option<D>): (r: ApiResponse<T, D>)
    ensures r.status == Fail && r.data.None?
    ensures r.error == Some(ErrorInfo(None, message, details))
    ensures r.message == Some(r.error.value.message)
  {
    ApiResponse(Fail, Some(message), None, Some(ErrorInfo(None, message, details)))
  }

  /** The shape each status tag promises. */
  predicate Conforms<T, D>(r: ApiResponse<T, D>) {
    match r.status
    case Success => r.data.Some? && r.error.None? && r.message.Some?
    case Error => r.data.None? && r.message.None? && r.error.Some?
    case Fail => r.data.None? && r.error.Some? && r.error.value.code.None? && r.message == Some(r.error.value.message)
  }

  /**
   * The builders produce exactly the bodies that conform: every body they
   * build conforms, and every conforming body is what one of them builds from
   * the body's own parts.
   */
  lemma BuildersConform<T, D>(data: T, message: Option<string>, text: string, code: Option<Code>, details: Option<D>)
    ensures Conforms(SuccessOf<T, D>(data, message))
    ensures Conforms(ErrorOf<T, D>(text, code, details))
    ensures Conforms(FailOf<T, D>(text, details))
  {
  }

  lemma ConformingIsBuilt<T, D>(r: ApiResponse<T, D>)
    requires Conforms(r)
    ensures r.status == Success ==> r == SuccessOf(r.data.value, r.message)
    ensures r.status == Error ==> r == ErrorOf(r.error.value.message, r.error.value.code, r.error.value.details)
    ensures r.status == Fail ==> r == FailOf(r.error.value.message, r.error.value.details)
  {
  }

  /** No conforming body, hence no built body, has both data and an error part. */
  lemma NeverDataAndError<T, D>(r: ApiResponse<T, D>)
    requires Conforms(r)
    ensures !(r.data.Some? && r.error.Some?)
    ensures r.data.Some? <==> r.status == Success
  {
  }
}

/** The response envelope: classification of caught values into an `ApiError`, the error
    and success envelopes with their HTTP status, and the client-side error text. */
module ErrorHandler {
  import opened Types

  /** An HTTP response: the status code and the JSON envelope it carries. */
  datatype Response<T> = Response(status: int, body: ApiResponse<T>)

  const DefaultErrorStatus: int := 500
  const DefaultSuccessStatus: int := 200
  const InternalCode: string := "INTERNAL_ERROR"
  const UnexpectedMessage: string := "An unexpected error occurred"

  /** `isApiError`: a truthy object with both a `message` and a `code` key. Every `Error`
      instance has `message` through its prototype, so for it only `code` matters. */
  predicate IsApiError(e: Thrown) {
    match e
    case ErrorInstance(_, _, code, _) => code.Some?
    case PlainObject(_, message, code, _, _) => message.Some? && code.Some?
    case NonObject(_) => false
  }

  /** The `ApiError` fields of a value that passed `IsApiError`, taken as they are. */
  function AsApiError(e: Thrown): (r: ApiError)
    requires IsApiError(e)
    ensures r.code.Some? && r.code == (if e.ErrorInstance? then e.code else e.objCode)
    ensures e.ErrorInstance? ==> r.message == e.message && r.details.None? && r.stack == e.stack
    ensures e.PlainObject? ==>
      r.message == e.objMessage.value && r.details == e.objDetails && r.stack == e.objStack
  {
    match e
    case ErrorInstance(_, message, code, stack) => ApiError(message, code, None, stack)
    case PlainObject(_, message, code, details, stack) => ApiError(message.value, code, details, stack)
  }

  /** The three-way classification inside `createErrorResponse`. `development` stands for
      `NODE_ENV === 'development'`. */
  function Classify(e: Thrown, development: bool): (r: ApiError)
    ensures r.code.Some?
    ensures IsApiError(e) ==> r == AsApiError(e)
    ensures !IsApiError(e) && e.ErrorInstance? ==>
      r.code == Some(InternalCode) && r.message == e.message && r.details == Some(Str(e.name))
      && r.stack == (if development then e.stack else None)
    ensures !IsApiError(e) && !e.ErrorInstance? ==>
      r == ApiError(UnexpectedMessage, Some(UnknownCode), Some(Str(StringOf(e))), None)
  {
    if IsApiError(e) then AsApiError(e)
    else if e.ErrorInstance? then
      ApiError(e.message, Some(InternalCode), Some(Str(e.name)), if development then e.stack else None)
    else
      ApiError(UnexpectedMessage, Some(UnknownCode), Some(Str(StringOf(e))), None)
  }

  /** `createErrorResponse(error, statusCode)`. */
  function CreateErrorResponse<T>(error: Thrown, statusCode: int, development: bool): (r: Response<T>)
    ensures r.status == statusCode
    ensures !r.body.success && r.body.data.None?
    ensures r.body.error == Some(Classify(error, development))
  {
    Response(statusCode, ApiResponse(false, None, Some(Classify(error, development))))
  }

  /** `createSuccessResponse(data, statusCode)`. */
  function CreateSuccessResponse<T>(data: T, statusCode: int): (r: Response<T>)
    ensures r.status == statusCode
    ensures r.body.success && r.body.data == Some(data) && r.body.error.None?
  {
    Response(statusCode, ApiResponse(true, Some(data), None))
  }

  /** A thrown `ApiError` that has a code lands in the envelope unchanged. */
  lemma ApiErrorPassesThrough(e: ApiError, development: bool)
    requires e.code.Some?
    ensures Classify(e.AsThrown(), development) == e
  {
  }

  /** Classification is idempotent: re-throwing a classified error and classifying it again
      changes nothing, because every classified error has a code. */
  lemma ClassifyIdempotent(e: Thrown, development: bool)
    ensures Classify(Classify(e, development).AsThrown(), development) == Classify(e, development)
  {
    ApiErrorPassesThrough(Classify(e, development), development);
  }

  /** A thrown object with a message but without a code is not an `ApiError`: its own
      message is dropped for the generic one. */
  lemma MessageWithoutCodeIsUnknown(message: string, details: Option<Value>, development: bool)
    ensures Classify(PlainObject(None, Some(message), None, details, None), development)
         == ApiError(UnexpectedMessage, Some(UnknownCode), Some(Str("[object Object]")), None)
  {
  }

  /** `error.details && typeof error.details === 'object'`. */
  predicate DetailsIsObject(details: Option<Value>) {
    details.Some? &&
    match details.value
    case Str(_) => false
    case List(_) => true
    case Record(_) => true
    case Raised(t) => !t.NonObject?
  }

  const DetailsBanner: string := "\n\nRaw AWS Error Details:\n"

  /** `formatErrorForDisplay`; `stringify` stands for `JSON.stringify(_, null, 2)`. */
  function FormatErrorForDisplay(error: ApiError, stringify: Value -> string): (r: string)
    ensures |error.message| <= |r| && r[..|error.message|] == error.message
    ensures r == error.message <==> !DetailsIsObject(error.details)
    ensures DetailsIsObject(error.details) ==>
      r[|error.message|..] == DetailsBanner + stringify(error.details.value)
  {
    if DetailsIsObject(error.details) then
      error.message + DetailsBanner + stringify(error.details.value)
    else
      error.message
  }
}

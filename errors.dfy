/** The error records of errors/BaseError.js and the closed set of failures
    the services raise. */
module Errors {
  import opened Wrappers
  import opened Documents

  /** `STATUS_CODES.Default`. The table of status codes (config/constants)
      is not part of this model, so its value is left open. */
  const DefaultCode: int

  /** A `BaseError`: a message and a numeric code. */
  datatype BaseError = BaseError(message: string, code: int)

  /** What `toJSON` returns. */
  datatype ErrorJson = ErrorJson(errorMessage: string, errorCode: int)

  /** `new BaseError(message, errCode)`; `None` stands for an omitted (or
      `undefined`) `errCode`, which takes the default parameter value. */
  function NewBaseError(message: string, errCode: Option<int>): (e: BaseError)
    ensures e.message == message
    ensures errCode.None? ==> e.code == DefaultCode
    ensures errCode.Some? ==> e.code == errCode.value
  {
    match errCode
    case None => BaseError(message, DefaultCode)
    case Some(c) => BaseError(message, c)
  }

  /** `toJSON()`: the projection onto the two externally visible fields. */
  function ToJson(e: BaseError): (j: ErrorJson)
    ensures j.errorMessage == e.message && j.errorCode == e.code
  {
    ErrorJson(e.message, e.code)
  }

  /** The projection keeps both fields of the error record (message and
      code; the `name` and `stack` of a JavaScript `Error` are not part of
      this model): two such records have the same JSON form exactly when
      they are equal. */
  lemma ToJsonIsFaithful(a: BaseError, b: BaseError)
    ensures ToJson(a) == ToJson(b) <==> a == b
  {
  }

  /** Constructing and projecting: the JSON form carries the message as
      given and the code as given, or the default code. */
  lemma ToJsonOfNew(message: string, errCode: Option<int>)
    ensures ToJson(NewBaseError(message, errCode)).errorMessage == message
    ensures ToJson(NewBaseError(message, errCode)).errorCode
            == (if errCode.Some? then errCode.value else DefaultCode)
  {
  }

  /** A failure reported by the store itself: the duplicate-key error names
      the fields of the unique index that was violated (`err.keyPattern`). */
  datatype StoreError = DuplicateKeyError(keyPattern: seq<Field>) | OperationFailure

  /** What a service operation raises. The first four are the error kinds a
      service constructs; `Raw` is a store error that propagates unmapped,
      `TypeError` a runtime error of the code itself. */
  datatype ServiceError =
    | NotFound(reason: string, context: Fields)
    | InvalidDuplicateEntry(message: string)
    | InternalServerError(message: string)
    | Forbidden(message: string)
    | Raw(cause: StoreError)
    | TypeError(message: string)
}

/** What request handlers throw, and the Express error middleware that turns
    a thrown error into the JSON response `{success: false, message}` with
    an HTTP status. */
module ErrorHandler {

  /** The `code` property of a thrown error: absent, a string (Multer's
      `"LIMIT_FILE_SIZE"`) or a number (MongoDB's `11000`). */
  datatype ErrCode = NoCode | TextCode(text: string) | NumCode(num: int)

  /** A thrown error: the application's own `ApiError(statusCode, message)`,
      or any other error, seen through its `name`, `message` and `code`. */
  datatype Failure =
    | ApiError(statusCode: int, message: string)
    | Thrown(name: string, message: string, code: ErrCode)

  /** What a handler produces: a value, or a thrown error. */
  datatype Outcome<T> = Ok(value: T) | Fail(error: Failure)

  datatype ErrorResponse = ErrorResponse(status: int, success: bool, message: string)

  /** The error MongoDB raises when an insert or update violates a unique
      index. */
  function DuplicateKey(index: string): Failure {
    Thrown("MongoServerError", "E11000 duplicate key error collection: " + index, NumCode(11000))
  }

  /** The error Mongoose throws when a value given for an ObjectId path
      (`_id`, a reference, an array of references) cannot be cast. */
  function CastFailure(path: string): Failure {
    Thrown("CastError", "Cast to ObjectId failed at path \"" + path + "\"", NoCode)
  }

  const DuplicateMessage := "Duplicate entry \U{2014} a record with this value already exists"

  /** The branches of `errorHandler`, tried in order. */
  function HandleError(e: Failure): (r: ErrorResponse)
    ensures !r.success
    ensures e.ApiError? ==> r.status == e.statusCode && r.message == e.message
    ensures e.Thrown? && e.name == "ValidationError" ==> r.status == 400 && r.message == e.message
    ensures e.Thrown? && e.name == "CastError" ==> r == ErrorResponse(400, false, "Invalid ID format")
    ensures e.Thrown? && e.name == "MulterError" ==>
      r.status == 400 && r.message == (if e.code == TextCode("LIMIT_FILE_SIZE") then "File size too large (max 5MB)" else e.message)
  {
    match e
    case ApiError(status, message) => ErrorResponse(status, false, message)
    case Thrown(name, message, code) =>
      if name == "ValidationError" then ErrorResponse(400, false, message)
      else if name == "CastError" then ErrorResponse(400, false, "Invalid ID format")
      else if name == "MulterError" then
        ErrorResponse(400, false, if code == TextCode("LIMIT_FILE_SIZE") then "File size too large (max 5MB)" else message)
      else if code == NumCode(11000) then ErrorResponse(409, false, DuplicateMessage)
      else ErrorResponse(500, false, "Internal server error")
  }

  /** The names the handler recognises before it looks at `code`. */
  predicate NamedKind(name: string) {
    name == "ValidationError" || name == "CastError" || name == "MulterError"
  }

  /** A response of 409 means exactly a duplicate-key error (or an
      `ApiError` that chose 409 itself). */
  lemma ConflictIff(e: Failure)
    requires e.Thrown?
    ensures HandleError(e).status == 409 <==> !NamedKind(e.name) && e.code == NumCode(11000)
  {
  }

  /** Every error that is not an `ApiError` gets 400, 409 or 500, and 500
      exactly when no branch recognises it; its message is then the generic
      one. */
  lemma ThrownStatus(e: Failure)
    requires e.Thrown?
    ensures HandleError(e).status in {400, 409, 500}
    ensures HandleError(e).status == 500 <==> !NamedKind(e.name) && e.code != NumCode(11000)
    ensures HandleError(e).status == 500 ==> HandleError(e).message == "Internal server error"
  {
  }

  /** The `ApiError` branch comes first: an `ApiError` keeps its own status
      even when it is 409 or 500. */
  lemma ApiErrorFirst(status: int, message: string)
    ensures HandleError(ApiError(status, message)) == ErrorResponse(status, false, message)
  {
  }

  /** A malformed id answers 400 with the fixed message, whatever the path. */
  lemma CastFailureIsBadRequest(path: string)
    ensures HandleError(CastFailure(path)) == ErrorResponse(400, false, "Invalid ID format")
  {
  }

  /** A duplicate-key error from MongoDB becomes 409. */
  lemma DuplicateKeyIsConflict(index: string)
    ensures HandleError(DuplicateKey(index)) == ErrorResponse(409, false, DuplicateMessage)
  {
  }
}

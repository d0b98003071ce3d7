/** The central error formatter (backend/middleware/error.js): every error
    that reaches it becomes a `{success: false, error}` body with a status. */
module ErrorHandler {
  import opened JsValues
  import opened JsStrings

  /** The parts of a thrown error the formatter looks at: its `name`, its
      driver `code`, and, for a validation error, the messages of
      `Object.values(err.errors)` in order. */
  datatype JsError = JsError(name: string, code: Option<int>, fieldMessages: seq<string>)

  const DUPLICATE_KEY_CODE := 11000

  function ValidationError(messages: seq<string>): JsError {
    JsError("ValidationError", None, messages)
  }

  function CastError(): JsError {
    JsError("CastError", None, [])
  }

  /** What the driver throws when a unique index rejects a write. */
  function DuplicateKeyError(): JsError {
    JsError("MongoServerError", Some(DUPLICATE_KEY_CODE), [])
  }

  datatype ErrorResponse = ErrorResponse(status: int, success: bool, error: string)

  /** What a handler answers: `{success: true, data}` with a status, or an
      error body. */
  datatype Reply<T> = Success(status: int, data: T) | Failure(response: ErrorResponse)

  /** `errorHandler`: starts from 500 "Server Error" and lets each later
      matching test overwrite the earlier ones, so a validation error wins
      over a duplicate key, which wins over a cast error. */
  method HandleError(err: JsError) returns (response: ErrorResponse)
    ensures !response.success
    ensures err.name == "ValidationError" ==>
              response.status == 400 && response.error == Join(err.fieldMessages, ", ")
    ensures err.name != "ValidationError" && err.code == Some(DUPLICATE_KEY_CODE) ==>
              response.status == 400 && response.error == "Duplicate field value entered"
    ensures err.name == "CastError" && err.code != Some(DUPLICATE_KEY_CODE) ==>
              response.status == 404 && response.error == "Resource not found"
    ensures err.name != "ValidationError" && err.name != "CastError" && err.code != Some(DUPLICATE_KEY_CODE) ==>
              response.status == 500 && response.error == "Server Error"
  {
    var statusCode := 500;
    var message := "Server Error";

    if err.name == "CastError" {
      message := "Resource not found";
      statusCode := 404;
    }

    if err.code == Some(DUPLICATE_KEY_CODE) {
      message := "Duplicate field value entered";
      statusCode := 400;
    }

    if err.name == "ValidationError" {
      message := Join(err.fieldMessages, ", ");
      statusCode := 400;
    }

    response := ErrorResponse(statusCode, false, message);
  }
}

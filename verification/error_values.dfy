/** The error objects passed to Express's `next`. */
module ErrorValues {
  import opened Js

  /** An error as the terminal error handler reads it. Errors built by
      `createError` carry both properties; errors raised elsewhere in
      Express may lack either. */
  datatype ErrorValue = ErrorValue(status: Option<int>, message: Option<string>)

  /** `createError(status, message)`. Its defining file is not part of
      this model; it is taken to produce an error whose `status` and
      `message` are exactly its arguments, which is how the handlers'
      callers read it. */
  function CreateError(status: int, message: string): ErrorValue {
    ErrorValue(Some(status), Some(message))
  }
}

/** `ValidationResult` (SqlData/ValidationResult.cs) and the operations `Entity.Validate` is asked about. */
module Validation {
  import opened Wrappers

  /** The operation a validation hook is run for (`DataOperation`, an enum outside this model). */
  datatype DataOperation = Insert | Update | Delete

  datatype ValidationResult = ValidationResult(isSuccess: bool, errorMessage: Option<string>)

  /** `new ValidationResult()`: a success with no message; what `Entity.Validate` returns unless overridden. */
  function Default(): (r: ValidationResult)
    ensures r.isSuccess && r.errorMessage == None
  {
    ValidationResult(true, None)
  }

  /** `new ValidationResult(success, errorMessage)`. */
  function Make(success: bool, errorMessage: Option<string>): (r: ValidationResult)
    ensures r.isSuccess == success && r.errorMessage == errorMessage
  {
    ValidationResult(success, errorMessage)
  }
}

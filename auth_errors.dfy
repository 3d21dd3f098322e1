/** The auth service's `GlobalExceptionHandler`: every failure an auth
    request ends in becomes one error body and status code. */
module AuthErrors {
  import opened Common
  import opened ErrorResponses
  import opened Auth

  const Path := "/api/auth"

  /** The handlers other than the validation one. A bad-credentials failure
      always reports the fixed message, whatever its own text; a taken
      username reports the exception's message; anything else is a 500
      with a fixed message. */
  function HandleException(e: AuthFailure): (r: ErrorResponse)
    requires !e.Invalid?
    ensures r.path == Path && r.details == None
    ensures e.BadCredentials? ==> r.status == 401 && r.error == "Authentication Failed"
                                  && r.message == BadCredentialsMessage
    ensures e.UserAlreadyExists? ==> r.status == 409 && r.error == "User Already Exists"
                                     && r.message == e.message
    ensures e.Unexpected? ==> r.status == 500 && r.error == "Internal Server Error"
                              && r.message == "An unexpected error occurred"
  {
    match e
    case BadCredentials(_) => ErrorResponse(401, "Authentication Failed", BadCredentialsMessage, None, Path)
    case UserAlreadyExists(message) => ErrorResponse(409, "User Already Exists", message, None, Path)
    case Unexpected(_) => ErrorResponse(500, "Internal Server Error", "An unexpected error occurred", None, Path)
  }

  /** The whole advice: validation failures get 400 with the field-to-message
      map (the last error on a field wins); every other kind goes to its own
      handler. */
  method Handle(e: AuthFailure) returns (r: ErrorResponse)
    ensures r.path == Path
    ensures r.status in {400, 401, 409, 500}
    ensures e.Invalid? ==>
      && r.status == 400 && r.error == "Validation Failed" && r.message == "Input validation failed"
      && r.details.Some?
      && r.details.value.Keys == (set i | 0 <= i < |e.errors| :: e.errors[i].field)
      && forall i :: 0 <= i < |e.errors| && IsLastFor(e.errors, i) ==>
           r.details.value[e.errors[i].field] == e.errors[i].message
    ensures !e.Invalid? ==> r == HandleException(e)
  {
    if e.Invalid? {
      var details := CollectDetails(e.errors);
      r := ErrorResponse(400, "Validation Failed", "Input validation failed", Some(details), Path);
    } else {
      r := HandleException(e);
    }
  }

  /** The two credential failures of `login`, unknown user and wrong
      password, cannot be told apart from the response. */
  lemma CredentialFailuresLookAlike(a: string, b: string)
    ensures HandleException(BadCredentials(a)) == HandleException(BadCredentials(b))
  {
  }
}

/** The error body both services' exception handlers build, and the loop
    that turns Bean Validation field errors into its `details` map. */
module ErrorResponses {
  import opened Common

  /** One `FieldError` of a `MethodArgumentNotValidException`: the field and
      its default message. */
  datatype FieldError = FieldError(field: string, message: string)

  /** `ErrorResponse` without its timestamp: status code, error title,
      message, the optional field-to-message map and the request path. */
  datatype ErrorResponse = ErrorResponse(
    status: int,
    error: string,
    message: string,
    details: Option<map<string, string>>,
    path: string)

  /** Index `i` holds the last error that names its field. */
  predicate IsLastFor(errors: seq<FieldError>, i: int)
    requires 0 <= i < |errors|
  {
    forall j :: i < j < |errors| ==> errors[j].field != errors[i].field
  }

  /** Fills a map from each error's field to its message, in the order the
      binding result lists them; a later error on the same field overwrites
      an earlier one. */
  method CollectDetails(errors: seq<FieldError>) returns (details: map<string, string>)
    ensures details.Keys == set i | 0 <= i < |errors| :: errors[i].field
    ensures forall i :: 0 <= i < |errors| && IsLastFor(errors, i) ==>
      details[errors[i].field] == errors[i].message
  {
    details := map[];
    for n := 0 to |errors|
      invariant details.Keys == set i | 0 <= i < n :: errors[i].field
      invariant forall i :: 0 <= i < n && (forall j :: i < j < n ==> errors[j].field != errors[i].field) ==>
        details[errors[i].field] == errors[i].message
    {
      details := details[errors[n].field := errors[n].message];
    }
  }
}

/** The product service's `GlobalExceptionHandler`: every exception a
    product request ends in becomes one error body and status code. */
module ProductErrors {
  import opened Common
  import opened ErrorResponses
  import opened Inventory

  const Path := "/api/products"

  /** The handlers other than the validation one: a fixed title per
      exception class, and the exception's own message except for Spring's
      access denial and the catch-all, whose messages are fixed. */
  function HandleException(e: ProductError): (r: ErrorResponse)
    requires !e.ValidationFailed?
    ensures r.path == Path && r.details == None
    ensures e.ProductNotFound? ==> r.status == 404 && r.error == "Product Not Found"
                                   && r.message == NotFoundMessage(e.id)
    ensures e.ProductAccessDenied? ==> r.status == 403 && r.error == "Access Denied"
                                       && r.message == AccessDeniedMessage(e.id, e.owner)
    ensures e.AccessDenied? ==> r.status == 403 && r.error == "Access Denied"
                                && r.message == "You don't have permission to access this resource"
    ensures e.InsufficientStock? ==> r.status == 400 && r.error == "Insufficient Stock"
                                     && r.message == InsufficientStockMessage(e.id, e.available, e.requested)
    ensures e.ConcurrentStockReduction? ==> r.status == 400 && r.error == "Insufficient Stock"
                                            && r.message == ConcurrentReductionMessage
    ensures e.Unexpected? ==> r.status == 500 && r.error == "Internal Server Error"
                              && r.message == "An unexpected error occurred"
  {
    match e
    case ProductNotFound(id) => ErrorResponse(404, "Product Not Found", NotFoundMessage(id), None, Path)
    case ProductAccessDenied(id, owner) =>
      ErrorResponse(403, "Access Denied", AccessDeniedMessage(id, owner), None, Path)
    case InsufficientStock(id, available, requested) =>
      ErrorResponse(400, "Insufficient Stock", InsufficientStockMessage(id, available, requested), None, Path)
    case ConcurrentStockReduction =>
      ErrorResponse(400, "Insufficient Stock", ConcurrentReductionMessage, None, Path)
    case AccessDenied =>
      ErrorResponse(403, "Access Denied", "You don't have permission to access this resource", None, Path)
    case Unexpected(_) =>
      ErrorResponse(500, "Internal Server Error", "An unexpected error occurred", None, Path)
  }

  /** The whole advice: validation failures get 400 with the field-to-message
      map (the last error on a field wins); every other kind goes to its own
      handler. No exception is left without a response. */
  method Handle(e: ProductError) returns (r: ErrorResponse)
    ensures r.path == Path
    ensures r.status in {400, 403, 404, 500}
    ensures e.ValidationFailed? ==>
      && r.status == 400 && r.error == "Validation Failed" && r.message == "Input validation failed"
      && r.details.Some?
      && r.details.value.Keys == (set i | 0 <= i < |e.errors| :: e.errors[i].field)
      && forall i :: 0 <= i < |e.errors| && IsLastFor(e.errors, i) ==>
           r.details.value[e.errors[i].field] == e.errors[i].message
    ensures !e.ValidationFailed? ==> r == HandleException(e)
    ensures e.Unexpected? ==> r.message == "An unexpected error occurred"
  {
    if e.ValidationFailed? {
      var details := CollectDetails(e.errors);
      r := ErrorResponse(400, "Validation Failed", "Input validation failed", Some(details), Path);
    } else {
      r := HandleException(e);
    }
  }
}

/** The product endpoints' request records and the constraints Bean
    Validation enforces on them. */
module ProductApi {
  import opened Common
  import opened Text
  import opened ErrorResponses

  /** `ProductRequest`: `name` may arrive as null; `price` is a nullable
      `BigDecimal`, and `@Min(0)` accepts null. */
  datatype ProductRequest = ProductRequest(name: Option<string>, stock: int, price: Option<Money>)

  /** `StockReductionRequest`. Its `@Min(1)` is declared, but the endpoint
      takes the body without `@Valid`, so nothing enforces it. */
  datatype StockReductionRequest = StockReductionRequest(quantity: int)

  const NotBlankMessage := "must not be blank"
  const MinZeroMessage := "must be greater than or equal to 0"

  /** The `list` endpoint's `@RequestParam` defaults. */
  const DefaultPage := 0
  const DefaultSize := 10

  /** What the declared constraints demand of a `ProductRequest`. */
  predicate IsValidProductRequest(req: ProductRequest) {
    && !IsBlank(req.name)
    && req.stock >= 0
    && (req.price.Some? ==> req.price.value >= 0)
  }

  /** The error one constraint contributes: none when it holds. */
  function Check(field: string, violated: bool, message: string): (errors: seq<FieldError>)
    ensures errors == [] <==> !violated
    ensures |errors| <= 1
    ensures forall e :: e in errors ==> e == FieldError(field, message)
  {
    if violated then [FieldError(field, message)] else []
  }

  /** The field errors `@Valid` reports for a `ProductRequest`, in field
      order; the request reaches `create` or `update` only when there are
      none. */
  function Violations(req: ProductRequest): (errors: seq<FieldError>)
    ensures errors == [] <==> IsValidProductRequest(req)
    ensures |errors| <= 3
  {
    Check("name", IsBlank(req.name), NotBlankMessage)
    + Check("stock", req.stock < 0, MinZeroMessage)
    + Check("price", req.price.Some? && req.price.value < 0, MinZeroMessage)
  }

  /** Each violated constraint is reported, on its own field and with its
      own message, and no field is reported twice. */
  lemma {:induction false} ViolationsReportEachField(req: ProductRequest)
    ensures FieldError("name", NotBlankMessage) in Violations(req) <==> IsBlank(req.name)
    ensures FieldError("stock", MinZeroMessage) in Violations(req) <==> req.stock < 0
    ensures FieldError("price", MinZeroMessage) in Violations(req) <==> req.price.Some? && req.price.value < 0
    ensures forall i, j :: 0 <= i < j < |Violations(req)| ==> Violations(req)[i].field != Violations(req)[j].field
  {
    var name := Check("name", IsBlank(req.name), NotBlankMessage);
    var stock := Check("stock", req.stock < 0, MinZeroMessage);
    var price := Check("price", req.price.Some? && req.price.value < 0, MinZeroMessage);
    var errors := name + stock + price;
    assert Violations(req) == errors;
    assert forall e :: e in errors <==> e in name || e in stock || e in price;
    forall i, j | 0 <= i < j < |errors|
      ensures errors[i].field != errors[j].field
    {
      assert errors[i] in errors && errors[j] in errors;
      if i < |name| {
        assert errors[i] in name;
        assert errors[j] !in name;
      } else if i < |name| + |stock| {
        assert errors[i] in stock;
        assert errors[j] in price;
      } else {
        assert false;
      }
    }
  }
}

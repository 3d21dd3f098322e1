/** The order service's guarded access to the product service. Each call
    either gets the remote answer or, when the call fails, times out or the
    breaker is open, a fixed substitute record; it never hands back null
    and never throws. The breaker itself is not modelled: the outcome of
    each remote call is an input. */
module ProductClient {
  import opened Common

  /** The product record as the order service receives it. */
  datatype ProductResponse = ProductResponse(id: int, name: string, stock: int, price: Option<Money>)

  /** What one guarded remote call came to. */
  datatype Remote<T> = Answered(value: T) | Failed

  const LookupFallbackName := "Product temporarily unavailable"
  const ReductionFallbackName := "Stock reduction failed - service unavailable"

  /** The substitute record: the requested id, a sentinel name, zero price
      and zero stock. */
  function Fallback(id: int, name: string): (r: ProductResponse)
    ensures r.id == id && r.name == name && r.stock == 0 && r.price == Some(0)
  {
    ProductResponse(id, name, 0, Some(0))
  }

  /** `getProduct`. */
  function GetProduct(id: int, remote: Remote<ProductResponse>): (r: ProductResponse)
    ensures remote.Answered? ==> r == remote.value
    ensures remote.Failed? ==> r == Fallback(id, LookupFallbackName)
  {
    match remote
    case Answered(p) => p
    case Failed => Fallback(id, LookupFallbackName)
  }

  /** `reduceStock`; the quantity travels in the request body and does not
      shape the answer. */
  function ReduceStock(id: int, quantity: int, remote: Remote<ProductResponse>): (r: ProductResponse)
    ensures remote.Answered? ==> r == remote.value
    ensures remote.Failed? ==> r == Fallback(id, ReductionFallbackName)
  {
    match remote
    case Answered(p) => p
    case Failed => Fallback(id, ReductionFallbackName)
  }

  /** The two substitutes agree on every field but the name, and the names
      tell them apart. */
  lemma FallbacksDifferOnlyInName(id: int, quantity: int)
    ensures GetProduct(id, Failed).(name := "") == ReduceStock(id, quantity, Failed).(name := "")
    ensures GetProduct(id, Failed).name != ReduceStock(id, quantity, Failed).name
  {
  }

  /** A caller can tell a substitute from a real record only by its name:
      a live product named like the sentinel, with zero price and stock,
      is indistinguishable from a failed call. */
  lemma FallbackIndistinguishable(id: int)
    ensures GetProduct(id, Answered(ProductResponse(id, LookupFallbackName, 0, Some(0)))) == GetProduct(id, Failed)
  {
  }
}

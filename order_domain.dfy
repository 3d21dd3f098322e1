/** The order service's entities `Order` and `OrderItem`, reduced to the
    fields the controllers read and write. */
module OrderDomain {
  import opened Common

  /** `Order.status`, which only ever holds one of three strings. */
  datatype OrderStatus = Created | Paid | Failed

  function StatusName(s: OrderStatus): string {
    match s
    case Created => "CREATED"
    case Paid => "PAID"
    case Failed => "FAILED"
  }

  function StatusFromName(name: string): (r: Option<OrderStatus>)
    ensures r.Some? ==> StatusName(r.value) == name
  {
    if name == "CREATED" then Some(Created)
    else if name == "PAID" then Some(Paid)
    else if name == "FAILED" then Some(Failed)
    else None
  }

  /** Every status the service writes reads back as itself. */
  lemma StatusNamesParseBack(s: OrderStatus)
    ensures StatusFromName(StatusName(s)) == Some(s)
  {
    match s
    case Created =>
    case Paid =>
    case Failed =>
  }

  /** One order line: a snapshot of the product at ordering time. */
  datatype OrderItem = OrderItem(productId: int, productName: string, quantity: int, unitPrice: Money, totalPrice: Money)

  datatype Order = Order(id: int, customerUsername: string, items: seq<OrderItem>, totalAmount: Money, status: OrderStatus)

  /** `Order.calculateTotalAmount`, taken to be the sum of the line totals. */
  function SumLineTotals(items: seq<OrderItem>): Money {
    if items == [] then 0 else SumLineTotals(items[..|items| - 1]) + items[|items| - 1].totalPrice
  }
}

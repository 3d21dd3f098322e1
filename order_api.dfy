/** The order endpoints' request records, their declared constraints and
    the response projections of `Order` and `OrderItem`. */
module OrderApi {
  import opened Common
  import opened OrderDomain

  /** `OrderItemRequest`: `@Min(1)` is declared on both fields but the
      `items` list carries no `@Valid`, so it is never checked. */
  datatype OrderItemRequest = OrderItemRequest(productId: int, quantity: int)

  datatype CreateOrderRequest = CreateOrderRequest(items: seq<OrderItemRequest>)

  /** `@NotEmpty` on `items`: the only constraint `@Valid` enforces. */
  predicate IsValidCreateOrderRequest(req: CreateOrderRequest) {
    |req.items| > 0
  }

  datatype OrderItemResponse = OrderItemResponse(
    productId: int, productName: string, quantity: int, unitPrice: Money, totalPrice: Money)

  datatype OrderResponse = OrderResponse(
    id: int, customerUsername: string, items: seq<OrderItemResponse>, totalAmount: Money, status: string)

  /** `new OrderItemResponse(item)`. */
  function ItemResponse(item: OrderItem): OrderItemResponse {
    OrderItemResponse(item.productId, item.productName, item.quantity, item.unitPrice, item.totalPrice)
  }

  /** `items.stream().map(OrderItemResponse::new).toList()`: one response
      per line, in the same order. */
  function ItemResponses(items: seq<OrderItem>): (r: seq<OrderItemResponse>)
    ensures |r| == |items|
    ensures forall k :: 0 <= k < |items| ==> r[k] == ItemResponse(items[k])
  {
    if items == [] then [] else [ItemResponse(items[0])] + ItemResponses(items[1..])
  }

  /** `new OrderResponse(order)`: copies every field of the order and of
      each line without recomputing anything, so the order can be read
      back from it. */
  function ToResponse(o: Order): (r: OrderResponse)
    ensures FromResponse(r) == Some(o)
  {
    ItemResponsesLoseNothing(o.items);
    StatusNamesParseBack(o.status);
    OrderResponse(o.id, o.customerUsername, ItemResponses(o.items), o.totalAmount, StatusName(o.status))
  }

  /** Reading a response back as domain values. */
  function ItemFromResponse(r: OrderItemResponse): OrderItem {
    OrderItem(r.productId, r.productName, r.quantity, r.unitPrice, r.totalPrice)
  }

  function ItemsFromResponses(rs: seq<OrderItemResponse>): (r: seq<OrderItem>)
    ensures |r| == |rs|
  {
    if rs == [] then [] else [ItemFromResponse(rs[0])] + ItemsFromResponses(rs[1..])
  }

  function FromResponse(r: OrderResponse): Option<Order> {
    match StatusFromName(r.status)
    case None => None
    case Some(s) => Some(Order(r.id, r.customerUsername, ItemsFromResponses(r.items), r.totalAmount, s))
  }

  lemma {:induction false} ItemResponsesLoseNothing(items: seq<OrderItem>)
    ensures ItemsFromResponses(ItemResponses(items)) == items
  {
    if items != [] {
      ItemResponsesLoseNothing(items[1..]);
      assert ItemResponses(items)[1..] == ItemResponses(items[1..]);
      assert items == [items[0]] + items[1..];
    }
  }
}

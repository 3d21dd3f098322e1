/** The order service's controller: `create` drives the product client once
    per line item, saves the order and publishes one payment request;
    `get` and `getMyOrders` are owner-scoped reads. */
module Orders {
  import opened Common
  import opened OrderDomain
  import opened OrderRepository
  import opened OrderApi
  import opened ProductClient
  import opened PaymentEvents

  /** How the two guarded calls made for one line item came out. */
  datatype ItemAnswers = ItemAnswers(lookup: Remote<ProductResponse>, reduction: Remote<ProductResponse>)

  /** A `reduceStock` call the controller makes through the product client;
      with the breaker open the client answers from its fallback instead. */
  datatype StockCall = StockCall(productId: int, quantity: int)

  /** What `create` answers. */
  datatype CreateOutcome =
    | Placed(order: OrderResponse)
    | ProductNotFound(productId: int)                         // 400 product_not_found
    | StockReductionFailed(productId: int, message: string)   // 400 stock_reduction_failed
    | Invalid                                                 // 400 from `@NotEmpty`

  /** The message of the `NullPointerException` that `price().multiply`
      raises on a product whose price is null. */
  const NullPriceMessage :=
    "Cannot invoke \"java.math.BigDecimal.multiply(java.math.BigDecimal)\" because the price is null"

  /** The product record `getProduct` hands back for item `item`. */
  function Snapshot(item: OrderItemRequest, answers: ItemAnswers): ProductResponse {
    GetProduct(item.productId, answers.lookup)
  }

  /** The order line built from a pre-decrement snapshot. */
  function LineFor(item: OrderItemRequest, snapshot: ProductResponse): (line: OrderItem)
    requires snapshot.price.Some?
    ensures line.productId == snapshot.id && line.productName == snapshot.name
    ensures line.unitPrice == snapshot.price.value && line.quantity == item.quantity
    ensures line.totalPrice == line.unitPrice * line.quantity
  {
    OrderItem(snapshot.id, snapshot.name, item.quantity, snapshot.price.value,
              snapshot.price.value * item.quantity)
  }

  /** The lines for the first `n` items, in request order, or the index of
      the first of them whose snapshot has no price. */
  function Lines(items: seq<OrderItemRequest>, answers: nat -> ItemAnswers, n: nat): (r: Result<seq<OrderItem>, nat>)
    requires n <= |items|
    ensures r.Ok? ==> |r.value| == n
    ensures r.Err? ==> r.error < n
  {
    if n == 0 then Ok([])
    else
      match Lines(items, answers, n - 1)
      case Err(k) => Err(k)
      case Ok(lines) =>
        var snapshot := Snapshot(items[n - 1], answers(n - 1));
        if snapshot.price.None? then Err(n - 1) else Ok(lines + [LineFor(items[n - 1], snapshot)])
  }

  /** Line `k` is built from item `k`'s snapshot, which is priced; a
      failure names the first item whose snapshot has a null price. */
  lemma {:induction false} LinesFollowSnapshots(items: seq<OrderItemRequest>, answers: nat -> ItemAnswers, n: nat)
    requires n <= |items|
    ensures var r := Lines(items, answers, n);
            r.Ok? ==> forall k :: 0 <= k < n ==>
              Snapshot(items[k], answers(k)).price.Some? && r.value[k] == LineFor(items[k], Snapshot(items[k], answers(k)))
    ensures var r := Lines(items, answers, n);
            r.Err? ==> && Snapshot(items[r.error], answers(r.error)).price.None?
                       && forall k :: 0 <= k < r.error ==> Snapshot(items[k], answers(k)).price.Some?
    decreases n
  {
    if n > 0 {
      LinesFollowSnapshots(items, answers, n - 1);
    }
  }

  /** Once an item has failed, the failure stands for every longer prefix. */
  lemma {:induction false} FailureStands(items: seq<OrderItemRequest>, answers: nat -> ItemAnswers, k: nat, n: nat)
    requires k < n <= |items|
    requires Lines(items, answers, k + 1) == Err(k)
    ensures Lines(items, answers, n) == Err(k)
    decreases n
  {
    if n > k + 1 {
      FailureStands(items, answers, k, n - 1);
    }
  }

  /** The stock reductions requested for `items`, in order. */
  function Calls(items: seq<OrderItemRequest>): (r: seq<StockCall>)
    ensures |r| == |items|
    ensures forall k :: 0 <= k < |items| ==> r[k] == StockCall(items[k].productId, items[k].quantity)
  {
    seq(|items|, k requires 0 <= k < |items| => StockCall(items[k].productId, items[k].quantity))
  }

  lemma CallsOfLongerPrefix(items: seq<OrderItemRequest>, k: nat)
    requires k < |items|
    ensures Calls(items[..k + 1]) == Calls(items[..k]) + [StockCall(items[k].productId, items[k].quantity)]
  {
    assert items[..k + 1][..k] == items[..k];
  }

  /** The reduction answers never shape the lines: `updatedProduct` is
      ignored, so a reduction that failed remotely (and decremented
      nothing) still yields a line at the snapshot price. */
  lemma {:induction false} LinesIgnoreReductions(items: seq<OrderItemRequest>, a: nat -> ItemAnswers, b: nat -> ItemAnswers, n: nat)
    requires n <= |items|
    requires forall k :: 0 <= k < n ==> a(k).lookup == b(k).lookup
    ensures Lines(items, a, n) == Lines(items, b, n)
    decreases n
  {
    if n > 0 {
      LinesIgnoreReductions(items, a, b, n - 1);
      assert Snapshot(items[n - 1], a(n - 1)) == Snapshot(items[n - 1], b(n - 1));
    }
  }

  /** Because the client substitutes a priced record for every failed
      lookup, the lines are complete whenever no product that did answer
      has a null price; the order then always reaches the save. */
  lemma {:induction false} LinesCompleteWhenPriced(items: seq<OrderItemRequest>, answers: nat -> ItemAnswers, n: nat)
    requires n <= |items|
    requires forall k :: 0 <= k < n && answers(k).lookup.Answered? ==> answers(k).lookup.value.price.Some?
    ensures Lines(items, answers, n).Ok?
    decreases n
  {
    if n > 0 {
      LinesCompleteWhenPriced(items, answers, n - 1);
    }
  }

  /** A failed lookup becomes a zero-priced line named after the sentinel. */
  lemma FailedLookupLine(items: seq<OrderItemRequest>, answers: nat -> ItemAnswers, k: nat)
    requires k < |items| && answers(k).lookup.Failed?
    requires Lines(items, answers, |items|).Ok?
    ensures Lines(items, answers, |items|).value[k]
      == OrderItem(items[k].productId, LookupFallbackName, items[k].quantity, 0, 0)
  {
    LinesFollowSnapshots(items, answers, |items|);
    var snapshot := Snapshot(items[k], answers(k));
    assert snapshot == Fallback(items[k].productId, LookupFallbackName);
    assert LineFor(items[k], snapshot) == OrderItem(items[k].productId, LookupFallbackName, items[k].quantity, 0, 0);
  }

  /** The order `create` saves: the caller's, CREATED, with its lines and
      their sum as total, under the id the table hands out. */
  function NewOrder(id: int, customerUsername: string, lines: seq<OrderItem>): (o: Order)
    ensures o.totalAmount == SumLineTotals(o.items) && o.status == Created
  {
    Order(id, customerUsername, lines, SumLineTotals(lines), Created)
  }

  /** The responses for a list of orders, in the same order. */
  function Responses(orders: seq<Order>): (r: seq<OrderResponse>)
    ensures |r| == |orders|
    ensures forall k :: 0 <= k < |orders| ==> r[k] == ToResponse(orders[k])
  {
    if orders == [] then [] else [ToResponse(orders[0])] + Responses(orders[1..])
  }

  class OrderController {
    /** The order table behind `OrderRepository`. */
    const table: OrderTable
    /** Every `PaymentRequest` published, in order. */
    var outbox: seq<PaymentRequest>
    /** Every `reduceStock` call made through the client, in order. */
    var stockCalls: seq<StockCall>

    constructor (table: OrderTable)
      ensures this.table == table && outbox == [] && stockCalls == []
    {
      this.table := table;
      outbox := [];
      stockCalls := [];
    }

    /** `create`. An empty item list is refused before anything happens.
        Otherwise items are served in request order, each with one lookup
        and one reduction request; a null snapshot price aborts with
        `stock_reduction_failed`, saving and publishing nothing and leaving
        the reductions already requested in place. When every item passes,
        the order is saved as CREATED for the caller with the lines in
        request order and their sum as total, and exactly one payment
        request for the saved id and total is published after the save. */
    method Create(req: CreateOrderRequest, currentUser: string, answers: nat -> ItemAnswers) returns (r: CreateOutcome)
      requires table.Valid()
      modifies this, table
      ensures table.Valid()
      ensures !r.ProductNotFound?
      ensures !IsValidCreateOrderRequest(req) ==>
        && r == Invalid
        && table.rows == old(table.rows) && outbox == old(outbox) && stockCalls == old(stockCalls)
      ensures IsValidCreateOrderRequest(req) && Lines(req.items, answers, |req.items|).Err? ==>
        var k := Lines(req.items, answers, |req.items|).error;
        && r == StockReductionFailed(req.items[k].productId, NullPriceMessage)
        && table.rows == old(table.rows) && outbox == old(outbox)
        && stockCalls == old(stockCalls) + Calls(req.items[..k + 1])
      ensures IsValidCreateOrderRequest(req) && Lines(req.items, answers, |req.items|).Ok? ==>
        var saved := NewOrder(|old(table.rows)| + 1, currentUser, Lines(req.items, answers, |req.items|).value);
        && table.rows == old(table.rows) + [saved]
        && outbox == old(outbox) + [PaymentRequest(saved.id, saved.totalAmount)]
        && stockCalls == old(stockCalls) + Calls(req.items)
        && r == Placed(ToResponse(saved))
    {
      if !IsValidCreateOrderRequest(req) {
        return Invalid;
      }
      var outcome := BuildLines(req.items, answers);
      if outcome.Err? {
        return StockReductionFailed(req.items[outcome.error].productId, NullPriceMessage);
      }
      var order := NewOrder(0, currentUser, outcome.value);
      var saved := table.Insert(order);
      outbox := outbox + [PaymentRequest(saved.id, saved.totalAmount)];
      r := Placed(ToResponse(saved));
    }

    /** The item loop of `create`: items are served in request order, each
        with one lookup and one reduction call through the client, until a snapshot without
        a price stops it. The outcome is `Lines`; the reduction calls made are
        those of every item served. */
    method BuildLines(items: seq<OrderItemRequest>, answers: nat -> ItemAnswers)
      returns (outcome: Result<seq<OrderItem>, nat>)
      modifies this
      ensures outcome == Lines(items, answers, |items|)
      ensures outcome.Ok? ==> stockCalls == old(stockCalls) + Calls(items)
      ensures outcome.Err? ==> outcome.error < |items| && stockCalls == old(stockCalls) + Calls(items[..outcome.error + 1])
      ensures outbox == old(outbox)
    {
      var lines: seq<OrderItem> := [];
      for k := 0 to |items|
        invariant Lines(items, answers, k) == Ok(lines)
        invariant stockCalls == old(stockCalls) + Calls(items[..k])
        invariant outbox == old(outbox)
      {
        var item := items[k];
        var product := GetProduct(item.productId, answers(k).lookup);
        // The client never returns null, so `product_not_found` is never answered.
        stockCalls := stockCalls + [StockCall(item.productId, item.quantity)];
        CallsOfLongerPrefix(items, k);
        var updatedProduct := ReduceStock(item.productId, item.quantity, answers(k).reduction);
        if product.price.None? {
          FailureStands(items, answers, k, |items|);
          return Err(k);
        }
        var itemTotal := product.price.value * item.quantity;
        lines := lines + [OrderItem(product.id, product.name, item.quantity, product.price.value, itemTotal)];
      }
      assert items[..|items|] == items;
      outcome := Ok(lines);
    }

    /** `get`: the order when it exists and belongs to the caller; absence
        and someone else's order both give 404. */
    function Get(id: int, currentUser: string): (r: Option<OrderResponse>)
      reads this, table
      ensures r.Some? <==> exists i :: 0 <= i < |table.rows| && table.rows[i].id == id
                                       && table.rows[i].customerUsername == currentUser
      ensures r.Some? ==> exists o :: o in table.rows && o.id == id && o.customerUsername == currentUser
                                      && r.value == ToResponse(o)
    {
      match FindByIdAndCustomerUsernameWithItems(table.rows, id, currentUser)
      case None => None
      case Some(o) => Some(ToResponse(o))
    }

    /** `getMyOrders`: exactly the caller's orders, in table order. */
    function GetMyOrders(currentUser: string): (r: seq<OrderResponse>)
      reads this, table
      ensures |r| <= |table.rows|
      ensures forall k :: 0 <= k < |r| ==>
                exists o :: o in table.rows && o.customerUsername == currentUser && r[k] == ToResponse(o)
      ensures forall o :: o in table.rows && o.customerUsername == currentUser ==> ToResponse(o) in r
      ensures (forall i, j :: 0 <= i < j < |table.rows| ==> table.rows[i].id < table.rows[j].id) ==>
                forall i, j :: 0 <= i < j < |r| ==> r[i].id < r[j].id
    {
      var mine := FindByCustomerUsername(table.rows, currentUser);
      var r := Responses(mine);
      assert forall o :: o in mine ==> ToResponse(o) in r by {
        forall o | o in mine ensures ToResponse(o) in r {
          var k :| 0 <= k < |mine| && mine[k] == o;
          assert r[k] == ToResponse(o);
        }
      }
      assert forall k :: 0 <= k < |r| ==> r[k].id == mine[k].id;
      r
    }
  }
}

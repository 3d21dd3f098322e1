/** The product service's ledger: the product table and the controller
    operations that read and rewrite it, with the conditional stock
    decrement at its centre. Each call is one atomic step; the row lock
    taken by `findByIdWithLock` serialises reductions of one product. */
module Inventory {
  import opened Common
  import opened Text
  import opened ErrorResponses
  import opened ProductApi

  /** A row of the `products` table. `price` is nullable; `owner` is not. */
  datatype Product = Product(id: int, name: string, stock: int, price: Option<Money>, owner: string)

  /** The exceptions a product request can end in. */
  datatype ProductError =
    | ValidationFailed(errors: seq<FieldError>)            // MethodArgumentNotValidException
    | ProductNotFound(id: int)                             // ProductNotFoundException
    | ProductAccessDenied(id: int, owner: string)          // ProductAccessDeniedException
    | InsufficientStock(id: int, available: int, requested: int)  // InsufficientStockException, pre-check
    | ConcurrentStockReduction                             // InsufficientStockException, lost race
    | AccessDenied                                         // Spring Security's AccessDeniedException
    | Unexpected(description: string)                      // any other exception

  /** Owner recorded by `create` when no authentication is present. */
  const AnonymousOwner := "unknown"

  /** `getAuthentication()` is null: `getPrincipal()` throws. */
  const NoAuthentication := "NullPointerException: no authentication"

  const ConcurrentReductionMessage := "Concurrent stock reduction occurred, please try again"

  /** `InsufficientStockException(productId, available, requested)`: the
      message names the product first and the requested quantity last. */
  function InsufficientStockMessage(id: int, available: int, requested: int): (m: string)
    ensures StartsWith(m, "Insufficient stock for product " + IntToString(id) + ". Available: ")
    ensures EndsWith(m, ", Requested: " + IntToString(requested))
  {
    var head := "Insufficient stock for product " + IntToString(id) + ". Available: ";
    var tail := ", Requested: " + IntToString(requested);
    var m := head + IntToString(available) + tail;
    assert m[..|head|] == head;
    assert m[|m| - |tail|..] == tail;
    m
  }

  /** `ProductAccessDeniedException(productId, owner)`: the message names
      the product first and the owner last. */
  function AccessDeniedMessage(id: int, owner: string): (m: string)
    ensures StartsWith(m, "Access denied. Product " + IntToString(id))
    ensures EndsWith(m, " belongs to user: " + owner)
  {
    var head := "Access denied. Product " + IntToString(id);
    var tail := " belongs to user: " + owner;
    var m := head + tail;
    assert m[..|head|] == head;
    assert m[|head|..] == tail;
    m
  }

  /** `ProductNotFoundException(id)`; its exact wording is not modelled, only
      that it carries the id. */
  function NotFoundMessage(id: int): string {
    "Product not found: " + IntToString(id)
  }

  /** The stock a product holds after one reduction request of `quantity`:
      refused (unchanged) when the stock is smaller, decremented otherwise. */
  function StockAfter(stock: int, quantity: int): (r: int)
    ensures stock >= 0 ==> r >= 0
    ensures r == stock || (quantity <= stock && r == stock - quantity)
    ensures quantity <= stock ==> r == stock - quantity
  {
    if stock < quantity then stock else stock - quantity
  }

  /** What a run of reduction requests, served one after another, did to
      one product: how many were accepted and refused, the quantity taken,
      and the stock left. */
  datatype Tally = Tally(accepted: nat, refused: nat, taken: int, stock: int)

  function Serial(stock: int, quantities: seq<int>): (t: Tally)
    ensures t.accepted + t.refused == |quantities|
    ensures t.stock == stock - t.taken
    decreases |quantities|
  {
    if quantities == [] then Tally(0, 0, 0, stock)
    else
      var q := quantities[0];
      var rest := Serial(StockAfter(stock, q), quantities[1..]);
      if stock < q then rest.(refused := rest.refused + 1)
      else rest.(accepted := rest.accepted + 1, taken := rest.taken + q)
  }

  /** The total quantity of a run of requests, independent of `Serial`. */
  function Sum(quantities: seq<int>): (total: int)
    ensures (forall i :: 0 <= i < |quantities| ==> quantities[i] >= 0) ==> total >= 0
    decreases |quantities|
  {
    if quantities == [] then 0 else quantities[0] + Sum(quantities[1..])
  }

  /** When the stock covers the whole run of non-negative requests, every
      request is served: nothing is refused, the total is taken and the
      stock left is the initial stock minus that total. */
  lemma {:induction false} SerialServesCoveredRequests(stock: int, quantities: seq<int>)
    requires forall i :: 0 <= i < |quantities| ==> quantities[i] >= 0
    requires Sum(quantities) <= stock
    ensures Serial(stock, quantities) == Tally(|quantities|, 0, Sum(quantities), stock - Sum(quantities))
    decreases |quantities|
  {
    if quantities != [] {
      var q, rest := quantities[0], quantities[1..];
      assert forall i :: 0 <= i < |rest| ==> rest[i] == quantities[i + 1];
      assert Sum(rest) >= 0;
      assert StockAfter(stock, q) == stock - q;
      SerialServesCoveredRequests(stock - q, rest);
    }
  }

  /** `k` requests of one unit each. */
  function Units(k: nat): (r: seq<int>)
    ensures |r| == k && forall i :: 0 <= i < k ==> r[i] == 1
  {
    seq(k, _ => 1)
  }

  /** However the requests are sized (zero and negative quantities
      included, since nothing validates them), serving them in turn
      never drives the stock below zero, and the stock left is the
      initial stock minus what the accepted requests took. */
  lemma {:induction false} SerialConservesStock(stock: int, quantities: seq<int>)
    requires stock >= 0
    ensures Serial(stock, quantities).stock >= 0
    ensures Serial(stock, quantities).stock == stock - Serial(stock, quantities).taken
    ensures Serial(stock, quantities).accepted + Serial(stock, quantities).refused == |quantities|
    decreases |quantities|
  {
    if quantities != [] {
      SerialConservesStock(StockAfter(stock, quantities[0]), quantities[1..]);
    }
  }

  /** `k` unit requests against a stock of `s` serve exactly `min(k, s)`
      of them and leave `max(s - k, 0)`. */
  lemma {:induction false} SerialUnitRequests(s: nat, k: nat)
    ensures Serial(s, Units(k)) == Tally(if k <= s then k else s, if k <= s then 0 else k - s,
                                         if k <= s then k else s, if k <= s then s - k else 0)
    decreases k
  {
    if k > 0 {
      assert Units(k)[1..] == Units(k - 1);
      SerialUnitRequests(StockAfter(s, 1), k - 1);
    }
  }

  /** Ten units in stock, fifteen one-unit requests: ten succeed, five are
      refused, nothing is left. */
  lemma TenUnitsFifteenRequests()
    ensures Serial(10, Units(15)) == Tally(10, 5, 10, 0)
  {
    SerialUnitRequests(10, 15);
  }

  /** `list(page, size)` over `rows`, the table in the order the store
      enumerates it. `PageRequest.of` rejects a negative page and a size
      below one; otherwise the page is the slice starting at `page * size`. */
  function ListPage(rows: seq<Product>, page: Option<int>, size: Option<int>): (r: Result<seq<Product>, ProductError>)
    ensures var p := if page.Some? then page.value else DefaultPage;
            var n := if size.Some? then size.value else DefaultSize;
            && (r.Ok? <==> p >= 0 && n >= 1)
            && (r.Ok? ==> |r.value| <= n)
            && (r.Ok? ==> forall k :: 0 <= k < |r.value| ==> p * n + k < |rows| && r.value[k] == rows[p * n + k])
  {
    var p := if page.Some? then page.value else DefaultPage;
    var n := if size.Some? then size.value else DefaultSize;
    if p < 0 then Err(Unexpected("IllegalArgumentException: Page index must not be less than zero"))
    else if n < 1 then Err(Unexpected("IllegalArgumentException: Page size must not be less than one"))
    else if p * n >= |rows| then Ok([])
    else
      var hi := if p * n + n <= |rows| then p * n + n else |rows|;
      Ok(rows[p * n..hi])
  }

  /** Paging loses no row: row `k` is on page `k / size`, at `k % size`. */
  lemma PagesCoverRows(rows: seq<Product>, size: nat, k: nat)
    requires size >= 1 && k < |rows|
    ensures var r := ListPage(rows, Some(k / size), Some(size));
            r.Ok? && k % size < |r.value| && r.value[k % size] == rows[k]
  {
    var p := k / size;
    assert p * size + k % size == k;
    assert p * size <= k;
  }

  class ProductController {
    var products: map<int, Product>
    /** The next id the IDENTITY column hands out. */
    var nextId: int

    /** Every row sits under its own id, below `nextId`, holds a non-blank
        name and a stock that is never negative. */
    ghost predicate Valid()
      reads this
    {
      && nextId >= 1
      && forall id :: id in products ==>
           && products[id].id == id
           && 1 <= id < nextId
           && products[id].stock >= 0
           && !IsBlank(Some(products[id].name))
    }

    constructor ()
      ensures Valid() && products == map[] && nextId == 1
    {
      products := map[];
      nextId := 1;
    }

    /** `create`: a valid request is saved as a new row owned by the
        caller, or by "unknown" when nobody is authenticated. */
    method Create(req: ProductRequest, principal: Option<string>) returns (r: Result<Product, ProductError>)
      requires Valid()
      modifies this
      ensures Valid()
      ensures !IsValidProductRequest(req) ==>
        r == Err(ValidationFailed(Violations(req))) && products == old(products) && nextId == old(nextId)
      ensures IsValidProductRequest(req) ==>
        && r.Ok?
        && r.value.id !in old(products)
        && r.value == Product(r.value.id, req.name.value, req.stock, req.price,
                              if principal.Some? then principal.value else AnonymousOwner)
        && products == old(products)[r.value.id := r.value]
    {
      if !IsValidProductRequest(req) {
        return Err(ValidationFailed(Violations(req)));
      }
      var owner := if principal.Some? then principal.value else AnonymousOwner;
      var p := Product(nextId, req.name.value, req.stock, req.price, owner);
      products := products[nextId := p];
      nextId := nextId + 1;
      r := Ok(p);
    }

    /** `get`: the row under `id`, or ProductNotFound. */
    method Get(id: int) returns (r: Result<Product, ProductError>)
      ensures r.Ok? <==> id in products
      ensures r.Ok? ==> r.value == products[id]
      ensures r.Err? ==> r.error == ProductNotFound(id)
    {
      if id in products {
        r := Ok(products[id]);
      } else {
        r := Err(ProductNotFound(id));
      }
    }

    /** `update`: only the owner may rewrite name, price and stock; the
        owner and every other row stay as they were. */
    method Update(id: int, req: ProductRequest, principal: Option<string>) returns (r: Result<Product, ProductError>)
      requires Valid()
      modifies this
      ensures Valid() && nextId == old(nextId)
      ensures !IsValidProductRequest(req) ==> r == Err(ValidationFailed(Violations(req)))
      ensures IsValidProductRequest(req) && principal.None? ==> r == Err(Unexpected(NoAuthentication))
      ensures IsValidProductRequest(req) && principal.Some? && id !in old(products) ==>
        r == Err(ProductNotFound(id))
      ensures IsValidProductRequest(req) && principal.Some? && id in old(products)
              && old(products)[id].owner != principal.value ==>
        r == Err(ProductAccessDenied(id, old(products)[id].owner))
      ensures r.Ok? <==> IsValidProductRequest(req) && principal.Some? && id in old(products)
                         && old(products)[id].owner == principal.value
      ensures r.Err? ==> products == old(products)
      ensures r.Ok? ==>
        && r.value == old(products)[id].(name := req.name.value, price := req.price, stock := req.stock)
        && products == old(products)[id := r.value]
    {
      if !IsValidProductRequest(req) {
        return Err(ValidationFailed(Violations(req)));
      }
      if principal.None? {
        return Err(Unexpected(NoAuthentication));
      }
      if id !in products {
        return Err(ProductNotFound(id));
      }
      var product := products[id];
      if product.owner != principal.value {
        return Err(ProductAccessDenied(id, product.owner));
      }
      product := product.(name := req.name.value, price := req.price, stock := req.stock);
      products := products[id := product];
      r := Ok(product);
    }

    /** `delete`: only the owner may remove a row. */
    method Delete(id: int, principal: Option<string>) returns (r: Result<(), ProductError>)
      requires Valid()
      modifies this
      ensures Valid() && nextId == old(nextId)
      ensures principal.None? ==> r == Err(Unexpected(NoAuthentication))
      ensures principal.Some? && id !in old(products) ==> r == Err(ProductNotFound(id))
      ensures principal.Some? && id in old(products) && old(products)[id].owner != principal.value ==>
        r == Err(ProductAccessDenied(id, old(products)[id].owner))
      ensures r.Ok? <==> principal.Some? && id in old(products) && old(products)[id].owner == principal.value
      ensures r.Err? ==> products == old(products)
      ensures r.Ok? ==> products == old(products) - {id}
    {
      if principal.None? {
        return Err(Unexpected(NoAuthentication));
      }
      if id !in products {
        return Err(ProductNotFound(id));
      }
      if products[id].owner != principal.value {
        return Err(ProductAccessDenied(id, products[id].owner));
      }
      products := products - {id};
      r := Ok(());
    }

    /** `ProductRepository.reduceStock`, a single conditional UPDATE that
        subtracts `quantity` only where the stock covers it, and reports the
        number of rows it changed. That interface is not part of this
        model; this is the query its name and its use describe. */
    method DecrementIfAvailable(id: int, quantity: int) returns (updatedRows: int)
      requires Valid()
      modifies this
      ensures Valid() && nextId == old(nextId)
      ensures updatedRows == 1 <==> id in old(products) && old(products)[id].stock >= quantity
      ensures updatedRows == 0 || updatedRows == 1
      ensures updatedRows == 0 ==> products == old(products)
      ensures updatedRows == 1 ==>
        products == old(products)[id := old(products)[id].(stock := old(products)[id].stock - quantity)]
    {
      if id in products && products[id].stock >= quantity {
        products := products[id := products[id].(stock := products[id].stock - quantity)];
        updatedRows := 1;
      } else {
        updatedRows := 0;
      }
    }

    /** `reduceStock`: a missing product and a stock below the requested
        quantity are refused without a change; otherwise the stock drops by
        exactly `quantity` and the re-read row is returned, taken to show the
        decrement (the update query is assumed to clear the persistence
        context). The quantity is not validated, so it may be zero or
        negative. */
    method ReduceStock(id: int, req: StockReductionRequest) returns (r: Result<Product, ProductError>)
      requires Valid()
      modifies this
      ensures Valid() && nextId == old(nextId)
      ensures id !in old(products) ==> r == Err(ProductNotFound(id)) && products == old(products)
      ensures id in old(products) && old(products)[id].stock < req.quantity ==>
        && r == Err(InsufficientStock(id, old(products)[id].stock, req.quantity))
        && products == old(products)
      ensures id in old(products) && old(products)[id].stock >= req.quantity ==>
        && products == old(products)[id := old(products)[id].(stock := old(products)[id].stock - req.quantity)]
        && r == Ok(products[id])
      ensures id in old(products) ==> products[id].stock == StockAfter(old(products)[id].stock, req.quantity)
      ensures r != Err(ConcurrentStockReduction)
    {
      if id !in products {
        return Err(ProductNotFound(id));
      }
      var product := products[id];
      if product.stock < req.quantity {
        return Err(InsufficientStock(id, product.stock, req.quantity));
      }
      var updatedRows := DecrementIfAvailable(id, req.quantity);
      if updatedRows == 0 {
        return Err(ConcurrentStockReduction);
      }
      r := Ok(products[id]);
    }
  }
}

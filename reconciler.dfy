/** The order service's `PaymentResultListener`: a payment result sets the
    status of the order it names, with no regard for the status it had. */
module Reconciler {
  import opened Common
  import opened Text
  import opened OrderDomain
  import opened OrderRepository
  import opened PaymentEvents

  /** The status a result maps to: PAID when its status equals "PAID"
      ignoring case, FAILED for anything else, null included. */
  function SettledStatus(status: Option<string>): (s: OrderStatus)
    ensures s == Paid <==> status.Some? && EqualsIgnoreCase("PAID", status.value)
    ensures s != Created
  {
    if status.Some? && EqualsIgnoreCase("PAID", status.value) then Paid else Failed
  }

  /** The table after the result is applied: the order it names, when
      present, takes the mapped status; no row under another id changes.
      With identity ids the changed row keeps everything but its status
      (`AppliedChangesOnlyThatStatus`). */
  function Applied(rows: seq<Order>, result: PaymentResult): (after: seq<Order>)
    ensures |after| == |rows|
    ensures forall i :: 0 <= i < |rows| ==>
              || after[i] == rows[i]
              || (rows[i].id == result.orderId && after[i].id == result.orderId
                  && after[i].status == SettledStatus(result.status))
  {
    match FindByIdWithItems(rows, result.orderId)
    case None => rows
    case Some(o) => ReplaceById(rows, o.(status := SettledStatus(result.status)))
  }

  /** Only the status of the named order changes: its other fields, and
      every other order, stay as they were. */
  lemma AppliedChangesOnlyThatStatus(rows: seq<Order>, result: PaymentResult)
    requires IdsAreRowNumbers(rows)
    ensures var after := Applied(rows, result);
            && |after| == |rows|
            && forall i :: 0 <= i < |rows| ==>
                 after[i] == if rows[i].id == result.orderId then rows[i].(status := SettledStatus(result.status))
                             else rows[i]
  {
    FindByIdIsIndex(rows, result.orderId);
  }

  /** Applying a result leaves the ids where they were. */
  lemma AppliedKeepsIds(rows: seq<Order>, result: PaymentResult)
    requires IdsAreRowNumbers(rows)
    ensures IdsAreRowNumbers(Applied(rows, result))
  {
    AppliedChangesOnlyThatStatus(rows, result);
  }

  /** The last of two results for the same order wins, whatever the first
      one set: there is no guard on the current status, so a later FAILED
      overwrites PAID and the other way round. */
  lemma LaterResultWins(rows: seq<Order>, first: PaymentResult, second: PaymentResult)
    requires IdsAreRowNumbers(rows)
    requires first.orderId == second.orderId
    ensures Applied(Applied(rows, first), second) == Applied(rows, second)
  {
    var mid := Applied(rows, first);
    AppliedChangesOnlyThatStatus(rows, first);
    AppliedKeepsIds(rows, first);
    AppliedChangesOnlyThatStatus(mid, second);
    AppliedChangesOnlyThatStatus(rows, second);
    var a := Applied(mid, second);
    var b := Applied(rows, second);
    assert |a| == |b|;
    forall i | 0 <= i < |a| ensures a[i] == b[i] {
    }
  }

  /** A redelivered result changes nothing more. */
  lemma RedeliveryIsHarmless(rows: seq<Order>, result: PaymentResult)
    requires IdsAreRowNumbers(rows)
    ensures Applied(Applied(rows, result), result) == Applied(rows, result)
  {
    LaterResultWins(rows, result, result);
  }

  class PaymentResultListener {
    const table: OrderTable

    constructor (table: OrderTable)
      ensures this.table == table
    {
      this.table := table;
    }

    /** `onPaymentResult`. */
    method OnPaymentResult(result: PaymentResult)
      requires table.Valid()
      modifies table
      ensures table.Valid()
      ensures table.rows == Applied(old(table.rows), result)
    {
      var found := FindByIdWithItems(table.rows, result.orderId);
      if found.Some? {
        var order := found.value.(status := SettledStatus(result.status));
        table.Update(order);
      }
    }
  }
}

/** The settlement loop end to end: the gateway's result, delivered to the
    order service, lands on the order as its final status. */
module Settlement {
  import opened Common
  import opened Text
  import opened OrderDomain
  import opened OrderRepository
  import opened PaymentEvents
  import opened PaymentGateway
  import opened Reconciler

  /** The gateway's two answers map to the matching order statuses. */
  lemma GatewayResultSettles(request: PaymentRequest, draw: int)
    requires 0 <= draw < 100
    ensures SettledStatus(OnPaymentRequest(request, draw).status) == if draw < 90 then Paid else Failed
  {
    assert ToLower("FAILED") != ToLower("PAID");
  }

  /** Matching ignores case and reads every other answer as failure. */
  lemma StatusMatching()
    ensures SettledStatus(Some("paid")) == Paid
    ensures SettledStatus(Some("Paid")) == Paid
    ensures SettledStatus(Some("DECLINED")) == Failed
    ensures SettledStatus(None) == Failed
  {
    assert ToLower("paid") == ToLower("PAID") == ToLower("Paid");
    assert |ToLower("DECLINED")| != |ToLower("PAID")|;
  }

  /** A request for a stored order, paid by the gateway, marks that order
      PAID and leaves everything else as it was. */
  lemma PaidRequestMarksOrderPaid(rows: seq<Order>, request: PaymentRequest, draw: int)
    requires IdsAreRowNumbers(rows)
    requires 1 <= request.orderId <= |rows|
    requires 0 <= draw < 90
    ensures var after := Applied(rows, OnPaymentRequest(request, draw));
            && |after| == |rows|
            && after[request.orderId - 1] == rows[request.orderId - 1].(status := Paid)
            && forall i :: 0 <= i < |rows| && i != request.orderId - 1 ==> after[i] == rows[i]
  {
    var result := OnPaymentRequest(request, draw);
    GatewayResultSettles(request, draw);
    AppliedChangesOnlyThatStatus(rows, result);
  }
}

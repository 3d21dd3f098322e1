/** The payment service's simulated gateway: one result per request,
    decided by a draw from `new Random().nextInt(100)`, here an input. */
module PaymentGateway {
  import opened Common
  import opened PaymentEvents

  const Paid := "PAID"
  const Declined := "FAILED"

  /** `onPaymentRequest`: draws below 90 pay, the rest fail. */
  function OnPaymentRequest(request: PaymentRequest, draw: int): (r: PaymentResult)
    requires 0 <= draw < 100
    ensures r.orderId == request.orderId
    ensures r.status == Some(Paid) <==> draw < 90
    ensures r.status == Some(Paid) || r.status == Some(Declined)
  {
    PaymentResult(request.orderId, Some(if draw < 90 then Paid else Declined))
  }

  /** The amount plays no part in the decision. */
  lemma AmountIgnored(request: PaymentRequest, amount: Money, draw: int)
    requires 0 <= draw < 100
    ensures OnPaymentRequest(request.(amount := amount), draw) == OnPaymentRequest(request, draw)
  {
  }

  /** The number of draws in [0, n) that pay. */
  function PayingDraws(request: PaymentRequest, n: nat): nat
    requires n <= 100
  {
    if n == 0 then 0
    else PayingDraws(request, n - 1) + if OnPaymentRequest(request, n - 1).status == Some(Paid) then 1 else 0
  }

  lemma {:induction false} PayingDrawsBelow(request: PaymentRequest, n: nat)
    requires n <= 100
    ensures PayingDraws(request, n) == if n <= 90 then n else 90
  {
    if n > 0 {
      PayingDrawsBelow(request, n - 1);
    }
  }

  /** Ninety of the hundred equally likely draws pay: a 90% success rate. */
  lemma NinetyInAHundredPay(request: PaymentRequest)
    ensures PayingDraws(request, 100) == 90
  {
    PayingDrawsBelow(request, 100);
  }
}

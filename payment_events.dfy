/** The two messages between the order and payment services. Both services
    declare the same two records; they agree field for field. */
module PaymentEvents {
  import opened Common

  datatype PaymentRequest = PaymentRequest(orderId: int, amount: Money)

  /** `status` is a nullable string on the receiving side. */
  datatype PaymentResult = PaymentResult(orderId: int, status: Option<string>)
}

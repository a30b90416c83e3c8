/** The event-to-topic registry (packages/common/src/messaging/topics.ts). */
module Topics {
  import opened Wrappers

  const PAYMENT_INITIATED := "PaymentInitiated"
  const DLQ_TOPIC := "payments.dlq"

  function TopicFor(eventType: string): Option<string> {
    if eventType == PAYMENT_INITIATED then Some("payments.initiated")
    else if eventType == DLQ_TOPIC then Some(DLQ_TOPIC)
    else None
  }
}

/** The relay's judgement of one delivery: order checks, error classes, retry delay (worker.go). */
module Delivery {
  import opened Wrappers
  import opened Model
  import Text

  const PROVIDER_STRIPE := "stripe"
  const MAX_BACKOFF: Duration := 300 * SECOND

  // ------------------------------------------------------------------ errors

  /** An error as `process` sees it: a sentinel, a classified error, or anything else. */
  datatype Failure =
    | Sentinel(error: Error)
    | Classified(category: string, permanent: bool, cause: Option<Error>)
    | Unclassified

  /** errors.Is */
  predicate Is(failure: Failure, error: Error) {
    match failure
    case Sentinel(e) => e == error
    case Classified(_, _, cause) => cause == Some(error)
    case Unclassified => false
  }

  /** permanentDeliveryError */
  predicate Permanent(failure: Failure) {
    if failure.Classified? then failure.permanent
    else Is(failure, CheckoutConflict) || Is(failure, InvalidProviderFact)
  }

  /** deliveryCategory */
  function Category(failure: Failure): string {
    if failure.Classified? && failure.category != "" && Text.ByteLength(failure.category) <= 64 then failure.category
    else if Is(failure, MappingNotFound) then "mapping"
    else if Is(failure, CheckoutConflict) then "mapping_conflict"
    else "database"
  }

  datatype Settlement = Drop | Quarantine | Retry

  /** What `process` does with the claim after an error. */
  function Settle(failure: Failure): Settlement {
    if Is(failure, ClaimLost) then Drop else if Permanent(failure) then Quarantine else Retry
  }

  /** Errors of the Billing client: never permanent, never a lost claim. */
  predicate GatewayFailure(failure: Failure) {
    && !Is(failure, ClaimLost)
    && (failure.Unclassified? || (failure.Classified? && !failure.permanent))
  }

  // ------------------------------------------------------------ order checks

  /** validOrderIdentity */
  predicate ValidOrderIdentity(order: PaymentOrder, key: OrderKey) {
    && Text.ValidIdentity(order.id) && order.Key() == key
    && order.provider == PROVIDER_STRIPE && Text.ByteLength(order.currency) == 3 && order.amountMinor > 0
    && order.revision > 0 && order.updatedAt != ZERO_TIME
  }

  function ValidateCapture(order: PaymentOrder, delivery: TrustedDelivery): Option<Error> {
    if delivery.amountMinor != order.amountMinor then Some(CheckoutConflict)
    else if order.status != "pending" && order.status != "succeeded" then Some(DeliveryNotReady)
    else None
  }

  function ValidateRefund(order: PaymentOrder, delivery: TrustedDelivery): Option<Error> {
    if delivery.amountMinor <= 0 || delivery.amountMinor > order.amountMinor then Some(CheckoutConflict)
    else if order.status !in ["succeeded", "partially_refunded", "refunded"] then Some(DeliveryNotReady)
    else None
  }

  function ValidateReversal(order: PaymentOrder, delivery: TrustedDelivery): Option<Error> {
    if delivery.amountMinor <= 0 || delivery.amountMinor > order.amountMinor then Some(CheckoutConflict)
    else if order.status == "succeeded" || order.status == "pending" then Some(DeliveryNotReady)
    else if delivery.amountMinor > order.refundedMinor then Some(DeliveryNotReady)
    else None
  }

  /** validateDeliveryOrder: the error that stops a delivery, if any. */
  function ValidateDeliveryOrder(order: PaymentOrder, delivery: TrustedDelivery): Option<Error> {
    if !ValidOrderIdentity(order, delivery.order) || order.currency != delivery.currency
       || (order.providerOrderId != "" && order.providerOrderId != delivery.providerOrderId) then
      Some(CheckoutConflict)
    else if delivery.kind == EVENT_CAPTURED then ValidateCapture(order, delivery)
    else if delivery.kind == EVENT_REFUNDED || delivery.kind == EVENT_CHARGEBACK then ValidateRefund(order, delivery)
    else if delivery.kind == EVENT_CHARGEBACK_REVERSED then ValidateReversal(order, delivery)
    else Some(InvalidProviderFact)
  }

  /** The amount a delivery may have, whatever state the order is in. */
  predicate AmountAllowed(order: PaymentOrder, delivery: TrustedDelivery) {
    if delivery.kind == EVENT_CAPTURED then delivery.amountMinor == order.amountMinor
    else 0 < delivery.amountMinor <= order.amountMinor
  }

  /** The order has come far enough for the delivery. */
  predicate OrderReady(order: PaymentOrder, delivery: TrustedDelivery) {
    if delivery.kind == EVENT_CAPTURED then order.status in ["pending", "succeeded"]
    else if delivery.kind == EVENT_CHARGEBACK_REVERSED then
      order.status !in ["pending", "succeeded"] && delivery.amountMinor <= order.refundedMinor
    else order.status in ["succeeded", "partially_refunded", "refunded"]
  }

  predicate OrderMatches(order: PaymentOrder, delivery: TrustedDelivery) {
    && ValidOrderIdentity(order, delivery.order) && order.currency == delivery.currency
    && (order.providerOrderId == "" || order.providerOrderId == delivery.providerOrderId)
    && delivery.kind in [EVENT_CAPTURED, EVENT_REFUNDED, EVENT_CHARGEBACK, EVENT_CHARGEBACK_REVERSED]
  }

  /**
   A delivery goes out exactly when order, amount and state allow it; it is retried exactly when only the
   state of the order does not yet; in every other case it is quarantined.
   */
  lemma OrderCheckDecides(order: PaymentOrder, delivery: TrustedDelivery)
    ensures
      var problem := ValidateDeliveryOrder(order, delivery);
      var matches := OrderMatches(order, delivery) && AmountAllowed(order, delivery);
      && (problem.None? <==> matches && OrderReady(order, delivery))
      && (problem == Some(DeliveryNotReady) <==> matches && !OrderReady(order, delivery))
      && (problem.Some? ==>
            Settle(OrderStateFailure(problem.value)) == if matches then Retry else Quarantine)
  {
    if OrderMatches(order, delivery) {
      if delivery.kind == EVENT_CAPTURED {
        assert ValidateDeliveryOrder(order, delivery) == ValidateCapture(order, delivery);
      } else if delivery.kind == EVENT_CHARGEBACK_REVERSED {
        assert ValidateDeliveryOrder(order, delivery) == ValidateReversal(order, delivery);
      } else {
        assert ValidateDeliveryOrder(order, delivery) == ValidateRefund(order, delivery);
      }
    }
  }

  /** How `deliver` wraps an order check that failed. */
  function OrderStateFailure(error: Error): Failure {
    Classified("order_state", error != DeliveryNotReady, Some(error))
  }

  const UNBOUND_TENANT := Classified("binding", true, Some(MappingNotFound))

  // ------------------------------------------------------------- retry delay

  function BigEndian(bytes: Bytes): nat {
    if bytes == [] then 0 else BigEndian(bytes[..|bytes| - 1]) * 256 + bytes[|bytes| - 1] as nat
  }

  function JitterSeed(digest: Bytes): nat {
    if |digest| >= 8 then BigEndian(digest[..8]) else 0
  }

  function Pow2(e: nat): nat {
    if e == 0 then 1 else 2 * Pow2(e - 1)
  }

  function Min(a: int, b: int): int {
    if a <= b then a else b
  }

  /** The delay before retry `attempt`: 2^min(attempt, 8) s, up to a quarter of jitter, at most 300 s. */
  function Backoff(attempt: nat, digest: Bytes): Duration {
    var base := Pow2(Min(attempt, 8)) * SECOND;
    Pow2Positive(Min(attempt, 8));
    Min(base + JitterSeed(digest) % (base / 4), MAX_BACKOFF)
  }

  lemma {:induction false} Pow2Positive(e: nat)
    ensures Pow2(e) >= 1
  {
    if e > 0 {
      Pow2Positive(e - 1);
    }
  }

  lemma {:induction false} Pow2Grows(e: nat, e': nat)
    requires e <= e'
    ensures Pow2(e) <= Pow2(e')
  {
    if e < e' {
      Pow2Grows(e, e' - 1);
      Pow2Positive(e' - 1);
    }
  }

  lemma Pow2Of8()
    ensures Pow2(8) == 256
  {
    assert Pow2(4) == 16;
  }

  /** deliveryBackoff: the delay is capped before and after the jitter. */
  method DeliveryBackoff(attempt: nat, digest: Bytes) returns (delay: Duration)
    ensures delay == Backoff(attempt, digest)
  {
    var exponent: nat := attempt;
    if exponent > 8 {
      exponent := 8;
    }
    Pow2Of8();
    Pow2Grows(exponent, 8);
    Pow2Positive(exponent);
    delay := SECOND * Pow2(exponent);
    if delay > MAX_BACKOFF {
      delay := MAX_BACKOFF;
    }
    var seed := JitterSeed(digest);
    var jitterWindow := delay / 4;
    if jitterWindow > 0 {
      delay := delay + seed % jitterWindow;
    }
    if delay > MAX_BACKOFF {
      return MAX_BACKOFF;
    }
  }

  /** The delay stays within [2^min(a,8) s, 300 s], and so does what the store adds to its clock. */
  lemma BackoffRange(attempt: nat, digest: Bytes)
    ensures Pow2(Min(attempt, 8)) * SECOND <= Backoff(attempt, digest) <= MAX_BACKOFF
    ensures Pow2(Min(attempt, 8)) * SECOND <= Backoff(attempt, digest) / SECOND * SECOND <= MAX_BACKOFF
  {
    var e := Min(attempt, 8);
    Pow2Of8();
    Pow2Grows(e, 8);
    Pow2Positive(e);
    var delay := Backoff(attempt, digest);
    assert delay / SECOND >= Pow2(e);
  }

  /** Below the cap every delay is shorter than any delay of the next attempt, whatever the digests. */
  lemma BackoffGrows(attempt: nat, digest: Bytes, digest': Bytes)
    requires attempt < 8
    ensures Backoff(attempt, digest) < Backoff(attempt + 1, digest')
    ensures Backoff(attempt, digest) / SECOND < Backoff(attempt + 1, digest') / SECOND
  {
    Pow2Positive(attempt);
    var base := Pow2(attempt) * SECOND;
    assert Backoff(attempt, digest) < base + base / 4 + 1;
    assert Pow2(attempt + 1) == 2 * Pow2(attempt);
    BackoffRange(attempt + 1, digest');
    assert Backoff(attempt, digest) / SECOND < 2 * Pow2(attempt) <= Backoff(attempt + 1, digest') / SECOND;
  }
}

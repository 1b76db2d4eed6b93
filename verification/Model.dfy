/**
 The records the Stripe adapter exchanges and stores.

 Times and durations are integers in nanoseconds since the Unix epoch; ZERO_TIME
 stands for Go's zero `time.Time` and for a NULL session expiry.
 SHA-256 is a free constructor, so it is injective by construction.
 */
module Model {
  import opened Wrappers

  type Time = int
  type Duration = int
  newtype byte = x: int | 0 <= x < 256
  type Bytes = seq<byte>

  const SECOND: Duration := 1_000_000_000
  const WEBHOOK_TOLERANCE: Duration := 300 * SECOND
  const ZERO_TIME: Time := -62135596800 * SECOND

  const EVENT_CAPTURED := "captured"
  const EVENT_REJECTED_LEGACY := "rejected"
  const EVENT_REFUNDED := "refunded"
  const EVENT_CHARGEBACK := "chargeback"
  const EVENT_CHARGEBACK_REVERSED := "chargeback_reversed"

  datatype Sha256 = Sha256(material: string)

  datatype Error =
    | ClaimLost
    | CheckoutConflict
    | MappingNotFound
    | InboxConflict
    | InvalidProviderFact
    | DeliveryNotReady
    | NoRows              // sql.ErrNoRows
    | ConstraintViolation // a CHECK constraint of the schema

  /** The primary key of a checkout mapping. */
  datatype OrderKey = OrderKey(tenantId: string, orderId: string)

  datatype ProviderFact = ProviderFact(
    eventId: string,
    eventType: string,
    normalizedType: string,
    providerObjectId: string,
    paymentIntentId: string,
    chargeId: string,
    metadataTenantId: string,
    metadataOrderId: string,
    currency: string,
    providerAmountMinor: int,
    normalizedAmountMinor: int,
    occurredAt: Time)
  {
    /** The key under which one financial effect is admitted once. */
    function EffectKey(): string {
      normalizedType + ":" + providerObjectId
    }

    function MetadataKey(): OrderKey {
      OrderKey(metadataTenantId, metadataOrderId)
    }
  }

  datatype InboxClaim = InboxClaim(
    fact: ProviderFact,
    digest: Bytes,
    owner: string,
    generation: int,
    attempts: nat)

  datatype TrustedDelivery = TrustedDelivery(
    eventId: string,
    order: OrderKey,
    providerOrderId: string,
    kind: string,
    currency: string,
    amountMinor: int,
    occurredAt: Time,
    claimOwner: string,
    claimGeneration: int)

  datatype PaymentOrder = PaymentOrder(
    id: string,
    tenantId: string,
    provider: string,
    providerOrderId: string,
    currency: string,
    amountMinor: int,
    refundedMinor: int,
    status: string,
    revision: int,
    updatedAt: Time)
  {
    function Key(): OrderKey {
      OrderKey(tenantId, id)
    }
  }

  datatype CheckoutRequest = CheckoutRequest(successUrl: string, cancelUrl: string)

  datatype CheckoutSession = CheckoutSession(
    id: string,
    url: string,
    expiresAt: Time,
    paymentIntent: string)

  /** A row of `stripe_event_inbox`. */
  datatype InboxRow = InboxRow(
    fact: ProviderFact,
    digest: Bytes,
    effectKey: string,
    availableAt: Time,
    attempts: nat,
    owner: string,
    generation: int,
    claimUntil: Option<Time>,
    deliveredAt: Option<Time>,
    quarantinedAt: Option<Time>,
    trusted: OrderKey,
    providerOrderId: string,
    lastErrorCode: string,
    quarantineCode: string)
  {
    predicate Pending() {
      deliveredAt.None? && quarantinedAt.None?
    }

    /** The selection of ClaimInbox. */
    predicate Claimable(now: Time) {
      && Pending()
      && availableAt <= now
      && (claimUntil.None? || claimUntil.value <= now)
    }

    /** The WHERE clause AckInbox and NackInbox share; neither reads `quarantinedAt`. */
    predicate LeaseHeld(owner: string, generation: int, now: Time) {
      && deliveredAt.None?
      && this.owner == owner
      && this.generation == generation
      && claimUntil.Some? && claimUntil.value > now
    }
  }

  /** A row of `stripe_event_receipts`. */
  datatype Receipt = Receipt(digest: Bytes, effectKey: string)

  /** A row of `stripe_checkout_mappings`, without its primary key. */
  datatype CheckoutRow = CheckoutRow(
    currency: string,
    amountMinor: int,
    requestDigest: Sha256,
    idempotencyKey: Sha256,
    generation: int,
    sessionId: string,
    redirectUrl: string,
    expiresAt: Time,
    paymentIntent: string,
    chargeId: string)
  {
    predicate Complete() {
      sessionId != "" && redirectUrl != "" && expiresAt != ZERO_TIME
    }

    predicate Available(at: Time) {
      Complete() && at < expiresAt
    }
  }

  /** What a handler holds of a row: the row as it was read, and whether this read rotated it. */
  datatype Reservation = Reservation(key: OrderKey, row: CheckoutRow, rotated: bool)
}

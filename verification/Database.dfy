/**
 The three tables of the adapter and what each store method does to them.

 A store method is one UPDATE or one serializable transaction, so it is one step:
 a function from the tables before to the tables after and the answer. An error
 rolls back, so it comes with the tables unchanged.
 */
module Database {
  import opened Wrappers
  import opened Model
  import opened CheckoutKeys

  type Receipts = map<string, Receipt>
  type Inbox = map<string, InboxRow>
  type Checkouts = map<OrderKey, CheckoutRow>

  datatype Db = Db(receipts: Receipts, inbox: Inbox, checkouts: Checkouts)

  const EMPTY := Db(map[], map[], map[])

  datatype Stepped<+T> = Stepped(db: Db, answer: Result<T, Error>)

  // ------------------------------------------------------------------ intake

  datatype InsertOutcome = Inserted | Replay | EffectReplay

  predicate EffectAdmitted(inbox: Inbox, effectKey: string) {
    exists e | e in inbox :: inbox[e].effectKey == effectKey
  }

  function NewInboxRow(fact: ProviderFact, digest: Bytes, now: Time): InboxRow {
    InboxRow(fact, digest, fact.EffectKey(), now, 0, "", 0, None, None, None, OrderKey("", ""), "", "", "")
  }

  /** InsertInbox: the receipt decides replay or conflict, the effect key decides admission. */
  function InsertStep(db: Db, now: Time, fact: ProviderFact, digest: Bytes): Stepped<InsertOutcome> {
    var id := fact.eventId;
    if id in db.receipts then
      Stepped(db, if db.receipts[id].digest == digest then Ok(Replay) else Err(InboxConflict))
    else
      var receipts := db.receipts[id := Receipt(digest, fact.EffectKey())];
      if EffectAdmitted(db.inbox, fact.EffectKey()) then
        Stepped(db.(receipts := receipts), Ok(EffectReplay))
      else if id in db.inbox then
        Stepped(db, Err(ConstraintViolation))
      else
        Stepped(db.(receipts := receipts, inbox := db.inbox[id := NewInboxRow(fact, digest, now)]), Ok(Inserted))
  }

  // ------------------------------------------------------------------ claims

  /** `int64(d/time.Second)` seconds, as the SQL adds them to the clock. */
  function WholeSeconds(d: Duration): Duration {
    if d >= 0 then d / SECOND * SECOND else -(-d / SECOND * SECOND)
  }

  function ClaimRow(row: InboxRow, now: Time, owner: string, lease: Duration): InboxRow {
    row.(owner := owner, generation := row.generation + 1, claimUntil := Some(now + WholeSeconds(lease)))
  }

  function ClaimOf(row: InboxRow): InboxClaim {
    InboxClaim(row.fact, row.digest, row.owner, row.generation, row.attempts)
  }

  /** ClaimInbox on one row. A batch is a sequence of these: SQL reads the clock per row. */
  function ClaimStep(db: Db, now: Time, id: string, owner: string, lease: Duration): Db
    requires id in db.inbox
  {
    db.(inbox := db.inbox[id := ClaimRow(db.inbox[id], now, owner, lease)])
  }

  // ---------------------------------------------------- ack, nack, quarantine

  predicate HoldsLease(inbox: Inbox, id: string, owner: string, generation: int, now: Time) {
    id in inbox && inbox[id].LeaseHeld(owner, generation, now)
  }

  function AckStep(db: Db, now: Time, delivery: TrustedDelivery): Stepped<()> {
    var id := delivery.eventId;
    if !HoldsLease(db.inbox, id, delivery.claimOwner, delivery.claimGeneration, now) then Stepped(db, Err(ClaimLost))
    else
      var row := db.inbox[id].(deliveredAt := Some(now), owner := "", claimUntil := None, lastErrorCode := "");
      Stepped(db.(inbox := db.inbox[id := row]), Ok(()))
  }

  function NackStep(db: Db, now: Time, claim: InboxClaim, delay: Duration, category: string): Stepped<()> {
    var id := claim.fact.eventId;
    if !HoldsLease(db.inbox, id, claim.owner, claim.generation, now) then Stepped(db, Err(ClaimLost))
    else
      var row := db.inbox[id].(attempts := db.inbox[id].attempts + 1, availableAt := now + WholeSeconds(delay),
                               owner := "", claimUntil := None, lastErrorCode := category);
      Stepped(db.(inbox := db.inbox[id := row]), Ok(()))
  }

  function QuarantineStep(db: Db, now: Time, claim: InboxClaim, category: string): Stepped<()> {
    var id := claim.fact.eventId;
    if !HoldsLease(db.inbox, id, claim.owner, claim.generation, now) || db.inbox[id].quarantinedAt.Some? then
      Stepped(db, Err(ClaimLost))
    else
      var row := db.inbox[id].(quarantinedAt := Some(now), quarantineCode := category,
                               owner := "", claimUntil := None, lastErrorCode := category);
      Stepped(db.(inbox := db.inbox[id := row]), Ok(()))
  }

  // -------------------------------------------------------- unique constraints

  /** Two mappings that the unique indexes of the schema keep apart. */
  predicate Clash(a: CheckoutRow, b: CheckoutRow) {
    || a.idempotencyKey == b.idempotencyKey
    || (a.sessionId != "" && a.sessionId == b.sessionId)
    || (a.paymentIntent != "" && a.paymentIntent == b.paymentIntent)
    || (a.chargeId != "" && a.chargeId == b.chargeId)
  }

  /** Writing `row` under `key` violates no unique index. */
  predicate Admits(checkouts: Checkouts, key: OrderKey, row: CheckoutRow) {
    forall k | k in checkouts && k != key :: !Clash(row, checkouts[k])
  }

  ghost predicate UniqueIds(checkouts: Checkouts) {
    forall k | k in checkouts :: Admits(checkouts, k, checkouts[k])
  }

  // ------------------------------------------------------------ reservations

  predicate CurrencyCode(s: string) {
    |s| == 3 && forall c | c in s :: 'A' <= c <= 'Z'
  }

  function NewCheckoutRow(order: PaymentOrder, request: CheckoutRequest): CheckoutRow {
    CheckoutRow(order.currency, order.amountMinor, RequestDigest(request), IdempotencyKey(order.Key(), 1), 1,
                "", "", ZERO_TIME, "", "")
  }

  predicate ValidReservation(key: OrderKey, row: CheckoutRow, order: PaymentOrder, request: CheckoutRequest) {
    && row.generation > 0 && row.currency == order.currency && row.amountMinor == order.amountMinor
    && row.idempotencyKey == IdempotencyKey(key, row.generation)
    && row.requestDigest == RequestDigest(request)
  }

  function RotatedRow(key: OrderKey, row: CheckoutRow): CheckoutRow {
    row.(generation := row.generation + 1, idempotencyKey := IdempotencyKey(key, row.generation + 1),
         sessionId := "", redirectUrl := "", expiresAt := ZERO_TIME, paymentIntent := "", chargeId := "")
  }

  /** ReserveCheckout: insert unless present, check, then rotate an expired session. */
  function ReserveStep(db: Db, now: Time, order: PaymentOrder, request: CheckoutRequest): Stepped<Reservation> {
    var key := order.Key();
    var inserted := NewCheckoutRow(order, request);
    if !CurrencyCode(order.currency) || order.amountMinor <= 0 || key.tenantId == "" || key.orderId == "" then
      Stepped(db, Err(ConstraintViolation))
    else if key !in db.checkouts && !Admits(db.checkouts, key, inserted) then
      Stepped(db, Err(CheckoutConflict))
    else
      var current := if key in db.checkouts then db.checkouts[key] else inserted;
      if !ValidReservation(key, current, order, request) then
        Stepped(db, Err(CheckoutConflict))
      else if !current.Complete() || current.Available(now) then
        Stepped(db.(checkouts := db.checkouts[key := current]), Ok(Reservation(key, current, false)))
      else
        var rotated := RotatedRow(key, current);
        if Admits(db.checkouts, key, rotated) then
          Stepped(db.(checkouts := db.checkouts[key := rotated]), Ok(Reservation(key, rotated, true)))
        else
          Stepped(db, Err(CheckoutConflict))
  }

  predicate SessionCompatible(row: CheckoutRow, session: CheckoutSession) {
    && (row.paymentIntent == "" || session.paymentIntent == "" || row.paymentIntent == session.paymentIntent)
    && (row.Complete() ==>
          row.sessionId == session.id && row.redirectUrl == session.url && row.expiresAt == session.expiresAt)
  }

  function SavedRow(row: CheckoutRow, session: CheckoutSession): CheckoutRow {
    row.(sessionId := session.id, redirectUrl := session.url, expiresAt := session.expiresAt,
         paymentIntent := session.paymentIntent)
  }

  /** SaveCheckout: fenced by generation and key; an already complete row is only compared. */
  function SaveStep(db: Db, reservation: Reservation, session: CheckoutSession): Stepped<Reservation> {
    var key := reservation.key;
    if key !in db.checkouts then Stepped(db, Err(NoRows))
    else
      var current := db.checkouts[key];
      if current.generation != reservation.row.generation
         || current.idempotencyKey != reservation.row.idempotencyKey
         || !SessionCompatible(current, session) then
        Stepped(db, Err(CheckoutConflict))
      else if current.Complete() then
        Stepped(db, Ok(Reservation(key, current, false)))
      else
        var saved := SavedRow(current, session);
        if session.id == "" || session.url == "" then Stepped(db, Err(ConstraintViolation))
        else if !Admits(db.checkouts, key, saved) then Stepped(db, Err(CheckoutConflict))
        else Stepped(db.(checkouts := db.checkouts[key := saved]), Ok(Reservation(key, saved, false)))
  }

  // -------------------------------------------------------------- resolution

  /** The mapping the fact's metadata, payment intent or charge points at. */
  predicate PointsAt(fact: ProviderFact, key: OrderKey, row: CheckoutRow) {
    || (fact.metadataTenantId != "" && fact.MetadataKey() == key)
    || (fact.paymentIntentId != "" && row.paymentIntent == fact.paymentIntentId)
    || (fact.chargeId != "" && row.chargeId == fact.chargeId)
  }

  function MatchingKeys(checkouts: Checkouts, fact: ProviderFact): set<OrderKey> {
    set k | k in checkouts && PointsAt(fact, k, checkouts[k])
  }

  /** validateFactMapping */
  predicate FactAgrees(fact: ProviderFact, key: OrderKey, row: CheckoutRow) {
    && fact.currency == row.currency && fact.providerAmountMinor > 0
    && (fact.metadataTenantId != "" ==> fact.MetadataKey() == key)
    && (row.paymentIntent != "" && fact.paymentIntentId != "" ==> row.paymentIntent == fact.paymentIntentId)
    && (row.chargeId != "" && fact.chargeId != "" ==> row.chargeId == fact.chargeId)
    && (fact.normalizedType in [EVENT_CAPTURED, EVENT_REJECTED_LEGACY] ==> fact.providerAmountMinor == row.amountMinor)
    && fact.normalizedAmountMinor <= row.amountMinor
  }

  /** mergeProviderIDs */
  function MergeProviderIds(row: CheckoutRow, fact: ProviderFact): CheckoutRow {
    row.(paymentIntent := if row.paymentIntent == "" then fact.paymentIntentId else row.paymentIntent,
         chargeId := if row.chargeId == "" then fact.chargeId else row.chargeId)
  }

  function DeliveryOf(claim: InboxClaim, key: OrderKey, row: CheckoutRow): TrustedDelivery {
    TrustedDelivery(claim.fact.eventId, key, row.paymentIntent, claim.fact.normalizedType, claim.fact.currency,
                    claim.fact.normalizedAmountMinor, claim.fact.occurredAt, claim.owner, claim.generation)
  }

  /** verifyClaimFence */
  predicate FenceHolds(inbox: Inbox, claim: InboxClaim, at: Time) {
    && HoldsLease(inbox, claim.fact.eventId, claim.owner, claim.generation, at)
    && inbox[claim.fact.eventId].quarantinedAt.None?
  }

  /** Persisting a resolution: the mapping's provider ids and the inbox row's trusted order. */
  function BindStep(db: Db, bindAt: Time, claim: InboxClaim, key: OrderKey, merged: CheckoutRow): Stepped<TrustedDelivery>
    requires claim.fact.eventId in db.inbox
  {
    var id := claim.fact.eventId;
    if !Admits(db.checkouts, key, merged) then Stepped(db, Err(CheckoutConflict))
    else if !db.inbox[id].LeaseHeld(claim.owner, claim.generation, bindAt) then Stepped(db, Err(ClaimLost))
    else
      var row := db.inbox[id].(trusted := key, providerOrderId := merged.paymentIntent);
      Stepped(db.(checkouts := db.checkouts[key := merged], inbox := db.inbox[id := row]),
              Ok(DeliveryOf(claim, key, merged)))
  }

  /**
   ResolveClaim, told by the set of mappings the fact points at instead of by a search:
   exactly one must be meant. The clock is read at the fence and again at the write.
   */
  ghost function ResolveStep(db: Db, fenceAt: Time, bindAt: Time, claim: InboxClaim): Stepped<TrustedDelivery> {
    var fact := claim.fact;
    var keys := MatchingKeys(db.checkouts, fact);
    if !FenceHolds(db.inbox, claim, fenceAt) then Stepped(db, Err(ClaimLost))
    else if fact.metadataTenantId != "" && fact.MetadataKey() !in db.checkouts then Stepped(db, Err(NoRows))
    else if keys == {} then Stepped(db, Err(MappingNotFound))
    else if !(exists k :: keys == {k}) then Stepped(db, Err(CheckoutConflict))
    else
      var key :| keys == {key};
      assert key in keys;
      var merged := MergeProviderIds(db.checkouts[key], fact);
      if !FactAgrees(fact, key, db.checkouts[key]) then Stepped(db, Err(CheckoutConflict))
      else if merged.paymentIntent == "" then Stepped(db, Err(MappingNotFound))
      else BindStep(db, bindAt, claim, key, merged)
  }
}

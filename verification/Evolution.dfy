/** What every step leaves alone: the two-state invariants of the tables. */
module Evolution {
  import opened Wrappers
  import opened Model
  import opened Database
  import opened ResolutionLaws

  /**
   A row keeps its fact, its counters only grow, a settled row never changes again, and within
   one generation a lease is never extended or handed to another owner.
   */
  ghost predicate InboxRowEvolves(row: InboxRow, row': InboxRow) {
    && row'.fact == row.fact && row'.digest == row.digest && row'.effectKey == row.effectKey
    && row.generation <= row'.generation && row.attempts <= row'.attempts
    && (!row.Pending() ==> row' == row)
    && (row'.generation == row.generation && row'.claimUntil.Some? ==>
          row'.claimUntil == row.claimUntil && row'.owner == row.owner)
  }

  ghost predicate InboxEvolves(inbox: Inbox, inbox': Inbox) {
    forall e | e in inbox :: e in inbox' && InboxRowEvolves(inbox[e], inbox'[e])
  }

  /**
   A mapping keeps its order's terms, generations only grow, within a generation a saved session
   stays, and while neither changes the provider ids are only filled in.
   */
  ghost predicate CheckoutRowEvolves(row: CheckoutRow, row': CheckoutRow) {
    && row'.currency == row.currency && row'.amountMinor == row.amountMinor && row'.requestDigest == row.requestDigest
    && row.generation <= row'.generation
    && (row'.generation == row.generation ==>
          && row'.idempotencyKey == row.idempotencyKey
          && (row.sessionId != "" ==>
                row'.sessionId == row.sessionId && row'.redirectUrl == row.redirectUrl && row'.expiresAt == row.expiresAt)
          && (row'.sessionId == row.sessionId ==>
                && (row.paymentIntent != "" ==> row'.paymentIntent == row.paymentIntent)
                && (row.chargeId != "" ==> row'.chargeId == row.chargeId)))
  }

  ghost predicate CheckoutsEvolve(checkouts: Checkouts, checkouts': Checkouts) {
    forall k | k in checkouts :: k in checkouts' && CheckoutRowEvolves(checkouts[k], checkouts'[k])
  }

  ghost predicate DbEvolves(db: Db, db': Db) {
    && (forall id | id in db.receipts :: id in db'.receipts && db'.receipts[id] == db.receipts[id])
    && InboxEvolves(db.inbox, db'.inbox)
    && CheckoutsEvolve(db.checkouts, db'.checkouts)
  }

  lemma EvolutionComposes(a: Db, b: Db, c: Db)
    requires DbEvolves(a, b) && DbEvolves(b, c)
    ensures DbEvolves(a, c)
  {
    forall e | e in a.inbox ensures e in c.inbox && InboxRowEvolves(a.inbox[e], c.inbox[e]) {
      assert InboxRowEvolves(a.inbox[e], b.inbox[e]) && InboxRowEvolves(b.inbox[e], c.inbox[e]);
    }
    forall k | k in a.checkouts ensures k in c.checkouts && CheckoutRowEvolves(a.checkouts[k], c.checkouts[k]) {
      assert CheckoutRowEvolves(a.checkouts[k], b.checkouts[k]) && CheckoutRowEvolves(b.checkouts[k], c.checkouts[k]);
    }
  }

  // -------------------------------------------------------- row well-formedness

  function Count(b: bool): nat {
    if b then 1 else 0
  }

  /** A settled row holds no lease, is settled one way only, and every claim is accounted for. */
  ghost predicate InboxRowOk(e: string, row: InboxRow) {
    && row.fact.eventId == e && row.effectKey == row.fact.EffectKey()
    && (!row.Pending() ==> row.claimUntil.None?)
    && (row.deliveredAt.None? || row.quarantinedAt.None?)
    && row.attempts + Count(row.deliveredAt.Some?) + Count(row.quarantinedAt.Some?) + Count(row.claimUntil.Some?)
       <= row.generation
  }

  ghost predicate InboxOk(inbox: Inbox) {
    forall e | e in inbox :: InboxRowOk(e, inbox[e])
  }

  /** The session columns are set together (a CHECK of the schema). */
  ghost predicate SessionColumnsOk(row: CheckoutRow) {
    if row.sessionId == "" then row.redirectUrl == "" && row.expiresAt == ZERO_TIME else row.Complete()
  }

  ghost predicate CheckoutsOk(checkouts: Checkouts) {
    && UniqueIds(checkouts)
    && forall k | k in checkouts :: SessionColumnsOk(checkouts[k]) && checkouts[k].generation >= 1
  }

  ghost predicate DbOk(db: Db) {
    InboxOk(db.inbox) && CheckoutsOk(db.checkouts)
  }

  // --------------------------------------------------------------- each step

  lemma Unchanged(db: Db)
    ensures DbEvolves(db, db)
  {
  }

  lemma InboxWrite(db: Db, receipts: Receipts, e: string, row: InboxRow)
    requires DbOk(db) && InboxRowOk(e, row)
    requires e in db.inbox ==> InboxRowEvolves(db.inbox[e], row)
    requires forall id | id in db.receipts :: id in receipts && receipts[id] == db.receipts[id]
    ensures DbOk(db.(receipts := receipts, inbox := db.inbox[e := row]))
    ensures DbEvolves(db, db.(receipts := receipts, inbox := db.inbox[e := row]))
  {
  }

  lemma CheckoutWrite(db: Db, key: OrderKey, row: CheckoutRow)
    requires DbOk(db) && SessionColumnsOk(row) && row.generation >= 1 && Admits(db.checkouts, key, row)
    requires key in db.checkouts ==> CheckoutRowEvolves(db.checkouts[key], row)
    ensures DbOk(db.(checkouts := db.checkouts[key := row]))
    ensures DbEvolves(db, db.(checkouts := db.checkouts[key := row]))
  {
    WriteKeepsUnique(db.checkouts, key, row);
  }

  lemma ReceiptWrite(db: Db, receipts: Receipts)
    requires DbOk(db)
    requires forall id | id in db.receipts :: id in receipts && receipts[id] == db.receipts[id]
    ensures DbOk(db.(receipts := receipts)) && DbEvolves(db, db.(receipts := receipts))
  {
    Unchanged(db);
  }

  lemma InsertEvolves(db: Db, now: Time, fact: ProviderFact, digest: Bytes)
    requires DbOk(db)
    ensures DbOk(InsertStep(db, now, fact, digest).db) && DbEvolves(db, InsertStep(db, now, fact, digest).db)
  {
    var stepped := InsertStep(db, now, fact, digest);
    if stepped.answer == Ok(Inserted) {
      InboxWrite(db, stepped.db.receipts, fact.eventId, NewInboxRow(fact, digest, now));
    } else {
      ReceiptWrite(db, stepped.db.receipts);
      assert stepped.db == db.(receipts := stepped.db.receipts);
    }
  }

  lemma ClaimEvolves(db: Db, now: Time, e: string, owner: string, lease: Duration)
    requires DbOk(db) && e in db.inbox && db.inbox[e].Claimable(now)
    ensures DbOk(ClaimStep(db, now, e, owner, lease)) && DbEvolves(db, ClaimStep(db, now, e, owner, lease))
  {
  }

  lemma AckEvolves(db: Db, now: Time, delivery: TrustedDelivery)
    requires DbOk(db)
    ensures DbOk(AckStep(db, now, delivery).db) && DbEvolves(db, AckStep(db, now, delivery).db)
  {
    Unchanged(db);
    var after := AckStep(db, now, delivery);
    if after.answer.Ok? {
      InboxWrite(db, db.receipts, delivery.eventId, after.db.inbox[delivery.eventId]);
    }
  }

  lemma NackEvolves(db: Db, now: Time, claim: InboxClaim, delay: Duration, category: string)
    requires DbOk(db)
    ensures DbOk(NackStep(db, now, claim, delay, category).db) && DbEvolves(db, NackStep(db, now, claim, delay, category).db)
  {
    Unchanged(db);
    var after := NackStep(db, now, claim, delay, category);
    if after.answer.Ok? {
      InboxWrite(db, db.receipts, claim.fact.eventId, after.db.inbox[claim.fact.eventId]);
    }
  }

  lemma QuarantineEvolves(db: Db, now: Time, claim: InboxClaim, category: string)
    requires DbOk(db)
    ensures DbOk(QuarantineStep(db, now, claim, category).db)
    ensures DbEvolves(db, QuarantineStep(db, now, claim, category).db)
  {
    Unchanged(db);
    var after := QuarantineStep(db, now, claim, category);
    if after.answer.Ok? {
      InboxWrite(db, db.receipts, claim.fact.eventId, after.db.inbox[claim.fact.eventId]);
    }
  }

  lemma ResolveEvolves(db: Db, fenceAt: Time, bindAt: Time, claim: InboxClaim)
    requires DbOk(db)
    ensures DbOk(ResolveStep(db, fenceAt, bindAt, claim).db) && DbEvolves(db, ResolveStep(db, fenceAt, bindAt, claim).db)
  {
    ResolutionIsConservative(db, fenceAt, bindAt, claim);
    var after := ResolveStep(db, fenceAt, bindAt, claim);
    if after.answer.Ok? {
      var d := after.answer.value;
      var bound := db.(checkouts := after.db.checkouts);
      CheckoutWrite(db, d.order, after.db.checkouts[d.order]);
      InboxWrite(bound, db.receipts, d.eventId, after.db.inbox[d.eventId]);
      EvolutionComposes(db, bound, after.db);
    }
  }

  lemma ReserveEvolves(db: Db, now: Time, order: PaymentOrder, request: CheckoutRequest)
    requires DbOk(db)
    ensures DbOk(ReserveStep(db, now, order, request).db) && DbEvolves(db, ReserveStep(db, now, order, request).db)
  {
    var stepped := ReserveStep(db, now, order, request);
    Unchanged(db);
    if stepped.answer.Ok? {
      ReservedRow(db, now, order, request);
      CheckoutWrite(db, order.Key(), stepped.answer.value.row);
    }
  }

  /** The row a reservation leaves: the old one, a new one, or the next generation of an expired one. */
  lemma ReservedRow(db: Db, now: Time, order: PaymentOrder, request: CheckoutRequest)
    requires DbOk(db) && ReserveStep(db, now, order, request).answer.Ok?
    ensures
      var stepped := ReserveStep(db, now, order, request);
      var key, row := order.Key(), stepped.answer.value.row;
      && stepped.db == db.(checkouts := db.checkouts[key := row])
      && SessionColumnsOk(row) && row.generation >= 1 && Admits(db.checkouts, key, row)
      && (key in db.checkouts ==> CheckoutRowEvolves(db.checkouts[key], row))
  {
  }

  lemma SaveEvolves(db: Db, reservation: Reservation, session: CheckoutSession)
    requires DbOk(db) && session.expiresAt != ZERO_TIME
    ensures DbOk(SaveStep(db, reservation, session).db) && DbEvolves(db, SaveStep(db, reservation, session).db)
  {
    var stepped := SaveStep(db, reservation, session);
    if stepped.db != db {
      CheckoutWrite(db, reservation.key, stepped.answer.value.row);
    }
  }
}

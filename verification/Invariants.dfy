/** The inductive invariant of the adapter, group by group, and its preservation by every action. */
module Invariants {
  import opened Wrappers
  import opened Model
  import opened Database
  import opened ResolutionLaws
  import opened Evolution
  import opened ProviderFacts
  import opened Delivery
  import opened Protocol
  import opened CheckoutKeys

  // ------------------------------------------------------------------ intake

  /** Every receipt's effect is in the inbox. */
  ghost predicate ReceiptsAdmitted(receipts: Receipts, inbox: Inbox) {
    forall id | id in receipts :: EffectAdmitted(inbox, receipts[id].effectKey)
  }

  ghost predicate Receipted(receipts: Receipts, e: string, row: InboxRow) {
    e in receipts && receipts[e] == Receipt(row.digest, row.effectKey)
  }

  ghost predicate RowsReceipted(receipts: Receipts, inbox: Inbox) {
    forall e | e in inbox :: Receipted(receipts, e, inbox[e])
  }

  /** Every inbox row holds a fact that passed parsing. */
  ghost predicate FactsParsed(inbox: Inbox) {
    forall e | e in inbox :: TrustworthyFact(inbox[e].fact)
  }

  ghost predicate EffectsOnce(inbox: Inbox) {
    forall e, e' | e in inbox && e' in inbox && inbox[e].effectKey == inbox[e'].effectKey :: e == e'
  }

  ghost predicate IntakeOk(db: Db) {
    && ReceiptsAdmitted(db.receipts, db.inbox) && RowsReceipted(db.receipts, db.inbox)
    && FactsParsed(db.inbox) && EffectsOnce(db.inbox)
  }

  // ------------------------------------------------------------------ timing

  const QUARANTINE_CODES := {"binding", "order_state", "mapping_conflict"}

  /** No row waits longer than the longest backoff or lease; quarantine has one of three reasons. */
  ghost predicate PromptRow(cfg: Config, now: Time, row: InboxRow) {
    && row.availableAt <= now + MAX_BACKOFF
    && (row.claimUntil.Some? ==> row.claimUntil.value <= now + cfg.maxLease)
    && (row.quarantinedAt.Some? ==> row.quarantineCode in QUARANTINE_CODES)
  }

  ghost predicate PromptOk(cfg: Config, now: Time, inbox: Inbox) {
    forall e | e in inbox :: PromptRow(cfg, now, inbox[e])
  }

  // ------------------------------------------------------------------ claims

  ghost predicate IssuedOk(inbox: Inbox, claim: InboxClaim) {
    var e := claim.fact.eventId;
    && e in inbox && inbox[e].fact == claim.fact && inbox[e].digest == claim.digest
    && 1 <= claim.generation <= inbox[e].generation
  }

  ghost predicate HandedOut(issued: seq<InboxClaim>, e: string, generation: int) {
    exists i | 0 <= i < |issued| :: IdOf(issued[i]) == ClaimId(e, generation)
  }

  /** Generations 1 to the row's are exactly the claims handed out, each once. */
  ghost predicate ClaimsOk(w: World) {
    && (forall i | 0 <= i < |w.log.issued| :: IssuedOk(w.db.inbox, w.log.issued[i]))
    && (forall i, j | 0 <= i < j < |w.log.issued| :: IdOf(w.log.issued[i]) != IdOf(w.log.issued[j]))
    && (forall e, g | e in w.db.inbox && 1 <= g <= w.db.inbox[e].generation :: HandedOut(w.log.issued, e, g))
  }

  // -------------------------------------------------------------- deliveries

  /** A delivery repeats its claim's fact and names a mapping the fact agrees with. */
  ghost predicate DeliveryOk(checkouts: Checkouts, claim: InboxClaim, d: TrustedDelivery) {
    var fact := claim.fact;
    && d == TrustedDelivery(fact.eventId, d.order, d.providerOrderId, fact.normalizedType, fact.currency,
                            fact.normalizedAmountMinor, fact.occurredAt, claim.owner, claim.generation)
    && d.providerOrderId != ""
    && d.order in checkouts
    && checkouts[d.order].currency == fact.currency
    && (fact.normalizedType == EVENT_CAPTURED ==> fact.providerAmountMinor == checkouts[d.order].amountMinor)
    && fact.normalizedAmountMinor <= checkouts[d.order].amountMinor
    && (fact.metadataTenantId != "" ==> d.order == fact.MetadataKey())
    && (fact.paymentIntentId != "" ==> d.providerOrderId == fact.paymentIntentId)
  }

  /** `deliver` found a binding and an order that passes the checks. */
  ghost predicate OrderOk(cfg: Config, d: TrustedDelivery, order: PaymentOrder) {
    d.order.tenantId in cfg.tenants && ValidateDeliveryOrder(order, d).None?
  }

  ghost predicate FailureOk(failure: Failure) {
    match failure
    case Sentinel(e) => e in {ClaimLost, CheckoutConflict, MappingNotFound, NoRows}
    case _ =>
      || GatewayFailure(failure)
      || failure == UNBOUND_TENANT
      || (exists e :: failure == OrderStateFailure(e) && e in {CheckoutConflict, DeliveryNotReady, InvalidProviderFact})
  }

  ghost predicate AcceptedCall(calls: seq<DeliverCall>, claim: InboxClaim) {
    exists c | c in calls :: c.accepted && c.claim == claim
  }

  ghost predicate PhaseOk(cfg: Config, w: World, claim: InboxClaim, phase: Phase) {
    match phase
    case Claimed => true
    case Resolved(d) => DeliveryOk(w.db.checkouts, claim, d)
    case Checked(d, order) => DeliveryOk(w.db.checkouts, claim, d) && OrderOk(cfg, d, order)
    case Accepted(d) => DeliveryOk(w.db.checkouts, claim, d) && AcceptedCall(w.log.calls, claim)
    case Failed(failure) => FailureOk(failure)
  }

  ghost predicate TaskOk(cfg: Config, w: World, id: ClaimId, task: Task) {
    && IdOf(task.claim) == id && task.claim in w.log.issued
    && PhaseOk(cfg, w, task.claim, task.phase)
  }

  ghost predicate TasksOk(cfg: Config, w: World) {
    forall id | id in w.tasks :: TaskOk(cfg, w, id, w.tasks[id])
  }

  ghost predicate CallOk(cfg: Config, w: World, call: DeliverCall) {
    && call.claim in w.log.issued
    && DeliveryOk(w.db.checkouts, call.claim, call.delivery)
    && OrderOk(cfg, call.delivery, call.order)
  }

  ghost predicate Confirmed(calls: seq<DeliverCall>, e: string) {
    exists c | c in calls :: c.accepted && c.delivery.eventId == e
  }

  /** Calls were made for checked deliveries, and a row is delivered only after an accepted call. */
  ghost predicate CallsOk(cfg: Config, w: World) {
    && (forall c | c in w.log.calls :: CallOk(cfg, w, c))
    && RowsConfirmed(w.db.inbox, w.log.calls)
  }

  ghost predicate RowsConfirmed(inbox: Inbox, calls: seq<DeliverCall>) {
    forall e | e in inbox && inbox[e].deliveredAt.Some? :: Confirmed(calls, e)
  }

  // --------------------------------------------------------------- checkouts

  ghost predicate KeysOk(checkouts: Checkouts) {
    forall k | k in checkouts ::
      KeyIdentity(k) && checkouts[k].idempotencyKey == IdempotencyKey(k, checkouts[k].generation)
  }

  /** The generation `slot` is one its row has reached. */
  ghost predicate Reached(checkouts: Checkouts, slot: Slot) {
    slot.key in checkouts && 1 <= slot.generation <= checkouts[slot.key].generation
  }

  type Openings = map<Slot, Time>
  type Tickets = map<Slot, Ticket>

  /** Generation after generation of one order: opened, given a session, opened again after its expiry. */
  ghost predicate GenerationOk(checkouts: Checkouts, openedAt: Openings, stored: Tickets, now: Time, slot: Slot) {
    var next := Slot(slot.key, slot.generation + 1);
    && slot.key in checkouts
    && slot in openedAt && openedAt[slot] <= now
    && (slot.generation < checkouts[slot.key].generation ==>
          && slot in stored && next in openedAt
          && stored[slot].expiresAt <= openedAt[next]
          && openedAt[slot] <= openedAt[next])
    && (slot.generation == checkouts[slot.key].generation ==>
          if checkouts[slot.key].Complete()
          then slot in stored && stored[slot] == TicketOf(checkouts[slot.key])
          else slot !in stored)
  }

  ghost predicate GenerationsOk(checkouts: Checkouts, openedAt: Openings, stored: Tickets, now: Time) {
    && (forall slot | Reached(checkouts, slot) :: GenerationOk(checkouts, openedAt, stored, now, slot))
    && (forall slot {:trigger Reached(checkouts, slot)} | slot in openedAt :: Reached(checkouts, slot))
    && (forall slot {:trigger Reached(checkouts, slot)} | slot in stored :: Reached(checkouts, slot))
  }

  ghost predicate HandlerOk(w: World, handler: Handler) {
    var slot := SlotOf(handler.reservation);
    && Reached(w.db.checkouts, slot)
    && SessionColumnsOk(handler.reservation.row)
    && (handler.reservation.row.Complete() ==>
          slot in w.log.stored && w.log.stored[slot] == TicketOf(handler.reservation.row))
    && (handler.session.Some? ==>
          var session := handler.session.value;
          session.expiresAt > 0 && session.id != "" && session.url != "")
  }

  /** A response repeats the ticket stored for its slot. */
  ghost predicate ResponseOk(stored: Tickets, r: Response) {
    r.slot in stored && stored[r.slot] == r.ticket
  }

  ghost predicate ResponsesOk(w: World) {
    && (forall h | h in w.handlers :: HandlerOk(w, w.handlers[h]))
    && (forall r | r in w.log.responses :: ResponseOk(w.log.stored, r))
    && (forall c | c in w.log.created :: c.slot in w.log.openedAt && w.log.openedAt[c.slot] <= c.at <= w.now)
  }

  ghost predicate CheckoutHistoryOk(w: World) {
    && KeysOk(w.db.checkouts)
    && GenerationsOk(w.db.checkouts, w.log.openedAt, w.log.stored, w.now)
    && ResponsesOk(w)
  }

  // ------------------------------------------------------------ the invariant

  ghost predicate Inv(cfg: Config, w: World) {
    && w.now >= 0
    && DbOk(w.db) && IntakeOk(w.db) && PromptOk(cfg, w.now, w.db.inbox)
    && ClaimsOk(w) && TasksOk(cfg, w) && CallsOk(cfg, w)
    && CheckoutHistoryOk(w)
  }

  lemma InitInv(cfg: Config, w: World)
    requires Init(w)
    ensures Inv(cfg, w)
  {
  }

  // ----------------------------------------------------------------- tables

  /** Nothing recorded is ever dropped or changed. */
  ghost predicate HistoryGrows(log: History, log': History) {
    ListsGrow(log, log') && RecordsStay(log, log')
  }

  ghost predicate ListsGrow(log: History, log': History) {
    && log.requests <= log'.requests && log.issued <= log'.issued && log.calls <= log'.calls
    && log.created <= log'.created && log.responses <= log'.responses
  }

  ghost predicate RecordsStay(log: History, log': History) {
    && (forall s | s in log.openedAt :: s in log'.openedAt && log'.openedAt[s] == log.openedAt[s])
    && (forall s | s in log.stored :: s in log'.stored && log'.stored[s] == log.stored[s])
  }

  ghost predicate Evolves(w: World, w': World) {
    w.now <= w'.now && DbEvolves(w.db, w'.db) && HistoryGrows(w.log, w'.log)
  }

  lemma HistoryStep(cfg: Config, w: World, a: Action)
    requires Enabled(cfg, w, a)
    ensures HistoryGrows(w.log, Apply(cfg, w, a).log) && w.now <= Apply(cfg, w, a).now
  {
    ListsStep(cfg, w, a);
    RecordsStep(cfg, w, a);
  }

  lemma ListsStep(cfg: Config, w: World, a: Action)
    requires Enabled(cfg, w, a)
    ensures ListsGrow(w.log, Apply(cfg, w, a).log) && w.now <= Apply(cfg, w, a).now
  {
  }

  lemma RecordsStep(cfg: Config, w: World, a: Action)
    requires Enabled(cfg, w, a)
    ensures RecordsStay(w.log, Apply(cfg, w, a).log)
  {
  }

  lemma SettlingEvolves(w: World, claim: InboxClaim, failure: Failure)
    requires DbOk(w.db)
    ensures DbOk(SettledDb(w, claim, failure)) && DbEvolves(w.db, SettledDb(w, claim, failure))
  {
    Unchanged(w.db);
    QuarantineEvolves(w.db, w.now, claim, Category(failure));
    NackEvolves(w.db, w.now, claim, Backoff(claim.attempts, claim.digest), Category(failure));
  }

  lemma DbStep(cfg: Config, w: World, a: Action)
    requires DbOk(w.db) && Enabled(cfg, w, a)
    requires a.Save? ==> w.handlers[a.handlerId].session.value.expiresAt != ZERO_TIME
    ensures DbOk(Apply(cfg, w, a).db) && DbEvolves(w.db, Apply(cfg, w, a).db)
  {
    Unchanged(w.db);
    if a.Webhook? {
      InsertEvolves(w.db, w.now, ParseProviderFact(a.request.envelope, cfg.binding, w.now).value, a.request.digest);
    } else if a.ClaimRow? {
      ClaimEvolves(w.db, w.now, a.eventId, a.owner, a.lease);
    } else if a.Resolve? {
      ResolveEvolves(w.db, w.now, a.bindAt, w.tasks[a.id].claim);
    } else if a.Ack? {
      AckEvolves(w.db, w.now, w.tasks[a.id].phase.delivery);
    } else if a.SettleFailure? {
      SettlingEvolves(w, w.tasks[a.id].claim, w.tasks[a.id].phase.failure);
    } else if a.Reserve? {
      ReserveEvolves(w.db, w.now, a.order, a.checkoutRequest);
    } else if a.Save? {
      SaveEvolves(w.db, w.handlers[a.handlerId].reservation, w.handlers[a.handlerId].session.value);
    }
  }

  lemma StepEvolves(cfg: Config, w: World, a: Action)
    requires Inv(cfg, w) && Enabled(cfg, w, a)
    ensures DbOk(Apply(cfg, w, a).db) && Evolves(w, Apply(cfg, w, a))
  {
    if a.Save? {
      assert HandlerOk(w, w.handlers[a.handlerId]);
    }
    HistoryStep(cfg, w, a);
    DbStep(cfg, w, a);
  }
}

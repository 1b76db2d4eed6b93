/**
 The adapter as a state machine: webhooks, relay workers and checkout handlers interleave
 freely over one database, and any of them may stop between two steps.

 One action is one store call, one call to Billing or Stripe, or the passing of time.
 `History` records what was handed out or sent; no step ever reads it.
 */
module Protocol {
  import opened Wrappers
  import opened Model
  import opened Database
  import opened ProviderFacts
  import opened StripeSignature
  import opened Delivery
  import Text

  datatype Config = Config(
    mac: Mac,
    secrets: seq<string>,
    binding: EventBinding,
    tenants: set<string>,     // tenants with a billing binding
    maxLease: Duration)

  /** The body is kept as text and as its decoded envelope. */
  datatype WebhookRequest = WebhookRequest(payload: string, header: string, envelope: Envelope, digest: Bytes)

  // ----------------------------------------------------------------- workers

  /** What names a claim: generations of one event are never reused. */
  datatype ClaimId = ClaimId(eventId: string, generation: int)

  function IdOf(claim: InboxClaim): ClaimId {
    ClaimId(claim.fact.eventId, claim.generation)
  }

  /** Where one run of `process` stands. */
  datatype Phase =
    | Claimed
    | Resolved(delivery: TrustedDelivery)
    | Checked(delivery: TrustedDelivery, order: PaymentOrder)
    | Accepted(delivery: TrustedDelivery)
    | Failed(failure: Failure)

  datatype Task = Task(claim: InboxClaim, phase: Phase)

  datatype DeliverCall = DeliverCall(claim: InboxClaim, delivery: TrustedDelivery, order: PaymentOrder, accepted: bool)

  // ---------------------------------------------------------------- handlers

  /** One run of `handleCheckout` after its reservation, and the session it created, if any. */
  datatype Handler = Handler(reservation: Reservation, session: Option<CheckoutSession>)

  /** One generation of one order's checkout. */
  datatype Slot = Slot(key: OrderKey, generation: int)

  /** The body of a 200 or 201 response. */
  datatype Ticket = Ticket(sessionId: string, redirectUrl: string, expiresAt: Time)

  function TicketOf(row: CheckoutRow): Ticket {
    Ticket(row.sessionId, row.redirectUrl, row.expiresAt)
  }

  function SlotOf(reservation: Reservation): Slot {
    Slot(reservation.key, reservation.row.generation)
  }

  datatype CreatedSession = CreatedSession(slot: Slot, session: CheckoutSession, at: Time)

  datatype Response = Response(slot: Slot, ticket: Ticket, at: Time)

  // ------------------------------------------------------------------- world

  datatype History = History(
    requests: seq<WebhookRequest>,   // webhooks answered 200
    issued: seq<InboxClaim>,         // claims handed out
    calls: seq<DeliverCall>,         // calls to Billing
    openedAt: map<Slot, Time>,       // when a generation was first reserved
    stored: map<Slot, Ticket>,       // the session saved for a generation
    created: seq<CreatedSession>,    // sessions Stripe returned
    responses: seq<Response>)        // 200 and 201 answers

  datatype World = World(
    now: Time,
    db: Db,
    tasks: map<ClaimId, Task>,
    handlers: map<nat, Handler>,
    log: History)

  const NO_HISTORY := History([], [], [], map[], map[], [], [])

  ghost predicate Init(w: World) {
    w == World(w.now, EMPTY, map[], map[], NO_HISTORY) && w.now >= 0
  }

  // ----------------------------------------------------------------- actions

  datatype Action =
    | Tick(at: Time)
    | Webhook(request: WebhookRequest)
    | ClaimRow(eventId: string, owner: string, lease: Duration)
    | Resolve(id: ClaimId, bindAt: Time, seen: bool)
    | FailResolve(id: ClaimId)
    | ReadOrder(id: ClaimId, orderAnswer: Result<PaymentOrder, Failure>)
    | Deliver(id: ClaimId, deliverAnswer: Result<(), Failure>)
    | Ack(id: ClaimId)
    | SettleFailure(id: ClaimId)
    | Abandon(id: ClaimId)
    | Reserve(handlerId: nat, order: PaymentOrder, checkoutRequest: CheckoutRequest)
    | AnswerExisting(handlerId: nat)
    | CreateSession(handlerId: nat, session: CheckoutSession)
    | Save(handlerId: nat)
    | AbandonHandler(handlerId: nat)

  /** validCheckoutSession; of the URL only that it is not empty. */
  predicate ValidCheckoutSession(session: CheckoutSession, now: Time) {
    Text.ValidStripeId(session.id) && session.url != "" && session.expiresAt > now
  }

  /** What handleCheckout has established about the order it reserves. */
  predicate PayableOrder(order: PaymentOrder) {
    && ValidOrderIdentity(order, order.Key()) && Text.ValidIdentity(order.tenantId)
    && order.status == "pending" && order.providerOrderId == ""
  }

  ghost predicate Enabled(cfg: Config, w: World, a: Action) {
    match a
    case Tick(at) => at >= w.now
    case Webhook(request) =>
      && SignatureAccepted(cfg.mac, request.payload, request.header, cfg.secrets, w.now)
      && ParseProviderFact(request.envelope, cfg.binding, w.now).Ok?
    case ClaimRow(e, owner, lease) => e in w.db.inbox && w.db.inbox[e].Claimable(w.now) && 0 <= lease <= cfg.maxLease
    case Resolve(id, bindAt, _) => id in w.tasks && w.tasks[id].phase.Claimed? && bindAt >= w.now
    case FailResolve(id) => id in w.tasks && w.tasks[id].phase.Claimed?
    case ReadOrder(id, answer) =>
      id in w.tasks && w.tasks[id].phase.Resolved? && (answer.Err? ==> GatewayFailure(answer.error))
    case Deliver(id, answer) =>
      id in w.tasks && w.tasks[id].phase.Checked? && (answer.Err? ==> GatewayFailure(answer.error))
    case Ack(id) => id in w.tasks && w.tasks[id].phase.Accepted?
    case SettleFailure(id) => id in w.tasks && w.tasks[id].phase.Failed?
    case Abandon(id) => id in w.tasks
    case Reserve(h, order, _) => h !in w.handlers && PayableOrder(order)
    case AnswerExisting(h) => h in w.handlers && w.handlers[h].reservation.row.Complete()
    case CreateSession(h, session) =>
      && h in w.handlers && !w.handlers[h].reservation.row.Complete() && w.handlers[h].session.None?
      && ValidCheckoutSession(session, w.now)
    case Save(h) => h in w.handlers && w.handlers[h].session.Some?
    case AbandonHandler(h) => h in w.handlers
  }

  // ------------------------------------------------------------ worker steps

  function ToPhase(w: World, id: ClaimId, phase: Phase): World
    requires id in w.tasks
  {
    w.(tasks := w.tasks[id := w.tasks[id].(phase := phase)])
  }

  function Finish(w: World, id: ClaimId): World {
    w.(tasks := w.tasks - {id})
  }

  function ApplyWebhook(cfg: Config, w: World, request: WebhookRequest): World
    requires ParseProviderFact(request.envelope, cfg.binding, w.now).Ok?
  {
    var fact := ParseProviderFact(request.envelope, cfg.binding, w.now).value;
    var stepped := InsertStep(w.db, w.now, fact, request.digest);
    if stepped.answer.Err? then w
    else w.(db := stepped.db, log := w.log.(requests := w.log.requests + [request]))
  }

  function ApplyClaim(w: World, e: string, owner: string, lease: Duration): World
    requires e in w.db.inbox
  {
    var db := ClaimStep(w.db, w.now, e, owner, lease);
    var claim := ClaimOf(db.inbox[e]);
    w.(db := db, tasks := w.tasks[ClaimId(e, claim.generation) := Task(claim, Claimed)],
       log := w.log.(issued := w.log.issued + [claim]))
  }

  ghost function ApplyResolve(w: World, id: ClaimId, bindAt: Time, seen: bool): World
    requires id in w.tasks
  {
    var stepped := ResolveStep(w.db, w.now, bindAt, w.tasks[id].claim);
    var phase :=
      if stepped.answer.Err? then Failed(Sentinel(stepped.answer.error))
      else if seen then Resolved(stepped.answer.value)
      else Failed(Unclassified);
    ToPhase(w.(db := stepped.db, now := bindAt), id, phase)
  }

  /** The first half of `deliver`: binding, order, order check. */
  function OrderPhase(cfg: Config, delivery: TrustedDelivery, answer: Result<PaymentOrder, Failure>): Phase {
    if delivery.order.tenantId !in cfg.tenants then Failed(UNBOUND_TENANT)
    else if answer.Err? then Failed(answer.error)
    else
      var problem := ValidateDeliveryOrder(answer.value, delivery);
      if problem.Some? then Failed(OrderStateFailure(problem.value)) else Checked(delivery, answer.value)
  }

  function ApplyDeliver(w: World, id: ClaimId, answer: Result<(), Failure>): World
    requires id in w.tasks && w.tasks[id].phase.Checked?
  {
    var task := w.tasks[id];
    var call := DeliverCall(task.claim, task.phase.delivery, task.phase.order, answer.Ok?);
    var phase := if answer.Ok? then Accepted(task.phase.delivery) else Failed(answer.error);
    ToPhase(w.(log := w.log.(calls := w.log.calls + [call])), id, phase)
  }

  function SettledDb(w: World, claim: InboxClaim, failure: Failure): Db {
    match Settle(failure)
    case Drop => w.db
    case Quarantine => QuarantineStep(w.db, w.now, claim, Category(failure)).db
    case Retry => NackStep(w.db, w.now, claim, Backoff(claim.attempts, claim.digest), Category(failure)).db
  }

  // ----------------------------------------------------------- handler steps

  function ApplyReserve(w: World, h: nat, order: PaymentOrder, request: CheckoutRequest): World {
    var stepped := ReserveStep(w.db, w.now, order, request);
    if stepped.answer.Err? then w
    else
      var slot := SlotOf(stepped.answer.value);
      w.(db := stepped.db, handlers := w.handlers[h := Handler(stepped.answer.value, None)],
         log := w.log.(openedAt := if slot in w.log.openedAt then w.log.openedAt else w.log.openedAt[slot := w.now]))
  }

  function Respond(w: World, reservation: Reservation): World {
    w.(log := w.log.(responses := w.log.responses + [Response(SlotOf(reservation), TicketOf(reservation.row), w.now)]))
  }

  function Leave(w: World, h: nat): World {
    w.(handlers := w.handlers - {h})
  }

  /** writeExistingCheckout on a complete reservation: 200 while the session lasts, 409 after. */
  function ApplyAnswer(w: World, h: nat): World
    requires h in w.handlers
  {
    var reservation := w.handlers[h].reservation;
    Leave(if reservation.row.Available(w.now) then Respond(w, reservation) else w, h)
  }

  function ApplyCreate(w: World, h: nat, session: CheckoutSession): World
    requires h in w.handlers
  {
    var handler := w.handlers[h];
    w.(handlers := w.handlers[h := handler.(session := Some(session))],
       log := w.log.(created := w.log.created + [CreatedSession(SlotOf(handler.reservation), session, w.now)]))
  }

  function ApplySave(w: World, h: nat): World
    requires h in w.handlers && w.handlers[h].session.Some?
  {
    var stepped := SaveStep(w.db, w.handlers[h].reservation, w.handlers[h].session.value);
    if stepped.answer.Err? then Leave(w, h)
    else
      var saved := stepped.answer.value;
      var slot := SlotOf(saved);
      var stored := if slot in w.log.stored then w.log.stored else w.log.stored[slot := TicketOf(saved.row)];
      Leave(Respond(w.(db := stepped.db, log := w.log.(stored := stored)), saved), h)
  }

  ghost function Apply(cfg: Config, w: World, a: Action): World
    requires Enabled(cfg, w, a)
  {
    match a
    case Tick(at) => w.(now := at)
    case Webhook(request) => ApplyWebhook(cfg, w, request)
    case ClaimRow(e, owner, lease) => ApplyClaim(w, e, owner, lease)
    case Resolve(id, bindAt, seen) => ApplyResolve(w, id, bindAt, seen)
    case FailResolve(id) => ToPhase(w, id, Failed(Unclassified))
    case ReadOrder(id, answer) => ToPhase(w, id, OrderPhase(cfg, w.tasks[id].phase.delivery, answer))
    case Deliver(id, answer) => ApplyDeliver(w, id, answer)
    case Ack(id) => Finish(w.(db := AckStep(w.db, w.now, w.tasks[id].phase.delivery).db), id)
    case SettleFailure(id) => Finish(w.(db := SettledDb(w, w.tasks[id].claim, w.tasks[id].phase.failure)), id)
    case Abandon(id) => Finish(w, id)
    case Reserve(h, order, request) => ApplyReserve(w, h, order, request)
    case AnswerExisting(h) => ApplyAnswer(w, h)
    case CreateSession(h, session) => ApplyCreate(w, h, session)
    case Save(h) => ApplySave(w, h)
    case AbandonHandler(h) => Leave(w, h)
  }

  ghost predicate Step(cfg: Config, w: World, w': World) {
    exists a :: Enabled(cfg, w, a) && w' == Apply(cfg, w, a)
  }

  /** A run from the empty database. */
  ghost predicate Run(cfg: Config, ws: seq<World>) {
    && ws != [] && Init(ws[0])
    && forall i | 0 <= i < |ws| - 1 :: Step(cfg, ws[i], ws[i + 1])
  }

  lemma RunExtends(cfg: Config, ws: seq<World>, a: Action)
    requires Run(cfg, ws) && Enabled(cfg, ws[|ws| - 1], a)
    ensures Run(cfg, ws + [Apply(cfg, ws[|ws| - 1], a)])
  {
    var longer := ws + [Apply(cfg, ws[|ws| - 1], a)];
    forall i | 0 <= i < |longer| - 1 ensures Step(cfg, longer[i], longer[i + 1]) {
      if i < |ws| - 1 {
        assert Step(cfg, ws[i], ws[i + 1]);
      }
    }
  }
}

/**
 Short runs that reach the two surprises of the adapter: a save that erases a bound payment intent, and an event
 of an unknown order that is retried and not quarantined.
 */
module ReachableCases {
  import opened Wrappers
  import opened Model
  import opened CheckoutKeys
  import opened Database
  import opened Delivery
  import opened ProviderFacts
  import opened StripeSignature
  import opened ResolutionLaws
  import opened Protocol
  import Text

  /** The clock and a secret a webhook can be signed with. */
  predicate Signs(cfg: Config, secret: string, now: Time) {
    && secret in cfg.secrets && SECOND <= now && UnixSeconds(now) <= MAX_INT64
    && |cfg.mac(secret, SignedMessage(UnixSeconds(now), ""))| == MAC_SIZE
  }

  function WebhookFor(cfg: Config, secret: string, now: Time, fact: ProviderFact): WebhookRequest
    requires UpperLetters(fact.currency)
  {
    WebhookRequest("", SignatureHeader(cfg.mac, secret, UnixSeconds(now), ""), EventOf(fact, cfg.binding), [])
  }

  /** The last world of a run. */
  function Last(ws: seq<World>): World
    requires ws != []
  {
    ws[|ws| - 1]
  }

  lemma Started(cfg: Config, now: Time) returns (ws: seq<World>)
    requires now >= 0
    ensures Run(cfg, ws) && Last(ws) == World(now, EMPTY, map[], map[], NO_HISTORY)
  {
    ws := [World(now, EMPTY, map[], map[], NO_HISTORY)];
  }

  /** An event that can be parsed and has not come in arrives. */
  lemma Arrived(cfg: Config, ws: seq<World>, secret: string, fact: ProviderFact) returns (run: seq<World>)
    requires Run(cfg, ws) && Signs(cfg, secret, Last(ws).now) && Parseable(fact, cfg.binding, Last(ws).now)
    requires Last(ws).db.receipts == map[] && Last(ws).db.inbox == map[]
    ensures
      var w := Last(ws);
      && Run(cfg, run) && Last(run).now == w.now && Last(run).tasks == w.tasks && Last(run).handlers == w.handlers
      && Last(run).db.checkouts == w.db.checkouts
      && Last(run).db.inbox == map[fact.eventId := NewInboxRow(fact, [], w.now)]
  {
    WebhookIsEnabled(cfg, Last(ws), secret, fact);
    run := ArrivedAs(cfg, ws, WebhookFor(cfg, secret, Last(ws).now, fact), fact);
  }

  lemma ArrivedAs(cfg: Config, ws: seq<World>, request: WebhookRequest, fact: ProviderFact) returns (run: seq<World>)
    requires Run(cfg, ws) && Enabled(cfg, Last(ws), Webhook(request)) && request.digest == []
    requires ParseProviderFact(request.envelope, cfg.binding, Last(ws).now) == Ok(fact)
    requires Last(ws).db.receipts == map[] && Last(ws).db.inbox == map[]
    ensures
      var w := Last(ws);
      && Run(cfg, run) && Last(run).now == w.now && Last(run).tasks == w.tasks && Last(run).handlers == w.handlers
      && Last(run).db.checkouts == w.db.checkouts
      && Last(run).db.inbox == map[fact.eventId := NewInboxRow(fact, [], w.now)]
  {
    RunExtends(cfg, ws, Webhook(request));
    run := ws + [Apply(cfg, Last(ws), Webhook(request))];
  }

  lemma WebhookIsEnabled(cfg: Config, w: World, secret: string, fact: ProviderFact)
    requires Signs(cfg, secret, w.now) && Parseable(fact, cfg.binding, w.now)
    ensures
      var request := WebhookFor(cfg, secret, w.now, fact);
      Enabled(cfg, w, Webhook(request)) && ParseProviderFact(request.envelope, cfg.binding, w.now) == Ok(fact)
  {
    PrintedHeaderAcceptedIffTimely(cfg.mac, secret, cfg.secrets, UnixSeconds(w.now), "", w.now);
    EventReadsBack(fact, cfg.binding, w.now);
  }

  /** A worker claims the only row. */
  lemma ClaimedByWorker(cfg: Config, ws: seq<World>, fact: ProviderFact) returns (run: seq<World>, claim: InboxClaim)
    requires Run(cfg, ws) && Last(ws).db.inbox == map[fact.eventId := NewInboxRow(fact, [], Last(ws).now)]
    requires cfg.maxLease >= SECOND
    ensures
      var w := Last(ws);
      && Run(cfg, run) && Last(run).now == w.now && Last(run).handlers == w.handlers
      && Last(run).db.checkouts == w.db.checkouts
      && claim.fact == fact && claim.attempts == 0 && IdOf(claim) in Last(run).tasks
      && Last(run).tasks[IdOf(claim)] == Task(claim, Protocol.Claimed)
      && FenceHolds(Last(run).db.inbox, claim, w.now)
      && Last(run).db.inbox == map[fact.eventId := Database.ClaimRow(NewInboxRow(fact, [], w.now), w.now, "worker", SECOND)]
      && claim == ClaimOf(Last(run).db.inbox[fact.eventId])
  {
    var w, e := Last(ws), fact.eventId;
    RunExtends(cfg, ws, Action.ClaimRow(e, "worker", SECOND));
    run := ws + [ApplyClaim(w, e, "worker", SECOND)];
    claim := ClaimOf(Last(run).db.inbox[e]);
  }

  // ----------------------------------------------------------- an erased intent

  /** A payable order, an event of its payment, and a session without a payment intent. */
  predicate ErasureSetting(
    cfg: Config, secret: string, now: Time, order: PaymentOrder, fact: ProviderFact, session: CheckoutSession)
  {
    && Signs(cfg, secret, now) && cfg.maxLease >= SECOND
    && PayableOrder(order) && CurrencyCode(order.currency)
    && Parseable(fact, cfg.binding, now) && fact.paymentIntentId != ""
    && fact.metadataTenantId != "" && fact.MetadataKey() == order.Key()
    && fact.currency == order.currency && fact.normalizedAmountMinor == order.amountMinor
    && ValidCheckoutSession(session, now) && session.paymentIntent == ""
  }

  lemma Reserved(cfg: Config, ws: seq<World>, order: PaymentOrder, request: CheckoutRequest) returns (run: seq<World>)
    requires Run(cfg, ws) && Last(ws) == World(Last(ws).now, EMPTY, map[], map[], NO_HISTORY)
    requires PayableOrder(order) && CurrencyCode(order.currency)
    ensures
      var row := NewCheckoutRow(order, request);
      && Run(cfg, run) && Last(run).now == Last(ws).now && Last(run).tasks == map[]
      && Last(run).db == EMPTY.(checkouts := map[order.Key() := row])
      && Last(run).handlers == map[0 := Handler(Reservation(order.Key(), row, false), None)]
  {
    RunExtends(cfg, ws, Reserve(0, order, request));
    run := ws + [Apply(cfg, Last(ws), Reserve(0, order, request))];
    IdentityIsNotEmpty(order.tenantId);
    IdentityIsNotEmpty(order.id);
  }

  lemma IdentityIsNotEmpty(s: string)
    requires Text.ValidIdentity(s)
    ensures s != ""
  {
  }

  /** Resolving the event binds its payment intent to the reserved order. */
  lemma BoundByEvent(cfg: Config, ws: seq<World>, key: OrderKey, row: CheckoutRow, claim: InboxClaim)
    returns (run: seq<World>)
    requires Run(cfg, ws) && Last(ws).db.checkouts == map[key := row]
    requires IdOf(claim) in Last(ws).tasks && Last(ws).tasks[IdOf(claim)] == Task(claim, Protocol.Claimed)
    requires FenceHolds(Last(ws).db.inbox, claim, Last(ws).now)
    requires claim.fact.metadataTenantId != "" && claim.fact.MetadataKey() == key && FactAgrees(claim.fact, key, row)
    requires claim.fact.paymentIntentId != "" && row.paymentIntent == ""
    ensures
      && Run(cfg, run) && Last(run).now == Last(ws).now && Last(run).handlers == Last(ws).handlers
      && Last(run).db.checkouts == map[key := MergeProviderIds(row, claim.fact)]
  {
    var w := Last(ws);
    assert MatchingKeys(w.db.checkouts, claim.fact) == {key};
    RunExtends(cfg, ws, Resolve(IdOf(claim), w.now, true));
    run := ws + [Apply(cfg, w, Resolve(IdOf(claim), w.now, true))];
    assert w.db.checkouts[key := MergeProviderIds(row, claim.fact)] == map[key := MergeProviderIds(row, claim.fact)];
  }

  /** The handler gets its session and saves it. */
  lemma SavedByHandler(cfg: Config, ws: seq<World>, reservation: Reservation, row: CheckoutRow, session: CheckoutSession)
    returns (run: seq<World>)
    requires Run(cfg, ws) && Last(ws).db.checkouts == map[reservation.key := row]
    requires Last(ws).handlers == map[0 := Handler(reservation, None)]
    requires !reservation.row.Complete() && !row.Complete() && row.generation == reservation.row.generation
    requires row.idempotencyKey == reservation.row.idempotencyKey
    requires ValidCheckoutSession(session, Last(ws).now) && session.paymentIntent == "" && Last(ws).now >= 0
    ensures Run(cfg, run) && reservation.key in Last(run).db.checkouts
    ensures Last(run).db.checkouts[reservation.key] == SavedRow(row, session)
  {
    RunExtends(cfg, ws, CreateSession(0, session));
    var created := ws + [Apply(cfg, Last(ws), CreateSession(0, session))];
    SessionIsNamed(session, Last(ws).now);
    RunExtends(cfg, created, Save(0));
    run := created + [Apply(cfg, Last(created), Save(0))];
  }

  lemma SessionIsNamed(session: CheckoutSession, now: Time)
    requires ValidCheckoutSession(session, now)
    ensures session.id != "" && session.url != ""
  {
  }

  /**
   For every order whose payment event comes in before its session is saved, and every session without an intent:
   a run binds the event's payment intent to the order, and the save that follows erases it.
   */
  lemma ErasureIsReachable(
    cfg: Config, secret: string, now: Time, order: PaymentOrder, request: CheckoutRequest, fact: ProviderFact,
    session: CheckoutSession) returns (ws: seq<World>, run: seq<World>)
    requires ErasureSetting(cfg, secret, now, order, fact, session)
    ensures Run(cfg, ws) && Run(cfg, run)
    ensures order.Key() in Last(ws).db.checkouts && order.Key() in Last(run).db.checkouts
    ensures Last(ws).db.checkouts[order.Key()].paymentIntent == fact.paymentIntentId != ""
    ensures Last(run).db.checkouts[order.Key()].paymentIntent == ""
    ensures Last(run).db.checkouts[order.Key()].generation == Last(ws).db.checkouts[order.Key()].generation
  {
    var key, row := order.Key(), NewCheckoutRow(order, request);
    ws := Started(cfg, now);
    ws := Reserved(cfg, ws, order, request);
    ws := Arrived(cfg, ws, secret, fact);
    var claim: InboxClaim;
    ws, claim := ClaimedByWorker(cfg, ws, fact);
    ws := BoundByEvent(cfg, ws, key, row, claim);
    run := SavedByHandler(cfg, ws, Reservation(key, row, false), MergeProviderIds(row, fact), session);
  }

  /** There are such orders, events and sessions. */
  lemma ErasureCanBeSet(cfg: Config, secret: string, order: PaymentOrder, fact: ProviderFact, session: CheckoutSession)
    requires cfg == Config((_, _) => seq(MAC_SIZE, _ => 0), [secret], EventBinding(false, "acct", "v"), {}, SECOND)
    requires order == PaymentOrder("o", "t", PROVIDER_STRIPE, "", "EUR", 5, 0, "pending", 1, 1)
    requires fact == ProviderFact("evt", EVENT_SUCCEEDED, EVENT_CAPTURED, "pi", "pi", "", "t", "o", "EUR", 5, 5, SECOND)
    requires session == CheckoutSession("cs", "u", SECOND + 1, "")
    ensures ErasureSetting(cfg, secret, SECOND, order, fact, session)
  {
    SomeIdentities();
    SomeStripeIds();
    Text.AsciiLength(order.currency);
  }

  lemma SomeIdentities()
    ensures Text.ValidIdentity("o") && Text.ValidIdentity("t")
  {
    Text.AsciiLength("o");
    Text.AsciiLength("t");
  }

  lemma SomeStripeIds()
    ensures Text.ValidStripeId("evt") && Text.ValidStripeId("pi") && Text.ValidStripeId("cs")
  {
    Text.AsciiLength("evt");
    Text.AsciiLength("pi");
    Text.AsciiLength("cs");
  }

  // ------------------------------------------------------------ an unknown order

  /** An event whose metadata names an order that has no mapping. */
  lemma Retried(cfg: Config, ws: seq<World>, claim: InboxClaim) returns (run: seq<World>)
    requires Run(cfg, ws) && Last(ws).db.checkouts == map[]
    requires IdOf(claim) in Last(ws).tasks && Last(ws).tasks[IdOf(claim)] == Task(claim, Protocol.Claimed)
    requires FenceHolds(Last(ws).db.inbox, claim, Last(ws).now) && claim.fact.metadataTenantId != ""
    ensures Run(cfg, run) && claim.fact.eventId in Last(run).db.inbox
    ensures
      Last(run).db ==
      NackStep(Last(ws).db, Last(ws).now, claim, Backoff(claim.attempts, claim.digest), "database").db
  {
    var w, id := Last(ws), IdOf(claim);
    RunExtends(cfg, ws, Resolve(id, w.now, true));
    var failed := ws + [Apply(cfg, w, Resolve(id, w.now, true))];
    assert ResolveStep(w.db, w.now, w.now, claim) == Stepped(w.db, Err(NoRows));
    assert Last(failed).tasks[id] == Task(claim, Failed(Sentinel(NoRows)));
    RunExtends(cfg, failed, SettleFailure(id));
    run := failed + [Apply(cfg, Last(failed), SettleFailure(id))];
  }

  /**
   For every event of an unknown order: a run ends with its row parked for another attempt, neither quarantined
   nor delivered, with the category of a database error.
   */
  lemma UnknownOrderIsRetried(cfg: Config, secret: string, now: Time, fact: ProviderFact) returns (run: seq<World>)
    requires Signs(cfg, secret, now) && cfg.maxLease >= SECOND
    requires Parseable(fact, cfg.binding, now) && fact.metadataTenantId != ""
    ensures Run(cfg, run) && fact.eventId in Last(run).db.inbox
    ensures
      var row := Last(run).db.inbox[fact.eventId];
      row.Pending() && row.attempts == 1 && row.lastErrorCode == "database" && fact.MetadataKey() !in Last(run).db.checkouts
  {
    var ws := Started(cfg, now);
    ws := Arrived(cfg, ws, secret, fact);
    var claim: InboxClaim;
    ws, claim := ClaimedByWorker(cfg, ws, fact);
    run := Retried(cfg, ws, claim);
  }
}

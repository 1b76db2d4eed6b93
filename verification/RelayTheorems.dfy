/**
 What holds of the inbox and its workers in every run, whatever the interleaving of webhooks,
 workers and checkouts, and wherever workers crash or leases expire.
 */
module RelayTheorems {
  import opened Wrappers
  import opened Model
  import opened Database
  import opened ResolutionLaws
  import opened Evolution
  import opened ProviderFacts
  import opened StripeSignature
  import opened Delivery
  import opened Protocol
  import opened Invariants
  import opened InvariantSteps
  import opened CheckoutSteps
  import opened Runs

  // ------------------------------------------------------------------ fencing

  /** The claim may still act: its row carries its generation and its lease has not run out. */
  predicate Live(w: World, claim: InboxClaim) {
    HoldsLease(w.db.inbox, claim.fact.eventId, claim.owner, claim.generation, w.now)
  }

  /** Each (event, generation) is handed out once, and those handed out are 1 to the row's generation. */
  lemma GenerationsAreHandedOutOnce(cfg: Config, ws: seq<World>, n: nat)
    requires Run(cfg, ws) && n < |ws|
    ensures
      var issued, inbox := ws[n].log.issued, ws[n].db.inbox;
      && (forall i, j | 0 <= i < |issued| && 0 <= j < |issued| && IdOf(issued[i]) == IdOf(issued[j]) :: i == j)
      && (forall e, g :: HandedOut(issued, e, g) <==> e in inbox && 1 <= g <= inbox[e].generation)
  {
    RunKeepsInv(cfg, ws, n);
    var issued, inbox := ws[n].log.issued, ws[n].db.inbox;
    forall e, g | HandedOut(issued, e, g) ensures e in inbox && 1 <= g <= inbox[e].generation {
      var i :| 0 <= i < |issued| && IdOf(issued[i]) == ClaimId(e, g);
      assert IssuedOk(inbox, issued[i]);
    }
  }

  /** An event never has two live claims. */
  lemma AtMostOneLiveClaim(cfg: Config, ws: seq<World>, n: nat, claim: InboxClaim, claim': InboxClaim)
    requires Run(cfg, ws) && n < |ws|
    requires claim in ws[n].log.issued && claim' in ws[n].log.issued
    requires Live(ws[n], claim) && Live(ws[n], claim') && claim.fact.eventId == claim'.fact.eventId
    ensures claim == claim'
  {
    RunKeepsInv(cfg, ws, n);
    var issued := ws[n].log.issued;
    var i :| 0 <= i < |issued| && issued[i] == claim;
    var j :| 0 <= j < |issued| && issued[j] == claim';
    assert IdOf(issued[i]) == IdOf(issued[j]);
  }

  /** Every store call of a worker that holds `claim`: whatever its other arguments, it changes nothing and fails. */
  ghost predicate Powerless(db: Db, now: Time, claim: InboxClaim) {
    && (forall d: TrustedDelivery {:trigger AckStep(db, now, d)} |
          d.eventId == claim.fact.eventId && d.claimOwner == claim.owner && d.claimGeneration == claim.generation ::
          AckStep(db, now, d) == Stepped(db, Err(ClaimLost)))
    && (forall delay, category :: NackStep(db, now, claim, delay, category) == Stepped(db, Err(ClaimLost)))
    && (forall category :: QuarantineStep(db, now, claim, category) == Stepped(db, Err(ClaimLost)))
    && (forall bindAt :: ResolveStep(db, now, bindAt, claim) == Stepped(db, Err(ClaimLost)))
  }

  /** A claim that is superseded, expired or settled once is powerless for the rest of the run. */
  lemma LostClaimsStayPowerless(cfg: Config, ws: seq<World>, m: nat, n: nat, claim: InboxClaim)
    requires Run(cfg, ws) && m <= n < |ws|
    requires claim in ws[m].log.issued && !Live(ws[m], claim)
    ensures !Live(ws[n], claim) && Powerless(ws[n].db, ws[n].now, claim)
  {
    RunKeepsInv(cfg, ws, m);
    RunEvolves(cfg, ws, m, n);
    var e := claim.fact.eventId;
    assert IssuedOk(ws[m].db.inbox, claim) by {
      var i :| 0 <= i < |ws[m].log.issued| && ws[m].log.issued[i] == claim;
    }
    assert InboxRowEvolves(ws[m].db.inbox[e], ws[n].db.inbox[e]);
  }

  // -------------------------------------------------------------- no lost event

  /** Every receipt's effect has exactly one inbox row, and an unsettled row waits at most max(lease, 300 s). */
  lemma NoEventIsLost(cfg: Config, ws: seq<World>, n: nat)
    requires Run(cfg, ws) && n < |ws|
    ensures
      var w := ws[n];
      && (forall id | id in w.db.receipts ::
            exists e :: e in w.db.inbox && w.db.inbox[e].effectKey == w.db.receipts[id].effectKey
                        && forall e' | e' in w.db.inbox && w.db.inbox[e'].effectKey == w.db.inbox[e].effectKey :: e' == e)
      && (forall e, t | e in w.db.inbox && w.db.inbox[e].Pending()
                        && t >= w.now + cfg.maxLease && t >= w.now + MAX_BACKOFF :: w.db.inbox[e].Claimable(t))
  {
    RunKeepsInv(cfg, ws, n);
    var w := ws[n];
    forall id | id in w.db.receipts
      ensures exists e :: e in w.db.inbox && w.db.inbox[e].effectKey == w.db.receipts[id].effectKey
                          && forall e' | e' in w.db.inbox && w.db.inbox[e'].effectKey == w.db.inbox[e].effectKey :: e' == e
    {
      assert EffectAdmitted(w.db.inbox, w.db.receipts[id].effectKey);
      var e :| e in w.db.inbox && w.db.inbox[e].effectKey == w.db.receipts[id].effectKey;
    }
    forall e, t | e in w.db.inbox && w.db.inbox[e].Pending() && t >= w.now + cfg.maxLease && t >= w.now + MAX_BACKOFF
      ensures w.db.inbox[e].Claimable(t)
    {
      assert PromptRow(cfg, w.now, w.db.inbox[e]);
    }
  }

  // -------------------------------------------------- conservation, absorption

  /** Each claim ends in at most one of: a retry, a delivery, a quarantine, or it is still open. */
  lemma ClaimsAreConserved(cfg: Config, ws: seq<World>, n: nat, e: string)
    requires Run(cfg, ws) && n < |ws| && e in ws[n].db.inbox
    ensures
      var row := ws[n].db.inbox[e];
      && row.attempts + Count(row.deliveredAt.Some?) + Count(row.quarantinedAt.Some?)
         + Count(row.claimUntil.Some? && row.claimUntil.value > ws[n].now) <= row.generation
      && !(row.deliveredAt.Some? && row.quarantinedAt.Some?)
      && (row.quarantinedAt.Some? ==> row.quarantineCode in QUARANTINE_CODES)
      && (row.deliveredAt.Some? ==> Confirmed(ws[n].log.calls, e))
  {
    RunKeepsInv(cfg, ws, n);
    assert InboxRowOk(e, ws[n].db.inbox[e]) && PromptRow(cfg, ws[n].now, ws[n].db.inbox[e]);
  }

  /** A delivered or quarantined row is never changed again. */
  lemma SettledRowsNeverChange(cfg: Config, ws: seq<World>, m: nat, n: nat, e: string)
    requires Run(cfg, ws) && m <= n < |ws|
    requires e in ws[m].db.inbox && !ws[m].db.inbox[e].Pending()
    ensures e in ws[n].db.inbox && ws[n].db.inbox[e] == ws[m].db.inbox[e]
  {
    RunEvolves(cfg, ws, m, n);
    assert InboxRowEvolves(ws[m].db.inbox[e], ws[n].db.inbox[e]);
  }

  // --------------------------------------------------------- trusted delivery

  /** At step `i` a signed webhook parsed to this fact and was stored. */
  ghost predicate AdmittedAt(cfg: Config, ws: seq<World>, i: nat, fact: ProviderFact, request: WebhookRequest) {
    && i + 1 < |ws|
    && fact.eventId !in ws[i].db.inbox
    && fact.eventId in ws[i + 1].db.inbox && ws[i + 1].db.inbox[fact.eventId].fact == fact
    && SignatureAccepted(cfg.mac, request.payload, request.header, cfg.secrets, ws[i].now)
    && ParseProviderFact(request.envelope, cfg.binding, ws[i].now) == Ok(fact)
  }

  ghost predicate AdmittedBefore(cfg: Config, ws: seq<World>, n: nat, fact: ProviderFact) {
    exists i: nat, request | i < n :: AdmittedAt(cfg, ws, i, fact, request)
  }

  /** Between worlds `i` and `i + 1` the claim passed its fence and resolved to this delivery. */
  ghost predicate ResolvedAt(ws: seq<World>, i: nat, claim: InboxClaim, d: TrustedDelivery) {
    && i + 1 < |ws|
    && FenceHolds(ws[i].db.inbox, claim, ws[i].now)
    && ResolveStep(ws[i].db, ws[i].now, ws[i + 1].now, claim).answer == Ok(d)
  }

  ghost predicate ResolvedBefore(ws: seq<World>, n: nat, claim: InboxClaim, d: TrustedDelivery) {
    exists i: nat | i < n :: ResolvedAt(ws, i, claim, d)
  }

  lemma {:induction false} RowsWereAdmitted(cfg: Config, ws: seq<World>, n: nat, e: string)
    requires Run(cfg, ws) && n < |ws| && e in ws[n].db.inbox
    ensures AdmittedBefore(cfg, ws, n, ws[n].db.inbox[e].fact)
  {
    if n > 0 {
      var before, now := ws[n - 1].db.inbox, ws[n].db.inbox;
      if e in before {
        RowsWereAdmitted(cfg, ws, n - 1, e);
        FactsStay(cfg, ws, n - 1, e);
        var i: nat, request :| i < n - 1 && AdmittedAt(cfg, ws, i, before[e].fact, request);
        assert AdmittedAt(cfg, ws, i, now[e].fact, request);
      } else {
        NewRowsAreAdmitted(cfg, ws, n - 1, e);
      }
    }
  }

  lemma FactsStay(cfg: Config, ws: seq<World>, n: nat, e: string)
    requires Run(cfg, ws) && n + 1 < |ws| && e in ws[n].db.inbox
    ensures e in ws[n + 1].db.inbox && ws[n + 1].db.inbox[e].fact == ws[n].db.inbox[e].fact
  {
    RunEvolves(cfg, ws, n, n + 1);
    assert InboxRowEvolves(ws[n].db.inbox[e], ws[n + 1].db.inbox[e]);
  }

  lemma NewRowsAreAdmitted(cfg: Config, ws: seq<World>, n: nat, e: string)
    requires Run(cfg, ws) && n + 1 < |ws| && e !in ws[n].db.inbox && e in ws[n + 1].db.inbox
    ensures AdmittedBefore(cfg, ws, n + 1, ws[n + 1].db.inbox[e].fact)
  {
    RunKeepsInv(cfg, ws, n);
    RunKeepsInv(cfg, ws, n + 1);
    assert Step(cfg, ws[n], ws[n + 1]);
    var a :| Enabled(cfg, ws[n], a) && ws[n + 1] == Apply(cfg, ws[n], a);
    RowsAppearByWebhook(cfg, ws[n], a, e);
    assert AdmittedAt(cfg, ws, n, ws[n + 1].db.inbox[e].fact, a.request);
  }

  lemma RowsAppearByWebhook(cfg: Config, w: World, a: Action, e: string)
    requires DbOk(w.db) && Enabled(cfg, w, a) && e !in w.db.inbox && e in Apply(cfg, w, a).db.inbox
    ensures a.Webhook? && ParseProviderFact(a.request.envelope, cfg.binding, w.now) == Ok(Apply(cfg, w, a).db.inbox[e].fact)
  {
    if a.ClaimRow? {
      ClaimIsQuiet(w.db, w.now, a.eventId, a.owner, a.lease);
    } else {
      RowsAndGenerations(cfg, w, a);
    }
  }

  predicate Delivering(phase: Phase, d: TrustedDelivery) {
    (phase.Resolved? || phase.Checked? || phase.Accepted?) && phase.delivery == d
  }

  /** A task gets a delivery by resolving. */
  lemma DeliveryAppearsByResolving(cfg: Config, w: World, a: Action, id: ClaimId, d: TrustedDelivery)
    requires Enabled(cfg, w, a) && id in Apply(cfg, w, a).tasks && Delivering(Apply(cfg, w, a).tasks[id].phase, d)
    ensures
      var w' := Apply(cfg, w, a);
      && id in w.tasks && w'.tasks[id].claim == w.tasks[id].claim
      && (Delivering(w.tasks[id].phase, d)
          || (a.Resolve? && a.id == id && ResolveStep(w.db, w.now, w'.now, w.tasks[id].claim).answer == Ok(d)))
  {
    match a {
      case ClaimRow(e, owner, lease) =>
      case Resolve(rid, bindAt, seen) => assert id != rid ==> Apply(cfg, w, a).tasks[id] == w.tasks[id];
      case ReadOrder(rid, answer) => assert id != rid ==> Apply(cfg, w, a).tasks[id] == w.tasks[id];
      case Deliver(rid, answer) => assert id != rid ==> Apply(cfg, w, a).tasks[id] == w.tasks[id];
      case _ =>
    }
  }

  /** A call repeats the claim and the delivery of its task. */
  lemma CallsRepeatTheirTask(cfg: Config, w: World, a: Action, c: DeliverCall)
    requires Enabled(cfg, w, a) && c in Apply(cfg, w, a).log.calls && c !in w.log.calls
    ensures exists id :: id in w.tasks && w.tasks[id].claim == c.claim && Delivering(w.tasks[id].phase, c.delivery)
  {
    if a.Deliver? {
      assert c == Apply(cfg, w, a).log.calls[|w.log.calls|];
      assert Delivering(w.tasks[a.id].phase, c.delivery);
    } else {
      CallsOfOthers(cfg, w, a);
    }
  }

  lemma ResolvedEarlier(ws: seq<World>, m: nat, n: nat, claim: InboxClaim, d: TrustedDelivery)
    requires m <= n && ResolvedBefore(ws, m, claim, d)
    ensures ResolvedBefore(ws, n, claim, d)
  {
    var i: nat :| i < m && ResolvedAt(ws, i, claim, d);
    assert ResolvedAt(ws, i, claim, d);
  }

  lemma {:induction false} DeliveriesWereResolved(cfg: Config, ws: seq<World>, n: nat)
    requires Run(cfg, ws) && n < |ws|
    ensures forall id, d | id in ws[n].tasks && Delivering(ws[n].tasks[id].phase, d) ::
              ResolvedBefore(ws, n, ws[n].tasks[id].claim, d)
    ensures forall c | c in ws[n].log.calls :: ResolvedBefore(ws, n, c.claim, c.delivery)
  {
    if n > 0 {
      var w, w' := ws[n - 1], ws[n];
      assert Step(cfg, ws[n - 1], ws[n - 1 + 1]);
      var a :| Enabled(cfg, w, a) && w' == Apply(cfg, w, a);
      DeliveriesWereResolved(cfg, ws, n - 1);
      forall id, d | id in w'.tasks && Delivering(w'.tasks[id].phase, d)
        ensures ResolvedBefore(ws, n, w'.tasks[id].claim, d)
      {
        DeliveryAppearsByResolving(cfg, w, a, id, d);
        if Delivering(w.tasks[id].phase, d) {
          ResolvedEarlier(ws, n - 1, n, w'.tasks[id].claim, d);
        } else {
          assert ResolvedAt(ws, n - 1, w'.tasks[id].claim, d);
        }
      }
      forall c | c in w'.log.calls ensures ResolvedBefore(ws, n, c.claim, c.delivery) {
        if c !in w.log.calls {
          CallsRepeatTheirTask(cfg, w, a, c);
          var id :| id in w.tasks && w.tasks[id].claim == c.claim && Delivering(w.tasks[id].phase, c.delivery);
          assert ResolvedBefore(ws, n - 1, w.tasks[id].claim, c.delivery);
        }
        ResolvedEarlier(ws, n - 1, n, c.claim, c.delivery);
      }
    }
  }

  /** What the resolution and the order check together say of a delivery. */
  ghost predicate Trusted(cfg: Config, mappings: Checkouts, fact: ProviderFact, d: TrustedDelivery, order: PaymentOrder) {
    && d.order.tenantId in cfg.tenants
    && d.order in mappings && order.Key() == d.order && order.provider == PROVIDER_STRIPE
    && d.currency == fact.currency == mappings[d.order].currency == order.currency
    && (order.providerOrderId != "" ==> order.providerOrderId == d.providerOrderId)
    && (fact.metadataTenantId != "" ==> d.order == fact.MetadataKey())
    && 0 < d.amountMinor <= order.amountMinor && d.amountMinor <= mappings[d.order].amountMinor
    && d.kind in [EVENT_CAPTURED, EVENT_REFUNDED, EVENT_CHARGEBACK, EVENT_CHARGEBACK_REVERSED]
    && (d.kind == EVENT_CAPTURED ==>
          d.amountMinor == order.amountMinor == mappings[d.order].amountMinor && order.status in ["pending", "succeeded"])
    && (d.kind in [EVENT_REFUNDED, EVENT_CHARGEBACK] ==>
          order.status in ["succeeded", "partially_refunded", "refunded"])
    && (d.kind == EVENT_CHARGEBACK_REVERSED ==>
          d.amountMinor <= order.refundedMinor && order.status !in ["pending", "succeeded"])
  }

  lemma CheckedIsTrusted(cfg: Config, mappings: Checkouts, claim: InboxClaim, d: TrustedDelivery, order: PaymentOrder)
    requires TrustworthyFact(claim.fact) && DeliveryOk(mappings, claim, d) && OrderOk(cfg, d, order)
    ensures Trusted(cfg, mappings, claim.fact, d, order)
  {
    if d.kind == EVENT_CAPTURED {
      assert ValidateCapture(order, d).None?;
    } else if d.kind == EVENT_CHARGEBACK_REVERSED {
      assert ValidateReversal(order, d).None?;
    } else {
      assert ValidateRefund(order, d).None?;
    }
  }

  /**
   Every call to Billing: its event came in signed and parsed, its claim passed the fence when it
   was resolved, tenant, order, currency and provider agree with the fact, the mapping and the order
   read from Billing, and the amounts are those a capture, refund, chargeback or reversal may have.
   */
  lemma DeliveriesAreTrusted(cfg: Config, ws: seq<World>, n: nat, call: DeliverCall)
    requires Run(cfg, ws) && n < |ws| && call in ws[n].log.calls
    ensures AdmittedBefore(cfg, ws, n, call.claim.fact)
    ensures ResolvedBefore(ws, n, call.claim, call.delivery)
    ensures Trusted(cfg, ws[n].db.checkouts, call.claim.fact, call.delivery, call.order)
  {
    CalledFact(cfg, ws, n, call);
    RowsWereAdmitted(cfg, ws, n, call.claim.fact.eventId);
    DeliveriesWereResolved(cfg, ws, n);
    assert CallOk(cfg, ws[n], call) by {
      RunKeepsInv(cfg, ws, n);
    }
    CheckedIsTrusted(cfg, ws[n].db.checkouts, call.claim, call.delivery, call.order);
  }

  /** The fact of a call is that of the inbox row of its event. */
  lemma CalledFact(cfg: Config, ws: seq<World>, n: nat, call: DeliverCall)
    requires Run(cfg, ws) && n < |ws| && call in ws[n].log.calls
    ensures
      var e := call.delivery.eventId;
      && e == call.claim.fact.eventId
      && e in ws[n].db.inbox && ws[n].db.inbox[e].fact == call.claim.fact && TrustworthyFact(call.claim.fact)
  {
    RunKeepsInv(cfg, ws, n);
    assert CallOk(cfg, ws[n], call);
    var i :| 0 <= i < |ws[n].log.issued| && ws[n].log.issued[i] == call.claim;
    assert IssuedOk(ws[n].db.inbox, ws[n].log.issued[i]);
  }

  // --------------------------------------------------------------- retries

  /**
   All calls for one event agree on what is delivered. Where the event names its order they agree on
   the order, and where it names its payment intent on the provider order, across checkout rotations.
   */
  lemma RetriesAgree(cfg: Config, ws: seq<World>, n: nat, call: DeliverCall, call': DeliverCall)
    requires Run(cfg, ws) && n < |ws|
    requires call in ws[n].log.calls && call' in ws[n].log.calls && call.delivery.eventId == call'.delivery.eventId
    ensures
      var d, d', fact := call.delivery, call'.delivery, call.claim.fact;
      && d.kind == d'.kind && d.currency == d'.currency && d.amountMinor == d'.amountMinor && d.occurredAt == d'.occurredAt
      && (fact.metadataTenantId != "" ==> d.order == d'.order)
      && (fact.paymentIntentId != "" ==> d.providerOrderId == d'.providerOrderId)
  {
    RunKeepsInv(cfg, ws, n);
    CalledFact(cfg, ws, n, call);
    CalledFact(cfg, ws, n, call');
    assert CallOk(cfg, ws[n], call) && CallOk(cfg, ws[n], call');
  }

  /**
   A resolution that committed is repeatable, also where its answer was lost: any later claim of the same event
   resolves to the same order and provider order and changes no mapping, as long as that order's checkout was
   neither rotated nor given a session in between.
   */
  lemma ResolutionsRepeat(
    cfg: Config, ws: seq<World>, m: nat, n: nat, claim: InboxClaim, d: TrustedDelivery, seen: bool,
    claim': InboxClaim, bindAt: Time)
    requires Run(cfg, ws) && m < n < |ws|
    requires claim in ws[m].log.issued && claim' in ws[n].log.issued && claim'.fact.eventId == claim.fact.eventId
    requires ResolvedAt(ws, m, claim, d)
    requires IdOf(claim) in ws[m].tasks && ws[m + 1] == ApplyResolve(ws[m], IdOf(claim), ws[m + 1].now, seen)
    requires FenceHolds(ws[n].db.inbox, claim', ws[n].now) && FenceHolds(ws[n].db.inbox, claim', bindAt)
    requires
      && d.order in ws[m].db.checkouts && d.order in ws[n].db.checkouts
      && ws[n].db.checkouts[d.order].generation == ws[m].db.checkouts[d.order].generation
      && ws[n].db.checkouts[d.order].sessionId == ws[m].db.checkouts[d.order].sessionId
    ensures
      var again := ResolveStep(ws[n].db, ws[n].now, bindAt, claim');
      && again.answer == Ok(d.(claimOwner := claim'.owner, claimGeneration := claim'.generation))
      && again.db.checkouts == ws[n].db.checkouts
  {
    SameEventSameFact(cfg, ws, m, n, claim, claim');
    BoundLater(cfg, ws, m, n, claim, d, seen);
    MappingsAreUnique(cfg, ws, n);
    BoundResolvesAgain(ws[n].db, ws[n].now, bindAt, claim', d.order, d.providerOrderId);
  }

  lemma MappingsAreUnique(cfg: Config, ws: seq<World>, n: nat)
    requires Run(cfg, ws) && n < |ws|
    ensures UniqueIds(ws[n].db.checkouts)
  {
    RunKeepsInv(cfg, ws, n);
  }

  lemma MappingEvolves(cfg: Config, ws: seq<World>, m: nat, n: nat, key: OrderKey)
    requires Run(cfg, ws) && m <= n < |ws| && key in ws[m].db.checkouts
    ensures key in ws[n].db.checkouts && CheckoutRowEvolves(ws[m].db.checkouts[key], ws[n].db.checkouts[key])
  {
    RunEvolves(cfg, ws, m, n);
  }

  lemma BoundLater(
    cfg: Config, ws: seq<World>, m: nat, n: nat, claim: InboxClaim, d: TrustedDelivery, seen: bool)
    requires Run(cfg, ws) && m < n < |ws| && claim in ws[m].log.issued && ResolvedAt(ws, m, claim, d)
    requires IdOf(claim) in ws[m].tasks && ws[m + 1] == ApplyResolve(ws[m], IdOf(claim), ws[m + 1].now, seen)
    requires d.order in ws[m].db.checkouts && d.order in ws[n].db.checkouts
    requires ws[n].db.checkouts[d.order].generation == ws[m].db.checkouts[d.order].generation
    requires ws[n].db.checkouts[d.order].sessionId == ws[m].db.checkouts[d.order].sessionId
    ensures Bound(ws[n].db.checkouts, claim.fact, d.order, d.providerOrderId)
    ensures d == DeliveryOf(claim, d.order, ws[n].db.checkouts[d.order])
  {
    ResolvedTaskClaim(cfg, ws, m, claim);
    MappingsAreUnique(cfg, ws, m);
    ResolutionIsConservative(ws[m].db, ws[m].now, ws[m + 1].now, claim);
    MappingEvolves(cfg, ws, m + 1, n, d.order);
    BindingLasts(ws[m].db, ws[m].now, ws[m + 1].now, claim, d, ws[n].db.checkouts);
  }

  /** What a resolution bound stays bound while the mapping keeps its generation and session. */
  lemma BindingLasts(db: Db, fenceAt: Time, bindAt: Time, claim: InboxClaim, d: TrustedDelivery, later: Checkouts)
    requires UniqueIds(db.checkouts)
    requires ResolveStep(db, fenceAt, bindAt, claim).answer == Ok(d)
    requires
      var after := ResolveStep(db, fenceAt, bindAt, claim).db;
      && d.order in db.checkouts && d.order in after.checkouts && d.order in later
      && CheckoutRowEvolves(after.checkouts[d.order], later[d.order])
    requires later[d.order].generation == db.checkouts[d.order].generation
    requires later[d.order].sessionId == db.checkouts[d.order].sessionId
    ensures Bound(later, claim.fact, d.order, d.providerOrderId)
    ensures d == DeliveryOf(claim, d.order, later[d.order])
  {
    ResolutionIsConservative(db, fenceAt, bindAt, claim);
  }

  lemma SameEventSameFact(cfg: Config, ws: seq<World>, m: nat, n: nat, claim: InboxClaim, claim': InboxClaim)
    requires Run(cfg, ws) && m <= n < |ws|
    requires claim in ws[m].log.issued && claim' in ws[n].log.issued && claim.fact.eventId == claim'.fact.eventId
    ensures claim.fact == claim'.fact
  {
    RunKeepsInv(cfg, ws, n);
    RunEvolves(cfg, ws, m, n);
    var issued := ws[n].log.issued;
    var i :| 0 <= i < |ws[m].log.issued| && ws[m].log.issued[i] == claim;
    var j :| 0 <= j < |issued| && issued[j] == claim';
    assert issued[i] == claim;
    assert IssuedOk(ws[n].db.inbox, issued[i]) && IssuedOk(ws[n].db.inbox, issued[j]);
  }

  lemma ResolvedTaskClaim(cfg: Config, ws: seq<World>, m: nat, claim: InboxClaim)
    requires Run(cfg, ws) && m < |ws| && claim in ws[m].log.issued && IdOf(claim) in ws[m].tasks
    ensures ws[m].tasks[IdOf(claim)].claim == claim
  {
    RunKeepsInv(cfg, ws, m);
    assert TaskOk(cfg, ws[m], IdOf(claim), ws[m].tasks[IdOf(claim)]);
    IssuedOnce(ws[m].log.issued, claim, ws[m].tasks[IdOf(claim)].claim);
  }

  lemma IssuedOnce(issued: seq<InboxClaim>, claim: InboxClaim, claim': InboxClaim)
    requires forall i, j | 0 <= i < j < |issued| :: IdOf(issued[i]) != IdOf(issued[j])
    requires claim in issued && claim' in issued && IdOf(claim) == IdOf(claim')
    ensures claim == claim'
  {
    var i :| 0 <= i < |issued| && issued[i] == claim;
    var j :| 0 <= j < |issued| && issued[j] == claim';
  }
}

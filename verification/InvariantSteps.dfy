/** Preservation of the intake, timing, claim and delivery groups of the invariant. */
module InvariantSteps {
  import opened Wrappers
  import opened Model
  import opened Database
  import opened ResolutionLaws
  import opened Evolution
  import opened ProviderFacts
  import opened Delivery
  import opened Protocol
  import opened Invariants
  import Text

  // ------------------------------------------------------------ what changes

  /** New rows start at generation 0; other rows keep the generation they have. */
  ghost predicate KeepsGenerations(inbox: Inbox, inbox': Inbox) {
    forall e | e in inbox' :: inbox'[e].generation == if e in inbox then inbox[e].generation else 0
  }

  /** A row that is delivered was delivered before, unless it is `acked`. */
  ghost predicate DeliversOnly(inbox: Inbox, inbox': Inbox, acked: set<string>) {
    forall e | e in inbox' && inbox'[e].deliveredAt.Some? && e !in acked :: e in inbox && inbox[e].deliveredAt.Some?
  }

  ghost predicate QuietStep(db: Db, db': Db) {
    && db'.inbox.Keys == db.inbox.Keys && db'.receipts == db.receipts
    && KeepsGenerations(db.inbox, db'.inbox)
  }

  lemma CheckoutIsQuiet(db: Db, checkouts: Checkouts)
    ensures QuietStep(db, db.(checkouts := checkouts))
    ensures DeliversOnly(db.inbox, db.inbox, {})
  {
  }

  lemma ResolveIsQuiet(db: Db, fenceAt: Time, bindAt: Time, claim: InboxClaim)
    requires UniqueIds(db.checkouts)
    ensures QuietStep(db, ResolveStep(db, fenceAt, bindAt, claim).db)
    ensures DeliversOnly(db.inbox, ResolveStep(db, fenceAt, bindAt, claim).db.inbox, {})
  {
    ResolutionIsConservative(db, fenceAt, bindAt, claim);
  }

  lemma InsertKeepsGenerations(db: Db, now: Time, fact: ProviderFact, digest: Bytes)
    ensures KeepsGenerations(db.inbox, InsertStep(db, now, fact, digest).db.inbox)
    ensures DeliversOnly(db.inbox, InsertStep(db, now, fact, digest).db.inbox, {})
  {
  }

  lemma AckIsQuiet(db: Db, now: Time, delivery: TrustedDelivery)
    ensures QuietStep(db, AckStep(db, now, delivery).db)
    ensures DeliversOnly(db.inbox, AckStep(db, now, delivery).db.inbox, {delivery.eventId})
  {
  }

  lemma SettleIsQuiet(w: World, claim: InboxClaim, failure: Failure)
    ensures QuietStep(w.db, SettledDb(w, claim, failure))
    ensures DeliversOnly(w.db.inbox, SettledDb(w, claim, failure).inbox, {})
  {
  }

  lemma ClaimIsQuiet(db: Db, now: Time, e: string, owner: string, lease: Duration)
    requires e in db.inbox
    ensures ClaimStep(db, now, e, owner, lease).inbox.Keys == db.inbox.Keys
    ensures DeliversOnly(db.inbox, ClaimStep(db, now, e, owner, lease).inbox, {})
  {
  }

  /** Rows are added by a webhook and re-generated by a claim, never otherwise. */
  lemma RowsAndGenerations(cfg: Config, w: World, a: Action)
    requires DbOk(w.db) && Enabled(cfg, w, a)
    ensures !a.Webhook? && !a.ClaimRow? ==> QuietStep(w.db, Apply(cfg, w, a).db)
    ensures a.Webhook? ==> KeepsGenerations(w.db.inbox, Apply(cfg, w, a).db.inbox)
  {
    if a.Webhook? {
      var fact := ParseProviderFact(a.request.envelope, cfg.binding, w.now).value;
      InsertKeepsGenerations(w.db, w.now, fact, a.request.digest);
    } else if a.Resolve? {
      ResolveIsQuiet(w.db, w.now, a.bindAt, w.tasks[a.id].claim);
    } else if a.Ack? {
      AckIsQuiet(w.db, w.now, w.tasks[a.id].phase.delivery);
    } else if a.SettleFailure? {
      SettleIsQuiet(w, w.tasks[a.id].claim, w.tasks[a.id].phase.failure);
    } else if !a.ClaimRow? {
      InboxOfOthers(cfg, w, a);
      CheckoutIsQuiet(w.db, Apply(cfg, w, a).db.checkouts);
    }
  }

  /** Rows become delivered by an ack, never otherwise. */
  lemma DeliveredByAck(cfg: Config, w: World, a: Action)
    requires DbOk(w.db) && Enabled(cfg, w, a)
    ensures DeliversOnly(w.db.inbox, Apply(cfg, w, a).db.inbox,
                         if a.Ack? then {w.tasks[a.id].phase.delivery.eventId} else {})
  {
    if a.Webhook? {
      var fact := ParseProviderFact(a.request.envelope, cfg.binding, w.now).value;
      InsertKeepsGenerations(w.db, w.now, fact, a.request.digest);
    } else if a.ClaimRow? {
      ClaimIsQuiet(w.db, w.now, a.eventId, a.owner, a.lease);
    } else if a.Resolve? {
      ResolveIsQuiet(w.db, w.now, a.bindAt, w.tasks[a.id].claim);
    } else if a.Ack? {
      AckIsQuiet(w.db, w.now, w.tasks[a.id].phase.delivery);
    } else if a.SettleFailure? {
      SettleIsQuiet(w, w.tasks[a.id].claim, w.tasks[a.id].phase.failure);
    } else {
      InboxOfOthers(cfg, w, a);
    }
  }

  lemma InboxOfOthers(cfg: Config, w: World, a: Action)
    requires Enabled(cfg, w, a) && !a.Webhook? && !a.ClaimRow? && !a.Resolve? && !a.Ack? && !a.SettleFailure?
    ensures Apply(cfg, w, a).db.inbox == w.db.inbox
    ensures Apply(cfg, w, a).db == w.db.(checkouts := Apply(cfg, w, a).db.checkouts)
  {
  }

  // ------------------------------------------------------------------ intake

  lemma InsertKeepsIntake(db: Db, now: Time, fact: ProviderFact, digest: Bytes)
    requires IntakeOk(db) && TrustworthyFact(fact)
    ensures IntakeOk(InsertStep(db, now, fact, digest).db)
  {
    var stepped := InsertStep(db, now, fact, digest);
    if stepped.answer == Ok(Inserted) {
      AdmitKeepsIntake(db, fact, NewInboxRow(fact, digest, now));
    }
  }

  lemma AdmitKeepsIntake(db: Db, fact: ProviderFact, row: InboxRow)
    requires IntakeOk(db) && TrustworthyFact(fact) && row.fact == fact && row.effectKey == fact.EffectKey()
    requires fact.eventId !in db.receipts && fact.eventId !in db.inbox && !EffectAdmitted(db.inbox, row.effectKey)
    ensures
      IntakeOk(db.(receipts := db.receipts[fact.eventId := Receipt(row.digest, row.effectKey)],
                   inbox := db.inbox[fact.eventId := row]))
  {
    var id := fact.eventId;
    AdmitReceipts(db.receipts, db.inbox, id, row);
    AdmitOnce(db.inbox, id, row);
    AdmitFact(db.inbox, id, row);
  }

  lemma AdmitReceipts(receipts: Receipts, inbox: Inbox, id: string, row: InboxRow)
    requires ReceiptsAdmitted(receipts, inbox) && RowsReceipted(receipts, inbox) && id !in receipts && id !in inbox
    ensures ReceiptsAdmitted(receipts[id := Receipt(row.digest, row.effectKey)], inbox[id := row])
    ensures RowsReceipted(receipts[id := Receipt(row.digest, row.effectKey)], inbox[id := row])
  {
    var receipts', inbox' := receipts[id := Receipt(row.digest, row.effectKey)], inbox[id := row];
    forall r | r in receipts' ensures EffectAdmitted(inbox', receipts'[r].effectKey) {
      if r == id {
        assert inbox'[id].effectKey == row.effectKey;
      } else {
        assert EffectAdmitted(inbox, receipts[r].effectKey);
        var e :| e in inbox && inbox[e].effectKey == receipts[r].effectKey;
        assert inbox'[e] == inbox[e];
      }
    }
  }

  lemma AdmitFact(inbox: Inbox, id: string, row: InboxRow)
    requires FactsParsed(inbox) && TrustworthyFact(row.fact)
    ensures FactsParsed(inbox[id := row])
  {
  }

  lemma AdmitOnce(inbox: Inbox, id: string, row: InboxRow)
    requires EffectsOnce(inbox) && !EffectAdmitted(inbox, row.effectKey)
    ensures EffectsOnce(inbox[id := row])
  {
  }

  lemma IntakeStays(db: Db, db': Db)
    requires IntakeOk(db) && InboxEvolves(db.inbox, db'.inbox)
    requires db'.receipts == db.receipts && db'.inbox.Keys == db.inbox.Keys
    ensures IntakeOk(db')
  {
    forall e | e in db'.inbox ensures e in db.inbox && InboxRowEvolves(db.inbox[e], db'.inbox[e]) {
    }
    forall r | r in db'.receipts ensures EffectAdmitted(db'.inbox, db'.receipts[r].effectKey) {
      var e :| e in db.inbox && db.inbox[e].effectKey == db.receipts[r].effectKey;
      assert db'.inbox[e].effectKey == db.inbox[e].effectKey;
    }
  }

  lemma IntakeStep(cfg: Config, w: World, a: Action)
    requires DbOk(w.db) && IntakeOk(w.db) && Enabled(cfg, w, a)
    requires DbEvolves(w.db, Apply(cfg, w, a).db)
    ensures IntakeOk(Apply(cfg, w, a).db)
  {
    if a.ClaimRow? {
      ClaimIsQuiet(w.db, w.now, a.eventId, a.owner, a.lease);
      IntakeStays(w.db, Apply(cfg, w, a).db);
    } else if a.Webhook? {
      ParsedFactIsTrustworthy(a.request.envelope, cfg.binding, w.now);
      InsertKeepsIntake(w.db, w.now, ParseProviderFact(a.request.envelope, cfg.binding, w.now).value, a.request.digest);
    } else {
      RowsAndGenerations(cfg, w, a);
      IntakeStays(w.db, Apply(cfg, w, a).db);
    }
  }

  // ------------------------------------------------------------------ timing

  lemma PermanentCategories(failure: Failure)
    requires FailureOk(failure) && Settle(failure) == Quarantine
    ensures Category(failure) in QUARANTINE_CODES
  {
    if failure.Classified? {
      ShortCategories();
    }
  }

  lemma ShortCategories()
    ensures Text.ByteLength("binding") <= 64 && Text.ByteLength("order_state") <= 64
  {
    Text.AsciiLength("binding");
    Text.AsciiLength("order_state");
  }

  lemma PromptWrite(cfg: Config, now: Time, inbox: Inbox, now': Time, e: string, row: InboxRow)
    requires PromptOk(cfg, now, inbox) && now <= now' && PromptRow(cfg, now', row)
    ensures PromptOk(cfg, now', inbox[e := row]) && PromptOk(cfg, now', inbox)
  {
  }

  lemma SettledPrompt(cfg: Config, w: World, claim: InboxClaim, failure: Failure)
    requires PromptOk(cfg, w.now, w.db.inbox) && FailureOk(failure)
    ensures PromptOk(cfg, w.now, SettledDb(w, claim, failure).inbox)
  {
    match Settle(failure) {
      case Drop =>
      case Quarantine => PermanentCategories(failure);
      case Retry => BackoffRange(claim.attempts, claim.digest);
    }
  }

  lemma ResolvedPrompt(cfg: Config, w: World, bindAt: Time, claim: InboxClaim)
    requires DbOk(w.db) && PromptOk(cfg, w.now, w.db.inbox) && w.now <= bindAt
    ensures PromptOk(cfg, bindAt, ResolveStep(w.db, w.now, bindAt, claim).db.inbox)
  {
    ResolutionIsConservative(w.db, w.now, bindAt, claim);
    var after := ResolveStep(w.db, w.now, bindAt, claim);
    if after.answer.Ok? {
      var e := after.answer.value.eventId;
      PromptWrite(cfg, w.now, w.db.inbox, bindAt, e, after.db.inbox[e]);
    }
  }

  lemma ClaimedPrompt(cfg: Config, w: World, e: string, owner: string, lease: Duration)
    requires PromptOk(cfg, w.now, w.db.inbox) && e in w.db.inbox && 0 <= lease <= cfg.maxLease
    ensures PromptOk(cfg, w.now, ClaimStep(w.db, w.now, e, owner, lease).inbox)
  {
    PromptWrite(cfg, w.now, w.db.inbox, w.now, e, ClaimStep(w.db, w.now, e, owner, lease).inbox[e]);
  }

  lemma InsertedPrompt(cfg: Config, w: World, fact: ProviderFact, digest: Bytes)
    requires PromptOk(cfg, w.now, w.db.inbox)
    ensures PromptOk(cfg, w.now, InsertStep(w.db, w.now, fact, digest).db.inbox)
  {
    PromptWrite(cfg, w.now, w.db.inbox, w.now, fact.eventId, NewInboxRow(fact, digest, w.now));
  }

  lemma AckedPrompt(cfg: Config, w: World, delivery: TrustedDelivery)
    requires PromptOk(cfg, w.now, w.db.inbox)
    ensures PromptOk(cfg, w.now, AckStep(w.db, w.now, delivery).db.inbox)
  {
  }

  lemma PromptStep(cfg: Config, w: World, a: Action)
    requires DbOk(w.db) && PromptOk(cfg, w.now, w.db.inbox) && Enabled(cfg, w, a)
    requires a.SettleFailure? ==> FailureOk(w.tasks[a.id].phase.failure)
    ensures PromptOk(cfg, Apply(cfg, w, a).now, Apply(cfg, w, a).db.inbox)
  {
    if a.Webhook? {
      InsertedPrompt(cfg, w, ParseProviderFact(a.request.envelope, cfg.binding, w.now).value, a.request.digest);
    } else if a.ClaimRow? {
      ClaimedPrompt(cfg, w, a.eventId, a.owner, a.lease);
    } else if a.Resolve? {
      ResolvedPrompt(cfg, w, a.bindAt, w.tasks[a.id].claim);
    } else if a.Ack? {
      AckedPrompt(cfg, w, w.tasks[a.id].phase.delivery);
    } else if a.SettleFailure? {
      SettledPrompt(cfg, w, w.tasks[a.id].claim, w.tasks[a.id].phase.failure);
    }
  }

  // ------------------------------------------------------------------ claims

  lemma HandedOutStays(issued: seq<InboxClaim>, issued': seq<InboxClaim>, e: string, g: int)
    requires issued <= issued' && HandedOut(issued, e, g)
    ensures HandedOut(issued', e, g)
  {
    var i :| 0 <= i < |issued| && IdOf(issued[i]) == ClaimId(e, g);
    assert issued'[i] == issued[i];
  }

  lemma ClaimsStay(w: World, w': World)
    requires ClaimsOk(w) && InboxEvolves(w.db.inbox, w'.db.inbox) && w'.log.issued == w.log.issued
    requires KeepsGenerations(w.db.inbox, w'.db.inbox)
    ensures ClaimsOk(w')
  {
    forall i | 0 <= i < |w'.log.issued| ensures IssuedOk(w'.db.inbox, w'.log.issued[i]) {
      assert IssuedOk(w.db.inbox, w.log.issued[i]);
    }
  }

  lemma ClaimKeepsClaims(w: World, e: string, owner: string, lease: Duration)
    requires DbOk(w.db) && ClaimsOk(w) && e in w.db.inbox && w.db.inbox[e].Claimable(w.now)
    ensures ClaimsOk(ApplyClaim(w, e, owner, lease))
  {
    var w' := ApplyClaim(w, e, owner, lease);
    var issued, issued' := w.log.issued, w'.log.issued;
    ClaimEvolves(w.db, w.now, e, owner, lease);
    assert InboxRowOk(e, w.db.inbox[e]);
    forall i | 0 <= i < |issued'| ensures IssuedOk(w'.db.inbox, issued'[i]) {
      assert i < |issued| ==> IssuedOk(w.db.inbox, issued[i]);
    }
    forall i, j | 0 <= i < j < |issued'| ensures IdOf(issued'[i]) != IdOf(issued'[j]) {
      assert IssuedOk(w.db.inbox, issued[i]);
    }
    forall e', g | e' in w'.db.inbox && 1 <= g <= w'.db.inbox[e'].generation ensures HandedOut(issued', e', g) {
      if e' == e && g == w'.db.inbox[e].generation {
        assert IdOf(issued'[|issued|]) == ClaimId(e, g);
      } else {
        HandedOutStays(issued, issued', e', g);
      }
    }
  }

  lemma ClaimsStep(cfg: Config, w: World, a: Action)
    requires DbOk(w.db) && ClaimsOk(w) && Enabled(cfg, w, a)
    requires DbEvolves(w.db, Apply(cfg, w, a).db)
    ensures ClaimsOk(Apply(cfg, w, a))
  {
    if a.ClaimRow? {
      ClaimKeepsClaims(w, a.eventId, a.owner, a.lease);
    } else {
      RowsAndGenerations(cfg, w, a);
      ClaimsStay(w, Apply(cfg, w, a));
    }
  }

  // -------------------------------------------------------------- deliveries

  lemma DeliveryStays(checkouts: Checkouts, checkouts': Checkouts, claim: InboxClaim, d: TrustedDelivery)
    requires DeliveryOk(checkouts, claim, d) && CheckoutsEvolve(checkouts, checkouts')
    ensures DeliveryOk(checkouts', claim, d)
  {
    assert CheckoutRowEvolves(checkouts[d.order], checkouts'[d.order]);
  }

  lemma PhaseStays(cfg: Config, w: World, w': World, claim: InboxClaim, phase: Phase)
    requires PhaseOk(cfg, w, claim, phase) && CheckoutsEvolve(w.db.checkouts, w'.db.checkouts)
    requires w.log.calls <= w'.log.calls
    ensures PhaseOk(cfg, w', claim, phase)
  {
    match phase {
      case Resolved(d) => DeliveryStays(w.db.checkouts, w'.db.checkouts, claim, d);
      case Checked(d, _) => DeliveryStays(w.db.checkouts, w'.db.checkouts, claim, d);
      case Accepted(d) =>
        DeliveryStays(w.db.checkouts, w'.db.checkouts, claim, d);
        var c :| c in w.log.calls && c.accepted && c.claim == claim;
        assert c in w'.log.calls;
      case _ =>
    }
  }

  /** Tasks that were there before may keep their phase or be dropped. */
  lemma TasksStay(cfg: Config, w: World, w': World)
    requires TasksOk(cfg, w) && CheckoutsEvolve(w.db.checkouts, w'.db.checkouts)
    requires w.log.issued <= w'.log.issued && w.log.calls <= w'.log.calls
    ensures forall id | id in w.tasks :: TaskOk(cfg, w', id, w.tasks[id])
  {
    forall id | id in w.tasks ensures TaskOk(cfg, w', id, w.tasks[id]) {
      assert TaskOk(cfg, w, id, w.tasks[id]);
      PhaseStays(cfg, w, w', w.tasks[id].claim, w.tasks[id].phase);
    }
  }

  lemma ResolvedPhaseOk(cfg: Config, w: World, id: ClaimId, bindAt: Time, seen: bool)
    requires DbOk(w.db) && id in w.tasks
    ensures
      var w' := ApplyResolve(w, id, bindAt, seen);
      PhaseOk(cfg, w', w.tasks[id].claim, w'.tasks[id].phase)
  {
    ResolutionIsConservative(w.db, w.now, bindAt, w.tasks[id].claim);
    ResolveErrors(w.db, w.now, bindAt, w.tasks[id].claim);
  }

  /** Resolution fails in four ways only; an unknown order is `NoRows`, which is not permanent. */
  lemma ResolveErrors(db: Db, fenceAt: Time, bindAt: Time, claim: InboxClaim)
    requires UniqueIds(db.checkouts)
    ensures
      var answer := ResolveStep(db, fenceAt, bindAt, claim).answer;
      answer.Err? ==>
        && answer.error in {ClaimLost, CheckoutConflict, MappingNotFound, NoRows}
        && (answer.error == NoRows <==>
              && FenceHolds(db.inbox, claim, fenceAt)
              && claim.fact.metadataTenantId != "" && claim.fact.MetadataKey() !in db.checkouts)
        && (answer.error == NoRows ==> Settle(Sentinel(answer.error)) == Retry)
  {
  }

  lemma OrderPhaseOk(cfg: Config, w: World, claim: InboxClaim, d: TrustedDelivery, answer: Result<PaymentOrder, Failure>)
    requires DeliveryOk(w.db.checkouts, claim, d) && (answer.Err? ==> GatewayFailure(answer.error))
    ensures PhaseOk(cfg, w, claim, OrderPhase(cfg, d, answer))
  {
    if answer.Ok? && ValidateDeliveryOrder(answer.value, d).Some? {
      var problem := ValidateDeliveryOrder(answer.value, d).value;
      assert problem in {CheckoutConflict, DeliveryNotReady, InvalidProviderFact};
    }
  }

  lemma DeliveredPhaseOk(cfg: Config, w: World, id: ClaimId, answer: Result<(), Failure>)
    requires id in w.tasks && TaskOk(cfg, w, id, w.tasks[id]) && w.tasks[id].phase.Checked?
    requires answer.Err? ==> GatewayFailure(answer.error)
    ensures
      var w' := ApplyDeliver(w, id, answer);
      PhaseOk(cfg, w', w.tasks[id].claim, w'.tasks[id].phase)
  {
    var w' := ApplyDeliver(w, id, answer);
    var last := w'.log.calls[|w.log.calls|];
    assert last in w'.log.calls;
  }

  lemma TasksStep(cfg: Config, w: World, a: Action)
    requires DbOk(w.db) && TasksOk(cfg, w) && Enabled(cfg, w, a)
    requires Evolves(w, Apply(cfg, w, a))
    ensures TasksOk(cfg, Apply(cfg, w, a))
  {
    var w' := Apply(cfg, w, a);
    TasksStay(cfg, w, w');
    if a.ClaimRow? {
      assert w'.log.issued[|w.log.issued|] in w'.log.issued;
      assert InboxRowOk(a.eventId, w.db.inbox[a.eventId]);
    } else if a.Resolve? {
      ResolvedPhaseOk(cfg, w, a.id, a.bindAt, a.seen);
    } else if a.FailResolve? {
      assert GatewayFailure(Unclassified);
    } else if a.ReadOrder? {
      OrderPhaseOk(cfg, w, w.tasks[a.id].claim, w.tasks[a.id].phase.delivery, a.orderAnswer);
    } else if a.Deliver? {
      DeliveredPhaseOk(cfg, w, a.id, a.deliverAnswer);
    } else {
      TasksOfOthers(cfg, w, a);
    }
  }

  lemma TasksOfOthers(cfg: Config, w: World, a: Action)
    requires Enabled(cfg, w, a)
    requires !a.ClaimRow? && !a.Resolve? && !a.FailResolve? && !a.ReadOrder? && !a.Deliver?
    ensures forall id | id in Apply(cfg, w, a).tasks :: id in w.tasks && Apply(cfg, w, a).tasks[id] == w.tasks[id]
  {
  }

  lemma CallsStay(cfg: Config, w: World, w': World)
    requires CallsOk(cfg, w) && CheckoutsEvolve(w.db.checkouts, w'.db.checkouts) && w.log.issued <= w'.log.issued
    ensures forall c | c in w.log.calls :: CallOk(cfg, w', c)
  {
    forall c | c in w.log.calls ensures CallOk(cfg, w', c) {
      assert CallOk(cfg, w, c);
      DeliveryStays(w.db.checkouts, w'.db.checkouts, c.claim, c.delivery);
    }
  }

  lemma DeliverKeepsCalls(cfg: Config, w: World, id: ClaimId, answer: Result<(), Failure>)
    requires id in w.tasks && TaskOk(cfg, w, id, w.tasks[id]) && w.tasks[id].phase.Checked?
    requires forall c | c in w.log.calls :: CallOk(cfg, ApplyDeliver(w, id, answer), c)
    ensures forall c | c in ApplyDeliver(w, id, answer).log.calls :: CallOk(cfg, ApplyDeliver(w, id, answer), c)
  {
    var w' := ApplyDeliver(w, id, answer);
    var call := w'.log.calls[|w.log.calls|];
    assert CallOk(cfg, w', call);
    assert forall c | c in w'.log.calls :: c in w.log.calls || c == call;
  }

  /** An acked row's task had an accepted call for this very event. */
  lemma AckedIsConfirmed(cfg: Config, w: World, id: ClaimId)
    requires id in w.tasks && TaskOk(cfg, w, id, w.tasks[id]) && w.tasks[id].phase.Accepted? && CallsOk(cfg, w)
    ensures Confirmed(w.log.calls, w.tasks[id].phase.delivery.eventId)
  {
    var c :| c in w.log.calls && c.accepted && c.claim == w.tasks[id].claim;
    assert CallOk(cfg, w, c);
  }

  lemma ConfirmedStays(calls: seq<DeliverCall>, calls': seq<DeliverCall>, e: string)
    requires calls <= calls' && Confirmed(calls, e)
    ensures Confirmed(calls', e)
  {
    var c :| c in calls && c.accepted && c.delivery.eventId == e;
    assert c in calls';
  }

  lemma CallsStep(cfg: Config, w: World, a: Action)
    requires DbOk(w.db) && TasksOk(cfg, w) && CallsOk(cfg, w) && Enabled(cfg, w, a)
    requires Evolves(w, Apply(cfg, w, a))
    ensures CallsOk(cfg, Apply(cfg, w, a))
  {
    CallsStayOk(cfg, w, a);
    DeliveredStayConfirmed(cfg, w, a);
  }

  lemma CallsStayOk(cfg: Config, w: World, a: Action)
    requires TasksOk(cfg, w) && CallsOk(cfg, w) && Enabled(cfg, w, a)
    requires Evolves(w, Apply(cfg, w, a))
    ensures forall c | c in Apply(cfg, w, a).log.calls :: CallOk(cfg, Apply(cfg, w, a), c)
  {
    CallsStay(cfg, w, Apply(cfg, w, a));
    if a.Deliver? {
      DeliverKeepsCalls(cfg, w, a.id, a.deliverAnswer);
    } else {
      CallsOfOthers(cfg, w, a);
    }
  }

  lemma DeliveredStayConfirmed(cfg: Config, w: World, a: Action)
    requires DbOk(w.db) && TasksOk(cfg, w) && CallsOk(cfg, w) && Enabled(cfg, w, a)
    requires w.log.calls <= Apply(cfg, w, a).log.calls
    ensures RowsConfirmed(Apply(cfg, w, a).db.inbox, Apply(cfg, w, a).log.calls)
  {
    var acked := if a.Ack? then {w.tasks[a.id].phase.delivery.eventId} else {};
    DeliveredByAck(cfg, w, a);
    if a.Ack? {
      AckedIsConfirmed(cfg, w, a.id);
    }
    ConfirmedCarries(w.db.inbox, Apply(cfg, w, a).db.inbox, acked, w.log.calls, Apply(cfg, w, a).log.calls);
  }

  lemma ConfirmedCarries(inbox: Inbox, inbox': Inbox, acked: set<string>, calls: seq<DeliverCall>, calls': seq<DeliverCall>)
    requires RowsConfirmed(inbox, calls) && DeliversOnly(inbox, inbox', acked) && calls <= calls'
    requires forall e | e in acked :: Confirmed(calls, e)
    ensures RowsConfirmed(inbox', calls')
  {
    forall e | e in inbox' && inbox'[e].deliveredAt.Some? ensures Confirmed(calls', e) {
      ConfirmedStays(calls, calls', e);
    }
  }

  lemma CallsOfOthers(cfg: Config, w: World, a: Action)
    requires Enabled(cfg, w, a) && !a.Deliver?
    ensures Apply(cfg, w, a).log.calls == w.log.calls
  {
  }
}

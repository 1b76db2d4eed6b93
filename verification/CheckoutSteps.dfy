/** Preservation of the checkout history: generations, sessions and responses. */
module CheckoutSteps {
  import opened Wrappers
  import opened Model
  import opened Database
  import opened ResolutionLaws
  import opened Evolution
  import opened Delivery
  import opened Protocol
  import opened Invariants
  import opened CheckoutKeys
  import Text

  // ------------------------------------------------------------ frame lemmas

  /** Two mappings agree on everything but the provider ids. */
  ghost predicate SameCheckout(row: CheckoutRow, row': CheckoutRow) {
    row'.generation == row.generation && row'.idempotencyKey == row.idempotencyKey && TicketOf(row') == TicketOf(row)
  }

  ghost predicate SameCheckouts(checkouts: Checkouts, checkouts': Checkouts) {
    checkouts'.Keys == checkouts.Keys && forall k | k in checkouts :: SameCheckout(checkouts[k], checkouts'[k])
  }

  lemma GenerationsStay(
    checkouts: Checkouts, openedAt: Openings, stored: Tickets, now: Time, checkouts': Checkouts, now': Time)
    requires KeysOk(checkouts) && GenerationsOk(checkouts, openedAt, stored, now)
    requires SameCheckouts(checkouts, checkouts') && now <= now'
    ensures KeysOk(checkouts') && GenerationsOk(checkouts', openedAt, stored, now')
  {
    forall k | k in checkouts' ensures k in checkouts && SameCheckout(checkouts[k], checkouts'[k]) {
    }
    forall slot | Reached(checkouts', slot) ensures GenerationOk(checkouts', openedAt, stored, now', slot) {
      assert Reached(checkouts, slot) && GenerationOk(checkouts, openedAt, stored, now, slot);
    }
    forall slot | Reached(checkouts, slot) ensures Reached(checkouts', slot) {
    }
  }

  /** Mappings are kept and their generations only grow; recorded openings and tickets are kept. */
  ghost predicate SlotsGrow(w: World, w': World) {
    && (forall k | k in w.db.checkouts ::
          k in w'.db.checkouts && w.db.checkouts[k].generation <= w'.db.checkouts[k].generation)
    && (forall s | s in w.log.openedAt :: s in w'.log.openedAt && w'.log.openedAt[s] == w.log.openedAt[s])
    && (forall s | s in w.log.stored :: s in w'.log.stored && w'.log.stored[s] == w.log.stored[s])
    && w.now <= w'.now
  }

  /** Handlers, responses and sessions of before stay accounted for. */
  lemma ResponsesStay(w: World, w': World)
    requires ResponsesOk(w) && SlotsGrow(w, w')
    ensures forall h | h in w.handlers :: HandlerOk(w', w.handlers[h])
    ensures forall r | r in w.log.responses :: ResponseOk(w'.log.stored, r)
    ensures forall c | c in w.log.created :: c.slot in w'.log.openedAt && w'.log.openedAt[c.slot] <= c.at <= w'.now
  {
    forall h | h in w.handlers ensures HandlerOk(w', w.handlers[h]) {
      assert HandlerOk(w, w.handlers[h]);
    }
  }

  // ------------------------------------------------------- changing one slot

  lemma OpenFirst(checkouts: Checkouts, openedAt: Openings, stored: Tickets, now: Time, key: OrderKey, row: CheckoutRow)
    requires GenerationsOk(checkouts, openedAt, stored, now)
    requires key !in checkouts && row.generation == 1 && !row.Complete()
    ensures Slot(key, 1) !in openedAt
    ensures GenerationsOk(checkouts[key := row], openedAt[Slot(key, 1) := now], stored, now)
  {
    var checkouts', openedAt' := checkouts[key := row], openedAt[Slot(key, 1) := now];
    assert !Reached(checkouts, Slot(key, 1));
    forall slot | Reached(checkouts', slot) ensures GenerationOk(checkouts', openedAt', stored, now, slot) {
      if slot.key != key {
        assert Reached(checkouts, slot) && GenerationOk(checkouts, openedAt, stored, now, slot);
      }
    }
    forall slot | Reached(checkouts, slot) ensures Reached(checkouts', slot) {
    }
  }

  lemma OpenNext(checkouts: Checkouts, openedAt: Openings, stored: Tickets, now: Time, key: OrderKey, row: CheckoutRow)
    requires GenerationsOk(checkouts, openedAt, stored, now)
    requires key in checkouts && checkouts[key].generation >= 1
    requires checkouts[key].Complete() && checkouts[key].expiresAt <= now
    requires row.generation == checkouts[key].generation + 1 && !row.Complete()
    ensures Slot(key, row.generation) !in openedAt
    ensures GenerationsOk(checkouts[key := row], openedAt[Slot(key, row.generation) := now], stored, now)
  {
    var last, next := Slot(key, row.generation - 1), Slot(key, row.generation);
    var checkouts', openedAt' := checkouts[key := row], openedAt[next := now];
    assert Reached(checkouts, last) && GenerationOk(checkouts, openedAt, stored, now, last);
    assert !Reached(checkouts, next);
    forall slot | Reached(checkouts', slot) ensures GenerationOk(checkouts', openedAt', stored, now, slot) {
      assert slot != next ==> Reached(checkouts, slot) && GenerationOk(checkouts, openedAt, stored, now, slot);
    }
    forall slot | Reached(checkouts, slot) ensures Reached(checkouts', slot) {
    }
  }

  lemma StoreTicket(checkouts: Checkouts, openedAt: Openings, stored: Tickets, now: Time, key: OrderKey, row: CheckoutRow)
    requires GenerationsOk(checkouts, openedAt, stored, now)
    requires key in checkouts && checkouts[key].generation >= 1
    requires !checkouts[key].Complete() && row.Complete() && row.generation == checkouts[key].generation
    ensures Slot(key, row.generation) !in stored
    ensures GenerationsOk(checkouts[key := row], openedAt, stored[Slot(key, row.generation) := TicketOf(row)], now)
  {
    var changed := Slot(key, row.generation);
    var checkouts', stored' := checkouts[key := row], stored[changed := TicketOf(row)];
    assert Reached(checkouts, changed) && GenerationOk(checkouts, openedAt, stored, now, changed);
    forall slot | Reached(checkouts', slot) ensures GenerationOk(checkouts', openedAt, stored', now, slot) {
      assert Reached(checkouts, slot) && GenerationOk(checkouts, openedAt, stored, now, slot);
    }
    forall slot | Reached(checkouts, slot) ensures Reached(checkouts', slot) {
    }
  }

  // ------------------------------------------------------------------- steps

  lemma IdentityIsNulFree(s: string)
    requires Text.ValidIdentity(s)
    ensures NulFree(s)
  {
  }

  lemma ReserveKeepsKeys(db: Db, now: Time, order: PaymentOrder, request: CheckoutRequest)
    requires DbOk(db) && KeysOk(db.checkouts) && PayableOrder(order)
    ensures KeysOk(ReserveStep(db, now, order, request).db.checkouts)
  {
    IdentityIsNulFree(order.id);
    IdentityIsNulFree(order.tenantId);
    var stepped := ReserveStep(db, now, order, request);
    if stepped.answer.Ok? {
      var row := stepped.answer.value.row;
      assert row.idempotencyKey == IdempotencyKey(order.Key(), row.generation);
    }
  }

  /** The three outcomes of a reservation: a new row, the row as it is, or the row's next generation. */
  lemma ReserveOutcomes(db: Db, now: Time, order: PaymentOrder, request: CheckoutRequest)
    requires ReserveStep(db, now, order, request).answer.Ok?
    ensures
      var stepped := ReserveStep(db, now, order, request);
      var key, row := stepped.answer.value.key, stepped.answer.value.row;
      && key == order.Key()
      && stepped.db == db.(checkouts := db.checkouts[key := row])
      && (key !in db.checkouts ==> row.generation == 1 && !row.Complete())
      && (key in db.checkouts && row != db.checkouts[key] ==>
            && db.checkouts[key].Complete() && db.checkouts[key].expiresAt <= now
            && row.generation == db.checkouts[key].generation + 1 && !row.Complete())
  {
  }

  lemma ReserveKeepsGenerations(w: World, h: nat, order: PaymentOrder, request: CheckoutRequest)
    requires DbOk(w.db) && GenerationsOk(w.db.checkouts, w.log.openedAt, w.log.stored, w.now)
    ensures
      var w' := ApplyReserve(w, h, order, request);
      GenerationsOk(w'.db.checkouts, w'.log.openedAt, w'.log.stored, w'.now)
  {
    var checkouts, openedAt, stored, now := w.db.checkouts, w.log.openedAt, w.log.stored, w.now;
    var stepped := ReserveStep(w.db, now, order, request);
    if stepped.answer.Ok? {
      ReserveOutcomes(w.db, now, order, request);
      var key, row := stepped.answer.value.key, stepped.answer.value.row;
      if key !in checkouts {
        OpenFirst(checkouts, openedAt, stored, now, key, row);
      } else if row == checkouts[key] {
        assert Reached(checkouts, Slot(key, row.generation));
        assert GenerationOk(checkouts, openedAt, stored, now, Slot(key, row.generation));
        assert checkouts[key := row] == checkouts;
      } else {
        OpenNext(checkouts, openedAt, stored, now, key, row);
      }
    }
  }

  /** A reservation is handed out as its row stands. */
  lemma ReservedHandlerOk(w: World, reservation: Reservation)
    requires DbOk(w.db) && GenerationsOk(w.db.checkouts, w.log.openedAt, w.log.stored, w.now)
    requires reservation.key in w.db.checkouts && w.db.checkouts[reservation.key] == reservation.row
    ensures HandlerOk(w, Handler(reservation, None))
  {
    var slot := SlotOf(reservation);
    assert Reached(w.db.checkouts, slot);
    assert GenerationOk(w.db.checkouts, w.log.openedAt, w.log.stored, w.now, slot);
  }

  /** The two outcomes of a save: the complete row as it is, or the open row with the session. */
  lemma SaveOutcomes(db: Db, reservation: Reservation, session: CheckoutSession)
    requires SaveStep(db, reservation, session).answer.Ok? && session.expiresAt != ZERO_TIME
    ensures
      var stepped := SaveStep(db, reservation, session);
      var key, row := stepped.answer.value.key, stepped.answer.value.row;
      && key == reservation.key && key in db.checkouts
      && row.Complete() && row.generation == db.checkouts[key].generation == reservation.row.generation
      && row.idempotencyKey == db.checkouts[key].idempotencyKey
      && (if db.checkouts[key].Complete() then row == db.checkouts[key] && stepped.db == db
          else stepped.db == db.(checkouts := db.checkouts[key := row]))
  {
  }

  lemma SaveKeepsKeys(db: Db, reservation: Reservation, session: CheckoutSession)
    requires KeysOk(db.checkouts) && session.expiresAt != ZERO_TIME
    ensures KeysOk(SaveStep(db, reservation, session).db.checkouts)
  {
    if SaveStep(db, reservation, session).answer.Ok? {
      SaveOutcomes(db, reservation, session);
    }
  }

  lemma SaveKeepsGenerations(w: World, h: nat)
    requires DbOk(w.db) && GenerationsOk(w.db.checkouts, w.log.openedAt, w.log.stored, w.now)
    requires h in w.handlers && w.handlers[h].session.Some? && w.handlers[h].session.value.expiresAt != ZERO_TIME
    ensures
      var w' := ApplySave(w, h);
      var stepped := SaveStep(w.db, w.handlers[h].reservation, w.handlers[h].session.value);
      && GenerationsOk(w'.db.checkouts, w'.log.openedAt, w'.log.stored, w'.now)
      && (stepped.answer.Ok? ==>
            var slot := SlotOf(stepped.answer.value);
            slot in w'.log.stored && w'.log.stored[slot] == TicketOf(stepped.answer.value.row))
  {
    var reservation, session := w.handlers[h].reservation, w.handlers[h].session.value;
    var stepped := SaveStep(w.db, reservation, session);
    if stepped.answer.Ok? {
      SaveOutcomes(w.db, reservation, session);
      var key, row := reservation.key, stepped.answer.value.row;
      var slot := Slot(key, row.generation);
      assert Reached(w.db.checkouts, slot);
      assert GenerationOk(w.db.checkouts, w.log.openedAt, w.log.stored, w.now, slot);
      if !w.db.checkouts[key].Complete() {
        StoreTicket(w.db.checkouts, w.log.openedAt, w.log.stored, w.now, key, row);
      }
    }
  }

  lemma ResolveSameCheckouts(db: Db, fenceAt: Time, bindAt: Time, claim: InboxClaim)
    requires UniqueIds(db.checkouts)
    ensures SameCheckouts(db.checkouts, ResolveStep(db, fenceAt, bindAt, claim).db.checkouts)
  {
    ResolutionIsConservative(db, fenceAt, bindAt, claim);
  }

  lemma SettleSameCheckouts(w: World, claim: InboxClaim, failure: Failure)
    ensures SettledDb(w, claim, failure).checkouts == w.db.checkouts
  {
  }

  lemma CheckoutUntouched(cfg: Config, w: World, a: Action)
    requires DbOk(w.db) && Enabled(cfg, w, a) && !a.Reserve? && !a.Save?
    ensures SameCheckouts(w.db.checkouts, Apply(cfg, w, a).db.checkouts)
    ensures Apply(cfg, w, a).log.openedAt == w.log.openedAt && Apply(cfg, w, a).log.stored == w.log.stored
  {
    SlotsUntouched(cfg, w, a);
    if a.Resolve? {
      ResolveSameCheckouts(w.db, w.now, a.bindAt, w.tasks[a.id].claim);
    } else {
      MappingsUntouched(cfg, w, a);
    }
  }

  lemma SlotsUntouched(cfg: Config, w: World, a: Action)
    requires Enabled(cfg, w, a) && !a.Reserve? && !a.Save?
    ensures Apply(cfg, w, a).log.openedAt == w.log.openedAt && Apply(cfg, w, a).log.stored == w.log.stored
  {
  }

  lemma MappingsUntouched(cfg: Config, w: World, a: Action)
    requires Enabled(cfg, w, a) && !a.Reserve? && !a.Save? && !a.Resolve?
    ensures Apply(cfg, w, a).db.checkouts == w.db.checkouts
  {
    if a.SettleFailure? {
      SettleSameCheckouts(w, w.tasks[a.id].claim, w.tasks[a.id].phase.failure);
    }
  }

  /** Actions of the relay and the clock leave handlers and responses alone. */
  lemma HandlersUntouched(cfg: Config, w: World, a: Action)
    requires Enabled(cfg, w, a) && !a.Reserve? && !a.AnswerExisting? && !a.CreateSession? && !a.Save? && !a.AbandonHandler?
    ensures
      var w' := Apply(cfg, w, a);
      w'.handlers == w.handlers && w'.log.responses == w.log.responses && w'.log.created == w.log.created
  {
  }

  lemma CreatedOk(w: World, h: nat, session: CheckoutSession)
    requires h in w.handlers && HandlerOk(w, w.handlers[h]) && w.now >= 0
    requires GenerationsOk(w.db.checkouts, w.log.openedAt, w.log.stored, w.now)
    requires ValidCheckoutSession(session, w.now)
    ensures
      var w' := ApplyCreate(w, h, session);
      && HandlerOk(w', w'.handlers[h])
      && forall c | c in w'.log.created ::
           c in w.log.created || (c.slot in w'.log.openedAt && w'.log.openedAt[c.slot] <= c.at <= w'.now)
  {
    assert GenerationOk(w.db.checkouts, w.log.openedAt, w.log.stored, w.now, SlotOf(w.handlers[h].reservation));
  }

  lemma CreateKeepsResponses(w: World, h: nat, session: CheckoutSession)
    requires ResponsesOk(w) && h in w.handlers && w.now >= 0 && ValidCheckoutSession(session, w.now)
    requires GenerationsOk(w.db.checkouts, w.log.openedAt, w.log.stored, w.now)
    ensures ResponsesOk(ApplyCreate(w, h, session))
  {
    ResponsesStay(w, ApplyCreate(w, h, session));
    CreatedOk(w, h, session);
  }

  lemma ReserveKeepsResponses(w: World, h: nat, order: PaymentOrder, request: CheckoutRequest)
    requires ResponsesOk(w) && DbOk(w.db)
    requires GenerationsOk(w.db.checkouts, w.log.openedAt, w.log.stored, w.now)
    ensures ResponsesOk(ApplyReserve(w, h, order, request))
  {
    var w' := ApplyReserve(w, h, order, request);
    var stepped := ReserveStep(w.db, w.now, order, request);
    if stepped.answer.Ok? {
      ReserveEvolves(w.db, w.now, order, request);
      ReserveOutcomes(w.db, w.now, order, request);
      ReserveKeepsGenerations(w, h, order, request);
      ResponsesStay(w, w');
      ReservedHandlerOk(w', stepped.answer.value);
    }
  }

  lemma SaveShape(w: World, h: nat)
    requires h in w.handlers && w.handlers[h].session.Some?
    ensures
      var w' := ApplySave(w, h);
      var answer := SaveStep(w.db, w.handlers[h].reservation, w.handlers[h].session.value).answer;
      && w'.handlers == w.handlers - {h} && w'.log.created == w.log.created
      && (answer.Err? ==> w'.log.responses == w.log.responses)
      && (answer.Ok? ==>
            w'.log.responses == w.log.responses + [Response(SlotOf(answer.value), TicketOf(answer.value.row), w.now)])
  {
  }

  lemma RespondOnce(w: World, w': World, extra: seq<Response>)
    requires ResponsesOk(w) && SlotsGrow(w, w')
    requires w'.handlers.Keys <= w.handlers.Keys && (forall h | h in w'.handlers :: w'.handlers[h] == w.handlers[h])
    requires w'.log.created == w.log.created && w'.log.responses == w.log.responses + extra
    requires forall r | r in extra :: ResponseOk(w'.log.stored, r)
    ensures ResponsesOk(w')
  {
    ResponsesStay(w, w');
    forall r | r in w'.log.responses ensures ResponseOk(w'.log.stored, r) {
      assert r in w.log.responses || r in extra;
    }
  }

  lemma SaveGrows(w: World, h: nat)
    requires h in w.handlers && w.handlers[h].session.Some? && w.handlers[h].session.value.expiresAt != ZERO_TIME
    ensures SlotsGrow(w, ApplySave(w, h))
  {
    var reservation, session := w.handlers[h].reservation, w.handlers[h].session.value;
    if SaveStep(w.db, reservation, session).answer.Ok? {
      SaveOutcomes(w.db, reservation, session);
    }
  }

  lemma SaveKeepsResponses(w: World, h: nat)
    requires ResponsesOk(w) && DbOk(w.db)
    requires GenerationsOk(w.db.checkouts, w.log.openedAt, w.log.stored, w.now)
    requires h in w.handlers && w.handlers[h].session.Some?
    ensures ResponsesOk(ApplySave(w, h))
  {
    assert HandlerOk(w, w.handlers[h]);
    SaveKeepsGenerations(w, h);
    SaveShape(w, h);
    SaveGrows(w, h);
    var answer := SaveStep(w.db, w.handlers[h].reservation, w.handlers[h].session.value).answer;
    RespondOnce(w, ApplySave(w, h),
      if answer.Ok? then [Response(SlotOf(answer.value), TicketOf(answer.value.row), w.now)] else []);
  }

  lemma AnswerKeepsResponses(w: World, h: nat)
    requires ResponsesOk(w) && h in w.handlers && w.handlers[h].reservation.row.Complete()
    ensures ResponsesOk(ApplyAnswer(w, h))
  {
    assert HandlerOk(w, w.handlers[h]);
    var reservation := w.handlers[h].reservation;
    RespondOnce(w, ApplyAnswer(w, h),
      if reservation.row.Available(w.now) then [Response(SlotOf(reservation), TicketOf(reservation.row), w.now)] else []);
  }

  lemma LeaveKeepsResponses(w: World, h: nat)
    requires ResponsesOk(w)
    ensures ResponsesOk(Leave(w, h))
  {
    RespondOnce(w, Leave(w, h), []);
  }

  lemma RelayKeepsResponses(cfg: Config, w: World, a: Action)
    requires ResponsesOk(w) && DbOk(w.db) && Enabled(cfg, w, a)
    requires !a.Reserve? && !a.AnswerExisting? && !a.CreateSession? && !a.Save? && !a.AbandonHandler?
    ensures ResponsesOk(Apply(cfg, w, a))
  {
    CheckoutUntouched(cfg, w, a);
    HandlersUntouched(cfg, w, a);
    HistoryStep(cfg, w, a);
    RespondOnce(w, Apply(cfg, w, a), []);
  }

  lemma ResponsesStep(cfg: Config, w: World, a: Action)
    requires DbOk(w.db) && w.now >= 0 && Enabled(cfg, w, a) && ResponsesOk(w)
    requires GenerationsOk(w.db.checkouts, w.log.openedAt, w.log.stored, w.now)
    ensures ResponsesOk(Apply(cfg, w, a))
  {
    if a.Reserve? {
      ReserveKeepsResponses(w, a.handlerId, a.order, a.checkoutRequest);
    } else if a.CreateSession? {
      CreateKeepsResponses(w, a.handlerId, a.session);
    } else if a.Save? {
      SaveKeepsResponses(w, a.handlerId);
    } else if a.AnswerExisting? {
      AnswerKeepsResponses(w, a.handlerId);
    } else if a.AbandonHandler? {
      LeaveKeepsResponses(w, a.handlerId);
    } else {
      RelayKeepsResponses(cfg, w, a);
    }
  }

  lemma CheckoutStep(cfg: Config, w: World, a: Action)
    requires DbOk(w.db) && w.now >= 0 && CheckoutHistoryOk(w) && Enabled(cfg, w, a)
    ensures CheckoutHistoryOk(Apply(cfg, w, a))
  {
    var w' := Apply(cfg, w, a);
    ResponsesStep(cfg, w, a);
    if a.Reserve? {
      ReserveKeepsKeys(w.db, w.now, a.order, a.checkoutRequest);
      ReserveKeepsGenerations(w, a.handlerId, a.order, a.checkoutRequest);
    } else if a.Save? {
      assert HandlerOk(w, w.handlers[a.handlerId]);
      SaveKeepsKeys(w.db, w.handlers[a.handlerId].reservation, w.handlers[a.handlerId].session.value);
      SaveKeepsGenerations(w, a.handlerId);
    } else {
      CheckoutUntouched(cfg, w, a);
      HistoryStep(cfg, w, a);
      GenerationsStay(w.db.checkouts, w.log.openedAt, w.log.stored, w.now, w'.db.checkouts, w'.now);
    }
  }
}

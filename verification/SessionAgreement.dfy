/**
 Handlers that serve the same checkout at once: if Stripe answers one session for one idempotency key, whoever
 saves after the first gets the session the first one stored.
 */
module SessionAgreement {
  import opened Wrappers
  import opened Model
  import opened CheckoutKeys
  import opened Database
  import opened ResolutionLaws
  import opened Protocol
  import opened Evolution
  import opened Invariants
  import opened CheckoutSteps
  import opened Runs

  type Sessions = seq<CreatedSession>

  ghost predicate Created(created: Sessions, slot: Slot, session: CheckoutSession) {
    exists i :: 0 <= i < |created| && created[i].slot == slot && created[i].session == session
  }

  /** The row holds the session, with its payment intent if it came with one. */
  predicate Holds(row: CheckoutRow, session: CheckoutSession) {
    && row.sessionId == session.id && row.redirectUrl == session.url && row.expiresAt == session.expiresAt
    && (session.paymentIntent != "" ==> row.paymentIntent == session.paymentIntent)
  }

  /** A complete row holds a session Stripe created for its generation. */
  ghost predicate RowBacked(created: Sessions, key: OrderKey, row: CheckoutRow) {
    row.Complete() ==> exists session :: Created(created, Slot(key, row.generation), session) && Holds(row, session)
  }

  ghost predicate RowsBacked(checkouts: Checkouts, created: Sessions) {
    forall k | k in checkouts :: RowBacked(created, k, checkouts[k])
  }

  /** A handler has the key of its generation, and its session was created under it. */
  ghost predicate HandlerBacked(created: Sessions, handler: Handler) {
    && handler.reservation.row.idempotencyKey == IdempotencyKey(handler.reservation.key, handler.reservation.row.generation)
    && (handler.session.Some? ==> Created(created, SlotOf(handler.reservation), handler.session.value))
  }

  ghost predicate Backed(w: World) {
    && RowsBacked(w.db.checkouts, w.log.created)
    && forall h | h in w.handlers :: HandlerBacked(w.log.created, w.handlers[h])
  }

  // ----------------------------------------------------------------- each step

  lemma StillCreated(created: Sessions, created': Sessions, slot: Slot, session: CheckoutSession)
    requires created <= created' && Created(created, slot, session)
    ensures Created(created', slot, session)
  {
    var i :| 0 <= i < |created| && created[i].slot == slot && created[i].session == session;
    assert created'[i] == created[i];
  }

  lemma RowStillBacked(created: Sessions, created': Sessions, key: OrderKey, row: CheckoutRow)
    requires created <= created' && RowBacked(created, key, row)
    ensures RowBacked(created', key, row)
  {
    if row.Complete() {
      var session :| Created(created, Slot(key, row.generation), session) && Holds(row, session);
      StillCreated(created, created', Slot(key, row.generation), session);
    }
  }

  lemma HandlerStillBacked(created: Sessions, created': Sessions, handler: Handler)
    requires created <= created' && HandlerBacked(created, handler)
    ensures HandlerBacked(created', handler)
  {
    if handler.session.Some? {
      StillCreated(created, created', SlotOf(handler.reservation), handler.session.value);
    }
  }

  /** A row that is written: incomplete, or backed itself. */
  lemma RowWritten(checkouts: Checkouts, created: Sessions, key: OrderKey, row: CheckoutRow)
    requires RowsBacked(checkouts, created) && RowBacked(created, key, row)
    ensures RowsBacked(checkouts[key := row], created)
  {
  }

  /** What a resolution fills in does not take a row away from its session. */
  lemma FilledInStaysBacked(created: Sessions, key: OrderKey, before: CheckoutRow, after: CheckoutRow)
    requires RowBacked(created, key, before) && OnlyFilledIn(before, after)
    ensures RowBacked(created, key, after)
  {
    if after.Complete() {
      var session :| Created(created, Slot(key, before.generation), session) && Holds(before, session);
      assert Holds(after, session);
    }
  }

  /** A reservation has its generation's key, and leaves an incomplete row or the one that was there. */
  lemma ReservedRowBacked(db: Db, created: Sessions, now: Time, order: PaymentOrder, request: CheckoutRequest)
    requires RowsBacked(db.checkouts, created) && DbOk(db) && KeysOk(db.checkouts) && PayableOrder(order)
    requires ReserveStep(db, now, order, request).answer.Ok?
    ensures
      var stepped := ReserveStep(db, now, order, request);
      RowsBacked(stepped.db.checkouts, created) && HandlerBacked(created, Handler(stepped.answer.value, None))
  {
    ReserveKeepsKeys(db, now, order, request);
    ReserveOutcomes(db, now, order, request);
    var reservation := ReserveStep(db, now, order, request).answer.value;
    assert RowBacked(created, reservation.key, reservation.row);
    RowWritten(db.checkouts, created, reservation.key, reservation.row);
  }

  lemma ReserveBacked(w: World, h: nat, order: PaymentOrder, request: CheckoutRequest)
    requires Backed(w) && DbOk(w.db) && KeysOk(w.db.checkouts) && PayableOrder(order)
    ensures Backed(ApplyReserve(w, h, order, request))
  {
    if ReserveStep(w.db, w.now, order, request).answer.Ok? {
      ReservedRowBacked(w.db, w.log.created, w.now, order, request);
    }
  }

  lemma CreateBacked(w: World, h: nat, session: CheckoutSession)
    requires Backed(w) && h in w.handlers
    ensures Backed(ApplyCreate(w, h, session))
  {
    var w' := ApplyCreate(w, h, session);
    assert w'.log.created[|w.log.created|].session == session;
    forall k | k in w.db.checkouts ensures RowBacked(w'.log.created, k, w.db.checkouts[k]) {
      RowStillBacked(w.log.created, w'.log.created, k, w.db.checkouts[k]);
    }
    forall i | i in w'.handlers ensures HandlerBacked(w'.log.created, w'.handlers[i]) {
      HandlerStillBacked(w.log.created, w'.log.created, w.handlers[i]);
    }
  }

  lemma SaveBacked(w: World, h: nat)
    requires Backed(w) && h in w.handlers && w.handlers[h].session.Some?
    ensures Backed(ApplySave(w, h))
  {
    var reservation, session := w.handlers[h].reservation, w.handlers[h].session.value;
    var stepped := SaveStep(w.db, reservation, session);
    assert HandlerBacked(w.log.created, w.handlers[h]);
    SaveShape(w, h);
    if stepped.db != w.db {
      var row := SavedRow(w.db.checkouts[reservation.key], session);
      assert Created(w.log.created, Slot(reservation.key, row.generation), session) && Holds(row, session);
      RowWritten(w.db.checkouts, w.log.created, reservation.key, row);
    }
  }

  lemma ResolveBacked(w: World, id: ClaimId, bindAt: Time, seen: bool)
    requires Backed(w) && DbOk(w.db) && id in w.tasks
    ensures Backed(ApplyResolve(w, id, bindAt, seen))
  {
    var claim := w.tasks[id].claim;
    var stepped := ResolveStep(w.db, w.now, bindAt, claim);
    ResolutionIsConservative(w.db, w.now, bindAt, claim);
    if stepped.answer.Ok? {
      var key := stepped.answer.value.order;
      FilledInStaysBacked(w.log.created, key, w.db.checkouts[key], stepped.db.checkouts[key]);
      RowWritten(w.db.checkouts, w.log.created, key, stepped.db.checkouts[key]);
    }
  }

  lemma BackedStep(cfg: Config, w: World, a: Action)
    requires Backed(w) && DbOk(w.db) && KeysOk(w.db.checkouts) && Enabled(cfg, w, a)
    ensures Backed(Apply(cfg, w, a))
  {
    if a.Reserve? {
      ReserveBacked(w, a.handlerId, a.order, a.checkoutRequest);
    } else if a.CreateSession? {
      CreateBacked(w, a.handlerId, a.session);
    } else if a.Save? {
      SaveBacked(w, a.handlerId);
    } else if a.Resolve? {
      ResolveBacked(w, a.id, a.bindAt, a.seen);
    } else {
      MappingsUntouched(cfg, w, a);
      HandlersOnlyLeave(cfg, w, a);
    }
  }

  lemma HandlersOnlyLeave(cfg: Config, w: World, a: Action)
    requires Enabled(cfg, w, a) && !a.Reserve? && !a.CreateSession? && !a.Save? && !a.Resolve?
    ensures
      var w' := Apply(cfg, w, a);
      w'.log.created == w.log.created && forall h | h in w'.handlers :: h in w.handlers && w'.handlers[h] == w.handlers[h]
  {
  }

  lemma RunIsBacked(cfg: Config, ws: seq<World>, n: nat)
    requires Run(cfg, ws) && n < |ws|
    ensures Backed(ws[n])
  {
    for k := 0 to n
      invariant Backed(ws[k])
    {
      RunKeepsInv(cfg, ws, k);
      assert Step(cfg, ws[k], ws[k + 1]);
      var a :| Enabled(cfg, ws[k], a) && ws[k + 1] == Apply(cfg, ws[k], a);
      BackedStep(cfg, ws[k], a);
    }
  }

  // ------------------------------------------------------------------ agreement

  /** Stripe's idempotency: one session per key, and a key belongs to one generation of one order. */
  ghost predicate OneSessionPerKey(created: Sessions) {
    forall i, j | 0 <= i < |created| && 0 <= j < |created| && created[i].slot == created[j].slot ::
      created[i].session == created[j].session
  }

  predicate IntentsAgree(row: CheckoutRow, session: CheckoutSession) {
    row.paymentIntent == "" || session.paymentIntent == "" || row.paymentIntent == session.paymentIntent
  }

  /**
   With one session per key, a save of the current generation always succeeds once one has: it writes nothing and
   returns the session it came with. The first one fails exactly if a webhook has bound another payment intent, or
   if the session has the id or the payment intent of another order's.
   */
  lemma ConcurrentSavesAgree(cfg: Config, ws: seq<World>, n: nat, h: nat)
    requires Run(cfg, ws) && n < |ws| && h in ws[n].handlers && ws[n].handlers[h].session.Some?
    requires OneSessionPerKey(ws[n].log.created)
    requires
      var reservation := ws[n].handlers[h].reservation;
      && reservation.key in ws[n].db.checkouts
      && ws[n].db.checkouts[reservation.key].generation == reservation.row.generation
    ensures
      var db, reservation, session := ws[n].db, ws[n].handlers[h].reservation, ws[n].handlers[h].session.value;
      var row, saved := db.checkouts[reservation.key], SaveStep(db, reservation, session);
      if row.Complete() then
        && saved.db == db && saved.answer.Ok?
        && TicketOf(saved.answer.value.row) == Ticket(session.id, session.url, session.expiresAt)
      else
        saved.answer.Err? <==> !IntentsAgree(row, session) || !Admits(db.checkouts, reservation.key, SavedRow(row, session))
  {
    RunKeepsInv(cfg, ws, n);
    RunIsBacked(cfg, ws, n);
    var w, handler := ws[n], ws[n].handlers[h];
    assert HandlerOk(w, handler) && HandlerBacked(w.log.created, handler);
    var key, row := handler.reservation.key, w.db.checkouts[handler.reservation.key];
    if row.Complete() {
      assert RowBacked(w.log.created, key, row);
      var session :| Created(w.log.created, Slot(key, row.generation), session) && Holds(row, session);
      SameSession(w.log.created, Slot(key, row.generation), session, handler.session.value);
    }
  }

  lemma SameSession(created: Sessions, slot: Slot, a: CheckoutSession, b: CheckoutSession)
    requires OneSessionPerKey(created) && Created(created, slot, a) && Created(created, slot, b)
    ensures a == b
  {
    var i :| 0 <= i < |created| && created[i].slot == slot && created[i].session == a;
    var j :| 0 <= j < |created| && created[j].slot == slot && created[j].session == b;
  }
}

/** What holds of checkouts in every run, however many handlers reserve, create and save at once. */
module CheckoutTheorems {
  import opened Wrappers
  import opened Model
  import opened CheckoutKeys
  import opened Database
  import opened Evolution
  import opened Protocol
  import opened Invariants
  import opened CheckoutSteps
  import opened Runs

  /** Within one generation every 200 and 201 response returns the same session. */
  lemma ResponsesAgree(cfg: Config, ws: seq<World>, n: nat, r: Response, r': Response)
    requires Run(cfg, ws) && n < |ws|
    requires r in ws[n].log.responses && r' in ws[n].log.responses && r.slot == r'.slot
    ensures r.ticket == r'.ticket
  {
    RunKeepsInv(cfg, ws, n);
    assert ResponseOk(ws[n].log.stored, r) && ResponseOk(ws[n].log.stored, r');
  }

  /** The session of a generation is write-once: while the generation lasts the row keeps it. */
  lemma SessionsAreWrittenOnce(cfg: Config, ws: seq<World>, m: nat, n: nat, key: OrderKey)
    requires Run(cfg, ws) && m <= n < |ws| && key in ws[m].db.checkouts && ws[m].db.checkouts[key].Complete()
    ensures
      var row := ws[m].db.checkouts[key];
      && key in ws[n].db.checkouts && row.generation <= ws[n].db.checkouts[key].generation
      && (ws[n].db.checkouts[key].generation == row.generation ==> TicketOf(ws[n].db.checkouts[key]) == TicketOf(row))
      && (ws[n].db.checkouts[key].generation > row.generation ==> row.expiresAt <= ws[n].now)
  {
    RunEvolves(cfg, ws, m, n);
    RunKeepsInv(cfg, ws, m);
    RunKeepsInv(cfg, ws, n);
    var slot := Slot(key, ws[m].db.checkouts[key].generation);
    assert CheckoutRowEvolves(ws[m].db.checkouts[key], ws[n].db.checkouts[key]);
    assert Reached(ws[m].db.checkouts, slot) && Reached(ws[n].db.checkouts, slot);
    assert GenerationOk(ws[m].db.checkouts, ws[m].log.openedAt, ws[m].log.stored, ws[m].now, slot);
    assert GenerationOk(ws[n].db.checkouts, ws[n].log.openedAt, ws[n].log.stored, ws[n].now, slot);
    if ws[n].db.checkouts[key].generation > slot.generation {
      var next := Slot(key, slot.generation + 1);
      assert Reached(ws[n].db.checkouts, next);
      assert GenerationOk(ws[n].db.checkouts, ws[n].log.openedAt, ws[n].log.stored, ws[n].now, next);
    }
  }

  /** A later generation was opened no earlier than every earlier generation's session expired. */
  lemma {:induction false} OpenedAfterExpiry(w: World, key: OrderKey, g: int, g': int)
    requires GenerationsOk(w.db.checkouts, w.log.openedAt, w.log.stored, w.now)
    requires 1 <= g < g' && Reached(w.db.checkouts, Slot(key, g'))
    ensures Slot(key, g) in w.log.stored && Slot(key, g') in w.log.openedAt
    ensures w.log.stored[Slot(key, g)].expiresAt <= w.log.openedAt[Slot(key, g')]
    decreases g'
  {
    var before := Slot(key, g' - 1);
    assert Reached(w.db.checkouts, before) && Reached(w.db.checkouts, Slot(key, g));
    assert GenerationOk(w.db.checkouts, w.log.openedAt, w.log.stored, w.now, before);
    assert GenerationOk(w.db.checkouts, w.log.openedAt, w.log.stored, w.now, Slot(key, g'));
    if g < g' - 1 {
      OpenedAfterExpiry(w, key, g, g' - 1);
    }
  }

  /**
   Sessions of different generations are never valid together: a session that Stripe created for a
   later generation was created after the session answered for an earlier one had expired.
   */
  lemma GenerationsAreDisjoint(cfg: Config, ws: seq<World>, n: nat, r: Response, created: CreatedSession)
    requires Run(cfg, ws) && n < |ws|
    requires r in ws[n].log.responses && created in ws[n].log.created
    requires created.slot.key == r.slot.key && created.slot.generation > r.slot.generation
    ensures r.ticket.expiresAt <= created.at
  {
    RunKeepsInv(cfg, ws, n);
    var w := ws[n];
    assert ResponseOk(w.log.stored, r);
    assert Reached(w.db.checkouts, r.slot) && Reached(w.db.checkouts, created.slot);
    assert r.slot == Slot(r.slot.key, r.slot.generation);
    assert created.slot == Slot(r.slot.key, created.slot.generation);
    OpenedAfterExpiry(w, r.slot.key, r.slot.generation, created.slot.generation);
  }

  /**
   A save succeeds only for the generation it was reserved for, and writes only the first session
   of that generation; a stale one changes nothing.
   */
  lemma StaleSavesNeverWrite(cfg: Config, ws: seq<World>, n: nat, h: nat, session: CheckoutSession)
    requires Run(cfg, ws) && n < |ws| && h in ws[n].handlers
    ensures
      var w, reservation := ws[n], ws[n].handlers[h].reservation;
      var saved := SaveStep(w.db, reservation, session);
      && reservation.key in w.db.checkouts
      && reservation.row.generation <= w.db.checkouts[reservation.key].generation
      && (reservation.row.generation < w.db.checkouts[reservation.key].generation ==>
            saved == Stepped(w.db, Err(CheckoutConflict)))
      && (saved.db != w.db ==> SlotOf(reservation) !in w.log.stored)
      && (saved.answer.Ok? && SlotOf(reservation) in w.log.stored ==>
            TicketOf(saved.answer.value.row) == w.log.stored[SlotOf(reservation)])
  {
    RunKeepsInv(cfg, ws, n);
    var w := ws[n];
    assert HandlerOk(w, w.handlers[h]);
    assert GenerationOk(w.db.checkouts, w.log.openedAt, w.log.stored, w.now, SlotOf(w.handlers[h].reservation));
  }

  /** Every reachable row carries the key of its own generation, and no two rows share a key or provider id. */
  lemma KeysMatchGenerations(cfg: Config, ws: seq<World>, n: nat, key: OrderKey, key': OrderKey)
    requires Run(cfg, ws) && n < |ws| && key in ws[n].db.checkouts && key' in ws[n].db.checkouts
    ensures ws[n].db.checkouts[key].idempotencyKey == IdempotencyKey(key, ws[n].db.checkouts[key].generation)
    ensures key != key' ==> !Clash(ws[n].db.checkouts[key], ws[n].db.checkouts[key'])
  {
    RunKeepsInv(cfg, ws, n);
    assert Admits(ws[n].db.checkouts, key, ws[n].db.checkouts[key]);
  }

  /** A key sent to Stripe for one slot is never sent for another slot of any order. */
  lemma KeysAreSentForOneSlot(cfg: Config, ws: seq<World>, m: nat, n: nat, key: OrderKey, key': OrderKey)
    requires Run(cfg, ws) && m < |ws| && n < |ws| && key in ws[m].db.checkouts && key' in ws[n].db.checkouts
    requires ws[m].db.checkouts[key].idempotencyKey == ws[n].db.checkouts[key'].idempotencyKey
    ensures Slot(key, ws[m].db.checkouts[key].generation) == Slot(key', ws[n].db.checkouts[key'].generation)
  {
    RunKeepsInv(cfg, ws, m);
    RunKeepsInv(cfg, ws, n);
    KeysNeverCollide(key, ws[m].db.checkouts[key].generation, key', ws[n].db.checkouts[key'].generation);
  }

  /**
   The unique index on idempotency keys never rejects a reservation: it fails only when the order's
   terms differ from the reserved ones, or the currency is not one the schema admits.
   */
  lemma ReservationsFailOnMismatchOnly(cfg: Config, ws: seq<World>, n: nat, order: PaymentOrder, request: CheckoutRequest)
    requires Run(cfg, ws) && n < |ws| && PayableOrder(order)
    ensures
      var checkouts, answer := ws[n].db.checkouts, ReserveStep(ws[n].db, ws[n].now, order, request).answer;
      answer.Err? <==>
        || !CurrencyCode(order.currency)
        || (order.Key() in checkouts &&
              (checkouts[order.Key()].currency != order.currency || checkouts[order.Key()].amountMinor != order.amountMinor
               || checkouts[order.Key()].requestDigest != RequestDigest(request)))
  {
    RunKeepsInv(cfg, ws, n);
    var checkouts, key := ws[n].db.checkouts, order.Key();
    IdentityIsNulFree(order.id);
    IdentityIsNulFree(order.tenantId);
    if key in checkouts {
      FreshKeyAdmitted(checkouts, key, RotatedRow(key, checkouts[key]));
    } else {
      FreshKeyAdmitted(checkouts, key, NewCheckoutRow(order, request));
    }
  }

  lemma FreshKeyAdmitted(checkouts: Checkouts, key: OrderKey, row: CheckoutRow)
    requires KeysOk(checkouts) && CheckoutsOk(checkouts) && KeyIdentity(key) && row.generation >= 1
    requires row.idempotencyKey == IdempotencyKey(key, row.generation)
    requires row.sessionId == row.paymentIntent == row.chargeId == ""
    ensures Admits(checkouts, key, row)
  {
    forall k | k in checkouts && k != key ensures !Clash(row, checkouts[k]) {
      KeysNeverCollide(key, row.generation, k, checkouts[k].generation);
    }
  }
}

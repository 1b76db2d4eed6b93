/**
 The checkout handler as an object (http.go): reserve, answer what exists, create at Stripe, save.
 One request is a stretch of a protocol run.
 */
module CheckoutHandler {
  import opened Wrappers
  import opened Model
  import opened Database
  import opened Protocol
  import AdapterStore

  datatype Reply = Reply(status: int, ticket: Option<Ticket>)

  const CONFLICT := Reply(409, None)
  const UNAVAILABLE := Reply(503, None)
  const PROVIDER_UNAVAILABLE := Reply(502, None)

  /** What happens outside the handler while it serves one request. */
  datatype Outside = Outside(
    readAt: Time,                       // when the reservation is compared with the clock
    session: Option<CheckoutSession>,   // what Stripe answers, if it does
    saveReached: bool)

  predicate Plausible(now: Time, o: Outside) {
    now <= o.readAt && (o.session.Some? ==> ValidCheckoutSession(o.session.value, o.readAt))
  }

  /** The next protocol action of handler `h`. */
  function Next(w: World, h: nat, o: Outside): Action
    requires h in w.handlers
  {
    var handler := w.handlers[h];
    if w.now < o.readAt then Tick(o.readAt)
    else if handler.reservation.row.Complete() then AnswerExisting(h)
    else if handler.session.None? && o.session.Some? then CreateSession(h, o.session.value)
    else if handler.session.Some? && o.saveReached then Save(h)
    else AbandonHandler(h)
  }

  function Remaining(w: World, h: nat, o: Outside): nat
    requires h in w.handlers
  {
    (if w.now < o.readAt then 2 else 0) + (if w.handlers[h].session.None? then 2 else 1)
  }

  predicate OnTime(w: World, h: nat, o: Outside) {
    h in w.handlers && w.now <= o.readAt && Plausible(w.now, o)
  }

  lemma NextIsEnabled(cfg: Config, w: World, h: nat, o: Outside)
    requires OnTime(w, h, o)
    ensures Enabled(cfg, w, Next(w, h, o))
    ensures
      var w' := Apply(cfg, w, Next(w, h, o));
      h in w'.handlers ==> OnTime(w', h, o) && Remaining(w', h, o) < Remaining(w, h, o)
  {
  }

  /** The world when the handler is done, if nothing else moves. */
  ghost function Driven(cfg: Config, w: World, h: nat, o: Outside): (end: World)
    requires h in w.handlers ==> OnTime(w, h, o)
    ensures h !in end.handlers
    decreases if h in w.handlers then Remaining(w, h, o) else 0
  {
    if h !in w.handlers then w
    else
      NextIsEnabled(cfg, w, h, o);
      Driven(cfg, Apply(cfg, w, Next(w, h, o)), h, o)
  }

  lemma {:induction false} HandlersFollowTheProtocol(cfg: Config, ws: seq<World>, h: nat, o: Outside)
    returns (run: seq<World>)
    requires Run(cfg, ws) && (h in ws[|ws| - 1].handlers ==> OnTime(ws[|ws| - 1], h, o))
    ensures Run(cfg, run) && ws <= run && run[|run| - 1] == Driven(cfg, ws[|ws| - 1], h, o)
    decreases if h in ws[|ws| - 1].handlers then Remaining(ws[|ws| - 1], h, o) else 0
  {
    var w := ws[|ws| - 1];
    if h !in w.handlers {
      run := ws;
    } else {
      NextIsEnabled(cfg, w, h, o);
      RunExtends(cfg, ws, Next(w, h, o));
      run := HandlersFollowTheProtocol(cfg, ws + [Apply(cfg, w, Next(w, h, o))], h, o);
    }
  }

  /** 200 and 201 carry the session the protocol records as answered; every other status carries none. */
  ghost predicate Answers(reply: Reply, before: seq<Response>, after: seq<Response>) {
    && (reply.ticket.Some? <==> reply.status in {200, 201})
    && (reply.ticket.None? ==> after == before)
    && (reply.ticket.Some? ==>
          |after| == |before| + 1 && after[..|before|] == before && after[|before|].ticket == reply.ticket.value)
  }

  /** The world when the handler looks at its reservation. */
  ghost function Read(cfg: Config, w: World, h: nat, order: PaymentOrder, request: CheckoutRequest, o: Outside): World
    requires h !in w.handlers && PayableOrder(order)
  {
    var reserved := Apply(cfg, w, Reserve(h, order, request));
    if reserved.now < o.readAt then reserved.(now := o.readAt) else reserved
  }

  lemma AfterReserve(cfg: Config, w: World, h: nat, order: PaymentOrder, request: CheckoutRequest, o: Outside)
    requires h !in w.handlers && PayableOrder(order) && Plausible(w.now, o)
    ensures
      var stepped := ReserveStep(w.db, w.now, order, request);
      var reserved, v := Apply(cfg, w, Reserve(h, order, request)), Read(cfg, w, h, order, request, o);
      && (stepped.answer.Err? ==> Driven(cfg, reserved, h, o) == w)
      && (stepped.answer.Ok? ==>
            && OnTime(v, h, o) && v.now == o.readAt && v.db == stepped.db && v.log.responses == w.log.responses
            && v.handlers[h] == Handler(stepped.answer.value, None)
            && Driven(cfg, reserved, h, o) == Driven(cfg, v, h, o))
  {
    var reserved := Apply(cfg, w, Reserve(h, order, request));
    if ReserveStep(w.db, w.now, order, request).answer.Ok? && w.now < o.readAt {
      assert Next(reserved, h, o) == Tick(o.readAt);
    }
  }

  /** From the read on: answer what is complete, or create and save, or give up. */
  lemma AfterRead(cfg: Config, v: World, h: nat, o: Outside)
    requires OnTime(v, h, o) && v.now == o.readAt && v.handlers[h].session.None?
    ensures
      var reservation, end := v.handlers[h].reservation, Driven(cfg, v, h, o);
      if reservation.row.Complete() then
        && end.db == v.db
        && end.log.responses == (if reservation.row.Available(v.now) then Respond(v, reservation) else v).log.responses
      else if o.session.None? || !o.saveReached then
        end.db == v.db && end.log.responses == v.log.responses
      else
        var stepped := SaveStep(v.db, reservation, o.session.value);
        && end.db == stepped.db
        && end.log.responses ==
             (if stepped.answer.Ok? then Respond(v, stepped.answer.value) else v).log.responses
  {
    NextIsEnabled(cfg, v, h, o);
    if v.handlers[h].reservation.row.Complete() {
      assert Driven(cfg, v, h, o) == Apply(cfg, v, AnswerExisting(h));
    } else if o.session.None? {
      assert Driven(cfg, v, h, o) == Apply(cfg, v, AbandonHandler(h));
    } else {
      var u := Apply(cfg, v, CreateSession(h, o.session.value));
      assert Driven(cfg, v, h, o) == Driven(cfg, u, h, o);
      CreatedEnd(cfg, u, h, o);
    }
  }

  lemma CreatedEnd(cfg: Config, u: World, h: nat, o: Outside)
    requires OnTime(u, h, o) && u.now == o.readAt && u.handlers[h].session.Some?
    requires !u.handlers[h].reservation.row.Complete()
    ensures Driven(cfg, u, h, o) == if o.saveReached then ApplySave(u, h) else Leave(u, h)
  {
    NextIsEnabled(cfg, u, h, o);
  }

  class CheckoutHandler {
    const store: AdapterStore.AdapterStore

    constructor (store: AdapterStore.AdapterStore)
      ensures this.store == store
    {
      this.store := store;
    }

    /** handleCheckout once the order was read and found payable. */
    method HandleCheckout(now: Time, order: PaymentOrder, request: CheckoutRequest, o: Outside,
                          ghost cfg: Config, ghost w: World, ghost h: nat)
      returns (reply: Reply)
      requires store.Valid() && PayableOrder(order) && Plausible(now, o)
      requires w.now == now && w.db == store.Tables() && h !in w.handlers
      modifies store`checkouts
      ensures store.Valid()
      ensures
        var end := Driven(cfg, Apply(cfg, w, Reserve(h, order, request)), h, o);
        store.Tables() == end.db && Answers(reply, w.log.responses, end.log.responses)
    {
      var answer := store.ReserveCheckout(now, order, request);
      AfterReserve(cfg, w, h, order, request, o);
      if answer.Err? {
        return StoreError(answer.error);
      }
      var reservation := answer.value;
      ghost var v := Read(cfg, w, h, order, request, o);
      AfterRead(cfg, v, h, o);
      if reservation.row.Complete() {
        return if o.readAt < reservation.row.expiresAt then Reply(200, Some(TicketOf(reservation.row))) else CONFLICT;
      }
      if o.session.None? {
        return PROVIDER_UNAVAILABLE;
      }
      if !o.saveReached {
        return UNAVAILABLE;
      }
      var saved := store.SaveCheckout(reservation, o.session.value);
      if saved.Err? {
        return StoreError(saved.error);
      }
      return Reply(201, Some(TicketOf(saved.value.row)));
    }
  }

  /** writeCheckoutStoreError */
  function StoreError(error: Error): Reply {
    if error == CheckoutConflict then CONFLICT else UNAVAILABLE
  }
}

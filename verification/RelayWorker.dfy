/**
 The relay worker as an object (worker.go): slots, claiming and `process`. Everything it does to the
 store and to Billing is a stretch of a protocol run, so every theorem about runs is about it.
 */
module RelayWorker {
  import opened Wrappers
  import opened Model
  import opened Database
  import opened Delivery
  import opened Protocol
  import AdapterStore

  // ---------------------------------------------- one claim driven to its end

  datatype Reach = NotReached | AnswerLost | Answered

  /** What happens outside the worker while it processes one claim. */
  datatype Outside = Outside(
    resolve: Reach,                         // the resolving transaction
    bindAt: Time,
    order: Result<PaymentOrder, Failure>,   // Billing's answer to GetOrder
    accept: Result<(), Failure>,            // Billing's answer to Deliver
    settleAt: Time,                         // when the last store call is made
    settleReached: bool)

  predicate Plausible(now: Time, o: Outside) {
    && now <= o.bindAt <= o.settleAt
    && (o.order.Err? ==> GatewayFailure(o.order.error))
    && (o.accept.Err? ==> GatewayFailure(o.accept.error))
  }

  /** The next protocol action of the worker that holds task `id`. */
  function Next(w: World, id: ClaimId, o: Outside): Action
    requires id in w.tasks
  {
    match w.tasks[id].phase
    case Claimed => if o.resolve.NotReached? then FailResolve(id) else Resolve(id, o.bindAt, o.resolve.Answered?)
    case Resolved(_) => ReadOrder(id, o.order)
    case Checked(_, _) => Deliver(id, o.accept)
    case Accepted(_) =>
      if w.now < o.settleAt then Tick(o.settleAt) else if o.settleReached then Ack(id) else Abandon(id)
    case Failed(_) =>
      if w.now < o.settleAt then Tick(o.settleAt) else if o.settleReached then SettleFailure(id) else Abandon(id)
  }

  /** The clock has not passed the worker's next store call. */
  predicate OnTime(w: World, id: ClaimId, o: Outside) {
    && id in w.tasks && Plausible(if w.tasks[id].phase.Claimed? then w.now else o.bindAt, o)
    && w.now <= o.settleAt
  }

  function Remaining(w: World, id: ClaimId, o: Outside): nat
    requires id in w.tasks
  {
    match w.tasks[id].phase
    case Claimed => 5
    case Resolved(_) => 4
    case Checked(_, _) => 3
    case _ => if w.now < o.settleAt then 2 else 1
  }

  lemma NextIsEnabled(cfg: Config, w: World, id: ClaimId, o: Outside)
    requires OnTime(w, id, o)
    ensures Enabled(cfg, w, Next(w, id, o))
    ensures
      var w' := Apply(cfg, w, Next(w, id, o));
      id in w'.tasks ==> OnTime(w', id, o) && Remaining(w', id, o) < Remaining(w, id, o)
  {
  }

  /** The world when the worker is done with task `id`, if nothing else moves. */
  ghost function Driven(cfg: Config, w: World, id: ClaimId, o: Outside): (end: World)
    requires id in w.tasks ==> OnTime(w, id, o)
    ensures id !in end.tasks
    decreases if id in w.tasks then Remaining(w, id, o) else 0
  {
    if id !in w.tasks then w
    else
      NextIsEnabled(cfg, w, id, o);
      Driven(cfg, Apply(cfg, w, Next(w, id, o)), id, o)
  }

  /** What the worker does extends the run it started in. */
  lemma {:induction false} WorkersFollowTheProtocol(cfg: Config, ws: seq<World>, id: ClaimId, o: Outside)
    returns (run: seq<World>)
    requires Run(cfg, ws) && (id in ws[|ws| - 1].tasks ==> OnTime(ws[|ws| - 1], id, o))
    ensures Run(cfg, run) && ws <= run && run[|run| - 1] == Driven(cfg, ws[|ws| - 1], id, o)
    decreases if id in ws[|ws| - 1].tasks then Remaining(ws[|ws| - 1], id, o) else 0
  {
    var w := ws[|ws| - 1];
    if id !in w.tasks {
      run := ws;
    } else {
      NextIsEnabled(cfg, w, id, o);
      RunExtends(cfg, ws, Next(w, id, o));
      run := WorkersFollowTheProtocol(cfg, ws + [Apply(cfg, w, Next(w, id, o))], id, o);
    }
  }

  /** What the worker learns of a resolution. */
  function Seen(answer: Result<TrustedDelivery, Error>, reach: Reach): Result<TrustedDelivery, Failure> {
    if answer.Err? then Err(Sentinel(answer.error))
    else if reach.Answered? then Ok(answer.value)
    else Err(Unclassified)
  }

  /** The world after `deliver`: the order read, and the delivery sent if the order allows it. */
  ghost function Sent(cfg: Config, w: World, id: ClaimId, o: Outside): World
    requires OnTime(w, id, o) && w.tasks[id].phase.Resolved?
  {
    NextIsEnabled(cfg, w, id, o);
    var v := Apply(cfg, w, Next(w, id, o));
    if v.tasks[id].phase.Checked? then Apply(cfg, v, Next(v, id, o)) else v
  }

  lemma FirstStep(cfg: Config, w: World, claim: InboxClaim, o: Outside)
    requires OnTime(w, IdOf(claim), o) && w.tasks[IdOf(claim)] == Task(claim, Claimed)
    ensures
      var id := IdOf(claim);
      var v := Apply(cfg, w, Next(w, id, o));
      var stepped := ResolveStep(w.db, w.now, o.bindAt, claim);
      var seen := if o.resolve.NotReached? then Err(Unclassified) else Seen(stepped.answer, o.resolve);
      && OnTime(v, id, o) && Driven(cfg, v, id, o) == Driven(cfg, w, id, o)
      && v.db == (if o.resolve.NotReached? then w.db else stepped.db) && v.log == w.log
      && v.tasks[id] == Task(claim, if seen.Ok? then Resolved(seen.value) else Failed(seen.error))
  {
    NextIsEnabled(cfg, w, IdOf(claim), o);
  }

  lemma MiddleSteps(cfg: Config, w: World, claim: InboxClaim, d: TrustedDelivery, o: Outside)
    requires OnTime(w, IdOf(claim), o) && w.tasks[IdOf(claim)] == Task(claim, Resolved(d))
    ensures
      var id := IdOf(claim);
      var v := Sent(cfg, w, id, o);
      && OnTime(v, id, o) && Driven(cfg, v, id, o) == Driven(cfg, w, id, o) && v.db == w.db
      && match OrderPhase(cfg, d, o.order)
         case Failed(failure) => v.tasks[id] == Task(claim, Failed(failure)) && v.log.calls == w.log.calls
         case Checked(_, order) =>
           && v.tasks[id] == Task(claim, if o.accept.Ok? then Accepted(d) else Failed(o.accept.error))
           && v.log.calls == w.log.calls + [DeliverCall(claim, d, order, o.accept.Ok?)]
  {
    var id := IdOf(claim);
    NextIsEnabled(cfg, w, id, o);
    var u := Apply(cfg, w, Next(w, id, o));
    assert Driven(cfg, u, id, o) == Driven(cfg, w, id, o);
    NextIsEnabled(cfg, u, id, o);
  }

  // -------------------------------------------------------- a batch of claims

  /** Every row of the batch may be claimed, and no row twice. */
  ghost predicate Batch(inbox: Inbox, now: Time, ids: seq<string>) {
    && (forall i | 0 <= i < |ids| :: ids[i] in inbox && inbox[ids[i]].Claimable(now))
    && (forall i, j | 0 <= i < j < |ids| :: ids[i] != ids[j])
  }

  /** ClaimInbox on a batch is one claiming step per row. */
  lemma {:induction false} BatchesFollowTheProtocol(
    cfg: Config, ws: seq<World>, ids: seq<string>, owner: string, lease: Duration) returns (run: seq<World>)
    requires Run(cfg, ws) && Batch(ws[|ws| - 1].db.inbox, ws[|ws| - 1].now, ids) && 0 <= lease <= cfg.maxLease
    ensures Run(cfg, run) && ws <= run
    ensures
      var w, w' := ws[|ws| - 1], run[|run| - 1];
      && w'.now == w.now && w'.db == AdapterStore.ClaimAll(w.db, w.now, ids, owner, lease)
      && forall i | 0 <= i < |ids| ::
           var claim := ClaimOf(Database.ClaimRow(w.db.inbox[ids[i]], w.now, owner, lease));
           claim in w'.log.issued
  {
    if ids == [] {
      run := ws;
    } else {
      var init, e := ids[..|ids| - 1], ids[|ids| - 1];
      var w := ws[|ws| - 1];
      run := BatchesFollowTheProtocol(cfg, ws, init, owner, lease);
      var v := run[|run| - 1];
      AdapterStore.UnclaimedRowsStay(w.db, w.now, init, owner, lease, e);
      RunExtends(cfg, run, Action.ClaimRow(e, owner, lease));
      run := run + [ApplyClaim(v, e, owner, lease)];
      forall i | 0 <= i < |ids|
        ensures ClaimOf(Database.ClaimRow(w.db.inbox[ids[i]], w.now, owner, lease)) in run[|run| - 1].log.issued
      {
        if i < |init| {
          assert init[i] == ids[i];
        }
      }
    }
  }

  // --------------------------------------------------------------- the worker

  class RelayWorker {
    const store: AdapterStore.AdapterStore
    const tenants: set<string>
    const owner: string
    const lease: Duration
    const batch: nat
    const concurrency: nat
    var slots: nat
    var sent: seq<DeliverCall>

    ghost predicate Valid()
      reads this, store
    {
      store.Valid() && slots <= concurrency
    }

    constructor (store: AdapterStore.AdapterStore, tenants: set<string>, owner: string, lease: Duration,
                 batch: nat, concurrency: nat)
      requires store.Valid()
      ensures Valid() && slots == 0 && sent == [] && this.store == store && this.tenants == tenants
      ensures this.owner == owner && this.lease == lease && this.batch == batch && this.concurrency == concurrency
    {
      this.store, this.tenants, this.owner, this.lease := store, tenants, owner, lease;
      this.batch, this.concurrency, slots, sent := batch, concurrency, 0, [];
    }

    /** claim: no more claims than free slots, oldest first; each takes a slot. */
    method Claim(now: Time, locked: set<string>) returns (claims: seq<InboxClaim>, ghost picked: seq<string>)
      requires Valid()
      modifies this`slots, store`inbox
      ensures Valid() && slots == old(slots) + |claims|
      ensures |claims| == |picked| <= batch && Batch(old(store.inbox), now, picked)
      ensures AdapterStore.OldestFirst(old(store.inbox), now, locked, picked,
                AdapterStore.ClaimableIds(old(store.inbox), now, locked) - (set e | e in picked))
      ensures store.Tables() == AdapterStore.ClaimAll(old(store.Tables()), now, picked, owner, lease)
      ensures forall i | 0 <= i < |picked| ::
                claims[i] == ClaimOf(Database.ClaimRow(old(store.inbox)[picked[i]], now, owner, lease))
      ensures |claims| < batch && slots < concurrency ==>
                forall e | e in old(store.inbox) && e !in locked && old(store.inbox)[e].Claimable(now) :: e in picked
    {
      var limit := batch;
      var available := concurrency - slots;
      if available == 0 {
        return [], [];
      }
      if limit > available {
        limit := available;
      }
      claims, picked := store.ClaimInbox(now, owner, lease, limit, locked);
      slots := slots + |claims|;
      forall e | |claims| < limit && e in old(store.inbox) && e !in locked && old(store.inbox)[e].Claimable(now)
        ensures e in picked
      {
        assert e in AdapterStore.ClaimableIds(old(store.inbox), now, locked);
      }
    }

    /** deliver: nothing is sent unless tenant, order and order check allow it. */
    method DeliverTo(claim: InboxClaim, delivery: TrustedDelivery, o: Outside, ghost cfg: Config)
      returns (r: Result<(), Failure>)
      requires cfg.tenants == tenants
      modifies this`sent
      ensures
        match OrderPhase(cfg, delivery, o.order)
        case Failed(failure) => r == Err(failure) && sent == old(sent)
        case Checked(_, order) => r == o.accept && sent == old(sent) + [DeliverCall(claim, delivery, order, r.Ok?)]
    {
      if delivery.order.tenantId !in tenants {
        return Err(UNBOUND_TENANT);
      }
      var order :- o.order;
      var problem := ValidateDeliveryOrder(order, delivery);
      if problem.Some? {
        return Err(OrderStateFailure(problem.value));
      }
      sent := sent + [DeliverCall(claim, delivery, order, o.accept.Ok?)];
      return o.accept;
    }

    /** process: resolve, deliver, then ack, quarantine or repark; the slot is given back. */
    method Process(now: Time, claim: InboxClaim, o: Outside, ghost cfg: Config, ghost w: World)
      requires Valid() && slots > 0 && cfg.tenants == tenants
      requires w.now == now && w.db == store.Tables() && w.log.calls == sent
      requires IdOf(claim) in w.tasks && w.tasks[IdOf(claim)] == Task(claim, Claimed) && Plausible(now, o)
      modifies this`slots, this`sent, store`inbox, store`checkouts
      ensures Valid() && slots == old(slots) - 1
      ensures store.Tables() == Driven(cfg, w, IdOf(claim), o).db && sent == Driven(cfg, w, IdOf(claim), o).log.calls
    {
      var resolved := Attempt(now, claim, o);
      ghost var v := Apply(cfg, w, Next(w, IdOf(claim), o));
      FirstStep(cfg, w, claim, o);
      var r: Result<(), Failure> := if resolved.Err? then Err(resolved.error) else Ok(());
      if resolved.Ok? {
        r := DeliverTo(claim, resolved.value, o, cfg);
        MiddleSteps(cfg, v, claim, resolved.value, o);
        v := Sent(cfg, v, IdOf(claim), o);
      }
      Conclude(claim, if resolved.Ok? then Some(resolved.value) else None, r, o, cfg, v);
      slots := slots - 1;
    }

    /** The resolving transaction as the worker sees it: it may have committed without an answer. */
    method Attempt(now: Time, claim: InboxClaim, o: Outside) returns (r: Result<TrustedDelivery, Failure>)
      requires Valid()
      modifies store`inbox, store`checkouts
      ensures Valid()
      ensures
        var stepped := ResolveStep(old(store.Tables()), now, o.bindAt, claim);
        if o.resolve.NotReached? then r == Err(Unclassified) && store.Tables() == old(store.Tables())
        else store.Tables() == stepped.db && r == Seen(stepped.answer, o.resolve)
    {
      if o.resolve.NotReached? {
        return Err(Unclassified);
      }
      var answer := store.ResolveClaim(now, o.bindAt, claim);
      r := Seen(answer, o.resolve);
    }

    /** The end of `process`: one last store call, unless the claim was lost or the call does not get through. */
    method Conclude(claim: InboxClaim, delivery: Option<TrustedDelivery>, r: Result<(), Failure>, o: Outside,
                    ghost cfg: Config, ghost v: World)
      requires OnTime(v, IdOf(claim), o) && v.db == store.Tables()
      requires match r
               case Ok(_) => delivery.Some? && v.tasks[IdOf(claim)] == Task(claim, Accepted(delivery.value))
               case Err(failure) => v.tasks[IdOf(claim)] == Task(claim, Failed(failure))
      modifies store`inbox
      ensures store.Tables() == Driven(cfg, v, IdOf(claim), o).db && v.log.calls == Driven(cfg, v, IdOf(claim), o).log.calls
    {
      ghost var id := IdOf(claim);
      ghost var late := if v.now < o.settleAt then Apply(cfg, v, Next(v, id, o)) else v;
      assert Driven(cfg, v, id, o) == Driven(cfg, late, id, o);
      assert Driven(cfg, late, id, o) == Apply(cfg, late, Next(late, id, o));
      if !o.settleReached {
        return;
      }
      match r
      case Ok(_) =>
        var acknowledged := store.AckInbox(o.settleAt, delivery.value);
      case Err(failure) =>
        if Is(failure, ClaimLost) {
          return;
        }
        if Permanent(failure) {
          var quarantined := store.QuarantineInbox(o.settleAt, claim, Category(failure));
        } else {
          var delay := DeliveryBackoff(claim.attempts, claim.digest);
          var reparked := store.NackInbox(o.settleAt, claim, delay, Category(failure));
        }
    }
  }
}

/**
 The store as an object (store.go, store_errors.go): three mutable tables and the methods
 that search and update them. Each method is tied to its step in `Database`.
 */
module AdapterStore {
  import opened Wrappers
  import opened Model
  import opened CheckoutKeys
  import opened Database
  import opened ResolutionLaws
  import Strings

  /** A checkout mapping as resolution reads it. */
  datatype Mapping = Mapping(key: OrderKey, row: CheckoutRow)

  datatype Column = PaymentIntentId | ChargeId

  function ColumnOf(row: CheckoutRow, column: Column): string {
    match column
    case PaymentIntentId => row.paymentIntent
    case ChargeId => row.chargeId
  }

  /** Claiming several distinct rows is claiming them one by one. */
  function ClaimAll(db: Db, now: Time, ids: seq<string>, owner: string, lease: Duration): (after: Db)
    requires forall i | 0 <= i < |ids| :: ids[i] in db.inbox
    ensures after.inbox.Keys == db.inbox.Keys
  {
    if ids == [] then db
    else ClaimStep(ClaimAll(db, now, ids[..|ids| - 1], owner, lease), now, ids[|ids| - 1], owner, lease)
  }

  lemma {:induction false} UnclaimedRowsStay(db: Db, now: Time, ids: seq<string>, owner: string, lease: Duration, id: string)
    requires forall i | 0 <= i < |ids| :: ids[i] in db.inbox
    requires id in db.inbox && forall i | 0 <= i < |ids| :: ids[i] != id
    ensures ClaimAll(db, now, ids, owner, lease).inbox[id] == db.inbox[id]
  {
    if ids != [] {
      UnclaimedRowsStay(db, now, ids[..|ids| - 1], owner, lease, id);
    }
  }

  /** The rows ClaimInbox may select. */
  function ClaimableIds(inbox: Inbox, now: Time, locked: set<string>): set<string> {
    set e | e in inbox && e !in locked && inbox[e].Claimable(now)
  }

  /** The order of the selection: by time, then by id. */
  predicate Precedes(inbox: Inbox, a: string, b: string)
    requires a in inbox && b in inbox
  {
    || inbox[a].fact.occurredAt < inbox[b].fact.occurredAt
    || (inbox[a].fact.occurredAt == inbox[b].fact.occurredAt && Strings.AtMost(a, b))
  }

  /** `picked` are distinct selectable rows, and each precedes every selectable row left out. */
  ghost predicate OldestFirst(inbox: Inbox, now: Time, locked: set<string>, picked: seq<string>, left: set<string>) {
    && (forall i, j | 0 <= i < j < |picked| :: picked[i] != picked[j])
    && (forall i | 0 <= i < |picked| :: picked[i] in ClaimableIds(inbox, now, locked))
    && left == (set e | e in ClaimableIds(inbox, now, locked) && e !in picked)
    && (forall i | 0 <= i < |picked| :: PrecedesAll(inbox, picked[i], left))
  }

  ghost predicate PrecedesAll(inbox: Inbox, id: string, left: set<string>) {
    id in inbox && forall e | e in left :: e in inbox && Precedes(inbox, id, e)
  }

  /** How many rows a batch takes decides which ones. */
  lemma BatchIsDetermined(
    inbox: Inbox, now: Time, locked: set<string>, a: seq<string>, b: seq<string>, left: set<string>, left': set<string>)
    requires OldestFirst(inbox, now, locked, a, left) && OldestFirst(inbox, now, locked, b, left') && |a| == |b|
    ensures forall e :: e in a <==> e in b
  {
    forall e ensures e in a <==> e in b {
      if e in a {
        TakenToo(inbox, now, locked, a, b, left, left', e);
      } else if e in b {
        TakenToo(inbox, now, locked, b, a, left', left, e);
      }
    }
  }

  lemma TakenToo(
    inbox: Inbox, now: Time, locked: set<string>, a: seq<string>, b: seq<string>, left: set<string>, left': set<string>,
    x: string)
    requires OldestFirst(inbox, now, locked, a, left) && OldestFirst(inbox, now, locked, b, left') && |a| == |b|
    requires x in a
    ensures x in b
  {
    SameSize(a, b);
    if x !in b {
      var y :| y in b && y !in a;
      assert PrecedesAll(inbox, x, left) && y in left && PrecedesAll(inbox, y, left') && x in left';
      Strings.AtMostAntisymmetric(x, y);
    }
  }

  /** Of two sequences of the same length, without repetitions, neither holds all of the other and more. */
  lemma SameSize(a: seq<string>, b: seq<string>)
    requires |a| == |b|
    requires forall i, j | 0 <= i < j < |a| :: a[i] != a[j]
    requires forall i, j | 0 <= i < j < |b| :: b[i] != b[j]
    ensures (exists x :: x in a && x !in b) <==> (exists y :: y in b && y !in a)
  {
    var s, t := Members(a), Members(b);
    if s <= t {
      assert |t - s| == |t| - |s|;
      assert forall e :: e in b ==> e in t;
    }
    if t <= s {
      assert |s - t| == |s| - |t|;
      assert forall e :: e in a ==> e in s;
    }
    assert s <= t <==> t <= s;
    assert (exists x :: x in a && x !in b) <==> !(s <= t);
    assert (exists y :: y in b && y !in a) <==> !(t <= s);
  }

  ghost function Members(ids: seq<string>): (s: set<string>)
    requires forall i, j | 0 <= i < j < |ids| :: ids[i] != ids[j]
    ensures |s| == |ids| && forall e :: e in s <==> e in ids
  {
    if ids == [] then {}
    else
      var init := ids[..|ids| - 1];
      assert ids == init + [ids[|ids| - 1]];
      Members(init) + {ids[|ids| - 1]}
  }

  /** What precedes the earliest row so far precedes them all. */
  lemma EarlierYet(inbox: Inbox, rows: set<string>, id: string, e: string)
    requires id in inbox && e in inbox && rows <= inbox.Keys && !Precedes(inbox, id, e)
    requires forall x | x in rows :: Precedes(inbox, id, x)
    ensures forall x | x in rows + {e} :: Precedes(inbox, e, x)
  {
    Strings.AtMostTotal(id, e);
    Strings.AtMostTotal(e, e);
    forall x | x in rows ensures Precedes(inbox, e, x) {
      if Strings.AtMost(e, id) && Strings.AtMost(id, x) {
        Strings.AtMostTransitive(e, id, x);
      }
    }
  }

  lemma PickOldest(inbox: Inbox, now: Time, locked: set<string>, picked: seq<string>, left: set<string>, id: string)
    requires OldestFirst(inbox, now, locked, picked, left) && id in left && left <= inbox.Keys
    requires forall e | e in left :: Precedes(inbox, id, e)
    ensures OldestFirst(inbox, now, locked, picked + [id], left - {id})
  {
    var picked' := picked + [id];
    forall e | e in left - {id} || (e in ClaimableIds(inbox, now, locked) && e !in picked')
      ensures e in left && e !in picked' && e in ClaimableIds(inbox, now, locked)
    {
    }
  }

  /** The rows not yet picked are as they were. */
  lemma CandidatesStay(
    db: Db, now: Time, locked: set<string>, picked: seq<string>, left: set<string>, owner: string, lease: Duration)
    requires OldestFirst(db.inbox, now, locked, picked, left)
    requires forall i | 0 <= i < |picked| :: picked[i] in db.inbox
    ensures
      forall e | e in left ::
        e in db.inbox && e in ClaimAll(db, now, picked, owner, lease).inbox
        && ClaimAll(db, now, picked, owner, lease).inbox[e] == db.inbox[e]
  {
    forall e | e in left ensures ClaimAll(db, now, picked, owner, lease).inbox[e] == db.inbox[e] {
      UnclaimedRowsStay(db, now, picked, owner, lease, e);
    }
  }

  class AdapterStore {
    var receipts: Receipts
    var inbox: Inbox
    var checkouts: Checkouts

    ghost function Tables(): Db
      reads this
    {
      Db(receipts, inbox, checkouts)
    }

    /** The unique indexes of the schema. */
    ghost predicate Valid()
      reads this
    {
      UniqueIds(checkouts)
    }

    constructor ()
      ensures Valid() && Tables() == EMPTY
    {
      receipts, inbox, checkouts := map[], map[], map[];
    }

    // ---------------------------------------------------------------- intake

    method InsertInbox(now: Time, fact: ProviderFact, digest: Bytes) returns (r: Result<InsertOutcome, Error>)
      modifies this`receipts, this`inbox
      ensures Stepped(Tables(), r) == InsertStep(old(Tables()), now, fact, digest)
    {
      var effectKey := fact.EffectKey();
      var before := receipts;
      var replay := InsertEventReceipt(fact.eventId, effectKey, digest);
      match replay
      case Err(e) => return Err(e);
      case Ok(true) => return Ok(Replay);
      case Ok(false) =>
      if exists e | e in inbox :: inbox[e].effectKey == effectKey {
        return Ok(EffectReplay);
      }
      if fact.eventId in inbox {
        receipts := before;
        return Err(ConstraintViolation);
      }
      inbox := inbox[fact.eventId := NewInboxRow(fact, digest, now)];
      return Ok(Inserted);
    }

    /** True for a replay of a known event, false when the receipt was written now. */
    method InsertEventReceipt(id: string, effectKey: string, digest: Bytes) returns (replay: Result<bool, Error>)
      modifies this`receipts
      ensures id !in old(receipts) ==> replay == Ok(false) && receipts == old(receipts)[id := Receipt(digest, effectKey)]
      ensures id in old(receipts) ==> receipts == old(receipts)
      ensures id in old(receipts) ==>
                replay == if old(receipts)[id].digest == digest then Ok(true) else Err(InboxConflict)
    {
      if id !in receipts {
        receipts := receipts[id := Receipt(digest, effectKey)];
        return Ok(false);
      }
      if receipts[id].digest != digest {
        return Err(InboxConflict);
      }
      return Ok(true);
    }

    // ---------------------------------------------------------------- claims

    /**
     ClaimInbox: up to `limit` claimable rows that no other transaction has locked, by time and id.
     */
    method ClaimInbox(now: Time, owner: string, lease: Duration, limit: nat, locked: set<string>)
      returns (claims: seq<InboxClaim>, ghost picked: seq<string>)
      modifies this`inbox
      ensures |claims| == |picked| <= limit
      ensures OldestFirst(old(inbox), now, locked, picked, ClaimableIds(old(inbox), now, locked) - (set e | e in picked))
      ensures |picked| < limit ==> forall e | e in ClaimableIds(old(inbox), now, locked) :: e in picked
      ensures forall i | 0 <= i < |picked| :: claims[i] == ClaimOf(ClaimRow(old(inbox)[picked[i]], now, owner, lease))
      ensures Tables() == ClaimAll(old(Tables()), now, picked, owner, lease)
    {
      claims, picked := [], [];
      var candidates := ClaimableIds(inbox, now, locked);
      while candidates != {} && |claims| < limit
        invariant |claims| == |picked| <= limit
        invariant OldestFirst(old(inbox), now, locked, picked, candidates)
        invariant forall i | 0 <= i < |picked| :: picked[i] in old(inbox)
        invariant forall i | 0 <= i < |picked| ::
                    claims[i] == ClaimOf(ClaimRow(old(inbox)[picked[i]], now, owner, lease))
        invariant Tables() == ClaimAll(old(Tables()), now, picked, owner, lease)
        decreases candidates
      {
        CandidatesStay(old(Tables()), now, locked, picked, candidates, owner, lease);
        var id := Oldest(candidates);
        PickOldest(old(inbox), now, locked, picked, candidates, id);
        inbox := inbox[id := ClaimRow(inbox[id], now, owner, lease)];
        assert (picked + [id])[..|picked|] == picked;
        claims, picked := claims + [ClaimOf(inbox[id])], picked + [id];
        candidates := candidates - {id};
      }
      assert candidates == ClaimableIds(old(inbox), now, locked) - (set e | e in picked);
      forall e | |picked| < limit && e in ClaimableIds(old(inbox), now, locked) ensures e in picked {
        assert e !in candidates;
      }
    }

    method Oldest(candidates: set<string>) returns (id: string)
      requires candidates != {} && candidates <= inbox.Keys
      ensures id in candidates
      ensures forall e | e in candidates :: Precedes(inbox, id, e)
    {
      id :| id in candidates;
      Strings.AtMostTotal(id, id);
      var rest := candidates - {id};
      while rest != {}
        invariant rest <= candidates && id in candidates
        invariant forall e | e in candidates - rest :: Precedes(inbox, id, e)
        decreases rest
      {
        var e :| e in rest;
        rest := rest - {e};
        if !Precedes(inbox, id, e) {
          EarlierYet(inbox, candidates - rest - {e}, id, e);
          id := e;
        }
      }
    }

    method AckInbox(now: Time, delivery: TrustedDelivery) returns (r: Result<(), Error>)
      modifies this`inbox
      ensures Stepped(Tables(), r) == AckStep(old(Tables()), now, delivery)
    {
      var id := delivery.eventId;
      if id in inbox && inbox[id].LeaseHeld(delivery.claimOwner, delivery.claimGeneration, now) {
        inbox := inbox[id := inbox[id].(deliveredAt := Some(now), owner := "", claimUntil := None, lastErrorCode := "")];
        return Ok(());
      }
      return Err(ClaimLost);
    }

    method NackInbox(now: Time, claim: InboxClaim, delay: Duration, category: string) returns (r: Result<(), Error>)
      modifies this`inbox
      ensures Stepped(Tables(), r) == NackStep(old(Tables()), now, claim, delay, category)
    {
      var id := claim.fact.eventId;
      if id in inbox && inbox[id].LeaseHeld(claim.owner, claim.generation, now) {
        inbox := inbox[id := inbox[id].(attempts := inbox[id].attempts + 1, availableAt := now + WholeSeconds(delay),
                                        owner := "", claimUntil := None, lastErrorCode := category)];
        return Ok(());
      }
      return Err(ClaimLost);
    }

    method QuarantineInbox(now: Time, claim: InboxClaim, category: string) returns (r: Result<(), Error>)
      modifies this`inbox
      ensures Stepped(Tables(), r) == QuarantineStep(old(Tables()), now, claim, category)
    {
      var id := claim.fact.eventId;
      if id in inbox && inbox[id].LeaseHeld(claim.owner, claim.generation, now) && inbox[id].quarantinedAt.None? {
        inbox := inbox[id := inbox[id].(quarantinedAt := Some(now), quarantineCode := category,
                                        owner := "", claimUntil := None, lastErrorCode := category)];
        return Ok(());
      }
      return Err(ClaimLost);
    }

    // ------------------------------------------------------------ resolution

    /** One transaction: fence, search, validate, merge, persist; every error rolls back. */
    method ResolveClaim(fenceAt: Time, bindAt: Time, claim: InboxClaim) returns (r: Result<TrustedDelivery, Error>)
      requires Valid()
      modifies this`inbox, this`checkouts
      ensures Valid()
      ensures Stepped(Tables(), r) == ResolveStep(old(Tables()), fenceAt, bindAt, claim)
    {
      ResolutionIsConservative(Tables(), fenceAt, bindAt, claim);
      if !FenceHolds(inbox, claim, fenceAt) {
        return Err(ClaimLost);
      }
      var found := ResolveCheckoutMapping(claim);
      if found.Err? {
        return Err(found.error);
      }
      var key, row := found.value.key, found.value.row;
      assert forall k | MatchingKeys(checkouts, claim.fact) == {k} :: k in MatchingKeys(checkouts, claim.fact) && k == key;
      if !FactAgrees(claim.fact, key, row) {
        return Err(CheckoutConflict);
      }
      row := MergeProviderIds(row, claim.fact);
      if row.paymentIntent == "" {
        return Err(MappingNotFound);
      }
      r := PersistResolvedMapping(bindAt, claim, key, row);
    }

    /** The candidate list grows by metadata, payment intent and charge; all must name one order. */
    method ResolveCheckoutMapping(claim: InboxClaim) returns (r: Result<Mapping, Error>)
      requires Valid()
      ensures r == Err(NoRows) <==> claim.fact.metadataTenantId != "" && claim.fact.MetadataKey() !in checkouts
      ensures r == Err(MappingNotFound) <==> MatchingKeys(checkouts, claim.fact) == {} && r != Err(NoRows)
      ensures r.Ok? <==> r != Err(NoRows) && exists k :: MatchingKeys(checkouts, claim.fact) == {k}
      ensures r.Ok? ==> MatchingKeys(checkouts, claim.fact) == {r.value.key}
      ensures r.Ok? ==> r.value.key in checkouts && r.value.row == checkouts[r.value.key]
      ensures r.Err? ==> r.error in {NoRows, MappingNotFound, CheckoutConflict}
    {
      var fact := claim.fact;
      var candidates: seq<Mapping> := [];
      var selectors := [(PaymentIntentId, fact.paymentIntentId), (ChargeId, fact.chargeId)];
      if fact.metadataTenantId != "" {
        var key := fact.MetadataKey();
        if key !in checkouts {
          return Err(NoRows);
        }
        candidates := [Mapping(key, checkouts[key])];
      }
      for i := 0 to |selectors|
        invariant forall m | m in candidates :: m.key in MatchingKeys(checkouts, fact) && m.row == checkouts[m.key]
        invariant fact.metadataTenantId != "" ==> Mapping(fact.MetadataKey(), checkouts[fact.MetadataKey()]) in candidates
        invariant forall k, j | k in checkouts && 0 <= j < i && selectors[j].1 != ""
                                && ColumnOf(checkouts[k], selectors[j].0) == selectors[j].1 ::
                    Mapping(k, checkouts[k]) in candidates
      {
        if selectors[i].1 == "" {
          continue;
        }
        var found := MappingByProviderId(selectors[i].0, selectors[i].1);
        if found.Some? {
          candidates := candidates + [found.value];
        }
      }
      forall k | k in MatchingKeys(checkouts, fact) ensures Mapping(k, checkouts[k]) in candidates {
        assert selectors[0] == (PaymentIntentId, fact.paymentIntentId) && selectors[1] == (ChargeId, fact.chargeId);
        assert ColumnOf(checkouts[k], PaymentIntentId) == checkouts[k].paymentIntent;
        assert ColumnOf(checkouts[k], ChargeId) == checkouts[k].chargeId;
      }
      r := ChooseMapping(candidates);
      CandidatesAreMatches(candidates, r, MatchingKeys(checkouts, fact));
    }

    /** At most one mapping carries a non-empty provider id, so the first row found is the only one. */
    method MappingByProviderId(column: Column, value: string) returns (found: Option<Mapping>)
      requires Valid() && value != ""
      ensures found.Some? ==> found.value.key in checkouts && found.value.row == checkouts[found.value.key]
      ensures forall k | k in checkouts ::
                ColumnOf(checkouts[k], column) == value <==> found == Some(Mapping(k, checkouts[k]))
    {
      var keys := checkouts.Keys;
      while keys != {}
        invariant keys <= checkouts.Keys
        invariant forall k | k in checkouts.Keys - keys :: ColumnOf(checkouts[k], column) != value
        decreases keys
      {
        var key :| key in keys;
        if ColumnOf(checkouts[key], column) == value {
          forall k | k in checkouts && k != key ensures ColumnOf(checkouts[k], column) != value {
            assert !Clash(checkouts[key], checkouts[k]);
          }
          return Some(Mapping(key, checkouts[key]));
        }
        keys := keys - {key};
      }
      return None;
    }

    method PersistResolvedMapping(bindAt: Time, claim: InboxClaim, key: OrderKey, merged: CheckoutRow)
      returns (r: Result<TrustedDelivery, Error>)
      requires claim.fact.eventId in inbox
      modifies this`inbox, this`checkouts
      ensures Stepped(Tables(), r) == BindStep(old(Tables()), bindAt, claim, key, merged)
    {
      var before := checkouts;
      if !Admits(checkouts, key, merged) {
        return Err(CheckoutConflict);
      }
      checkouts := checkouts[key := merged];
      var id := claim.fact.eventId;
      if !inbox[id].LeaseHeld(claim.owner, claim.generation, bindAt) {
        checkouts := before;
        return Err(ClaimLost);
      }
      inbox := inbox[id := inbox[id].(trusted := key, providerOrderId := merged.paymentIntent)];
      return Ok(DeliveryOf(claim, key, merged));
    }

    // ------------------------------------------------------------- checkouts

    method ReserveCheckout(now: Time, order: PaymentOrder, request: CheckoutRequest) returns (r: Result<Reservation, Error>)
      requires Valid()
      modifies this`checkouts
      ensures Valid()
      ensures Stepped(Tables(), r) == ReserveStep(old(Tables()), now, order, request)
    {
      var before := checkouts;
      var inserted := InsertCheckoutReservation(order, request);
      if inserted.Err? {
        return Err(inserted.error);
      }
      var key := order.Key();
      var current := Reservation(key, checkouts[key], false);
      assert checkouts[key := current.row] == checkouts;
      if !ValidReservation(key, current.row, order, request) {
        checkouts := before;
        return Err(CheckoutConflict);
      }
      r := RotateExpiredCheckout(now, current);
      if r.Err? {
        checkouts := before;
      }
    }

    /** INSERT ... ON CONFLICT (tenant_id, order_id) DO NOTHING, under the CHECK constraints. */
    method InsertCheckoutReservation(order: PaymentOrder, request: CheckoutRequest) returns (r: Result<(), Error>)
      requires Valid()
      modifies this`checkouts
      ensures Valid()
      ensures
        var key, row := order.Key(), NewCheckoutRow(order, request);
        if !CurrencyCode(order.currency) || order.amountMinor <= 0 || key.tenantId == "" || key.orderId == "" then
          r == Err(ConstraintViolation) && checkouts == old(checkouts)
        else if key in old(checkouts) then
          r == Ok(()) && checkouts == old(checkouts)
        else if Admits(old(checkouts), key, row) then
          r == Ok(()) && checkouts == old(checkouts)[key := row]
        else
          r == Err(CheckoutConflict) && checkouts == old(checkouts)
    {
      var key, row := order.Key(), NewCheckoutRow(order, request);
      if !CurrencyCode(row.currency) || row.amountMinor <= 0 || key.tenantId == "" || key.orderId == "" {
        return Err(ConstraintViolation);
      }
      if key in checkouts {
        return Ok(());
      }
      if !Admits(checkouts, key, row) {
        return Err(CheckoutConflict);
      }
      WriteKeepsUnique(checkouts, key, row);
      checkouts := checkouts[key := row];
      return Ok(());
    }

    method RotateExpiredCheckout(now: Time, reserved: Reservation) returns (r: Result<Reservation, Error>)
      requires Valid() && reserved.key in checkouts && checkouts[reserved.key] == reserved.row && !reserved.rotated
      modifies this`checkouts
      ensures Valid()
      ensures
        var rotated := RotatedRow(reserved.key, reserved.row);
        if !reserved.row.Complete() || now < reserved.row.expiresAt then
          r == Ok(reserved) && checkouts == old(checkouts)
        else if Admits(old(checkouts), reserved.key, rotated) then
          r == Ok(Reservation(reserved.key, rotated, true)) && checkouts == old(checkouts)[reserved.key := rotated]
        else
          r == Err(CheckoutConflict) && checkouts == old(checkouts)
    {
      var current := reserved;
      if !current.row.Complete() || current.row.Available(now) {
        return Ok(current);
      }
      var generation := current.row.generation + 1;
      current := current.(row := current.row.(generation := generation,
                                              idempotencyKey := IdempotencyKey(current.key, generation)));
      current := current.(row := current.row.(sessionId := "", redirectUrl := "", expiresAt := ZERO_TIME,
                                              paymentIntent := "", chargeId := ""),
                          rotated := true);
      if !Admits(checkouts, current.key, current.row) {
        return Err(CheckoutConflict);
      }
      WriteKeepsUnique(checkouts, current.key, current.row);
      checkouts := checkouts[current.key := current.row];
      return Ok(current);
    }

    method SaveCheckout(reservation: Reservation, session: CheckoutSession) returns (r: Result<Reservation, Error>)
      requires Valid()
      modifies this`checkouts
      ensures Valid()
      ensures Stepped(Tables(), r) == SaveStep(old(Tables()), reservation, session)
    {
      var key := reservation.key;
      if key !in checkouts {
        return Err(NoRows);
      }
      var current := Reservation(key, checkouts[key], false);
      if current.row.generation != reservation.row.generation
         || current.row.idempotencyKey != reservation.row.idempotencyKey {
        return Err(CheckoutConflict);
      }
      if !SessionCompatible(current.row, session) {
        return Err(CheckoutConflict);
      }
      if !current.row.Complete() {
        current := current.(row := SavedRow(current.row, session));
        if session.id == "" || session.url == "" {
          return Err(ConstraintViolation);
        }
        if !Admits(checkouts, key, current.row) {
          return Err(CheckoutConflict);
        }
        WriteKeepsUnique(checkouts, key, current.row);
        checkouts := checkouts[key := current.row];
      }
      return Ok(current);
    }
  }

  /** chooseMapping: the first candidate, if all candidates name one order. */
  method ChooseMapping(candidates: seq<Mapping>) returns (r: Result<Mapping, Error>)
    ensures r == Err(MappingNotFound) <==> candidates == []
    ensures r.Ok? <==> candidates != [] && forall m, m' | m in candidates && m' in candidates :: m.key == m'.key
    ensures r.Ok? ==> r.value in candidates
    ensures r.Err? ==> r.error in {MappingNotFound, CheckoutConflict}
  {
    if |candidates| == 0 {
      return Err(MappingNotFound);
    }
    var selected := candidates[0];
    for i := 1 to |candidates|
      invariant forall j | 0 <= j < i :: candidates[j].key == selected.key
    {
      if candidates[i].key != selected.key {
        assert candidates[i] in candidates;
        return Err(CheckoutConflict);
      }
    }
    return Ok(selected);
  }

  /** Choosing among rows of one table depends on the set of rows only, not on their order. */
  lemma CandidatesAreMatches(candidates: seq<Mapping>, r: Result<Mapping, Error>, keys: set<OrderKey>)
    requires forall m | m in candidates :: m.key in keys
    requires forall k | k in keys :: exists m :: m in candidates && m.key == k
    requires r.Ok? <==> candidates != [] && forall m, m' | m in candidates && m' in candidates :: m.key == m'.key
    requires r.Ok? ==> r.value in candidates
    ensures candidates == [] <==> keys == {}
    ensures r.Ok? <==> exists k :: keys == {k}
    ensures r.Ok? ==> keys == {r.value.key}
  {
    if candidates != [] {
      assert candidates[0] in candidates && candidates[0].key in keys;
    }
    if r.Ok? {
      assert keys == {r.value.key};
    }
  }
}

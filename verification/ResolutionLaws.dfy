/** What resolving a claim does and does not change. */
module ResolutionLaws {
  import opened Wrappers
  import opened Model
  import opened Database

  /** The mapping under `key` carries everything the fact knows about it. */
  predicate Bound(checkouts: Checkouts, fact: ProviderFact, key: OrderKey, paymentIntent: string) {
    && key in checkouts
    && checkouts[key].paymentIntent == paymentIntent != ""
    && (fact.chargeId != "" ==> checkouts[key].chargeId == fact.chargeId)
    && FactAgrees(fact, key, checkouts[key])
    && PointsAt(fact, key, checkouts[key])
  }

  /** Only empty provider ids are filled in; nothing else of a mapping changes. */
  predicate OnlyFilledIn(before: CheckoutRow, after: CheckoutRow) {
    && after == before.(paymentIntent := after.paymentIntent, chargeId := after.chargeId)
    && (before.paymentIntent != "" ==> after.paymentIntent == before.paymentIntent)
    && (before.chargeId != "" ==> after.chargeId == before.chargeId)
  }

  /**
   The unique indexes can never reject the write of a resolution: another mapping with the
   fact's payment intent or charge would itself have been a candidate.
   */
  lemma BindNeverClashes(checkouts: Checkouts, fact: ProviderFact, key: OrderKey)
    requires UniqueIds(checkouts) && MatchingKeys(checkouts, fact) == {key}
    ensures key in checkouts && Admits(checkouts, key, MergeProviderIds(checkouts[key], fact))
  {
    assert key in MatchingKeys(checkouts, fact);
    var merged := MergeProviderIds(checkouts[key], fact);
    forall k | k in checkouts && k != key ensures !Clash(merged, checkouts[k]) {
      assert k !in MatchingKeys(checkouts, fact);
      assert !Clash(checkouts[key], checkouts[k]);
    }
  }

  lemma WriteKeepsUnique(checkouts: Checkouts, key: OrderKey, row: CheckoutRow)
    requires UniqueIds(checkouts) && Admits(checkouts, key, row)
    ensures UniqueIds(checkouts[key := row])
  {
    var after := checkouts[key := row];
    forall k, k' | k in after && k' in after && k' != k ensures !Clash(after[k], after[k']) {
      if k == key {
        assert !Clash(row, checkouts[k']);
      } else if k' == key {
        assert !Clash(row, checkouts[k]);
      } else {
        assert !Clash(checkouts[k], checkouts[k']);
      }
    }
  }

  /**
   A successful resolution fills in one mapping that the fact agrees with, keeps the unique
   indexes, binds the inbox row to the order it returns, and never meets a unique violation.
   */
  lemma ResolutionIsConservative(db: Db, fenceAt: Time, bindAt: Time, claim: InboxClaim)
    requires UniqueIds(db.checkouts)
    ensures
      var after := ResolveStep(db, fenceAt, bindAt, claim);
      && UniqueIds(after.db.checkouts)
      && after.db.receipts == db.receipts
      && (after.answer.Err? ==> after.db == db)
      && (after.answer.Ok? ==>
            var d := after.answer.value;
            && FenceHolds(db.inbox, claim, fenceAt)
            && d == DeliveryOf(claim, d.order, db.checkouts[d.order].(paymentIntent := d.providerOrderId))
            && Bound(after.db.checkouts, claim.fact, d.order, d.providerOrderId)
            && d.order in db.checkouts && FactAgrees(claim.fact, d.order, db.checkouts[d.order])
            && OnlyFilledIn(db.checkouts[d.order], after.db.checkouts[d.order])
            && Admits(db.checkouts, d.order, after.db.checkouts[d.order])
            && after.db.checkouts == db.checkouts[d.order := after.db.checkouts[d.order]]
            && after.db.inbox == db.inbox[d.eventId :=
                 db.inbox[d.eventId].(trusted := d.order, providerOrderId := d.providerOrderId)])
  {
    var after := ResolveStep(db, fenceAt, bindAt, claim);
    if after.answer.Ok? {
      var key := after.answer.value.order;
      assert MatchingKeys(db.checkouts, claim.fact) == {key};
      assert key in MatchingKeys(db.checkouts, claim.fact);
      BindNeverClashes(db.checkouts, claim.fact, key);
      WriteKeepsUnique(db.checkouts, key, MergeProviderIds(db.checkouts[key], claim.fact));
    }
  }

  lemma BoundIsSoleMatch(checkouts: Checkouts, fact: ProviderFact, key: OrderKey, paymentIntent: string)
    requires UniqueIds(checkouts) && Bound(checkouts, fact, key, paymentIntent)
    ensures MatchingKeys(checkouts, fact) == {key}
  {
    assert key in MatchingKeys(checkouts, fact);
    forall k | k in MatchingKeys(checkouts, fact) ensures k == key {
      assert k != key ==> !Clash(checkouts[key], checkouts[k]);
    }
  }

  /** Any claim of a bound fact resolves to the bound order again and changes no mapping. */
  lemma BoundResolvesAgain(db: Db, fenceAt: Time, bindAt: Time, claim: InboxClaim, key: OrderKey, paymentIntent: string)
    requires UniqueIds(db.checkouts) && Bound(db.checkouts, claim.fact, key, paymentIntent)
    requires FenceHolds(db.inbox, claim, fenceAt) && FenceHolds(db.inbox, claim, bindAt)
    ensures
      var after := ResolveStep(db, fenceAt, bindAt, claim);
      && after.answer == Ok(DeliveryOf(claim, key, db.checkouts[key]))
      && after.db.checkouts == db.checkouts
  {
    BoundIsSoleMatch(db.checkouts, claim.fact, key, paymentIntent);
    var found :| MatchingKeys(db.checkouts, claim.fact) == {found};
    assert key in {found};
    BindNeverClashes(db.checkouts, claim.fact, key);
    assert MergeProviderIds(db.checkouts[key], claim.fact) == db.checkouts[key];
    assert db.checkouts[key := db.checkouts[key]] == db.checkouts;
  }

  /** Resolving the same claim twice in a row gives the same delivery and changes no mapping again. */
  lemma ResolutionIsIdempotent(db: Db, fenceAt: Time, bindAt: Time, claim: InboxClaim, fenceAt': Time, bindAt': Time)
    requires UniqueIds(db.checkouts) && ResolveStep(db, fenceAt, bindAt, claim).answer.Ok?
    requires
      var db' := ResolveStep(db, fenceAt, bindAt, claim).db;
      FenceHolds(db'.inbox, claim, fenceAt') && FenceHolds(db'.inbox, claim, bindAt')
    ensures
      var first := ResolveStep(db, fenceAt, bindAt, claim);
      ResolveStep(first.db, fenceAt', bindAt', claim) == first
  {
    var first := ResolveStep(db, fenceAt, bindAt, claim);
    var d := first.answer.value;
    ResolutionIsConservative(db, fenceAt, bindAt, claim);
    ResolutionIsConservative(first.db, fenceAt', bindAt', claim);
    BoundResolvesAgain(first.db, fenceAt', bindAt', claim, d.order, d.providerOrderId);
    var row := first.db.inbox[d.eventId];
    assert row.(trusted := d.order, providerOrderId := d.providerOrderId) == row;
    assert first.db.inbox[d.eventId := row] == first.db.inbox;
  }

  /** SaveCheckout erases a bound payment intent exactly when it completes a bound row with an empty one. */
  lemma SaveErasesIntent(db: Db, reservation: Reservation, session: CheckoutSession)
    requires SaveStep(db, reservation, session).answer.Ok?
    ensures
      var row, row' := db.checkouts[reservation.key], SaveStep(db, reservation, session).db.checkouts[reservation.key];
      row.paymentIntent != "" && row'.paymentIntent != row.paymentIntent
      <==> !row.Complete() && row.paymentIntent != "" && session.paymentIntent == ""
  {
  }
}

/** The inbox as a first-writer-wins map: a meaning of arrival sequences that mentions no store. */
module FirstWriter {
  import opened Wrappers
  import opened Model
  import opened Database
  import opened ProviderFacts

  datatype Arrival = Arrival(fact: ProviderFact, digest: Bytes, at: Time)

  /** InsertInbox for one arrival. */
  function Arrive(db: Db, a: Arrival): Stepped<InsertOutcome> {
    InsertStep(db, a.at, a.fact, a.digest)
  }

  /** The tables after the first `n` arrivals. */
  function After(arrivals: seq<Arrival>, n: nat): Db
    requires n <= |arrivals|
  {
    if n == 0 then EMPTY else Arrive(After(arrivals, n - 1), arrivals[n - 1]).db
  }

  function Answer(arrivals: seq<Arrival>, i: nat): Result<InsertOutcome, Error>
    requires i < |arrivals|
  {
    Arrive(After(arrivals, i), arrivals[i]).answer
  }

  function IdAt(arrivals: seq<Arrival>, i: nat): string
    requires i < |arrivals|
  {
    arrivals[i].fact.eventId
  }

  function EffectAt(arrivals: seq<Arrival>, i: nat): string
    requires i < |arrivals|
  {
    arrivals[i].fact.EffectKey()
  }

  /** No earlier arrival has the event id. */
  predicate NewEvent(arrivals: seq<Arrival>, i: nat)
    requires i < |arrivals|
  {
    forall j: nat | j < i :: IdAt(arrivals, j) != IdAt(arrivals, i)
  }

  /** A new event whose effect no earlier new event has. */
  predicate NewEffect(arrivals: seq<Arrival>, i: nat)
    requires i < |arrivals|
  {
    && NewEvent(arrivals, i)
    && forall j: nat | j < i && NewEvent(arrivals, j) :: EffectAt(arrivals, j) != EffectAt(arrivals, i)
  }

  /** The first arrivals of their event ids, by id. */
  ghost function FirstEvents(arrivals: seq<Arrival>, n: nat): Receipts
    requires n <= |arrivals|
  {
    map i | 0 <= i < n && NewEvent(arrivals, i) ::
      IdAt(arrivals, i) := Receipt(arrivals[i].digest, EffectAt(arrivals, i))
  }

  function RowAt(arrivals: seq<Arrival>, i: nat): InboxRow
    requires i < |arrivals|
  {
    NewInboxRow(arrivals[i].fact, arrivals[i].digest, arrivals[i].at)
  }

  /** The first new events of their effects, by id. */
  ghost function FirstEffects(arrivals: seq<Arrival>, n: nat): Inbox
    requires n <= |arrivals|
  {
    map i | 0 <= i < n && NewEffect(arrivals, i) :: IdAt(arrivals, i) := RowAt(arrivals, i)
  }

  ghost function FirstWriters(arrivals: seq<Arrival>, n: nat): Db
    requires n <= |arrivals|
  {
    Db(FirstEvents(arrivals, n), FirstEffects(arrivals, n), map[])
  }

  lemma {:induction false} EarliestEvent(arrivals: seq<Arrival>, i: nat) returns (j: nat)
    requires i < |arrivals|
    ensures j <= i && IdAt(arrivals, j) == IdAt(arrivals, i) && NewEvent(arrivals, j)
  {
    if NewEvent(arrivals, i) {
      j := i;
    } else {
      var k: nat :| k < i && IdAt(arrivals, k) == IdAt(arrivals, i);
      j := EarliestEvent(arrivals, k);
    }
  }

  lemma {:induction false} EarliestEffect(arrivals: seq<Arrival>, i: nat) returns (j: nat)
    requires i < |arrivals| && NewEvent(arrivals, i)
    ensures j <= i && EffectAt(arrivals, j) == EffectAt(arrivals, i) && NewEffect(arrivals, j)
  {
    if NewEffect(arrivals, i) {
      j := i;
    } else {
      var k: nat :| k < i && NewEvent(arrivals, k) && EffectAt(arrivals, k) == EffectAt(arrivals, i);
      j := EarliestEffect(arrivals, k);
    }
  }

  lemma EventIn(arrivals: seq<Arrival>, n: nat, i: nat)
    requires i < n <= |arrivals| && NewEvent(arrivals, i)
    ensures IdAt(arrivals, i) in FirstEvents(arrivals, n)
    ensures FirstEvents(arrivals, n)[IdAt(arrivals, i)] == Receipt(arrivals[i].digest, EffectAt(arrivals, i))
  {
  }

  lemma EffectIn(arrivals: seq<Arrival>, n: nat, i: nat)
    requires i < n <= |arrivals| && NewEffect(arrivals, i)
    ensures IdAt(arrivals, i) in FirstEffects(arrivals, n)
    ensures FirstEffects(arrivals, n)[IdAt(arrivals, i)] == RowAt(arrivals, i)
  {
  }

  /** An event id is among the first arrivals exactly when an earlier arrival had it. */
  lemma KnownEvent(arrivals: seq<Arrival>, n: nat)
    requires n < |arrivals|
    ensures IdAt(arrivals, n) in FirstEvents(arrivals, n) <==> !NewEvent(arrivals, n)
  {
    if !NewEvent(arrivals, n) {
      var k: nat :| k < n && IdAt(arrivals, k) == IdAt(arrivals, n);
      var j := EarliestEvent(arrivals, k);
      EventIn(arrivals, n, j);
    }
  }

  /** An effect is in the inbox exactly when an earlier new event had it. */
  lemma KnownEffect(arrivals: seq<Arrival>, n: nat)
    requires n < |arrivals| && NewEvent(arrivals, n)
    ensures EffectAdmitted(FirstEffects(arrivals, n), EffectAt(arrivals, n)) <==> !NewEffect(arrivals, n)
    ensures IdAt(arrivals, n) !in FirstEffects(arrivals, n)
  {
    var inbox := FirstEffects(arrivals, n);
    if EffectAdmitted(inbox, EffectAt(arrivals, n)) {
      var e :| e in inbox && inbox[e].effectKey == EffectAt(arrivals, n);
      var i: nat :| i < n && NewEffect(arrivals, i) && IdAt(arrivals, i) == e;
      EffectIn(arrivals, n, i);
      assert EffectAt(arrivals, i) == EffectAt(arrivals, n);
    }
    if !NewEffect(arrivals, n) {
      var k: nat :| k < n && NewEvent(arrivals, k) && EffectAt(arrivals, k) == EffectAt(arrivals, n);
      var j := EarliestEffect(arrivals, k);
      EffectIn(arrivals, n, j);
    }
  }

  lemma ExtendEvents(arrivals: seq<Arrival>, n: nat)
    requires n < |arrivals|
    ensures FirstEvents(arrivals, n + 1) ==
            if NewEvent(arrivals, n)
            then FirstEvents(arrivals, n)[IdAt(arrivals, n) := Receipt(arrivals[n].digest, EffectAt(arrivals, n))]
            else FirstEvents(arrivals, n)
  {
  }

  lemma ExtendEffects(arrivals: seq<Arrival>, n: nat)
    requires n < |arrivals|
    ensures FirstEffects(arrivals, n + 1) ==
            if NewEffect(arrivals, n) then FirstEffects(arrivals, n)[IdAt(arrivals, n) := RowAt(arrivals, n)]
            else FirstEffects(arrivals, n)
  {
  }

  /**
   For every arrival sequence the receipts are exactly the first arrivals of their event ids and the
   inbox exactly the first new event of each effect, each with that arrival's content.
   */
  lemma InboxIsFirstWriterWins(arrivals: seq<Arrival>, n: nat)
    requires n <= |arrivals|
    ensures After(arrivals, n) == FirstWriters(arrivals, n)
  {
    NothingArrived(arrivals);
    for k := 0 to n
      invariant After(arrivals, k) == FirstWriters(arrivals, k)
    {
      NextArrival(arrivals, k);
    }
  }

  lemma NothingArrived(arrivals: seq<Arrival>)
    ensures After(arrivals, 0) == FirstWriters(arrivals, 0)
  {
  }

  lemma NextArrival(arrivals: seq<Arrival>, n: nat)
    requires n < |arrivals| && After(arrivals, n) == FirstWriters(arrivals, n)
    ensures After(arrivals, n + 1) == FirstWriters(arrivals, n + 1)
  {
    KnownEvent(arrivals, n);
    ExtendEvents(arrivals, n);
    ExtendEffects(arrivals, n);
    if NewEvent(arrivals, n) {
      KnownEffect(arrivals, n);
    }
  }

  /** Whether an arrival is admitted depends on the arrivals before it alone. */
  lemma AnswersTellTheFirstWriter(arrivals: seq<Arrival>, i: nat)
    requires i < |arrivals|
    ensures Answer(arrivals, i) == Ok(Inserted) <==> NewEffect(arrivals, i)
    ensures Answer(arrivals, i) == Ok(EffectReplay) <==> NewEvent(arrivals, i) && !NewEffect(arrivals, i)
  {
    InboxIsFirstWriterWins(arrivals, i);
    KnownEvent(arrivals, i);
    if NewEvent(arrivals, i) {
      KnownEffect(arrivals, i);
    }
  }

  /**
   An event id that arrived before: a replay repeats the digest of its first arrival, a conflict has
   another; neither changes a table.
   */
  lemma RepeatsChangeNothing(arrivals: seq<Arrival>, i: nat, first: nat)
    requires first < i < |arrivals| && NewEvent(arrivals, first) && IdAt(arrivals, first) == IdAt(arrivals, i)
    ensures After(arrivals, i + 1) == After(arrivals, i)
    ensures Answer(arrivals, i) ==
      if arrivals[first].digest == arrivals[i].digest then Ok(Replay) else Err(InboxConflict)
  {
    InboxIsFirstWriterWins(arrivals, i);
    EventIn(arrivals, i, first);
  }

  /** Of the facts the store receives, exactly those of the same type and object have the same effect. */
  lemma EffectKeyInjective(fact: ProviderFact, fact': ProviderFact)
    requires TrustworthyFact(fact) && TrustworthyFact(fact')
    ensures fact.EffectKey() == fact'.EffectKey()
       <==> fact.normalizedType == fact'.normalizedType && fact.providerObjectId == fact'.providerObjectId
  {
    TypesHaveNoColon();
    KeyReadsBack(fact, fact');
  }

  lemma TypesHaveNoColon()
    ensures forall kind | kind in [EVENT_CAPTURED, EVENT_REFUNDED, EVENT_CHARGEBACK, EVENT_CHARGEBACK_REVERSED] ::
              ':' !in kind
  {
  }

  /** Type and object id can be read back from an effect key, where the type has no colon. */
  lemma KeyReadsBack(fact: ProviderFact, fact': ProviderFact)
    requires ':' !in fact.normalizedType && ':' !in fact'.normalizedType
    ensures fact.EffectKey() == fact'.EffectKey()
       <==> fact.normalizedType == fact'.normalizedType && fact.providerObjectId == fact'.providerObjectId
  {
    if fact.EffectKey() == fact'.EffectKey() {
      var a, b := fact.normalizedType, fact'.normalizedType;
      var left, right := fact.EffectKey(), fact'.EffectKey();
      assert left[|a|] == ':' && right[|b|] == ':';
      assert forall i | 0 <= i < |a| :: left[i] == a[i];
      assert forall i | 0 <= i < |b| :: right[i] == b[i];
      assert |a| == |b|;
      assert a == left[..|a|] && b == right[..|b|];
      assert fact.providerObjectId == left[|a| + 1..] && fact'.providerObjectId == right[|b| + 1..];
    }
  }
}

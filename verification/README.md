# Snaplink: verified models of its protocols

A Dafny model of the parts of Snaplink whose correctness depends on more than one function at a time, with
proofs over every input, every interleaving and every run.

**The Stripe payment adapter** (`cmd/snaplink-stripe-adapter`). Webhooks, relay workers and checkout handlers share
one database.

- `Model`, `Database` – the rows, and each store method as one atomic step on values.
- `AdapterStore` – the store as a class over three mutable tables; its methods follow the Go code and SQL
  statement by statement and are proved to take those steps.
- `StripeSignature`, `ProviderFacts`, `Delivery`, `CheckoutKeys`, `Decimal`, `Text` – the signature header, event
  parsing, order checks and backoff, idempotency keys, and the text checks they need.
- `Protocol` – the state machine: one action is one store call, one call to Billing or Stripe, or the passing of
  time; any worker or handler may stop between two actions. The `History` part of a world only records.
- `RelayWorker`, `CheckoutHandler` – `process` and `handleCheckout` as methods on objects, proved to be stretches of a
  protocol run, so the run theorems are about them.
- `Evolution` (how rows may change), `Invariants`, `InvariantSteps`, `CheckoutSteps`, `Runs` – what every step keeps.
- `RelayTheorems`, `CheckoutTheorems`, `SessionAgreement`, `ResolutionLaws`, `FirstWriter` – the results; `ReachableCases`
  – runs that reach the adapter's two surprises.

**Source-binding reconciliation** (`cmd/snaplink-billing/catalog.go`). `SourceBindings` has the compare-and-swap save of
both stores and the in-place stable sort; `BindingReconciliation` one process applying a file to a mutable store;
`Replicas` any number of processes applying it at once, one store read or write at a time.

**The OpenAPI schema registry** (`cmd/gensdk`). `Schema` defines what a schema node means and which names a document
reaches, with no reference to a registry; `SchemaRegistry` is the memoising depth-first walk that writes into a
shared map; `Operations` drives it and must not depend on the order in which Go walks a map. `Strings` and
`Sorting` carry the ordering arguments.

**Path templates** (`cmd/gensdk/gen_ts.go`, `gen_py_types.go`). `PathTemplates` parses a path and has the two generators;
`TypeScriptMeaning` and `PythonMeaning` have interpreters of the code they emit, escapes and reserved words included
(`StringEscapes`, `TemplateMeaning`), and say for which paths the emitted code sends the path with its arguments;
`PercentEncoding` has the two encoders the code calls, and `PathClients` says when both clients send the same path.

**Configuration** (`config`). `ConfigTree` says what merging a chain of sources and resolving secrets mean on trees;
`ConfigMemory` and `ConfigLoader` carry both out in place, over an explicit memory in which maps hold references
and `deepMerge` adopts maps of its sources.

**Lease arithmetic** (`cmd/snaplink-billing/quota_relay.go`) is in `LeaseCover`, on 64-bit integers.

`dafny verify dfyconfig.toml` checks everything.

## What is assumed

- A store method is atomic: each is one UPDATE or one serializable transaction under row locks. `ResolveClaim` reads
  the clock twice, so its step has two times.
- One monotone clock serves the database and the processes.
- SHA-256 of key material and of requests is a free constructor, hence injective. HMAC is an arbitrary function; where
  it matters its length is 32.
- Billing answers anything of the right type. Stripe returns any session that passes `validCheckoutSession`.
- Secret resolvers are functions of their reference.

## Where the code and its comments or expectations part

- `payment_intent_id` is not written once: saving a session without a payment intent erases one that a webhook had
  filled in. `ResolutionLaws.SaveErasesIntent` says exactly when.
- A metadata order that is not in the database ends as `sql.ErrNoRows`, which is retried and not quarantined.
  `InvariantSteps.ResolveErrors` says exactly when.
- A path with a backtick, a backslash, a carriage return or `${` outside its holes is not what the emitted TypeScript
  sends; nor is one with a parameter that becomes a reserved word (`class_`), or with two that become the same variable
  (`a_b` and `aB`). `TypeScriptMeaning.TsExprKeepsMeaning` has the exact condition, and
  `PythonMeaning.PyExprKeepsMeaning` that of the Python form, which differs.
- The two clients do not send the same path for the same arguments: encodeURIComponent encodes a slash and keeps
  `! * ' ( )`, urllib.parse.quote keeps the slash and encodes those. `PathClients.BothFormsAgree` says exactly for which
  arguments they agree, `PathClients.SlashTellsApart` shows a difference.
- A configuration source may hold one map in two places, as YAML aliases make it (`config/source.go:185-191`). A later
  source that sets a key below one of them sets it below the other too: what comes out is the merged tree exactly if
  that source says nothing new there (`ConfigLoader.Loader.MergeUnderAlias`). `ConfigLoader.Loader.AliasLeaks` is an
  input where it is not.
- A file that enables a binding before it disables the old one of the same client could not be applied in file order;
  `BindingReconciliation.HandoverNeedsDisablesFirst` shows that the sort is what makes the handover work.
- An ack and a nack never test `quarantined_at`, and yet no row is both delivered and quarantined: the fence
  suffices (`RelayTheorems.ClaimsAreConserved`).

## Model

| member | source | states |
|---|---|---|
| RelayTheorems.DeliveriesAreTrusted | cmd/snaplink-stripe-adapter/worker.go:88-200 | In every run, every call to Billing's Deliver stems from a signed webhook that parsed and was stored, and from a claim that passed its fence when it was resolved; tenant, order, currency and provider agree between fact, mapping and the order read; captures carry exactly both amounts, other amounts are positive and at most both; refunds and chargebacks saw a captured order, reversals enough refunded |
| RelayTheorems.RowsWereAdmitted | cmd/snaplink-stripe-adapter/http.go:82-126 | Every inbox row of every run holds the fact of an earlier webhook whose signature was accepted and which parsed at that moment |
| RelayTheorems.DeliveriesWereResolved | cmd/snaplink-stripe-adapter/worker.go:88-130 | Whatever a worker is about to deliver or has delivered is the answer of an earlier ResolveClaim of its own claim |
| RelayTheorems.CheckedIsTrusted | cmd/snaplink-stripe-adapter/worker.go:151-200 | Parsed fact, resolved delivery and passed order check together give all the agreements of a trusted delivery |
| RelayTheorems.GenerationsAreHandedOutOnce | cmd/snaplink-stripe-adapter/store.go:140-176 | No two claims of a run have the same event and generation, and the generations handed out for an event are exactly 1 up to the row's claim generation |
| RelayTheorems.AtMostOneLiveClaim | cmd/snaplink-stripe-adapter/store.go:228-240 | Two claims of one event whose fences both hold now are the same claim |
| RelayTheorems.LostClaimsStayPowerless | cmd/snaplink-stripe-adapter/store.go:369-417 | A claim once superseded, expired or settled never regains its fence, and from then on ack, nack, quarantine and resolve with it change nothing and answer claim lost |
| RelayTheorems.NoEventIsLost | cmd/snaplink-stripe-adapter/store_errors.go:95-161 | In every reachable world the effect key of each receipt has exactly one inbox row, and every row neither delivered nor quarantined is claimable at the latest after the longest lease and 300 seconds |
| RelayTheorems.ClaimsAreConserved | cmd/snaplink-stripe-adapter/store.go:386-417 | Attempts, plus one each for delivered, quarantined and a live claim, never exceed the claim generation; no row is both delivered and quarantined; a quarantine code is a permanent one; a delivered row was accepted by Billing |
| RelayTheorems.SettledRowsNeverChange | cmd/snaplink-stripe-adapter/store.go:386-417 | A delivered or quarantined row stays as it is, in every field, for the rest of the run |
| RelayTheorems.RetriesAgree | cmd/snaplink-stripe-adapter/store.go:193-226 | Any two Deliver calls for one event, even across rotations and other workers, carry the same type, currency, amount and time; with metadata also the same order, with a payment intent the same provider order id |
| RelayTheorems.ResolutionsRepeat | cmd/snaplink-stripe-adapter/store.go:193-226 | After a resolution that committed, answer seen or lost, resolving the event again at any later point of a run, by any claim, with no rotation or save of its checkout in between, gives the same delivery and changes no mapping |
| RelayTheorems.MappingsAreUnique | cmd/snaplink-stripe-adapter/stripe_adapter.sql:40-45 | In every reachable world non-empty session, payment intent and charge ids and idempotency keys occur once |
| RelayTheorems.MappingEvolves | cmd/snaplink-stripe-adapter/store.go:360-384 | Over any stretch of a run a mapping keeps its identity, amounts and generation order and only fills in or, by a save, replaces provider ids |
| RelayTheorems.SameEventSameFact | cmd/snaplink-stripe-adapter/store.go:140-176 | All claims of one event carry the same fact |
| ResolutionLaws.ResolutionIsConservative | cmd/snaplink-stripe-adapter/store.go:193-226 | A failed resolution changes nothing; a successful one passed its fence, touches one mapping and one inbox row, only fills in empty payment intent and charge ids, keeps both unique, and delivers what the mapping then says |
| ResolutionLaws.ResolutionIsIdempotent | cmd/snaplink-stripe-adapter/store.go:193-226 | Resolving again right after a successful resolution gives the same answer and the same tables |
| ResolutionLaws.BoundResolvesAgain | cmd/snaplink-stripe-adapter/store.go:242-313 | Once a fact's ids are bound to a mapping, every later claim of it resolves to that mapping and writes nothing to it |
| ResolutionLaws.BoundIsSoleMatch | cmd/snaplink-stripe-adapter/store.go:242-313 | A bound mapping is the only one a fact can match, by metadata, payment intent or charge |
| ResolutionLaws.BindNeverClashes | cmd/snaplink-stripe-adapter/store.go:350-384 | Writing a fact's ids into its only match never violates a unique index |
| ResolutionLaws.SaveErasesIntent | cmd/snaplink-stripe-adapter/store.go:59-94 | A save changes a non-empty payment intent exactly when the row is incomplete and the session has none |
| ReachableCases.ErasureIsReachable | cmd/snaplink-stripe-adapter/store.go:77-82 | For every order whose payment event comes in before its session is saved, a run binds the event's payment intent and the save that follows erases it |
| ReachableCases.UnknownOrderIsRetried | cmd/snaplink-stripe-adapter/worker.go:97-106 | For every event whose metadata names an unknown order, a run ends with its row parked for another attempt under the database category, neither quarantined nor delivered |
| ReachableCases.ErasureCanBeSet | cmd/snaplink-stripe-adapter/store.go:77-82 | Concrete order, event and session that meet the conditions of that run |
| Evolution.EvolutionComposes | cmd/snaplink-stripe-adapter/store.go:59-417 | The history relation on tables (facts fixed, generations and marks only grow, mappings fill in) is transitive |
| Evolution.ResolveEvolves | cmd/snaplink-stripe-adapter/store.go:193-226 | Resolving keeps the table invariants and the history relation |
| Evolution.SaveEvolves | cmd/snaplink-stripe-adapter/store.go:59-94 | Saving a session keeps the table invariants and the history relation |
| Evolution.ReserveEvolves | cmd/snaplink-stripe-adapter/store_errors.go:24-93 | Reserving, with rotation, keeps the table invariants and the history relation |
| Evolution.InsertEvolves | cmd/snaplink-stripe-adapter/store_errors.go:95-161 | Inserting keeps the table invariants and the history relation |
| InvariantSteps.ResolveErrors | cmd/snaplink-stripe-adapter/store.go:193-268 | Which errors a resolution can end in, and that no-rows means exactly: fence held, metadata present, order unknown; and is retried |
| InvariantSteps.PermanentCategories | cmd/snaplink-stripe-adapter/worker.go:202-226 | Every failure that leads to a quarantine has a category the quarantine column admits |
| InvariantSteps.IntakeStep | cmd/snaplink-stripe-adapter/store_errors.go:95-161 | Every action keeps receipts and inbox rows matched: each receipt's effect has its row, each row its receipt, effects occur once, facts are parsed ones |
| InvariantSteps.ClaimsStep | cmd/snaplink-stripe-adapter/store.go:140-176 | Every action keeps the ledger of claims: issued generations are distinct and complete |
| InvariantSteps.PromptStep | cmd/snaplink-stripe-adapter/worker.go:228-249 | Every action keeps each pending row claimable in bounded time |
| InvariantSteps.TasksStep | cmd/snaplink-stripe-adapter/worker.go:88-130 | Every action keeps what workers know true: resolved deliveries still agree with their mapping, checked orders still pass |
| InvariantSteps.CallsStep | cmd/snaplink-stripe-adapter/worker.go:115-130 | Every action keeps all past calls justified and every delivered row confirmed by an accepted call |
| Runs.RunKeepsInv | cmd/snaplink-stripe-adapter/worker.go:50-130 | The full invariant holds in every world of every run |
| Runs.RunEvolves | cmd/snaplink-stripe-adapter/store.go:59-417 | Any two worlds of a run are related by the history relation |
| RelayWorker.WorkersFollowTheProtocol | cmd/snaplink-stripe-adapter/worker.go:88-130 | One claim driven to its end, with any failures and losses outside, is a continuation of a protocol run |
| RelayWorker.BatchesFollowTheProtocol | cmd/snaplink-stripe-adapter/store.go:140-176 | Claiming a batch in one statement is a sequence of single-row claims of a protocol run, and every claim is on record |
| RelayWorker.RelayWorker.Claim | cmd/snaplink-stripe-adapter/worker.go:65-86 | Takes at most the batch and the free slots, of the claimable rows those first by time and id, writes exactly those rows, and takes all of them when there is room |
| RelayWorker.RelayWorker.Process | cmd/snaplink-stripe-adapter/worker.go:88-113 | Tables and calls to Billing afterwards are those of the protocol run that drives this claim to its end; the slot is freed on every path |
| RelayWorker.RelayWorker.Attempt | cmd/snaplink-stripe-adapter/worker.go:91-93 | One resolve transaction, whose answer may be lost after it took effect |
| RelayWorker.RelayWorker.DeliverTo | cmd/snaplink-stripe-adapter/worker.go:115-130 | Calls Billing once if binding and order check allow it and not at all otherwise, with the failure to settle by |
| RelayWorker.RelayWorker.Conclude | cmd/snaplink-stripe-adapter/worker.go:97-112 | Ack, nack, quarantine or nothing, as the protocol has it for the outcome |
| FirstWriter.InboxIsFirstWriterWins | cmd/snaplink-stripe-adapter/store_errors.go:95-161 | After any sequence of arrivals the receipts are the first arrival of each event id and the inbox the first new event of each effect, and nothing else |
| FirstWriter.AnswersTellTheFirstWriter | cmd/snaplink-stripe-adapter/store_errors.go:95-117 | The answer is inserted exactly for the first of an effect, effect replay exactly for a new event of a known effect |
| FirstWriter.RepeatsChangeNothing | cmd/snaplink-stripe-adapter/store_errors.go:119-141 | A repeated event id changes no table; it is a replay with the first arrival's digest and a conflict with any other |
| FirstWriter.EffectKeyInjective | cmd/snaplink-stripe-adapter/store_errors.go:143-161 | For facts as the parser makes them, effect keys are equal exactly when normalized type and provider object are |
| FirstWriter.KnownEvent | cmd/snaplink-stripe-adapter/store_errors.go:119-141 | An event id has a receipt exactly when it arrived before |
| FirstWriter.KnownEffect | cmd/snaplink-stripe-adapter/store_errors.go:143-161 | An effect has a row exactly when an earlier new event had it |
| AdapterStore.AdapterStore.InsertInbox | cmd/snaplink-stripe-adapter/store_errors.go:95-117 | Receipt and inbox row are written together or not at all, with the outcomes of the insert step |
| AdapterStore.AdapterStore.InsertEventReceipt | cmd/snaplink-stripe-adapter/store_errors.go:119-141 | A new id is recorded; a known one is never overwritten, and is a replay or a conflict by its digest |
| AdapterStore.AdapterStore.ClaimInbox | cmd/snaplink-stripe-adapter/store.go:140-176 | Picks claimable unlocked rows up to the limit, each before every row left out by time and id, all of them if fewer, and claims exactly those |
| AdapterStore.BatchIsDetermined | cmd/snaplink-stripe-adapter/store.go:146-153 | Two selections of the same size from the same rows hold the same rows: the ordering leaves no choice |
| AdapterStore.AdapterStore.Oldest | cmd/snaplink-stripe-adapter/store.go:146-153 | Finds the row that precedes all candidates by time and id |
| AdapterStore.UnclaimedRowsStay | cmd/snaplink-stripe-adapter/store.go:140-176 | Rows outside the batch are untouched by the batch update |
| AdapterStore.AdapterStore.ResolveClaim | cmd/snaplink-stripe-adapter/store.go:193-226 | Takes the resolve step: fence, one matching mapping, fact validated, ids merged, mapping and row written under a second fence |
| AdapterStore.AdapterStore.ResolveCheckoutMapping | cmd/snaplink-stripe-adapter/store.go:242-268 | Succeeds exactly when one mapping matches by metadata, payment intent or charge, whatever the order of the candidates; which error it gives otherwise |
| AdapterStore.ChooseMapping | cmd/snaplink-stripe-adapter/store.go:302-313 | Not found exactly for no candidates; a candidate exactly when all agree on the order |
| AdapterStore.CandidatesAreMatches | cmd/snaplink-stripe-adapter/store.go:242-313 | The candidate list, in any order and with repetitions, decides as the set of matching orders does |
| AdapterStore.AdapterStore.MappingByProviderId | cmd/snaplink-stripe-adapter/store.go:279-293 | Finds the one mapping with that id in the column, or none |
| AdapterStore.AdapterStore.PersistResolvedMapping | cmd/snaplink-stripe-adapter/store.go:360-384 | Mapping and inbox row are written together under the fence, or neither |
| AdapterStore.AdapterStore.AckInbox | cmd/snaplink-stripe-adapter/store.go:386-393 | Marks exactly the fenced row delivered, or changes nothing and answers claim lost |
| AdapterStore.AdapterStore.NackInbox | cmd/snaplink-stripe-adapter/store.go:395-407 | Re-parks exactly the fenced row after the delay with one more attempt, or changes nothing |
| AdapterStore.AdapterStore.QuarantineInbox | cmd/snaplink-stripe-adapter/store.go:409-417 | Quarantines exactly the fenced row, or changes nothing |
| AdapterStore.AdapterStore.ReserveCheckout | cmd/snaplink-stripe-adapter/store_errors.go:24-49 | Takes the reserve step: insert if absent, compare, rotate if expired, all or nothing |
| AdapterStore.AdapterStore.InsertCheckoutReservation | cmd/snaplink-stripe-adapter/store_errors.go:51-64 | The row's constraints, then no change for a known order, then the unique indexes decide |
| AdapterStore.AdapterStore.RotateExpiredCheckout | cmd/snaplink-stripe-adapter/store_errors.go:73-93 | Only a complete and expired row moves to the next generation, with an empty session |
| AdapterStore.AdapterStore.SaveCheckout | cmd/snaplink-stripe-adapter/store.go:59-94 | Writes only an incomplete row of the reserved generation; a complete one is returned if it holds the same session |
| CheckoutTheorems.ResponsesAgree | cmd/snaplink-stripe-adapter/http.go:157-196 | In every run all 200 and 201 answers for one order and generation carry the same session |
| CheckoutTheorems.SessionsAreWrittenOnce | cmd/snaplink-stripe-adapter/store.go:59-103 | A stored session never changes within its generation, and a later generation means it has expired |
| CheckoutTheorems.GenerationsAreDisjoint | cmd/snaplink-stripe-adapter/store_errors.go:73-93 | Every session handed to a client had expired before any session of a later generation of that order was created |
| CheckoutTheorems.OpenedAfterExpiry | cmd/snaplink-stripe-adapter/store_errors.go:73-93 | Every earlier generation of a reached one had a session stored, and it expired before the later one was opened |
| CheckoutTheorems.StaleSavesNeverWrite | cmd/snaplink-stripe-adapter/store.go:59-94 | In every run, a save of a superseded generation is a conflict that writes nothing, whatever the session; a save that writes is the first of its generation, and one that succeeds afterwards returns the stored session |
| CheckoutTheorems.KeysMatchGenerations | cmd/snaplink-stripe-adapter/store_errors.go:73-93 | Every reachable row's idempotency key is the one of its own generation, and rows never clash |
| CheckoutTheorems.KeysAreSentForOneSlot | cmd/snaplink-stripe-adapter/store_errors.go:178-185 | At any two moments of a run, equal idempotency keys mean the same order and generation |
| CheckoutTheorems.ReservationsFailOnMismatchOnly | cmd/snaplink-stripe-adapter/store_errors.go:24-71 | In every reachable world a reservation of a payable order fails exactly for a bad currency or a row with another currency, amount or request; a unique index never stops it |
| SessionAgreement.ConcurrentSavesAgree | cmd/snaplink-stripe-adapter/store.go:59-103 | In every run in which Stripe made one session per idempotency key, a save of the current generation always succeeds once one has, writes nothing and returns that session; the first fails exactly if another payment intent was bound or an id belongs to another order |
| SessionAgreement.RunIsBacked | cmd/snaplink-stripe-adapter/http.go:157-182 | In every reachable world each stored session is one Stripe created under its generation, with its payment intent, and each handler holds its generation's key |
| CheckoutSteps.CheckoutStep | cmd/snaplink-stripe-adapter/store_errors.go:24-93 | Every action keeps the ledger of generations: opened in order, each after its predecessor expired, sessions stored once, answers backed by what is stored |
| CheckoutSteps.ReserveOutcomes | cmd/snaplink-stripe-adapter/store_errors.go:24-93 | A reservation leaves a known order's row alone or rotates it after expiry by exactly one generation |
| CheckoutSteps.SaveOutcomes | cmd/snaplink-stripe-adapter/store.go:59-94 | A successful save ends in a complete row of the reserved generation, the old one if it was complete |
| CheckoutHandler.HandlersFollowTheProtocol | cmd/snaplink-stripe-adapter/http.go:133-182 | One request driven to its end, with any failures outside, is a continuation of a protocol run |
| CheckoutHandler.CheckoutHandler.HandleCheckout | cmd/snaplink-stripe-adapter/http.go:133-182 | Tables afterwards are those of the protocol run of this request, and it answers with a session exactly when and as that run records one |
| CheckoutHandler.AfterRead | cmd/snaplink-stripe-adapter/http.go:157-196 | An existing session is returned only while available and nothing is written; otherwise exactly one save happens, and its row is the answer |
| CheckoutKeys.KeysNeverCollide | cmd/snaplink-stripe-adapter/store_errors.go:178-185 | For identities without NUL the keys of two (tenant, order, generation) triples are equal exactly when the triples are, generation 1 without suffix included |
| CheckoutKeys.SuffixInjective | cmd/snaplink-stripe-adapter/store_errors.go:178-185 | The part of the key material behind the tenant determines order and generation |
| Decimal.PrintInjective | cmd/snaplink-stripe-adapter/store_errors.go:178-185 | Decimal suffixes of different generations differ |
| Decimal.ReadPrint | cmd/snaplink-stripe-adapter/webhook.go:297-302 | Reading a printed number gives it back |
| CheckoutSteps.IdentityIsNulFree | cmd/snaplink-stripe-adapter/config.go:362-372 | An accepted identity has no NUL, so keys of accepted identities never collide |
| StripeSignature.HeaderRoundTrip | cmd/snaplink-stripe-adapter/webhook.go:87-122 | Parsing a printed header gives back its timestamp and its one MAC |
| StripeSignature.PrintedHeaderAcceptedIffTimely | cmd/snaplink-stripe-adapter/webhook.go:64-85 | For every secret list with the signer's secret, a printed header is accepted exactly when its timestamp is within 300 seconds of now |
| StripeSignature.ParseStripeSignature | cmd/snaplink-stripe-adapter/webhook.go:87-122 | The loop over the parts accepts exactly headers in bounds with one timestamp and one to the maximum number of well-formed MACs |
| StripeSignature.CollectParts | cmd/snaplink-stripe-adapter/webhook.go:94-121 | No malformed part, one timestamp, MACs within bounds: exactly then a signature, with all MACs in order |
| StripeSignature.VerifyStripeSignature | cmd/snaplink-stripe-adapter/webhook.go:64-85 | Accepts exactly a parsed, timely header one of whose MACs some secret produces |
| StripeSignature.MatchSecrets | cmd/snaplink-stripe-adapter/webhook.go:74-84 | True exactly when some secret's MAC is among the signatures |
| StripeSignature.HexRoundTrip | cmd/snaplink-stripe-adapter/webhook.go:297-302 | Hex decoding undoes hex encoding |
| StripeSignature.PrintedHeaderIsShort | cmd/snaplink-stripe-adapter/webhook.go:87-93 | A printed header never exceeds the length limit |
| ProviderFacts.FactsThatParse | cmd/snaplink-stripe-adapter/webhook.go:124-248 | A fact is the parse of some event exactly when it meets the stated conditions on kinds, ids, amounts, currency, metadata and time |
| ProviderFacts.EventReadsBack | cmd/snaplink-stripe-adapter/webhook.go:124-248 | Every such fact is read back from an event written for it |
| ProviderFacts.ParsedFactIsParseable | cmd/snaplink-stripe-adapter/webhook.go:124-248 | Everything the parser accepts meets those conditions |
| ProviderFacts.ParsedFactIsTrustworthy | cmd/snaplink-stripe-adapter/webhook.go:124-167 | An accepted event matches the account binding, is not from beyond the tolerance, is no failed payment or unfinished refund, and its fact is fit to store |
| Delivery.OrderCheckDecides | cmd/snaplink-stripe-adapter/worker.go:151-200 | The check passes exactly when the order matches and is ready; not ready but matching is retried, everything else quarantined |
| Delivery.DeliveryBackoff | cmd/snaplink-stripe-adapter/worker.go:228-249 | The doubling loop with its cap computes the closed form |
| Delivery.BackoffRange | cmd/snaplink-stripe-adapter/worker.go:228-249 | The delay is between 2^min(attempt, 8) seconds and 300 seconds, also truncated to seconds |
| Delivery.BackoffGrows | cmd/snaplink-stripe-adapter/worker.go:228-249 | Below attempt 8 every delay is shorter than every delay of the next attempt, also truncated to seconds |
| Replicas.ReplicasConverge | cmd/snaplink-billing/catalog.go:67-92 | In every interleaving of any number of processes every row is always as before or as in the file; if the store fits the file no process ever fails; a process that finishes did so with the whole file in the store, and only if the store fitted it |
| Replicas.NeverTwoEnabled | cmd/snaplink-billing/catalog.go:75-91 | In every state of every run each client has at most one enabled binding, whether or not the store fitted the file |
| Replicas.GuardNeverFires | cmd/snaplink-billing/catalog.go:139-171 | No pending save of a fitting file meets another enabled binding of its client |
| Replicas.WritesAreOrderly | cmd/snaplink-billing/catalog.go:188-213 | Each step of a run writes at most one row, one of the file, raising its revision by exactly one with identity unchanged |
| Replicas.RunsAreBounded | cmd/snaplink-billing/catalog.go:86-91 | A run of n processes on a file of m rows has at most n * (4m + 4) steps |
| Replicas.ReplicasFinish | cmd/snaplink-billing/catalog.go:67-92 | Every run is that short, and when nothing can move any more and the store fitted the file, every process has finished without error |
| Replicas.ActiveReplicasCanMove | cmd/snaplink-billing/catalog.go:139-171 | A process that has neither finished nor failed can always take a step |
| Replicas.SavingStep | cmd/snaplink-billing/catalog.go:139-171 | A save, however stale the read before it, keeps the invariant: it succeeds, or it lost the race to another process that wrote the same row and the re-read sees that |
| BindingReconciliation.SourceBindingStore.ApplySourceBindings | cmd/snaplink-billing/catalog.go:67-92 | Succeeds exactly when file and store fit (row by row: already there, or next revision with the client's enabled bindings listed); leaves each row as before or as in the file, and on success all of the file |
| BindingReconciliation.SourceBindingStore.ApplySourceBinding | cmd/snaplink-billing/catalog.go:139-171 | Succeeds exactly when the row is already there or is the next revision with no other enabled binding, and then the store has it; otherwise the store is unchanged |
| BindingReconciliation.SourceBindingStore.ApplyInOrder | cmd/snaplink-billing/catalog.go:86-91 | The loop over the sorted rows succeeds exactly when the store fits the file |
| BindingReconciliation.SourceBindingStore.FindSourceBinding | cmd/snaplink-billing/catalog.go:173-186 | The row with the id if it belongs to the client, else none |
| BindingReconciliation.SourceBindingStore.ValidateBoundClients | cmd/snaplink-billing/catalog.go:215-239 | Passes exactly when every client of the file has at most one enabled binding in the store |
| BindingReconciliation.SourceBindingStore.CountEnabled | cmd/snaplink-billing/catalog.go:227-236 | The count of a client's enabled bindings exceeds one exactly when two different ones are enabled |
| BindingReconciliation.ExpectedSourceRevision | cmd/snaplink-billing/catalog.go:188-201 | Zero for a first revision, the current one for its successor with the same identity, an error otherwise |
| BindingReconciliation.ExpectedWhereApplies | cmd/snaplink-billing/catalog.go:188-201 | A row that is the next revision always has an expected revision |
| BindingReconciliation.SaveWhereApplies | cmd/snaplink-billing/catalog.go:139-171 | With the expected revision of what was read, a save succeeds exactly where the row applies |
| BindingReconciliation.NoOtherEnabled | cmd/snaplink-billing/catalog.go:75-91 | Once the rows before an enabled row are in place, no other binding of its client is enabled, whatever later rows are doing |
| BindingReconciliation.NextRowApplies | cmd/snaplink-billing/catalog.go:86-91 | In every such state the next row applies |
| BindingReconciliation.ProgressStops | cmd/snaplink-billing/catalog.go:86-91 | A row that does not apply in turn means the store never fitted the file |
| BindingReconciliation.SortingIsNeutral | cmd/snaplink-billing/catalog.go:77-85 | Sorting changes neither validity nor fit nor what it is to have applied the file |
| BindingReconciliation.HandoverNeedsDisablesFirst | cmd/snaplink-billing/catalog.go:75-85 | For every handover of a client, the new binding does not apply first, and yet the file fits and is sorted to disable first |
| BindingReconciliation.SourceBindingStore.SaveSourceBinding | domains/metering/usageledger/memory_binding.go:15-38 | Takes the compare-and-swap step, with its order of errors |
| BindingReconciliation.SourceBindingStore.HasOtherEnabledClient | domains/metering/usageledger/memory_binding.go:55-62 | True exactly when another binding of the client is enabled |
| BindingReconciliation.SourceBindingStore.ListByClient | domains/metering/usageledger/memory_binding.go:64-80 | All bindings of the client, each once, by ascending id, and no others |
| SourceBindings.StoresAgree | infrastructure/postgres/usageledger/bindings.go:15-93 | The SQL store saves as the in-memory store does, answer and rows, on every consistent store |
| SourceBindings.SavesAreOrderly | domains/metering/usageledger/memory_binding.go:15-48 | A save keeps the store consistent, touches one row, changes nothing on error, and on success raises the revision by one from the expected one with identity unchanged |
| SourceBindings.ValidateFile | cmd/snaplink-billing/catalog.go:117-137 | Accepts exactly files of valid rows with distinct ids and at most one enabled row per client |
| SourceBindings.Validate | domains/metering/usageledger/source_binding.go:39-49 | Accepts exactly well-formed bindings |
| SourceBindings.ValidateDimensions | domains/metering/usageledger/source_binding.go:90-106 | Accepts exactly at most 64 distinct well-formed names |
| SourceBindings.SortDisablesFirst | cmd/snaplink-billing/catalog.go:77-85 | In place, the array becomes its disabled rows followed by its enabled ones, each in their old order |
| SourceBindings.OrderedIsDisablesFirst | cmd/snaplink-billing/catalog.go:77-85 | A list in order is left alone, so the specification of the sort is its fixed point |
| SourceBindings.DisablesFirstKeepsFile | cmd/snaplink-billing/catalog.go:77-85 | The sorted file has the same rows, in order, and stays compatible |
| SchemaRegistry.Registry.Resolve | cmd/gensdk/schema.go:85-97 | On every document, cyclic or dangling references included, resolution terminates, gives the pure meaning, keeps every finished name, adds only reachable names and leaves a placeholder only where a caller is at work |
| SchemaRegistry.Registry.ResolveRoot | cmd/gensdk/schema.go:80-97 | After a top-level call the map is exactly the reachable names of all roots so far, each with its pure resolution, and no placeholder |
| SchemaRegistry.Registry.ResolveRef | cmd/gensdk/schema.go:103-111 | A reference resolves to the name behind its last slash, and that name is in the map |
| SchemaRegistry.Registry.EnsureNamed | cmd/gensdk/schema.go:145-159 | After it the name is in the map, and every name added is reachable from it; unresolved names decrease before it recurses |
| SchemaRegistry.Registry.ResolveVariants | cmd/gensdk/schema.go:122-138 | The loop over variants gives their meanings in order |
| SchemaRegistry.Registry.ResolvePrimitive | cmd/gensdk/schema_primitive.go:15-34 | The meaning of a node without references and composition |
| SchemaRegistry.Registry.ResolveObjectLike | cmd/gensdk/schema_primitive.go:44-52 | The meaning of an object: fields, map or empty |
| SchemaRegistry.Registry.ResolveFields | cmd/gensdk/schema_primitive.go:61-79 | Fields in ascending order of name with their meanings |
| SchemaRegistry.MeaningIsUnique | cmd/gensdk/schema.go:145-159 | For given roots there is one correct map, so the order of resolution cannot matter |
| SchemaRegistry.ClosedIsMeaning | cmd/gensdk/schema.go:145-159 | A map of resolved names, closed under references, that has the roots and only reachable names is that map |
| SchemaRegistry.RootsAdded | cmd/gensdk/schema.go:85-97 | Resolving more roots on a correct map gives the correct map of all |
| SchemaRegistry.GrowsThrough | cmd/gensdk/schema.go:145-159 | What a body's references add is reachable from the name itself |
| SchemaRegistry.OpenName | cmd/gensdk/schema.go:145-159 | Writing the placeholder opens one name and settles nothing else; a dangling name stays settled |
| SchemaRegistry.CloseName | cmd/gensdk/schema.go:145-159 | Overwriting the placeholder closes it |
| Schema.ClosedContainsReachable | cmd/gensdk/schema.go:145-159 | A set closed under references that has the roots has everything reachable |
| Schema.ReachThrough | cmd/gensdk/schema.go:145-159 | What is reachable from a name's references is reachable from the name |
| Schema.ScanFirstLine | cmd/gensdk/schema_primitive.go:121-128 | The text up to the first line break |
| Schema.FirstLineIsUnique | cmd/gensdk/schema_primitive.go:121-128 | Being the first line determines it |
| Schema.LastPathSegment | cmd/gensdk/schema_primitive.go:132-138 | The text behind the last slash |
| Schema.LastSegmentIsUnique | cmd/gensdk/schema_primitive.go:132-138 | Being the last segment determines it |
| Schema.StringSlice | cmd/gensdk/schema_primitive.go:83-95 | The strings of a list, in order |
| Operations.ExtractionIsDeterministic | cmd/gensdk/operations.go:110-132 | Two correct extractions of one document, in whatever order they walked it, give the same operations and the same named types |
| Operations.Extract | cmd/gensdk/operations.go:110-132 | Whatever order paths are walked in: exactly the allowed operations, sorted by tag, path and verb, and exactly the names they reach |
| Operations.WalkPaths | cmd/gensdk/operations.go:113-121 | Visits every path and verb once, in an arbitrary order |
| Operations.SortOperations | cmd/gensdk/operations.go:122-130 | Ascending, with the same elements |
| Operations.PrecedesIsStrictOrder | cmd/gensdk/operations.go:122-130 | The comparison is a strict order, total on different places |
| Operations.ExtractOne | cmd/gensdk/operations.go:136-169 | The operation a place stands for, read off the document alone |
| Operations.ExtractRequestBody | cmd/gensdk/operations.go:250-263 | The body type and its form-blocked fields, read off the document alone |
| Operations.FormBlockedFields | cmd/gensdk/operations.go:272-287 | The registry lookup agrees with the document's own meaning of the type |
| Operations.DerefNamed | cmd/gensdk/operations.go:291-299 | A named type is replaced by its body in the document |
| Operations.SplitParams | cmd/gensdk/operations.go:191-217 | Path and query parameters apart, each in document order, and only their names added |
| Operations.FindResultSchema | cmd/gensdk/operations.go:304-321 | The schema of the first success response that has one |
| Operations.ResolveOption | cmd/gensdk/operations.go:250-321 | The meaning of a schema that may be missing |
| Operations.TypeNames | cmd/gensdk/operations.go:291-299 | Names at the top of a node's meaning are among its references, so looking them up never misses |
| Operations.BodyNames | cmd/gensdk/operations.go:291-299 | The same for the body of a name |
| Strings.SortedNames | cmd/gensdk/schema_primitive.go:61-79 | The names of a set in ascending order |
| Sorting.AscendingIsUnique | cmd/gensdk/operations.go:122-130 | Two ascending lists with the same elements are equal |
| PathTemplates.TsPathExpr | cmd/gensdk/gen_ts.go:173-197 | The forward cursor terminates and emits the path's text with each hole replaced by its call, in one template literal |
| PathTemplates.TsPathBody | cmd/gensdk/gen_ts.go:176-194 | The cursor's invariant: emitted so far plus the filled rest is the filled path |
| PathTemplates.PyPathExpr | cmd/gensdk/gen_py_types.go:41-68 | A quoted string without an opening brace, else the f-string of the filled path |
| PathTemplates.ParsePrints | cmd/gensdk/gen_ts.go:176-194 | Taking a path apart at its holes loses nothing of it, and no text in front of a hole opens another |
| PathTemplates.PrintParses | cmd/gensdk/gen_ts.go:176-194 | Text and holes so arranged are read back from the path they make |
| PathTemplates.CamelCase | cmd/gensdk/gen_ts.go:201-210 | Splitting, raising and joining is dropping underscores and raising what follows them |
| PathTemplates.HexReadsBack | cmd/gensdk/gen_py_types.go:41-44 | Reading fixed-width hexadecimal digits gives the number back |
| TypeScriptMeaning.TsExprKeepsMeaning | cmd/gensdk/gen_ts.go:133-210 | For every path whose holes hold names: the emitted method can be called with every choice of arguments, by parameter name, and then sends the path with their encodings, exactly when the text between the holes has no backtick, backslash, carriage return or `${`, every hole becomes a variable that is no reserved word, and no two parameters become the same one |
| TypeScriptMeaning.TsExprOfBound | cmd/gensdk/gen_ts.go:173-197 | With the variables bound to the arguments, the literal's value is the path with their encodings exactly for safe paths |
| TypeScriptMeaning.SentIffSafe | cmd/gensdk/gen_ts.go:133-197 | Given arguments are sent exactly if the path is safe and its variables can hold them |
| TypeScriptMeaning.CollisionBreaksTs | cmd/gensdk/gen_ts.go:201-210 | Different arguments for two parameters that become one variable are never sent, on any path |
| TypeScriptMeaning.CollidingPath | cmd/gensdk/gen_ts.go:201-210 | Such a path: `/{a_b}/{aB}` |
| TypeScriptMeaning.CamelOfClass | cmd/gensdk/gen_ts.go:201-210 | A parameter `class_` becomes the reserved word `class` |
| TypeScriptMeaning.TsText | cmd/gensdk/gen_ts.go:176-194 | Safe text evaluates to itself in front of a hole or the end; unsafe text never does, for what its rest is worth |
| TypeScriptMeaning.TsBackslash | cmd/gensdk/gen_ts.go:176-194 | A backslash in the text is always lost: the value has fewer backslashes or is shorter, even where it turns a hole into text |
| TypeScriptMeaning.TsHoleValue | cmd/gensdk/gen_ts.go:190-191 | An emitted hole evaluates to the encoded argument if it became a variable, and to nothing otherwise |
| TypeScriptMeaning.BacktickBreaksTs | cmd/gensdk/gen_ts.go:173-197 | No path without holes that contains a backtick is sent |
| PythonMeaning.PyExprKeepsMeaning | cmd/gensdk/gen_py_types.go:41-68 | For every path whose holes hold names and all arguments, the emitted expression evaluates to the path with their encodings exactly when the path has no opening brace, or its text has no quote, line break, null character, brace or backslash that begins an escape and its holes hold no keyword, receiver or module name |
| PythonMeaning.PyText | cmd/gensdk/gen_py_types.go:47-65 | Safe text evaluates to itself; unsafe text is an error or comes out shorter |
| PythonMeaning.PyBackslash | cmd/gensdk/gen_py_types.go:47-65 | A backslash that begins an escape makes the value shorter or the literal an error |
| PythonMeaning.QuoteReadsBack | cmd/gensdk/gen_py_types.go:41-44 | A Python string quoted by Go's %q evaluates to the original, whatever it contains |
| PythonMeaning.QuoteBreaksPy | cmd/gensdk/gen_py_types.go:41-68 | A quote in front of any hole breaks the f-string, whatever the arguments |
| PathClients.BothFormsAgree | cmd/gensdk/gen_py_types.go:41-68 | For a path safe in both languages each client sends the path with its arguments in its own encoding, and the two texts are equal exactly if no argument of the path has one of `/ ! * ' ( )` |
| PathClients.FilledAlike | cmd/gensdk/gen_ts.go:173-197 | A difference in one argument is never made up for by another |
| PathClients.SlashTellsApart | cmd/gensdk/gen_py_types.go:63 | For an argument `a/b` one client sends `/x/a%2Fb` and the other `/x/a/b` |
| PercentEncoding.EncodersAgree | cmd/gensdk/gen_py_types.go:63 | The two encoders agree on exactly the arguments without a disputed mark, whatever follows |
| PercentEncoding.BothDecode | cmd/gensdk/gen_ts.go:191 | Percent-decoding what either client sends for an argument gives the argument's UTF-8 bytes |
| PercentEncoding.SegmentsKept | cmd/gensdk/gen_ts.go:191 | An argument never adds a slash to the TypeScript path, and adds one to the Python path exactly if it holds one |
| StringEscapes.TsEscapeInside | cmd/gensdk/gen_ts.go:176-194 | No escape begun in the path's text runs into what the generator emits behind it |
| StringEscapes.PyEscapeInside | cmd/gensdk/gen_py_types.go:47-65 | The same for Python |
| ConfigTree.LeafSurvives | config/source.go:110-129 | A value is at a path of the merged tree exactly when some source has it there and no later source sets the path or puts something other than a map at a proper prefix |
| ConfigTree.LeafOfMerge | config/source.go:327-337 | The same for one merge |
| ConfigTree.RemergingTheLastSource | config/source.go:110-129 | Merging the last source once more changes nothing |
| ConfigTree.MergeAgain | config/source.go:327-337 | Merging is idempotent, on its own and after any other tree |
| ConfigTree.MergeOfNothingNew | config/source.go:327-337 | A merge changes nothing exactly if every path the source sets has its value in the destination already |
| ConfigTree.ChainCommutes | config/source.go:110-129 | If secrets resolve in every source, they resolve in the merged tree, and resolving it equals merging the resolved sources |
| ConfigTree.ResolutionCommutes | config/secrets.go:63-142 | Resolution commutes with one merge, with no condition |
| ConfigTree.MergeResolves | config/secrets.go:63-142 | Where both trees resolve, so does their merge |
| ConfigTree.ResolutionKeepsShape | config/secrets.go:63-114 | Resolution keeps which paths exist, and acts on each subtree alone |
| ConfigTree.PlainTextStays | config/secrets.go:116-142 | A text that is no reference stays as it is |
| ConfigLoader.Loader.Load | config/source.go:110-129 | For sources that share no map: succeeds exactly when every source loads and, with resolvers present, every reference of the merged tree resolves, and then the accumulator holds the merged and resolved tree |
| ConfigLoader.Loader.MergeSources | config/source.go:110-129 | The fold into one accumulator holds the merged tree, though later sources write into maps adopted from earlier ones |
| ConfigLoader.Loader.DeepMerge | config/source.go:327-337 | In place, the destination becomes the merged tree, only its own maps are written, and it ends up made of its and the source's maps |
| ConfigLoader.Loader.MergeUnderAlias | config/source.go:327-337 | Where another entry holds the map that a source's one key merges into, every entry that holds it comes to stand for the merged map; the whole stands for the merged tree exactly if all that the source says is in the map already |
| ConfigLoader.Loader.AliasLeaks | config/source.go:327-337 | `{a: m, b: m}` with `m = {k: 1}` and a source that sets `a.k` to 2 end with `b.k` 2, where the merged tree has 1 |
| ConfigLoader.Loader.MergeEntry | config/source.go:328-336 | One key of the loop: the destination has that key merged and all others as they were |
| ConfigLoader.Loader.MergeNested | config/source.go:329-333 | Merging into a nested map updates the tree through its reference |
| ConfigLoader.Loader.PutEntry | config/source.go:334-335 | A replaced or adopted value is in the tree, and later keys are not disturbed |
| ConfigLoader.Loader.ResolveMap | config/secrets.go:63-90 | In place, succeeds exactly when every reference below resolves, and then the tree is the resolved one |
| ConfigLoader.Loader.ResolveEntry | config/secrets.go:63-90 | The same for one key |
| ConfigLoader.Loader.ResolveSlice | config/secrets.go:92-114 | The same for a list |
| ConfigMemory.Frame | config/source.go:327-337 | A tree's value depends only on its own maps |
| ConfigMemory.MapAdopted | config/source.go:334-335 | Storing a reference to another tree's map grafts that tree |
| ConfigMemory.KidChanged | config/source.go:329-333 | Writing below a nested map changes the tree at that key alone |
| ConfigMemory.AllHoldersChange | config/source.go:329-333 | Writing into a map changes the value of every entry that holds it, and of no other |
| ConfigMemory.SharedMergeIsTree | config/source.go:329-333 | With a second holder, that is the merged tree exactly if the source says nothing new |
| ConfigMemory.OneMeaning | config/source.go:327-337 | A cell stands for one value at most, maps shared or not |
| LeaseCover.DeliveryLeaseCovers | cmd/snaplink-billing/quota_relay.go:257-266 | True exactly for a non-empty list of positive timeouts with lease at least twice their sum plus 2, without overflow |
| LeaseCover.OrderIsIrrelevant | cmd/snaplink-billing/quota_relay.go:257-266 | Permuting the timeouts does not change the answer |
| LeaseCover.SumOfMultiset | cmd/snaplink-billing/quota_relay.go:257-266 | The sum depends only on which timeouts there are |

## Left out

- HTTP, OAuth, tokens, JWKS, TLS, metrics, logging, health endpoints, signal handling, migrations and legacy rows: plumbing around the modelled steps.
- JSON decoding: the models start from decoded records; null entries in a bindings file and malformed JSON are not part of them.
- The URL checks of a checkout request and of a Stripe session: of a session URL only that it is not empty.
- Column length limits and the rounding of TIMESTAMPTZ; 64-bit widths outside `LeaseCover` and the signature timestamp: counters do not reach them.
- The worker's poll loop, wait group and request timeouts: a timeout is a call whose answer is lost, which the protocol has; a run of `process` need not end before its lease.
- Retries of a serialization failure: a retried transaction that did not commit changed nothing.
- RelayWorker.RelayWorker.Process: nothing else runs while the method runs; interleaving is in the runs it is a stretch of, because a method cannot be interrupted here.
- CheckoutHandler.CheckoutHandler.HandleCheckout: the same; authorization and the order lookup before it are its preconditions.
- Billing's ledger and Stripe's server.
- `applySourceBindings` with an empty path, which does nothing; the catalog of plans.
- SourceBindings.SortDisablesFirst: an insertion sort stands for the library's stable sort, which has the same result.
- Operations.SortOperations: an insertion sort for the library's sort; places are distinct, so stability is no question.
- Operations.SplitParams: required flags, descriptions and the naming of parameters are kept; the emitters that print them are not part of this model.
- The rest of the SDK generators: type printing, method signatures, runtime constants, identifier checks, snake case.
- PathTemplates.CamelCase: raises ASCII letters only; names in other scripts are not part of this model.
- PythonMeaning.QuoteReadsBack: which characters are printable is a parameter, of which only line breaks and the null character matter.
- StringEscapes.TsEscapeInside: a surrogate written as an escape has no value here, since characters are Unicode scalars; it makes the emitted literal wrong either way.
- TypeScriptMeaning.TsExprKeepsMeaning: holes hold ASCII names of letters, digits and underscores that do not begin with a digit; other holes emit code that is no variable and are not part of this model. A parameter named as another one of the method (`body`, `query`) depends on the operation and is not looked at.
- TypeScriptMeaning.BacktickBreaksTs: what follows a literal that the path's own text has ended gets no value; where such trailing text happens to be code, the real language evaluates it to something.
- PythonMeaning.QuoteBreaksPy: the same for a quote.
- PythonMeaning.PyExprKeepsMeaning: the same restriction of holes and names, and type annotations and the rest of the method are not evaluated.
- AdapterStore.AdapterStore.ClaimInbox: ids are compared by code point; the collation of the database is not part of this model.
- ConfigLoader.Loader.Load: no map occurs twice, within a source or in two of them; where one does, as after a YAML alias, merging below one place writes into the other, as `MergeUnderAlias` shows. Schema checks, strict decoding and defaults after the merge are not part of this model.
- ConfigLoader.Loader.DeepMerge: the same for the destination and the source of one merge.
- ConfigLoader.Loader.MergeSources: the same as for Load.
- ConfigLoader.Loader.MergeUnderAlias: the later source sets one entry; the map it meets there may be held by any number of entries of the same map, but not elsewhere in the tree.
- ConfigLoader.Loader.ResolveSlice: lists and the maps inside them are values, so that a list is overwritten in place and may be shared is not captured; nor is that a list or map reached twice is resolved twice, which matters where a resolved text begins with `secret://` itself.
- ConfigLoader.Loader.ResolveTable: the same for maps inside lists.
- ConfigTree.ChainCommutes: associativity of the merge is not claimed; it fails where a scalar meets a map.
- The audit relay, the quota relay loop, the reader of the audit chain, the contract router and the bounded logger: shallow, or in packages that are not modelled.

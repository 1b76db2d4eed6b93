/**
 From a decoded Stripe event to the provider fact the inbox stores (webhook.go).
 JSON decoding is left out: an undecodable payload is `data == None`.
 */
module ProviderFacts {
  import opened Wrappers
  import opened Model
  import opened Text

  /** An id field that Stripe may send absent, as a string, or as an expanded object. */
  datatype Expandable = Absent | Direct(text: string) | Expanded(objectId: string)

  /** The fields the three event objects are read through. */
  datatype StripeObject = StripeObject(
    id: string,
    objectType: string,
    amount: int,
    amountReceived: int,
    currency: string,
    status: string,
    paymentIntent: Expandable,
    charge: Expandable,       // `latest_charge` of a payment intent
    metadata: map<string, string>)

  datatype Envelope = Envelope(
    id: string,
    objectType: string,
    kind: string,
    created: int,             // Unix seconds
    liveMode: Option<bool>,
    account: Option<string>,
    apiVersion: string,
    data: Option<StripeObject>)

  datatype EventBinding = EventBinding(liveMode: bool, account: string, apiVersion: string)

  datatype ParseError = Invalid | Ignored | Unsupported

  const METADATA_TENANT := "snaplink_tenant_id"
  const METADATA_ORDER := "snaplink_order_id"
  const EVENT_SUCCEEDED := "payment_intent.succeeded"
  const EVENT_FAILED := "payment_intent.payment_failed"
  const EVENT_REFUND := "refund.created"
  const EVENT_REFUND_EDIT := "refund.updated"
  const EVENT_WITHDRAWN := "charge.dispute.funds_withdrawn"
  const EVENT_REINSTATED := "charge.dispute.funds_reinstated"

  function ExpandableId(e: Expandable): string {
    match e
    case Absent => ""
    case Direct(s) => if ValidStripeId(s) then s else ""
    case Expanded(s) => if ValidStripeId(s) then s else ""
  }

  predicate LowerLetters(s: string) {
    forall c | c in s :: 'a' <= c <= 'z'
  }

  function NormalizeCurrency(s: string): string {
    if |s| == 3 && LowerLetters(s) then
      seq(3, i requires 0 <= i < 3 => assert s[i] in s; s[i] - 'a' + 'A')
    else ""
  }

  /** Tenant and order of the metadata, both or neither. */
  function MetadataBinding(metadata: map<string, string>): OrderKey {
    var tenantId := if METADATA_TENANT in metadata then metadata[METADATA_TENANT] else "";
    var orderId := if METADATA_ORDER in metadata then metadata[METADATA_ORDER] else "";
    if ValidIdentity(tenantId) && ValidIdentity(orderId) then OrderKey(tenantId, orderId) else OrderKey("", "")
  }

  predicate ValidEventBinding(envelope: Envelope, binding: EventBinding) {
    && envelope.liveMode == Some(binding.liveMode)
    && envelope.apiVersion == binding.apiVersion
    && binding.account ==
         (if envelope.account.Some? && envelope.account.value != "" then envelope.account.value else "platform")
  }

  predicate ValidRefundStatus(status: string) {
    status in ["pending", "requires_action", "failed", "canceled", "succeeded"]
  }

  predicate ValidObject(payload: StripeObject, name: string) {
    payload.objectType == name && ValidStripeId(payload.id) && payload.amount > 0
  }

  function Fact(envelope: Envelope, normalizedType: string, payload: StripeObject, paymentIntentId: string, amount: int)
    : ProviderFact
  {
    var metadata := MetadataBinding(payload.metadata);
    ProviderFact(
      envelope.id, envelope.kind, normalizedType, payload.id, paymentIntentId, ExpandableId(payload.charge),
      metadata.tenantId, metadata.orderId, NormalizeCurrency(payload.currency),
      payload.amount, amount, envelope.created * SECOND)
  }

  function ParsePaymentIntent(envelope: Envelope, payload: StripeObject): Result<ProviderFact, ParseError> {
    if !ValidObject(payload, "payment_intent") then Err(Invalid)
    else if payload.amountReceived <= 0 || payload.amountReceived != payload.amount then Err(Invalid)
    else Ok(Fact(envelope, EVENT_CAPTURED, payload, payload.id, payload.amountReceived))
  }

  function ParseRefund(envelope: Envelope, payload: StripeObject): Result<ProviderFact, ParseError> {
    if !ValidObject(payload, "refund") then Err(Invalid)
    else if payload.status != "succeeded" then
      Err(if ValidRefundStatus(payload.status) then Ignored else Invalid)
    else Ok(Fact(envelope, EVENT_REFUNDED, payload, ExpandableId(payload.paymentIntent), payload.amount))
  }

  function ParseDispute(envelope: Envelope, payload: StripeObject): Result<ProviderFact, ParseError> {
    if !ValidObject(payload, "dispute") then Err(Invalid)
    else
      var kind := if envelope.kind == EVENT_REINSTATED then EVENT_CHARGEBACK_REVERSED else EVENT_CHARGEBACK;
      Ok(Fact(envelope, kind, payload, ExpandableId(payload.paymentIntent), payload.amount))
  }

  predicate ValidProviderFact(fact: ProviderFact) {
    && ValidStripeId(fact.providerObjectId) && fact.currency != "" && fact.providerAmountMinor > 0
    && fact.eventId != "" && fact.normalizedType != "" && fact.occurredAt != ZERO_TIME
    && !(fact.paymentIntentId == "" && fact.chargeId == "" && fact.metadataOrderId == "")
    && (fact.metadataTenantId == "" <==> fact.metadataOrderId == "")
    && fact.normalizedAmountMinor > 0
  }

  function ParseProviderFact(envelope: Envelope, binding: EventBinding, now: Time): Result<ProviderFact, ParseError> {
    if envelope.objectType != "event" || !ValidStripeId(envelope.id) || envelope.data.None?
       || !ValidEventBinding(envelope, binding) then Err(Invalid)
    else if envelope.created <= 0 || envelope.created * SECOND > now + WEBHOOK_TOLERANCE then Err(Invalid)
    else
      var payload := envelope.data.value;
      var fact :-
        if envelope.kind == EVENT_SUCCEEDED then ParsePaymentIntent(envelope, payload)
        else if envelope.kind == EVENT_FAILED then Err(Ignored)
        else if envelope.kind in [EVENT_REFUND, EVENT_REFUND_EDIT] then ParseRefund(envelope, payload)
        else if envelope.kind in [EVENT_WITHDRAWN, EVENT_REINSTATED] then ParseDispute(envelope, payload)
        else Err(Unsupported);
      if ValidProviderFact(fact) then Ok(fact) else Err(Invalid)
  }

  /** What every later stage may rely on about a fact that passed parsing. */
  predicate TrustworthyFact(fact: ProviderFact) {
    && fact.eventId != ""
    && fact.normalizedType in [EVENT_CAPTURED, EVENT_REFUNDED, EVENT_CHARGEBACK, EVENT_CHARGEBACK_REVERSED]
    && (fact.normalizedType == EVENT_CAPTURED <==> fact.eventType == EVENT_SUCCEEDED)
    && (fact.normalizedType == EVENT_CAPTURED ==> fact.paymentIntentId == fact.providerObjectId)
    && (fact.normalizedType == EVENT_CHARGEBACK_REVERSED <==> fact.eventType == EVENT_REINSTATED)
    && ValidStripeId(fact.providerObjectId)
    && fact.providerAmountMinor == fact.normalizedAmountMinor > 0
    && |fact.currency| == 3 && (forall c | c in fact.currency :: 'A' <= c <= 'Z')
    && !(fact.paymentIntentId == "" && fact.chargeId == "" && fact.metadataTenantId == "")
    && (fact.metadataTenantId == "" <==> fact.metadataOrderId == "")
  }

  /** Parsing accepts only trustworthy facts of a bound account, not dated beyond the tolerance. */
  lemma ParsedFactIsTrustworthy(envelope: Envelope, binding: EventBinding, now: Time)
    requires ParseProviderFact(envelope, binding, now).Ok?
    ensures
      var fact := ParseProviderFact(envelope, binding, now).value;
      && TrustworthyFact(fact)
      && fact.eventId == envelope.id
      && 0 < fact.occurredAt <= now + WEBHOOK_TOLERANCE
      && ValidEventBinding(envelope, binding)
      && envelope.kind != EVENT_FAILED
      && (envelope.data.Some? && (fact.normalizedType == EVENT_REFUNDED ==> envelope.data.value.status == "succeeded"))
  {
    var fact := ParseProviderFact(envelope, binding, now).value;
    var currency := envelope.data.value.currency;
    assert fact.currency == NormalizeCurrency(currency) != "";
    forall c | c in fact.currency ensures 'A' <= c <= 'Z' {
      var i :| 0 <= i < 3 && fact.currency[i] == c;
      assert currency[i] in currency;
    }
  }

  // ------------------------------------------------------- which facts there are

  predicate UpperLetters(s: string) {
    |s| == 3 && forall i | 0 <= i < |s| :: 'A' <= s[i] <= 'Z'
  }

  predicate OptionalId(s: string) {
    s == "" || ValidStripeId(s)
  }

  /** The Stripe event types each normalized type comes from. */
  predicate KindsAgree(eventType: string, normalizedType: string) {
    || (normalizedType == EVENT_CAPTURED && eventType == EVENT_SUCCEEDED)
    || (normalizedType == EVENT_REFUNDED && eventType in [EVENT_REFUND, EVENT_REFUND_EDIT])
    || (normalizedType == EVENT_CHARGEBACK && eventType == EVENT_WITHDRAWN)
    || (normalizedType == EVENT_CHARGEBACK_REVERSED && eventType == EVENT_REINSTATED)
  }

  predicate MetadataAgrees(tenantId: string, orderId: string) {
    (tenantId == "" && orderId == "") || (ValidIdentity(tenantId) && ValidIdentity(orderId))
  }

  /** The facts some event of the bound account can be parsed to. */
  predicate Parseable(fact: ProviderFact, binding: EventBinding, now: Time) {
    && binding.account != ""
    && ValidStripeId(fact.eventId) && ValidStripeId(fact.providerObjectId)
    && KindsAgree(fact.eventType, fact.normalizedType)
    && (fact.normalizedType == EVENT_CAPTURED ==> fact.paymentIntentId == fact.providerObjectId)
    && OptionalId(fact.paymentIntentId) && OptionalId(fact.chargeId)
    && MetadataAgrees(fact.metadataTenantId, fact.metadataOrderId)
    && !(fact.paymentIntentId == "" && fact.chargeId == "" && fact.metadataOrderId == "")
    && UpperLetters(fact.currency)
    && fact.providerAmountMinor == fact.normalizedAmountMinor > 0
    && fact.occurredAt % SECOND == 0 && 0 < fact.occurredAt <= now + WEBHOOK_TOLERANCE
  }

  function Lowered(s: string): string
    requires UpperLetters(s)
  {
    seq(3, i requires 0 <= i < 3 => s[i] - 'A' + 'a')
  }

  function ObjectNameOf(normalizedType: string): string {
    if normalizedType == EVENT_CAPTURED then "payment_intent"
    else if normalizedType == EVENT_REFUNDED then "refund"
    else "dispute"
  }

  /** An event that says what the fact says. */
  function EventOf(fact: ProviderFact, binding: EventBinding): Envelope
    requires UpperLetters(fact.currency)
  {
    var metadata :=
      if fact.metadataTenantId == "" then map[]
      else map[METADATA_TENANT := fact.metadataTenantId, METADATA_ORDER := fact.metadataOrderId];
    var payload := StripeObject(
      fact.providerObjectId, ObjectNameOf(fact.normalizedType), fact.providerAmountMinor, fact.normalizedAmountMinor,
      Lowered(fact.currency), "succeeded", Direct(fact.paymentIntentId), Expanded(fact.chargeId), metadata);
    Envelope(fact.eventId, "event", fact.eventType, fact.occurredAt / SECOND, Some(binding.liveMode),
             Some(binding.account), binding.apiVersion, Some(payload))
  }

  lemma CurrencyReadsBack(s: string)
    requires UpperLetters(s)
    ensures NormalizeCurrency(Lowered(s)) == s
  {
    var lowered := Lowered(s);
    forall c | c in lowered ensures 'a' <= c <= 'z' {
      var i :| 0 <= i < |lowered| && lowered[i] == c;
    }
    assert NormalizeCurrency(lowered) == s;
  }

  /** Parsing an event printed from a fact gives the fact back. */
  lemma EventReadsBack(fact: ProviderFact, binding: EventBinding, now: Time)
    requires Parseable(fact, binding, now)
    ensures ParseProviderFact(EventOf(fact, binding), binding, now) == Ok(fact)
  {
    var envelope := EventOf(fact, binding);
    var payload := envelope.data.value;
    CurrencyReadsBack(fact.currency);
    EmptyIsNoIdentity();
    assert MetadataBinding(payload.metadata) == OrderKey(fact.metadataTenantId, fact.metadataOrderId);
    assert ExpandableId(payload.paymentIntent) == fact.paymentIntentId && ExpandableId(payload.charge) == fact.chargeId;
    assert Fact(envelope, fact.normalizedType, payload, fact.paymentIntentId, fact.normalizedAmountMinor) == fact;
  }

  lemma EmptyIsNoIdentity()
    ensures !ValidIdentity("") && !ValidStripeId("")
  {
  }

  lemma ParsedParts(envelope: Envelope, binding: EventBinding, now: Time)
    requires ParseProviderFact(envelope, binding, now).Ok?
    ensures
      var fact, payload := ParseProviderFact(envelope, binding, now).value, envelope.data.value;
      && KindsAgree(fact.eventType, fact.normalizedType)
      && fact.paymentIntentId in [payload.id, ExpandableId(payload.paymentIntent)]
      && (fact.normalizedType == EVENT_CAPTURED ==> fact.paymentIntentId == payload.id)
      && fact.providerAmountMinor == payload.amount > 0
      && fact == Fact(envelope, fact.normalizedType, payload, fact.paymentIntentId, payload.amount)
  {
  }

  lemma ParsedFactIsParseable(envelope: Envelope, binding: EventBinding, now: Time)
    requires ParseProviderFact(envelope, binding, now).Ok?
    ensures Parseable(ParseProviderFact(envelope, binding, now).value, binding, now)
  {
    var fact, payload := ParseProviderFact(envelope, binding, now).value, envelope.data.value;
    EmptyIsNoIdentity();
    ParsedParts(envelope, binding, now);
    NormalizedIsUpper(payload.currency);
    BindingAgrees(payload.metadata);
    assert fact.currency == NormalizeCurrency(payload.currency);
  }

  lemma NormalizedIsUpper(s: string)
    ensures NormalizeCurrency(s) != "" ==> UpperLetters(NormalizeCurrency(s))
  {
    if NormalizeCurrency(s) != "" {
      forall i | 0 <= i < 3 ensures 'A' <= NormalizeCurrency(s)[i] <= 'Z' {
        assert s[i] in s;
      }
    }
  }

  lemma BindingAgrees(metadata: map<string, string>)
    ensures MetadataAgrees(MetadataBinding(metadata).tenantId, MetadataBinding(metadata).orderId)
  {
    EmptyIsNoIdentity();
  }

  /** Parsing has exactly these results: no others, and every one of them. */
  lemma FactsThatParse(fact: ProviderFact, binding: EventBinding, now: Time)
    ensures (exists envelope :: ParseProviderFact(envelope, binding, now) == Ok(fact)) <==> Parseable(fact, binding, now)
  {
    if Parseable(fact, binding, now) {
      EventReadsBack(fact, binding, now);
    }
    if exists envelope :: ParseProviderFact(envelope, binding, now) == Ok(fact) {
      var envelope :| ParseProviderFact(envelope, binding, now) == Ok(fact);
      ParsedFactIsParseable(envelope, binding, now);
    }
  }
}

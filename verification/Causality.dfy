/**
 The causal check of one coordination message against a snapshot time
 (packages/control-plane-contract/src/task-coordination-integrity.ts).  Timestamps are the integers
 their text denotes.
 */
module Causality {
  import opened Results

  /** A timestamp field: null, text no date parser accepts, or an instant. */
  datatype Stamp = Null | Unparsable | At(time: int)

  datatype DeliveryState =
    | Queued | Delivered | Read | Acknowledged | Replied | Cancelled | Expired | RecipientChanged

  datatype Recipient = Recipient(
    deliveredSessionId: Option<string>, deliveredAgentId: Option<string>, deliveredAgentName: Option<string>,
    ownershipCurrent: bool, principalCurrent: bool)

  datatype Message = Message(
    recipient: Recipient,
    requiresAcknowledgement: bool,
    createdAt: Stamp, expiresAt: Stamp, deliveredAt: Stamp, readAt: Stamp, acknowledgedAt: Stamp,
    repliedAt: Stamp, cancelledAt: Stamp, expiredAt: Stamp,
    deliveryState: DeliveryState)

  predicate Ordered(earlier: Stamp, later: Stamp) {
    earlier.At? && later.At? ==> earlier.time <= later.time
  }

  predicate Within(value: Stamp, created: Stamp, generated: Stamp) {
    value.At? && created.At? && generated.At? ==> created.time <= value.time <= generated.time
  }

  predicate BeforeExpiry(value: Stamp, expires: Stamp) {
    value.At? && expires.At? ==> value.time < expires.time
  }

  predicate ExpiredBy(expires: Stamp, generated: Stamp) {
    expires.At? && generated.At? && expires.time <= generated.time
  }

  function DerivedState(m: Message, expired: bool): DeliveryState {
    if m.repliedAt != Null then Replied
    else if m.acknowledgedAt != Null then Acknowledged
    else if m.cancelledAt != Null then Cancelled
    else if !m.requiresAcknowledgement && m.readAt != Null then Read
    else if expired then Expired
    else if m.readAt != Null then Read
    else if m.deliveredAt != Null then Delivered
    else if !m.recipient.principalCurrent then RecipientChanged
    else Queued
  }

  function IdentityCount(r: Recipient): nat {
    (if r.deliveredSessionId.Some? then 1 else 0)
    + (if r.deliveredAgentId.Some? then 1 else 0)
    + (if r.deliveredAgentName.Some? then 1 else 0)
  }

  // --- the checks, in the order the validator makes them; the first that fails is the error thrown ---

  function CheckParsed(m: Message, generatedAt: Stamp): (r: Outcome<string>)
    ensures r.Pass? <==> Parsed(m, generatedAt)
  {
    if generatedAt == Unparsable then Fail("snapshot generation time is not a timestamp")
    else if m.createdAt == Unparsable then Fail("creation time is not a timestamp")
    else if !(generatedAt.At? && m.createdAt.At? && m.createdAt.time <= generatedAt.time)
    then Fail("creation is later than the snapshot")
    else if m.expiresAt == Unparsable then Fail("expiry time is not a timestamp")
    else if m.deliveredAt == Unparsable then Fail("delivery time is not a timestamp")
    else if m.readAt == Unparsable then Fail("read time is not a timestamp")
    else if m.acknowledgedAt == Unparsable then Fail("acknowledgement time is not a timestamp")
    else if m.repliedAt == Unparsable then Fail("reply time is not a timestamp")
    else if m.cancelledAt == Unparsable then Fail("cancellation time is not a timestamp")
    else if m.expiredAt == Unparsable then Fail("derived expiry time is not a timestamp")
    else Pass
  }

  function CheckLifetime(m: Message, generatedAt: Stamp): (r: Outcome<string>)
    ensures r.Pass? <==> LifetimeOk(m, generatedAt)
  {
    if !BeforeExpiry(m.createdAt, m.expiresAt) then Fail("expiry is not later than creation")
    else if !Within(m.deliveredAt, m.createdAt, generatedAt) then Fail("delivery is outside the snapshot lifetime")
    else if !Within(m.readAt, m.createdAt, generatedAt) then Fail("read is outside the snapshot lifetime")
    else if !Within(m.acknowledgedAt, m.createdAt, generatedAt)
    then Fail("acknowledgement is outside the snapshot lifetime")
    else if !Within(m.repliedAt, m.createdAt, generatedAt) then Fail("reply is outside the snapshot lifetime")
    else if !Within(m.cancelledAt, m.createdAt, generatedAt)
    then Fail("cancellation is outside the snapshot lifetime")
    else Pass
  }

  function CheckRecipient(m: Message): (r: Outcome<string>)
    ensures r.Pass? <==> RecipientOk(m)
  {
    if IdentityCount(m.recipient) != 0 && IdentityCount(m.recipient) != 3 then Fail("delivered identity is partial")
    else if (m.deliveredAt != Null) != (IdentityCount(m.recipient) == 3)
    then Fail("delivery time and delivered identity do not appear together")
    else if m.recipient.ownershipCurrent && !m.recipient.principalCurrent
    then Fail("ownership cannot remain current after the recipient principal changed")
    else Pass
  }

  function CheckReceipts(m: Message): (r: Outcome<string>)
    ensures r.Pass? <==> ReceiptsOk(m)
  {
    if m.readAt != Null && m.deliveredAt == Null then Fail("read receipt has no delivery receipt")
    else if m.acknowledgedAt != Null && m.readAt == Null then Fail("acknowledgement has no read receipt")
    else if m.repliedAt != Null && m.acknowledgedAt == Null then Fail("reply has no acknowledgement receipt")
    else if m.acknowledgedAt != Null && !m.requiresAcknowledgement && m.repliedAt == Null
    then Fail("a no-acknowledgement message was acknowledged without a reply")
    else if m.cancelledAt != Null && (m.acknowledgedAt != Null || m.repliedAt != Null)
    then Fail("cancellation conflicts with acknowledgement or reply")
    else Pass
  }

  function CheckOrder(m: Message): (r: Outcome<string>)
    ensures r.Pass? <==> OrderOk(m)
  {
    if !Ordered(m.deliveredAt, m.readAt) then Fail("read precedes delivery")
    else if !Ordered(m.readAt, m.acknowledgedAt) then Fail("acknowledgement precedes read")
    else if !Ordered(m.acknowledgedAt, m.repliedAt) then Fail("reply precedes acknowledgement")
    else if !Ordered(m.deliveredAt, m.cancelledAt) then Fail("cancellation precedes delivery")
    else if !Ordered(m.readAt, m.cancelledAt) then Fail("cancellation precedes read")
    else Pass
  }

  function CheckExpiry(m: Message, generatedAt: Stamp): (r: Outcome<string>)
    ensures r.Pass? <==> ExpiryOk(m, generatedAt)
  {
    var expired := ExpiredBy(m.expiresAt, generatedAt);
    if !BeforeExpiry(m.deliveredAt, m.expiresAt) then Fail("delivery occurred after expiry")
    else if !BeforeExpiry(m.readAt, m.expiresAt) then Fail("read occurred after expiry")
    else if !BeforeExpiry(m.acknowledgedAt, m.expiresAt) then Fail("acknowledgement occurred after expiry")
    else if !BeforeExpiry(m.cancelledAt, m.expiresAt) then Fail("cancellation occurred after expiry")
    else if expired && m.expiredAt != m.expiresAt then Fail("derived expiry does not match the persisted expiry")
    else if !expired && m.expiredAt != Null then Fail("derived expiry exists before expiry")
    else if m.deliveryState != DerivedState(m, expired) then Fail("delivery state should be the derived state")
    else Pass
  }

  function Validate(m: Message, generatedAt: Stamp): Outcome<string> {
    if CheckParsed(m, generatedAt).Fail? then CheckParsed(m, generatedAt)
    else if CheckLifetime(m, generatedAt).Fail? then CheckLifetime(m, generatedAt)
    else if CheckRecipient(m).Fail? then CheckRecipient(m)
    else if CheckReceipts(m).Fail? then CheckReceipts(m)
    else if CheckOrder(m).Fail? then CheckOrder(m)
    else CheckExpiry(m, generatedAt)
  }

  predicate Accepted(m: Message, generatedAt: Stamp) {
    Validate(m, generatedAt).Pass?
  }

  // --- what passing each group means ---

  predicate Parsed(m: Message, generatedAt: Stamp) {
    && generatedAt.At? && m.createdAt.At? && m.createdAt.time <= generatedAt.time
    && m.deliveredAt != Unparsable && m.readAt != Unparsable && m.acknowledgedAt != Unparsable
    && m.repliedAt != Unparsable && m.cancelledAt != Unparsable
    && m.expiresAt != Unparsable && m.expiredAt != Unparsable
  }

  predicate LifetimeOk(m: Message, generatedAt: Stamp) {
    && BeforeExpiry(m.createdAt, m.expiresAt)
    && Within(m.deliveredAt, m.createdAt, generatedAt) && Within(m.readAt, m.createdAt, generatedAt)
    && Within(m.acknowledgedAt, m.createdAt, generatedAt) && Within(m.repliedAt, m.createdAt, generatedAt)
    && Within(m.cancelledAt, m.createdAt, generatedAt)
  }

  predicate RecipientOk(m: Message) {
    && IdentityCount(m.recipient) == (if m.deliveredAt != Null then 3 else 0)
    && (m.recipient.ownershipCurrent ==> m.recipient.principalCurrent)
  }

  /** The receipts present are a chain delivered, read, acknowledged, replied, or end in a cancellation. */
  predicate ReceiptsOk(m: Message) {
    && (m.readAt != Null ==> m.deliveredAt != Null)
    && (m.acknowledgedAt != Null ==> m.readAt != Null)
    && (m.repliedAt != Null ==> m.acknowledgedAt != Null)
    && (m.cancelledAt != Null ==> m.acknowledgedAt == Null)
    && (m.acknowledgedAt != Null && !m.requiresAcknowledgement ==> m.repliedAt != Null)
  }

  predicate OrderOk(m: Message) {
    && Ordered(m.deliveredAt, m.readAt) && Ordered(m.readAt, m.acknowledgedAt)
    && Ordered(m.acknowledgedAt, m.repliedAt)
    && Ordered(m.deliveredAt, m.cancelledAt) && Ordered(m.readAt, m.cancelledAt)
  }

  predicate ExpiryOk(m: Message, generatedAt: Stamp) {
    var expired := ExpiredBy(m.expiresAt, generatedAt);
    && BeforeExpiry(m.deliveredAt, m.expiresAt) && BeforeExpiry(m.readAt, m.expiresAt)
    && BeforeExpiry(m.acknowledgedAt, m.expiresAt) && BeforeExpiry(m.cancelledAt, m.expiresAt)
    && m.expiredAt == (if expired then m.expiresAt else Null)
    && m.deliveryState == DerivedState(m, expired)
  }

  lemma AcceptedIff(m: Message, generatedAt: Stamp)
    ensures Accepted(m, generatedAt) <==>
              && Parsed(m, generatedAt) && LifetimeOk(m, generatedAt) && RecipientOk(m)
              && ReceiptsOk(m) && OrderOk(m) && ExpiryOk(m, generatedAt)
  {
  }
}

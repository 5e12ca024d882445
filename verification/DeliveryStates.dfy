/** What the delivery state of a coordination message says, and how the store's operations move it. */
module DeliveryStates {
  import opened Results
  import opened Causality
  import opened CoordinationStore

  // --- what each accepted state says ---

  predicate PastExpiry(m: Message, now: int) { m.expiresAt.At? && m.expiresAt.time <= now }

  /** Neither acknowledged, replied nor cancelled. */
  predicate Undecided(m: Message) { m.acknowledgedAt == Null && m.repliedAt == Null && m.cancelledAt == Null }

  /**
   The delivery state of an accepted message, both ways: a reply, else an acknowledgement, else a cancellation decide
   it; of the others, one that expired before all it needs came is expired, and one that did not shows how far it got,
   or whether the recipient it waits for is still the one addressed.
   */
  lemma StateMeans(m: Message, now: int)
    requires Accepted(m, At(now))
    ensures m.deliveryState == Replied <==> m.repliedAt.At?
    ensures m.deliveryState == Acknowledged <==> m.acknowledgedAt.At? && m.repliedAt == Null
    ensures m.deliveryState == Cancelled <==> m.cancelledAt.At?
    ensures m.deliveryState == Read
            <==> m.readAt.At? && Undecided(m) && (m.requiresAcknowledgement ==> !PastExpiry(m, now))
    ensures m.deliveryState == Expired
            <==> PastExpiry(m, now) && Undecided(m) && (m.readAt.At? ==> m.requiresAcknowledgement)
    ensures m.deliveryState == Delivered
            <==> m.deliveredAt.At? && m.readAt == Null && Undecided(m) && !PastExpiry(m, now)
    ensures m.deliveryState == RecipientChanged
            <==> m.deliveredAt == Null && Undecided(m) && !PastExpiry(m, now) && !m.recipient.principalCurrent
    ensures m.deliveryState == Queued
            <==> m.deliveredAt == Null && Undecided(m) && !PastExpiry(m, now) && m.recipient.principalCurrent
  {
    AcceptedIff(m, At(now));
  }

  // --- how the operations move it ---

  /** A state that waits for something its expiry forecloses. */
  predicate Perishable(state: DeliveryState, requiresAcknowledgement: bool) {
    state in {Queued, RecipientChanged, Delivered} || (state == Read && requiresAcknowledgement)
  }

  /** The state an operation leads to, where it is allowed. */
  function NextState(state: DeliveryState, requiresAcknowledgement: bool, expires: Option<int>, e: Event)
    : DeliveryState
  {
    match e
    case Deliver(_) => Delivered
    case ReadInbox(_) => Read
    case Acknowledge => Acknowledged
    case Reply(_, _) => Replied
    case Cancel => Cancelled
    case Reassign(_, principal) =>
      if state == Queued || state == RecipientChanged then (if principal then Queued else RecipientChanged) else state
    case Tick(to) =>
      if expires.Some? && expires.value <= to && Perishable(state, requiresAcknowledgement) then Expired else state
  }

  lemma ReceiptMoves(r: Row, e: Event)
    requires Inv(r) && Enabled(r, e) && (e.Deliver? || e.ReadInbox? || e.Acknowledge? || e.Reply? || e.Cancel?)
    ensures Snapshot(Step(r, e)).deliveryState
            == NextState(Snapshot(r).deliveryState, r.requiresAcknowledgement, r.expires, e)
  {}

  lemma TickMoves(r: Row, to: int)
    requires Inv(r) && r.now <= to
    ensures Snapshot(Step(r, Tick(to))).deliveryState
            == NextState(Snapshot(r).deliveryState, r.requiresAcknowledgement, r.expires, Tick(to))
  {}

  lemma ReassignMoves(r: Row, ownership: bool, principal: bool)
    requires Inv(r) && (ownership ==> principal)
    ensures Snapshot(Step(r, Reassign(ownership, principal))).deliveryState
            == NextState(Snapshot(r).deliveryState, r.requiresAcknowledgement, r.expires,
                         Reassign(ownership, principal))
  {}

  lemma StepMoves(r: Row, e: Event)
    requires Inv(r)
    ensures Snapshot(Step(r, e)).deliveryState
            == if Enabled(r, e) then NextState(Snapshot(r).deliveryState, r.requiresAcknowledgement, r.expires, e)
               else Snapshot(r).deliveryState
  {
    if Enabled(r, e) {
      match e
      case Tick(to) => TickMoves(r, to);
      case Reassign(ownership, principal) => ReassignMoves(r, ownership, principal);
      case _ => ReceiptMoves(r, e);
    }
  }

  /** The state a run leads to, kept from operation to operation without looking at the receipts. */
  function StateAfter(start: Row, es: seq<Event>): DeliveryState {
    if es == [] then Queued
    else
      var front, e := es[..|es| - 1], es[|es| - 1];
      if Enabled(After(start, front), e)
      then NextState(StateAfter(start, front), start.requiresAcknowledgement, start.expires, e)
      else StateAfter(start, front)
  }

  lemma StepFixes(r: Row, e: Event)
    ensures Step(r, e).requiresAcknowledgement == r.requiresAcknowledgement && Step(r, e).expires == r.expires
  {}

  lemma {:induction false} RunFixes(r: Row, es: seq<Event>)
    ensures After(r, es).requiresAcknowledgement == r.requiresAcknowledgement && After(r, es).expires == r.expires
  {
    if es != [] {
      RunFixes(r, es[..|es| - 1]);
      StepFixes(After(r, es[..|es| - 1]), es[|es| - 1]);
    }
  }

  lemma CreatedQueued(start: Row)
    requires Created(start)
    ensures Inv(start) && Snapshot(start).deliveryState == Queued
  {}

  /**
   On every run of the store, the state derived from a row's receipts is the one its operations wrote: a message is
   queued when created, and from then on each operation moves the state as `NextState` says.
   */
  lemma {:induction false} StateTracked(start: Row, es: seq<Event>)
    requires Created(start)
    ensures Snapshot(After(start, es)).deliveryState == StateAfter(start, es)
  {
    CreatedQueued(start);
    if es != [] {
      var front, e := es[..|es| - 1], es[|es| - 1];
      StateTracked(start, front);
      RunKeepsInv(start, front);
      RunFixes(start, front);
      StepMoves(After(start, front), e);
    }
  }

  // --- what stays written ---

  predicate Stays(value: Option<int>, later: Option<int>) { value.Some? ==> later == value }

  /** Every receipt of `a` stands in `b`, with the identity that came with the delivery. */
  predicate ReceiptsStand(a: Row, b: Row) {
    && Stays(a.delivered, b.delivered) && Stays(a.read, b.read) && Stays(a.acknowledged, b.acknowledged)
    && Stays(a.replied, b.replied) && Stays(a.cancelled, b.cancelled)
    && (a.delivered.Some? ==> b.identity == a.identity)
  }

  lemma StepStands(r: Row, e: Event)
    ensures ReceiptsStand(r, Step(r, e))
  {}

  /** A receipt once written is never changed, whatever is done to the message afterwards. */
  lemma {:induction false} ReceiptsStay(r: Row, es: seq<Event>)
    ensures ReceiptsStand(r, After(r, es))
  {
    if es != [] {
      ReceiptsStay(r, es[..|es| - 1]);
      StepStands(After(r, es[..|es| - 1]), es[|es| - 1]);
    }
  }

  /** Whom the first operation that delivers, reads or replies names. */
  function FirstNamed(start: Row, es: seq<Event>): Option<Identity> {
    if es == [] then None
    else
      var front, e := es[..|es| - 1], es[|es| - 1];
      if FirstNamed(start, front).Some? || !Enabled(After(start, front), e) then FirstNamed(start, front)
      else if e.Deliver? || e.ReadInbox? || e.Reply? then Some(e.identity)
      else None
  }

  predicate Names(recipient: Recipient, named: Option<Identity>) {
    match named
    case None =>
      recipient.deliveredSessionId.None? && recipient.deliveredAgentId.None? && recipient.deliveredAgentName.None?
    case Some(identity) =>
      && recipient.deliveredSessionId == Some(identity.sessionId)
      && recipient.deliveredAgentId == Some(identity.agentId)
      && recipient.deliveredAgentName == Some(identity.agentName)
  }

  lemma StepNames(r: Row, e: Event)
    ensures r.delivered.Some? ==> Step(r, e).delivered.Some? && Step(r, e).identity == r.identity
    ensures r.delivered.None? && Enabled(r, e) && (e.Deliver? || e.ReadInbox? || e.Reply?) ==>
              Step(r, e).delivered.Some? && Step(r, e).identity == e.identity
    ensures r.delivered.None? && !(Enabled(r, e) && (e.Deliver? || e.ReadInbox? || e.Reply?)) ==>
              Step(r, e).delivered.None?
  {}

  lemma {:induction false} NamedOnce(start: Row, es: seq<Event>)
    requires start.delivered.None?
    ensures After(start, es).delivered.Some? <==> FirstNamed(start, es).Some?
    ensures FirstNamed(start, es).Some? ==> After(start, es).identity == FirstNamed(start, es).value
  {
    if es != [] {
      NamedOnce(start, es[..|es| - 1]);
      StepNames(After(start, es[..|es| - 1]), es[|es| - 1]);
    }
  }

  lemma RecipientShown(r: Row)
    ensures Names(Snapshot(r).recipient, if r.delivered.Some? then Some(r.identity) else None)
  {}

  /** On every run a message shows as its receiver whom the first of its deliveries named, and nobody before that. */
  lemma ReceiverTracked(start: Row, es: seq<Event>)
    requires Created(start)
    ensures Names(Snapshot(After(start, es)).recipient, FirstNamed(start, es))
  {
    NamedOnce(start, es);
    RecipientShown(After(start, es));
  }
}

/**
 The state machine whose snapshots the causal check accepts: one persisted coordination row and the
 operations that stamp it (packages/control-plane/src/task-coordination-store.ts), against a clock
 that never runs backwards.
 */
module CoordinationStore {
  import opened Results
  import opened Causality

  /** A delivered identity: session, agent and agent name are written together. */
  datatype Identity = Identity(sessionId: string, agentId: string, agentName: string)

  datatype Row = Row(
    now: int, created: int, expires: Option<int>, requiresAcknowledgement: bool,
    delivered: Option<int>, identity: Identity, read: Option<int>, acknowledged: Option<int>,
    replied: Option<int>, cancelled: Option<int>,
    ownershipCurrent: bool, principalCurrent: bool)

  datatype Event =
    | Tick(to: int)
    | Deliver(identity: Identity)                  // a version-1 row may hold a delivery without a read
    | ReadInbox(identity: Identity)                // marks delivered and read
    | Acknowledge
    | Reply(identity: Identity, acceptedAt: int)   // completes every missing receipt
    | Cancel
    | Reassign(ownershipCurrent: bool, principalCurrent: bool)

  predicate Live(r: Row) {
    r.expires.Some? ==> r.now < r.expires.value
  }

  function Coalesce(value: Option<int>, otherwise: int): Option<int> {
    if value.Some? then value else Some(otherwise)
  }

  /**
   The acceptance time a reply may stamp as the acknowledgement: the moment of the reply itself, or,
   for an already read message that needs no acknowledgement, an earlier live moment since the read.
   */
  predicate AcceptsAt(r: Row, at: int) {
    || at == r.now
    || (!r.requiresAcknowledgement && r.read.Some? && r.read.value <= at <= r.now
        && (r.expires.Some? ==> at < r.expires.value))
  }

  predicate Enabled(r: Row, e: Event) {
    match e
    case Tick(to) => r.now <= to
    case Deliver(_) => r.delivered.None? && r.cancelled.None? && Live(r)
    case ReadInbox(_) => r.read.None? && r.cancelled.None? && Live(r)
    case Acknowledge =>
      r.requiresAcknowledgement && r.read.Some? && r.acknowledged.None? && r.cancelled.None? && Live(r)
    case Reply(_, at) =>
      && r.cancelled.None? && r.replied.None? && AcceptsAt(r, at)
      && (r.acknowledged.Some? || Live(r) || at < r.now)
    case Cancel => r.acknowledged.None? && r.replied.None? && r.cancelled.None? && Live(r)
    case Reassign(ownership, principal) => ownership ==> principal
  }

  function Step(r: Row, e: Event): Row {
    if !Enabled(r, e) then r
    else match e
      case Tick(to) => r.(now := to)
      case Deliver(identity) => r.(delivered := Some(r.now), identity := identity)
      case ReadInbox(identity) =>
        r.(delivered := Coalesce(r.delivered, r.now), read := Some(r.now),
           identity := if r.delivered.Some? then r.identity else identity)
      case Acknowledge => r.(acknowledged := Some(r.now))
      case Reply(identity, at) =>
        r.(delivered := Coalesce(r.delivered, at), read := Coalesce(r.read, at),
           identity := if r.delivered.Some? then r.identity else identity,
           acknowledged := Coalesce(r.acknowledged, at), replied := Some(r.now))
      case Cancel => r.(cancelled := Some(r.now))
      case Reassign(ownership, principal) => r.(ownershipCurrent := ownership, principalCurrent := principal)
  }

  function Create(created: int, expires: Option<int>, requiresAcknowledgement: bool): Row {
    Row(created, created, expires, requiresAcknowledgement, None, Identity("", "", ""), None, None, None, None,
        true, true)
  }

  function After(r: Row, es: seq<Event>): Row {
    if es == [] then r else Step(After(r, es[..|es| - 1]), es[|es| - 1])
  }

  function StampOf(value: Option<int>): Stamp {
    if value.None? then Null else At(value.value)
  }

  /** How the store presents a row at its current time. */
  function Snapshot(r: Row): Message {
    var m := Message(
      if r.delivered.Some?
      then Recipient(Some(r.identity.sessionId), Some(r.identity.agentId), Some(r.identity.agentName),
                     r.ownershipCurrent, r.principalCurrent)
      else Recipient(None, None, None, r.ownershipCurrent, r.principalCurrent),
      r.requiresAcknowledgement, At(r.created), StampOf(r.expires), StampOf(r.delivered), StampOf(r.read),
      StampOf(r.acknowledged), StampOf(r.replied), StampOf(r.cancelled),
      if Live(r) then Null else StampOf(r.expires), Queued);
    m.(deliveryState := DerivedState(m, !Live(r)))
  }

  predicate Produces(r: Row, m: Message, generatedAt: Stamp) {
    m == Snapshot(r) && generatedAt == At(r.now)
  }

  /**
   What a store may do.  The current store writes delivery and read together and stamps a reply's
   missing receipts at the reply's own moment; `legacy` also allows a bare delivery, and `split` an
   acceptance time before the reply.
   */
  datatype Profile = Profile(legacy: bool, split: bool)

  predicate Allowed(p: Profile, r: Row, e: Event) {
    && (e.Deliver? ==> p.legacy)
    && (e.Reply? ==> p.split || e.acceptedAt == r.now)
  }

  ghost predicate AllowedRun(p: Profile, r: Row, es: seq<Event>) {
    forall i {:trigger es[i]} :: 0 <= i < |es| ==> Allowed(p, After(r, es[..i]), es[i])
  }

  /** Some message, created and then run through some events, looks like `m` at `generatedAt`. */
  ghost predicate Reachable(p: Profile, m: Message, generatedAt: Stamp) {
    exists start: Row, es: seq<Event> ::
      && Created(start) && AllowedRun(p, start, es) && Produces(After(start, es), m, generatedAt)
  }

  ghost predicate Created(r: Row) {
    r == Create(r.created, r.expires, r.requiresAcknowledgement) && (r.expires.Some? ==> r.created < r.expires.value)
  }

  /** The part of the receipts a profile constrains beyond the causal check. */
  predicate Fits(p: Profile, m: Message) {
    && (p.legacy || m.deliveredAt == m.readAt)
    && (p.split || (!m.requiresAcknowledgement && m.repliedAt != Null ==> m.acknowledgedAt == m.repliedAt))
  }

  // --- soundness ---

  /** Stamped between creation and now. */
  predicate Lived(r: Row, stamp: Option<int>) { stamp.Some? ==> r.created <= stamp.value <= r.now }

  /** Stamped before expiry. */
  predicate Timely(r: Row, stamp: Option<int>) { stamp.Some? && r.expires.Some? ==> stamp.value < r.expires.value }

  ghost predicate Inv(r: Row) {
    && r.created <= r.now
    && (r.expires.Some? ==> r.created < r.expires.value)
    && Lived(r, r.delivered) && Lived(r, r.read) && Lived(r, r.acknowledged) && Lived(r, r.replied)
    && Lived(r, r.cancelled)
    && Timely(r, r.delivered) && Timely(r, r.read) && Timely(r, r.acknowledged) && Timely(r, r.cancelled)
    && (r.read.Some? ==> r.delivered.Some? && r.delivered.value <= r.read.value)
    && (r.acknowledged.Some? ==> r.read.Some? && r.read.value <= r.acknowledged.value)
    && (r.replied.Some? ==> r.acknowledged.Some? && r.acknowledged.value <= r.replied.value)
    && (r.acknowledged.Some? && !r.requiresAcknowledgement ==> r.replied.Some?)
    && (r.cancelled.Some? ==> r.acknowledged.None? && r.replied.None?)
    && (r.cancelled.Some? && r.delivered.Some? ==> r.delivered.value <= r.cancelled.value)
    && (r.cancelled.Some? && r.read.Some? ==> r.read.value <= r.cancelled.value)
    && (r.ownershipCurrent ==> r.principalCurrent)
  }

  lemma TickKeeps(r: Row, to: int)
    requires Inv(r)
    ensures Inv(Step(r, Tick(to)))
  {}

  lemma DeliverKeeps(r: Row, identity: Identity)
    requires Inv(r)
    ensures Inv(Step(r, Deliver(identity)))
  {}

  lemma ReadInboxKeeps(r: Row, identity: Identity)
    requires Inv(r)
    ensures Inv(Step(r, ReadInbox(identity)))
  {}

  lemma AcknowledgeKeeps(r: Row)
    requires Inv(r)
    ensures Inv(Step(r, Acknowledge))
  {}

  lemma ReplyKeeps(r: Row, identity: Identity, acceptedAt: int)
    requires Inv(r)
    ensures Inv(Step(r, Reply(identity, acceptedAt)))
  {}

  lemma CancelKeeps(r: Row)
    requires Inv(r)
    ensures Inv(Step(r, Cancel))
  {}

  lemma StepKeeps(r: Row, e: Event)
    requires Inv(r)
    ensures Inv(Step(r, e))
  {
    match e
    case Tick(to) => TickKeeps(r, to);
    case Deliver(identity) => DeliverKeeps(r, identity);
    case ReadInbox(identity) => ReadInboxKeeps(r, identity);
    case Acknowledge => AcknowledgeKeeps(r);
    case Reply(identity, acceptedAt) => ReplyKeeps(r, identity, acceptedAt);
    case Cancel => CancelKeeps(r);
    case Reassign(_, _) =>
  }

  ghost predicate RowFits(p: Profile, r: Row) {
    && (p.legacy || r.delivered == r.read)
    && (p.split || (!r.requiresAcknowledgement && r.replied.Some? ==> r.acknowledged == r.replied))
  }

  lemma StepFits(p: Profile, r: Row, e: Event)
    requires Inv(r) && RowFits(p, r) && Allowed(p, r, e)
    ensures RowFits(p, Step(r, e))
  {
  }

  lemma {:induction false} RunKeeps(p: Profile, r: Row, es: seq<Event>)
    requires Inv(r) && RowFits(p, r) && AllowedRun(p, r, es)
    ensures Inv(After(r, es)) && RowFits(p, After(r, es))
  {
    if es != [] {
      var last := |es| - 1;
      forall i {:trigger es[..last][i]} | 0 <= i < last
        ensures Allowed(p, After(r, es[..last][..i]), es[..last][i])
      {
        assert es[..last][..i] == es[..i] && es[..last][i] == es[i];
      }
      RunKeeps(p, r, es[..last]);
      StepKeeps(After(r, es[..last]), es[last]);
      StepFits(p, After(r, es[..last]), es[last]);
    }
  }

  lemma SnapshotTimes(r: Row)
    requires Inv(r)
    ensures Parsed(Snapshot(r), At(r.now)) && LifetimeOk(Snapshot(r), At(r.now))
  {
  }

  lemma SnapshotChain(r: Row)
    requires Inv(r)
    ensures RecipientOk(Snapshot(r)) && ReceiptsOk(Snapshot(r)) && OrderOk(Snapshot(r))
  {
  }

  lemma SnapshotExpiry(r: Row)
    requires Inv(r)
    ensures ExpiryOk(Snapshot(r), At(r.now))
  {
  }

  lemma SnapshotAccepted(r: Row)
    requires Inv(r)
    ensures Accepted(Snapshot(r), At(r.now))
  {
    SnapshotTimes(r);
    SnapshotChain(r);
    SnapshotExpiry(r);
    AcceptedIff(Snapshot(r), At(r.now));
  }

  // --- completeness ---

  lemma {:induction false} AfterConcat(r: Row, a: seq<Event>, b: seq<Event>)
    ensures After(r, a + b) == After(After(r, a), b)
  {
    if b == [] {
      assert a + b == a;
    } else {
      var last := |b| - 1;
      assert (a + b)[..|a| + last] == a + b[..last];
      AfterConcat(r, a, b[..last]);
    }
  }

  lemma AllowedConcat(p: Profile, r: Row, a: seq<Event>, b: seq<Event>)
    requires AllowedRun(p, r, a) && AllowedRun(p, After(r, a), b)
    ensures AllowedRun(p, r, a + b) && After(r, a + b) == After(After(r, a), b)
  {
    forall i {:trigger (a + b)[i]} | 0 <= i < |a + b|
      ensures Allowed(p, After(r, (a + b)[..i]), (a + b)[i])
    {
      if i < |a| {
        assert (a + b)[..i] == a[..i];
      } else {
        assert (a + b)[..i] == a + b[..i - |a|];
        AfterConcat(r, a, b[..i - |a|]);
      }
    }
    AfterConcat(r, a, b);
  }

  /** Advances the clock to `at` and does `e` there. */
  lemma Extend(p: Profile, r: Row, es: seq<Event>, at: int, e: Event) returns (es': seq<Event>)
    requires AllowedRun(p, r, es) && After(r, es).now <= at
    requires Allowed(p, After(r, es).(now := at), e)
    ensures AllowedRun(p, r, es') && After(r, es') == Step(After(r, es).(now := at), e)
  {
    var start := After(r, es);
    var b := [Tick(at), e];
    assert b[..0] == [] && b[..1] == [Tick(at)] && [Tick(at)][..0] == [];
    assert After(start, []) == start;
    assert After(start, [Tick(at)]) == start.(now := at);
    assert After(start, b) == Step(start.(now := at), e);
    AllowedConcat(p, r, es, b);
    es' := es + b;
  }

  function OptionOf(s: Stamp): Option<int> {
    if s.At? then Some(s.time) else None
  }

  function IdentityOf(r: Recipient): Identity {
    if r.deliveredSessionId.Some? && r.deliveredAgentId.Some? && r.deliveredAgentName.Some?
    then Identity(r.deliveredSessionId.value, r.deliveredAgentId.value, r.deliveredAgentName.value)
    else Identity("", "", "")
  }

  /** The row an accepted snapshot shows. */
  function RowOf(m: Message, now: int): Row {
    Row(now, if m.createdAt.At? then m.createdAt.time else 0, OptionOf(m.expiresAt), m.requiresAcknowledgement,
        OptionOf(m.deliveredAt), IdentityOf(m.recipient), OptionOf(m.readAt), OptionOf(m.acknowledgedAt),
        OptionOf(m.repliedAt), OptionOf(m.cancelledAt),
        m.recipient.ownershipCurrent, m.recipient.principalCurrent)
  }

  lemma RowOfShows(m: Message, now: int)
    requires Accepted(m, At(now))
    ensures Produces(RowOf(m, now), m, At(now)) && Inv(RowOf(m, now))
    ensures forall p :: Fits(p, m) <==> RowFits(p, RowOf(m, now))
  {
    AcceptedIff(m, At(now));
    RowOfReceipts(m, now);
    RowOfKeeps(m, now);
  }

  lemma RowOfReceipts(m: Message, now: int)
    requires Parsed(m, At(now)) && RecipientOk(m) && ReceiptsOk(m) && LifetimeOk(m, At(now)) && ExpiryOk(m, At(now))
    ensures Produces(RowOf(m, now), m, At(now))
    ensures forall p :: Fits(p, m) <==> RowFits(p, RowOf(m, now))
  {
    var r := RowOf(m, now);
    assert StampOf(r.delivered) == m.deliveredAt && StampOf(r.read) == m.readAt;
    assert StampOf(r.acknowledged) == m.acknowledgedAt && StampOf(r.replied) == m.repliedAt;
    assert StampOf(r.cancelled) == m.cancelledAt && StampOf(r.expires) == m.expiresAt;
    assert Snapshot(r).recipient == m.recipient;
  }

  lemma RowOfKeeps(m: Message, now: int)
    requires Parsed(m, At(now)) && LifetimeOk(m, At(now)) && RecipientOk(m) && ReceiptsOk(m) && OrderOk(m)
    requires ExpiryOk(m, At(now))
    ensures Inv(RowOf(m, now))
  {
  }

  function Fresh(r: Row): Row {
    Create(r.created, r.expires, r.requiresAcknowledgement)
  }

  /** The row once it was delivered and read, and nothing else. */
  function UpToRead(r: Row): Row {
    Fresh(r).(delivered := r.delivered, read := r.read, identity := r.identity,
              now := if r.read.Some? then r.read.value
                     else if r.delivered.Some? then r.delivered.value else r.created)
  }

  lemma ReplayRead(p: Profile, r: Row) returns (es: seq<Event>)
    requires Inv(r) && RowFits(p, r) && (r.delivered.None? ==> r.identity == Fresh(r).identity)
    ensures AllowedRun(p, Fresh(r), es) && After(Fresh(r), es) == UpToRead(r)
  {
    es := [];
    if r.delivered.Some? && r.delivered != r.read {
      es := Extend(p, Fresh(r), es, r.delivered.value, Deliver(r.identity));
    }
    if r.read.Some? {
      es := Extend(p, Fresh(r), es, r.read.value, ReadInbox(r.identity));
    }
  }

  /** The row before its recipient was last reassigned. */
  predicate SettledAs(r: Row, now: Row) {
    now.now <= r.now && now == r.(now := now.now, ownershipCurrent := true, principalCurrent := true)
  }

  lemma ReplayCancel(p: Profile, r: Row, es: seq<Event>) returns (es': seq<Event>)
    requires Inv(r) && r.cancelled.Some? && AllowedRun(p, Fresh(r), es) && After(Fresh(r), es) == UpToRead(r)
    ensures AllowedRun(p, Fresh(r), es') && SettledAs(r, After(Fresh(r), es'))
  {
    es' := Extend(p, Fresh(r), es, r.cancelled.value, Cancel);
  }

  lemma ReplayAcknowledged(p: Profile, r: Row, es: seq<Event>) returns (es': seq<Event>)
    requires Inv(r) && r.acknowledged.Some? && r.requiresAcknowledgement
    requires AllowedRun(p, Fresh(r), es) && After(Fresh(r), es) == UpToRead(r)
    ensures AllowedRun(p, Fresh(r), es') && SettledAs(r, After(Fresh(r), es'))
  {
    es' := Extend(p, Fresh(r), es, r.acknowledged.value, Acknowledge);
    if r.replied.Some? {
      es' := Extend(p, Fresh(r), es', r.replied.value, Reply(r.identity, r.replied.value));
    }
  }

  lemma ReplayReplied(p: Profile, r: Row, es: seq<Event>) returns (es': seq<Event>)
    requires Inv(r) && RowFits(p, r) && r.acknowledged.Some? && !r.requiresAcknowledgement
    requires AllowedRun(p, Fresh(r), es) && After(Fresh(r), es) == UpToRead(r)
    ensures AllowedRun(p, Fresh(r), es') && SettledAs(r, After(Fresh(r), es'))
  {
    es' := Extend(p, Fresh(r), es, r.replied.value, Reply(r.identity, r.acknowledged.value));
  }

  /** Every consistent row a profile allows is the end of a run it allows: the receipts are replayed in order. */
  lemma Replay(p: Profile, r: Row) returns (es: seq<Event>)
    requires Inv(r) && RowFits(p, r) && (r.delivered.None? ==> r.identity == Fresh(r).identity)
    ensures AllowedRun(p, Fresh(r), es) && After(Fresh(r), es) == r
  {
    es := ReplayRead(p, r);
    if r.cancelled.Some? {
      es := ReplayCancel(p, r, es);
    } else if r.acknowledged.Some? && r.requiresAcknowledgement {
      es := ReplayAcknowledged(p, r, es);
    } else if r.acknowledged.Some? {
      es := ReplayReplied(p, r, es);
    }
    es := Extend(p, Fresh(r), es, r.now, Reassign(r.ownershipCurrent, r.principalCurrent));
  }

  lemma ReachableAccepted(p: Profile, m: Message, generatedAt: Stamp)
    requires Reachable(p, m, generatedAt)
    ensures Accepted(m, generatedAt) && Fits(p, m)
  {
    var start: Row, es: seq<Event> :|
      Created(start) && AllowedRun(p, start, es) && Produces(After(start, es), m, generatedAt);
    RunKeeps(p, start, es);
    SnapshotAccepted(After(start, es));
  }

  lemma AcceptedReachable(p: Profile, m: Message, generatedAt: Stamp)
    requires Accepted(m, generatedAt) && Fits(p, m)
    ensures Reachable(p, m, generatedAt)
  {
    AcceptedIff(m, generatedAt);
    var now := generatedAt.time;
    RowOfShows(m, now);
    var r := RowOf(m, now);
    var es := Replay(p, r);
    var start := Fresh(r);
    assert Created(start) && AllowedRun(p, start, es) && Produces(After(start, es), m, generatedAt);
  }

  /**
   The validator is sound and complete for the machine: a snapshot is producible under a profile exactly
   when it is accepted and fits the profile.
   */
  lemma ValidatorExact(p: Profile, m: Message, generatedAt: Stamp)
    ensures Reachable(p, m, generatedAt) <==> Accepted(m, generatedAt) && Fits(p, m)
  {
    if Reachable(p, m, generatedAt) { ReachableAccepted(p, m, generatedAt); }
    if Accepted(m, generatedAt) && Fits(p, m) { AcceptedReachable(p, m, generatedAt); }
  }

  // --- the delivery state never moves backwards ---

  predicate MayBecome(from: DeliveryState, to: DeliveryState) {
    match from
    case Replied => to == DeliveryState.Replied
    case Cancelled => to == DeliveryState.Cancelled
    case Expired => to == DeliveryState.Expired
    case Acknowledged => to == Acknowledged || to == DeliveryState.Replied
    case Read => to !in {DeliveryState.Queued, RecipientChanged, DeliveryState.Delivered}
    case Delivered => to !in {DeliveryState.Queued, RecipientChanged}
    case Queued => true
    case RecipientChanged => true
  }

  /** A later receipt is the earlier one, or is new and stamped at or after the earlier snapshot. */
  predicate Later(earlier: Stamp, later: Stamp, seen: int) {
    later == earlier || (earlier == Null && later.At? && seen <= later.time)
  }

  lemma SnapshotsAdvance(a: Message, b: Message, t: int, u: int)
    requires Accepted(a, At(t)) && Accepted(b, At(u)) && t <= u
    requires a.createdAt == b.createdAt && a.expiresAt == b.expiresAt
    requires a.requiresAcknowledgement == b.requiresAcknowledgement
    requires Later(a.deliveredAt, b.deliveredAt, t) && Later(a.readAt, b.readAt, t)
    requires Later(a.acknowledgedAt, b.acknowledgedAt, t) && Later(a.repliedAt, b.repliedAt, t)
    requires Later(a.cancelledAt, b.cancelledAt, t)
    ensures MayBecome(a.deliveryState, b.deliveryState)
  {
    AcceptedIff(a, At(t));
    AcceptedIff(b, At(u));
  }

  lemma StepAdvances(r: Row, e: Event)
    requires Inv(r)
    ensures MayBecome(Snapshot(r).deliveryState, Snapshot(Step(r, e)).deliveryState)
  {
  }

  /** The same along every run of the machine, at any two of its moments. */
  lemma {:induction false} RunAdvances(r: Row, es: seq<Event>)
    requires Inv(r)
    ensures MayBecome(Snapshot(r).deliveryState, Snapshot(After(r, es)).deliveryState)
  {
    if es != [] {
      var last := |es| - 1;
      RunAdvances(r, es[..last]);
      RunKeepsInv(r, es[..last]);
      StepAdvances(After(r, es[..last]), es[last]);
    }
  }

  lemma {:induction false} RunKeepsInv(r: Row, es: seq<Event>)
    requires Inv(r)
    ensures Inv(After(r, es))
  {
    if es != [] {
      RunKeepsInv(r, es[..|es| - 1]);
      StepKeeps(After(r, es[..|es| - 1]), es[|es| - 1]);
    }
  }

  // --- where the validator is wider than the current store ---

  /** Created at 0, read at 1, acknowledged at 2 and replied at 3, although it needs no acknowledgement. */
  const SPLIT_REPLY := Message(
    Recipient(Some("s"), Some("a"), Some("n"), true, true), false,
    At(0), Null, At(1), At(1), At(2), At(3), Null, Null, Replied)

  /** The validator accepts an acknowledgement stamped before its reply; a store that stamps both at once emits none. */
  lemma WiderThanTheStore()
    ensures Accepted(SPLIT_REPLY, At(3))
    ensures Reachable(Profile(false, true), SPLIT_REPLY, At(3))
    ensures !Reachable(Profile(true, false), SPLIT_REPLY, At(3))
  {
    AcceptedIff(SPLIT_REPLY, At(3));
    ValidatorExact(Profile(false, true), SPLIT_REPLY, At(3));
    ValidatorExact(Profile(true, false), SPLIT_REPLY, At(3));
  }

  /** A reply may follow expiry, but the acknowledgement it rests on may not. */
  lemma ReplyAfterExpiry(m: Message, generatedAt: Stamp)
    requires Accepted(m, generatedAt) && m.repliedAt.At? && m.expiresAt.At?
    ensures m.acknowledgedAt.At? && m.acknowledgedAt.time < m.expiresAt.time && m.deliveryState == Replied
  {
    AcceptedIff(m, generatedAt);
  }
}

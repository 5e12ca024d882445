/** Why a session's owner is told it closed (apps/gateway/src/app.ts), over whole runs: the first reason stands. */
module SessionReasons {
  import opened Results
  import opened Sequences
  import opened Sessions
  import opened SessionRuns
  import opened SessionReclaim
  import opened SessionReclaimRuns

  /** The reason this event gives for closing the entry, or for its closing later. */
  function Gives(g: Gateway, e: Event, x: nat): Option<Reason> {
    if !Enabled(g, e) then None
    else match e
      case Post(_, _, cs, _) => if Full(g) && cs != [] && cs[0] == x then Some(CapacityReclaimed) else None
      case ReclaimResumes(r) =>
        if Full(g) && g.reclaims[r].rest != [] && g.reclaims[r].rest[0] == x then Some(CapacityReclaimed) else None
      case Connects(r, succeeded, _) => if !succeeded && g.slots[r].entry == x then Some(TransportClosed) else None
      case SlotReleased(r) =>
        if g.slots[r] == Handled(x) && !EntryOf(g, x).initialized then Some(TransportClosed) else None
      case RequestStarts(_, s, delete, _) => if delete && g.sessions[s] == x then Some(ClientDelete) else None
      case Disposes(y, reason) => if y == x then Some(reason) else None
      case TransportEnds(y) => if y == x then Some(TransportClosed) else None
      case Sweep(now) => if Swept(g, x, now) then Some(IdleTimeout) else None
      case ShutdownBegins => if x in Registered(g.sessions) then Some(GatewayShutdown) else None
      case _ => None
  }

  function FirstOf(first: Option<Reason>, second: Option<Reason>): Option<Reason> {
    if first.Some? then first else second
  }

  // --- one entry ---

  /** A closed entry has a reason, and the owner was told that one. */
  predicate ReasonKnown(e: Entry) {
    && (e.closing ==> e.closeReason.Some?)
    && (e.notices != [] && e.notices[|e.notices| - 1].Closed? ==>
          e.closeReason == Some(e.notices[|e.notices| - 1].reason))
  }

  /** The entry has become this one: its reason is the first given, and what its owner was told agrees. */
  predicate Reasoned(before: Entry, after: Entry, given: Option<Reason>) {
    ReasonKnown(after) && after.closeReason == FirstOf(before.closeReason, given)
  }

  lemma NoticeReasoned(e: Entry, reason: Reason, fallback: Reason)
    requires e.closeReason == Some(reason)
    requires e.notices != [] && e.notices[|e.notices| - 1].Closed? ==> e.notices[|e.notices| - 1].reason == reason
    ensures NotifyClosed(e, fallback).closeReason == Some(reason) && ReasonKnown(NotifyClosed(e, fallback))
  {}

  lemma CloseReasoned(e: Entry, reason: Reason, changes: nat)
    requires ReasonKnown(e)
    ensures Reasoned(e, CloseEntry(e, reason, changes), Some(reason))
  {
    var named := WithReason(e, reason);
    if e.closing {
      NoticeReasoned(named, named.closeReason.value, reason);
    } else {
      NoticeReasoned(named.(closing := true, subscribed := false, closedAt := Some(changes)), named.closeReason.value,
                     reason);
    }
  }

  lemma ActivityReasoned(e: Entry, now: int)
    requires ReasonKnown(e) && (e.notices != [] && e.notices[|e.notices| - 1].Closed? ==> e.sessionClosedNotified)
    ensures Reasoned(e, BeginRequest(e, now), None) && Reasoned(e, EndRequest(e, now), None)
  {}

  lemma InitializeReasoned(e: Entry, sessionId: nat, now: int, changes: nat)
    requires ReasonKnown(e) && e.notices == []
    ensures Reasoned(e, InitializeEntry(e, sessionId, now, changes), None)
  {}

  lemma ObserveReasoned(e: Entry)
    requires ReasonKnown(e)
    ensures Reasoned(e, ObserveChange(e), None)
  {}

  lemma NamedReasoned(e: Entry)
    requires ReasonKnown(e)
    ensures Reasoned(e, WithReason(e, ClientDelete), Some(ClientDelete))
    ensures WithReason(e, ClientDelete).notices == e.notices
    ensures WithReason(e, ClientDelete).sessionClosedNotified == e.sessionClosedNotified
  {}

  // --- one step ---

  ghost predicate Known(g: Gateway) { forall x :: x in g.entries ==> ReasonKnown(g.entries[x]) }

  /** What one step makes of an entry that was there. */
  predicate StepReasoned(g: Gateway, e: Event, x: nat) {
    x in g.entries && x in Step(g, e).entries && Reasoned(g.entries[x], Step(g, e).entries[x], Gives(g, e, x))
  }

  lemma DisposeReasoned(g: Gateway, y: nat, reason: Reason, x: nat)
    requires x in g.entries && ReasonKnown(g.entries[x])
    ensures Reasoned(g.entries[x], Dispose(g, y, reason).entries[x], if x == y then Some(reason) else None)
  {
    CloseReasoned(g.entries[x], reason, g.changes);
  }

  lemma AdmissionReasoned(g: Gateway, e: Event, x: nat)
    requires x in g.entries && ReasonKnown(g.entries[x]) && (e.Post? || e.ReclaimResumes? || e.Decide?)
    ensures StepReasoned(g, e, x)
  {
    if Enabled(g, e) {
      match e
      case Post(r, y, cs, now) => if Full(g) { TurnReasoned(g, r, cs, x); } else { ClaimReasoned(g, r, y, now, x); }
      case ReclaimResumes(r) => TurnReasoned(g, r, g.reclaims[r].rest, x);
      case Decide(r, y, now) => ClaimReasoned(g, r, y, now, x);
      case _ =>
    }
  }

  lemma TurnReasoned(g: Gateway, r: nat, rest: seq<nat>, x: nat)
    requires x in g.entries && ReasonKnown(g.entries[x])
    ensures var h := ReclaimTurn(g, r, rest);
            x in h.entries && Reasoned(g.entries[x], h.entries[x],
                                       if Full(g) && rest != [] && rest[0] == x then Some(CapacityReclaimed) else None)
  {
    if rest != [] { DisposeReasoned(g, rest[0], CapacityReclaimed, x); }
  }

  lemma ClaimReasoned(g: Gateway, r: nat, y: nat, now: int, x: nat)
    requires x in g.entries && ReasonKnown(g.entries[x])
    ensures y != x ==> x in Claim(g, r, y, now).entries && Reasoned(g.entries[x], Claim(g, r, y, now).entries[x], None)
  {}

  lemma ConnectsReasoned(g: Gateway, r: nat, succeeded: bool, now: int, x: nat)
    requires x in g.entries && ReasonKnown(g.entries[x]) && EntryOk(g.entries[x], g.changes) && Held(g.slots, g.entries)
    ensures StepReasoned(g, Connects(r, succeeded, now), x)
  {
    if r in g.slots && g.slots[r].Connecting? {
      ActivityReasoned(g.entries[x], now);
      DisposeReasoned(g, g.slots[r].entry, TransportClosed, x);
    }
  }

  lemma ReturnsReasoned(g: Gateway, r: nat, now: int, x: nat)
    requires x in g.entries && ReasonKnown(g.entries[x]) && EntryOk(g.entries[x], g.changes) && Held(g.slots, g.entries)
    ensures StepReasoned(g, HandlerReturns(r, now), x)
  {
    ActivityReasoned(g.entries[x], now);
  }

  lemma ReleasedReasoned(g: Gateway, r: nat, x: nat)
    requires x in g.entries && ReasonKnown(g.entries[x])
    ensures StepReasoned(g, SlotReleased(r), x)
  {
    if Enabled(g, SlotReleased(r)) {
      var freed := g.(pendingSessionInitializations := g.pendingSessionInitializations - 1, slots := g.slots - {r});
      DisposeReasoned(freed, g.slots[r].entry, TransportClosed, x);
    }
  }

  lemma StartsReasoned(g: Gateway, q: nat, s: nat, delete: bool, now: int, x: nat)
    requires x in g.entries && ReasonKnown(g.entries[x]) && EntryOk(g.entries[x], g.changes)
    requires Linked(g.sessions, g.entries)
    ensures StepReasoned(g, RequestStarts(q, s, delete, now), x)
  {
    if s in g.sessions && q !in g.requests {
      BegunReasoned(g.entries[x], delete, now);
      assert Step(g, RequestStarts(q, s, delete, now)) == StartRequest(g, q, g.sessions[s], delete, now);
    }
  }

  lemma BegunReasoned(e: Entry, delete: bool, now: int)
    requires ReasonKnown(e) && (e.notices != [] && e.notices[|e.notices| - 1].Closed? ==> e.sessionClosedNotified)
    ensures Reasoned(e, BeginRequest(if delete then WithReason(e, ClientDelete) else e, now),
                     if delete then Some(ClientDelete) else None)
  {
    NamedReasoned(e);
    ActivityReasoned(e, now);
    ActivityReasoned(WithReason(e, ClientDelete), now);
  }

  lemma EndsReasoned(g: Gateway, q: nat, now: int, x: nat)
    requires x in g.entries && ReasonKnown(g.entries[x]) && EntryOk(g.entries[x], g.changes)
    ensures StepReasoned(g, RequestEnds(q, now), x)
  {
    ActivityReasoned(g.entries[x], now);
  }

  lemma InitializesReasoned(g: Gateway, e: Event, x: nat)
    requires x in g.entries && ReasonKnown(g.entries[x]) && EntryOk(g.entries[x], g.changes) && e.Initializes?
    ensures StepReasoned(g, e, x)
  {
    if Enabled(g, e) && x == g.slots[e.r].entry { InitializeReasoned(g.entries[x], e.sessionId, e.now, g.changes); }
  }

  lemma ClosesReasoned(g: Gateway, e: Event, x: nat)
    requires x in g.entries && ReasonKnown(g.entries[x]) && (e.Disposes? || e.TransportEnds?)
    ensures StepReasoned(g, e, x)
  {
    match e
    case Disposes(y, reason) => DisposeReasoned(g, y, reason, x);
    case TransportEnds(y) => CloseReasoned(g.entries[x], TransportClosed, g.changes);
    case _ =>
  }

  lemma SweepReasoned(g: Gateway, e: Event, x: nat)
    requires x in g.entries && ReasonKnown(g.entries[x])
    requires e.Sweep? || e.ShutdownBegins? || e.ShutdownEnds? || e.CatalogChanges?
    ensures StepReasoned(g, e, x)
  {
    match e
    case Sweep(_) => CloseReasoned(g.entries[x], IdleTimeout, g.changes);
    case ShutdownBegins => CloseReasoned(g.entries[x], GatewayShutdown, g.changes);
    case CatalogChanges => ObserveReasoned(g.entries[x]);
    case _ =>
  }

  lemma OldReasoned(g: Gateway, e: Event, x: nat)
    requires Inv(g) && x in g.entries && ReasonKnown(g.entries[x])
    ensures StepReasoned(g, e, x)
  {
    match e
    case Connects(r, succeeded, now) => ConnectsReasoned(g, r, succeeded, now, x);
    case HandlerReturns(r, now) => ReturnsReasoned(g, r, now, x);
    case SlotReleased(r) => ReleasedReasoned(g, r, x);
    case RequestStarts(q, s, delete, now) => StartsReasoned(g, q, s, delete, now, x);
    case RequestEnds(q, now) => EndsReasoned(g, q, now, x);
    case Initializes(_, _, _) => InitializesReasoned(g, e, x);
    case Post(_, _, _, _) => AdmissionReasoned(g, e, x);
    case ReclaimResumes(_) => AdmissionReasoned(g, e, x);
    case Decide(_, _, _) => AdmissionReasoned(g, e, x);
    case Disposes(_, _) => ClosesReasoned(g, e, x);
    case TransportEnds(_) => ClosesReasoned(g, e, x);
    case _ => SweepReasoned(g, e, x);
  }

  /** An entry that was not there before is new: neither closed nor told anything. */
  lemma NewReasoned(g: Gateway, e: Event, x: nat)
    requires Counted(g) && x !in g.entries && x in Step(g, e).entries
    ensures Step(g, e).entries[x].closeReason == None && ReasonKnown(Step(g, e).entries[x])
  {
    if e.Post? || e.Decide? {
      ClaimedNew(g, e, x);
    } else {
      NoneNew(g, e);
      assert false;
    }
  }

  lemma NoneNew(g: Gateway, e: Event)
    requires Counted(g) && !e.Post? && !e.Decide?
    ensures Step(g, e).entries.Keys == g.entries.Keys
  {
    if e.ReclaimResumes? {
      if Enabled(g, e) { TurnNames(g, e.r, g.reclaims[e.r].rest); }
    } else {
      EntriesNamed(g, e);
    }
  }

  lemma ClaimedNew(g: Gateway, e: Event, x: nat)
    requires (e.Post? || e.Decide?) && x !in g.entries && x in Step(g, e).entries
    ensures Step(g, e).entries[x].closeReason == None && ReasonKnown(Step(g, e).entries[x])
  {
    if e.Post? { TurnNames(g, e.r, e.candidates); }
  }

  lemma StepKnown(g: Gateway, e: Event)
    requires Inv(g) && Known(g)
    ensures Known(Step(g, e))
  {
    forall x | x in Step(g, e).entries ensures ReasonKnown(Step(g, e).entries[x]) {
      if x in g.entries { OldReasoned(g, e, x); } else { NewReasoned(g, e, x); }
    }
  }

  // --- runs ---

  /** The first reason given for the entry since it came into being, if any was. */
  function FirstReason(g: Gateway, es: seq<Event>, x: nat): Option<Reason> {
    if es == [] then None
    else
      var before := After(g, es[..|es| - 1]);
      if x !in before.entries then None
      else FirstOf(FirstReason(g, es[..|es| - 1], x), Gives(before, es[|es| - 1], x))
  }

  lemma {:induction false} RunKnown(policy: Policy, es: seq<Event>)
    ensures Inv(After(Empty(policy), es)) && Known(After(Empty(policy), es))
  {
    InitialInv(policy);
    RunKeeps(Empty(policy), es);
    if es != [] {
      RunKnown(policy, es[..|es| - 1]);
      StepKnown(After(Empty(policy), es[..|es| - 1]), es[|es| - 1]);
    }
  }

  /**
   On every run the reason an owner is told when its session closes is the first given for it: that of a delete request
   from when it began, or of the reclaim, sweep, shutdown, disposal or transport that closed the session.
   */
  lemma {:induction false} ToldFirstReason(policy: Policy, es: seq<Event>, x: nat)
    requires x in After(Empty(policy), es).entries
    ensures var e := After(Empty(policy), es).entries[x];
            && e.closeReason == FirstReason(Empty(policy), es, x)
            && (e.closing ==> e.closeReason.Some?)
            && (forall i :: 0 <= i < |e.notices| && e.notices[i].Closed? ==> Some(e.notices[i].reason) == e.closeReason)
  {
    RunKnown(policy, es);
    NoticesHold(policy, es, x);
    if es != [] {
      var before := After(Empty(policy), es[..|es| - 1]);
      RunKnown(policy, es[..|es| - 1]);
      if x in before.entries {
        ToldFirstReason(policy, es[..|es| - 1], x);
        OldReasoned(before, es[|es| - 1], x);
      } else {
        NewReasoned(before, es[|es| - 1], x);
      }
    }
  }
}

/**
 Whether what is registered is open (apps/gateway/src/app.ts).  Disposal deregisters an entry once, when it closes it; a
 session that registers an entry closed before is therefore left to the transport and to shutdown.
 */
module SessionClosing {
  import opened Results
  import opened Sequences
  import opened Sessions
  import opened SessionRuns
  import opened SessionReclaim

  predicate RegisteredOpen(g: Gateway) {
    forall s :: s in g.sessions ==> Open(g, g.sessions[s])
  }

  /** The event registers a session whose entry was closed already. */
  predicate RegistersClosed(g: Gateway, e: Event) {
    && e.Initializes? && Enabled(g, e)
    && g.entries[g.slots[e.r].entry].closing
  }

  // --- registered and open ---

  lemma DisposeOpen(g: Gateway, x: nat, reason: Reason)
    requires RegisteredOpen(g)
    ensures RegisteredOpen(Dispose(g, x, reason))
  {}

  lemma TransportOpen(g: Gateway, x: nat)
    requires RegisteredOpen(g)
    ensures RegisteredOpen(TransportCloses(g, x))
  {}

  lemma DisposeAllOpen(g: Gateway, xs: set<nat>, reason: Reason)
    requires RegisteredOpen(g)
    ensures RegisteredOpen(DisposeAll(g, xs, reason))
  {}

  lemma UpdateOpen(g: Gateway, x: nat, e: Entry)
    requires RegisteredOpen(g) && x in g.entries && e.closing == g.entries[x].closing
    ensures RegisteredOpen(Update(g, x, e))
  {}

  lemma SlotsImmaterial(g: Gateway, h: Gateway)
    requires h.entries == g.entries && h.sessions == g.sessions
    ensures RegisteredOpen(h) <==> RegisteredOpen(g)
  {}

  lemma ClaimOpen(g: Gateway, r: nat, x: nat, now: int)
    requires RegisteredOpen(g) && x !in g.entries
    ensures RegisteredOpen(Claim(g, r, x, now))
  {}

  lemma TurnOpen(g: Gateway, r: nat, rest: seq<nat>)
    requires RegisteredOpen(g)
    ensures RegisteredOpen(ReclaimTurn(g, r, rest))
  {
    if rest != [] {
      DisposeOpen(g, rest[0], CapacityReclaimed);
      SlotsImmaterial(Dispose(g, rest[0], CapacityReclaimed),
                      Dispose(g, rest[0], CapacityReclaimed).(reclaims := g.reclaims[r := Reclaiming(rest[1..])]));
    }
  }

  lemma AdmissionOpen(g: Gateway, e: Event)
    requires RegisteredOpen(g) && (e.Post? || e.ReclaimResumes? || e.Decide?)
    ensures RegisteredOpen(Step(g, e))
  {
    if Enabled(g, e) {
      match e
      case Post(r, x, cs, now) => if Full(g) { TurnOpen(g, r, cs); } else { ClaimOpen(g, r, x, now); }
      case ReclaimResumes(r) => TurnOpen(g, r, g.reclaims[r].rest);
      case Decide(r, x, now) => if !Full(g) { ClaimOpen(g, r, x, now); }
      case _ =>
    }
  }

  lemma ConnectsOpen(g: Gateway, r: nat, succeeded: bool, now: int)
    requires RegisteredOpen(g) && Held(g.slots, g.entries)
    ensures RegisteredOpen(Step(g, Connects(r, succeeded, now)))
  {
    var e := Connects(r, succeeded, now);
    if Enabled(g, e) {
      var x := g.slots[r].entry;
      if succeeded {
        UpdateOpen(g, x, BeginRequest(EntryOf(g, x), now));
        SlotsImmaterial(Update(g, x, BeginRequest(EntryOf(g, x), now)), Step(g, e));
      } else {
        DisposeOpen(g, x, TransportClosed);
        SlotsImmaterial(Dispose(g, x, TransportClosed), Step(g, e));
      }
    }
  }

  lemma ReturnsOpen(g: Gateway, r: nat, now: int)
    requires RegisteredOpen(g) && Held(g.slots, g.entries)
    ensures RegisteredOpen(Step(g, HandlerReturns(r, now)))
  {
    var e := HandlerReturns(r, now);
    if Enabled(g, e) {
      var x := g.slots[r].entry;
      UpdateOpen(g, x, EndRequest(EntryOf(g, x), now));
      SlotsImmaterial(Update(g, x, EndRequest(EntryOf(g, x), now)), Step(g, e));
    }
  }

  lemma ReleasedOpen(g: Gateway, r: nat)
    requires RegisteredOpen(g)
    ensures RegisteredOpen(Step(g, SlotReleased(r)))
  {
    if Enabled(g, SlotReleased(r)) {
      var freed := g.(pendingSessionInitializations := g.pendingSessionInitializations - 1, slots := g.slots - {r});
      SlotsImmaterial(g, freed);
      DisposeOpen(freed, g.slots[r].entry, TransportClosed);
    }
  }

  lemma RequestOpen(g: Gateway, e: Event)
    requires RegisteredOpen(g) && (e.RequestStarts? || e.RequestEnds?)
    ensures RegisteredOpen(Step(g, e))
  {}

  lemma InitializesOpen(g: Gateway, e: Event)
    requires RegisteredOpen(g) && e.Initializes?
    ensures RegisteredOpen(Step(g, e)) <==> !RegistersClosed(g, e)
  {
    if Enabled(g, e) {
      var x, h := g.slots[e.r].entry, Step(g, e);
      assert h.entries[x].closing == g.entries[x].closing;
      assert e.sessionId in h.sessions && h.sessions[e.sessionId] == x;
    }
  }

  lemma ClosingOpen(g: Gateway, e: Event)
    requires RegisteredOpen(g)
    requires e.Disposes? || e.TransportEnds? || e.Sweep? || e.CatalogChanges? || e.ShutdownBegins? || e.ShutdownEnds?
    ensures RegisteredOpen(Step(g, e))
  {
    match e
    case Disposes(x, reason) => DisposeOpen(g, x, reason);
    case TransportEnds(x) => TransportOpen(g, x);
    case Sweep(now) => DisposeAllOpen(g, SweptSet(g, now), IdleTimeout);
    case ShutdownBegins => DisposeAllOpen(g, Registered(g.sessions), GatewayShutdown);
    case _ =>
  }

  lemma StepOpen(g: Gateway, e: Event)
    requires RegisteredOpen(g) && Counted(g)
    ensures RegisteredOpen(Step(g, e)) <==> !RegistersClosed(g, e)
  {
    match e
    case Initializes(_, _, _) => InitializesOpen(g, e);
    case Connects(r, succeeded, now) => ConnectsOpen(g, r, succeeded, now);
    case HandlerReturns(r, now) => ReturnsOpen(g, r, now);
    case SlotReleased(r) => ReleasedOpen(g, r);
    case RequestStarts(_, _, _, _) => RequestOpen(g, e);
    case RequestEnds(_, _) => RequestOpen(g, e);
    case Post(_, _, _, _) => AdmissionOpen(g, e);
    case ReclaimResumes(_) => AdmissionOpen(g, e);
    case Decide(_, _, _) => AdmissionOpen(g, e);
    case _ => ClosingOpen(g, e);
  }

  function RegistersOpen(g: Gateway): (seq<Event>, Event) -> bool {
    (before, e) => !RegistersClosed(After(g, before), e)
  }

  /** Registered sessions are open at every moment of the run. */
  predicate OpenThroughout(g: Gateway, es: seq<Event>) {
    RegisteredOpen(After(g, es)) && (es != [] ==> OpenThroughout(g, es[..|es| - 1]))
  }

  lemma {:induction false} OpenAt(g: Gateway, es: seq<Event>)
    ensures OpenThroughout(g, es) <==> forall i :: 0 <= i <= |es| ==> RegisteredOpen(After(g, es[..i]))
  {
    assert es[..|es|] == es;
    if es != [] {
      var front := es[..|es| - 1];
      OpenAt(g, front);
      assert forall i :: 0 <= i <= |front| ==> front[..i] == es[..i];
    }
  }

  lemma {:induction false} OpenWhile(g: Gateway, es: seq<Event>)
    requires Inv(g) && RegisteredOpen(g)
    ensures OpenThroughout(g, es) <==> Everywhere(es, RegistersOpen(g))
  {
    if es != [] {
      var front := es[..|es| - 1];
      OpenWhile(g, front);
      EverywhereLast(es, RegistersOpen(g));
      RunKeeps(g, front);
      if OpenThroughout(g, front) { StepOpen(After(g, front), es[|es| - 1]); }
    }
  }

  /**
   On every run, whatever interleaves: every registered session is open at every moment if and only if no session ever
   registers an entry that was closed before.
   */
  lemma OpenExactly(policy: Policy, es: seq<Event>)
    ensures (forall i :: 0 <= i <= |es| ==> RegisteredOpen(After(Empty(policy), es[..i])))
            <==> Everywhere(es, RegistersOpen(Empty(policy)))
  {
    InitialInv(policy);
    OpenAt(Empty(policy), es);
    OpenWhile(Empty(policy), es);
  }

  // --- registered but closed ---

  /** Some session leads to the entry, and the entry is closed. */
  predicate LeftBehind(g: Gateway, x: nat) {
    x in Registered(g.sessions) && x in g.entries && g.entries[x].closing
  }

  /** What alone deregisters such an entry. */
  predicate Clears(e: Event, x: nat) { e == TransportEnds(x) || e.ShutdownEnds? }

  lemma StaysRegistered(g: Gateway, h: Gateway, x: nat)
    requires x in Registered(g.sessions)
    requires forall s :: s in g.sessions && g.sessions[s] == x ==> s in h.sessions && h.sessions[s] == x
    ensures x in Registered(h.sessions)
  {
    var s :| s in g.sessions && g.sessions[s] == x;
    assert s in h.sessions && h.sessions[s] == x;
  }

  lemma AdmissionLeaves(g: Gateway, e: Event, x: nat)
    requires LeftBehind(g, x) && (e.Post? || e.ReclaimResumes? || e.Decide?)
    ensures LeftBehind(Step(g, e), x)
  {
    StaysRegistered(g, Step(g, e), x);
  }

  lemma SlotLeaves(g: Gateway, e: Event, x: nat)
    requires LeftBehind(g, x) && Held(g.slots, g.entries) && (e.Connects? || e.HandlerReturns? || e.SlotReleased?)
    ensures LeftBehind(Step(g, e), x)
  {
    StaysRegistered(g, Step(g, e), x);
  }

  lemma SessionLeaves(g: Gateway, e: Event, x: nat)
    requires LeftBehind(g, x) && Linked(g.sessions, g.entries)
    requires e.Initializes? || e.RequestStarts? || e.RequestEnds?
    ensures LeftBehind(Step(g, e), x)
  {
    StaysRegistered(g, Step(g, e), x);
  }

  lemma ClosingLeaves(g: Gateway, e: Event, x: nat)
    requires LeftBehind(g, x) && !Clears(e, x) && (e.Disposes? || e.TransportEnds?)
    ensures LeftBehind(Step(g, e), x)
  {
    StaysRegistered(g, Step(g, e), x);
  }

  lemma SweepLeaves(g: Gateway, e: Event, x: nat)
    requires LeftBehind(g, x) && (e.Sweep? || e.CatalogChanges? || e.ShutdownBegins?)
    ensures LeftBehind(Step(g, e), x)
  {
    StaysRegistered(g, Step(g, e), x);
  }

  lemma StepLeaves(g: Gateway, e: Event, x: nat)
    requires LeftBehind(g, x) && Counted(g) && !Clears(e, x)
    ensures LeftBehind(Step(g, e), x)
  {
    if e.Post? || e.ReclaimResumes? || e.Decide? {
      AdmissionLeaves(g, e, x);
    } else if e.Connects? || e.HandlerReturns? || e.SlotReleased? {
      SlotLeaves(g, e, x);
    } else if e.Initializes? || e.RequestStarts? || e.RequestEnds? {
      SessionLeaves(g, e, x);
    } else if e.Disposes? || e.TransportEnds? {
      ClosingLeaves(g, e, x);
    } else {
      SweepLeaves(g, e, x);
    }
  }

  lemma Cleared(g: Gateway, e: Event, x: nat)
    requires Clears(e, x) && x in g.entries
    ensures !LeftBehind(Step(g, e), x)
  {}

  /**
   A session left behind is deregistered by its transport closing once more or by the end of shutdown, and by nothing
   else: not by disposal, reclaim, the idle sweep or the beginning of shutdown.
   */
  lemma {:induction false} LeftBehindUntilCleared(g: Gateway, es: seq<Event>, x: nat)
    requires Inv(g) && LeftBehind(g, x) && forall e :: e in es ==> !Clears(e, x)
    ensures LeftBehind(After(g, es), x)
    ensures forall e | Clears(e, x) :: !LeftBehind(Step(After(g, es), e), x)
  {
    if es != [] {
      var front := es[..|es| - 1];
      assert forall e :: e in front ==> e in es;
      assert es[|es| - 1] in es;
      LeftBehindUntilCleared(g, front, x);
      RunKeeps(g, front);
      StepLeaves(After(g, front), es[|es| - 1], x);
    }
    forall e | Clears(e, x) ensures !LeftBehind(Step(After(g, es), e), x) { Cleared(After(g, es), e, x); }
  }

  // --- an input ---

  const CLOSED_EARLY: seq<Event> :=
    [Post(0, 0, [], 0), Connects(0, true, 0), TransportEnds(0), Initializes(0, 7, 0)]

  /** The transport of an entry closes before its session registers. */
  lemma ClosedEarly(policy: Policy)
    requires policy.maxSessions >= 1
    ensures LeftBehind(After(Empty(policy), CLOSED_EARLY), 0)
  {
    var g, es := Empty(policy), CLOSED_EARLY;
    var a := Step(g, es[0]);
    assert a == Gateway(policy, map[0 := NewEntry(0, 0)], map[], 1, map[0 := Connecting(0)], map[], 0, map[]);
    var begun := BeginRequest(NewEntry(0, 0), 0);
    var b := Step(a, es[1]);
    assert b == Gateway(policy, map[0 := begun], map[], 1, map[0 := Handling(0)], map[], 0, map[]);
    var closed := CloseEntry(begun, TransportClosed, 0);
    var c := Step(b, es[2]);
    assert c == Gateway(policy, map[0 := closed], map[], 1, map[0 := Handling(0)], map[], 0, map[]);
    AfterFour(g, es[0], es[1], es[2], es[3]);
    var d := Step(c, es[3]);
    assert 7 in d.sessions && d.sessions[7] == 0;
  }
}

/**
 The request count of a session entry against the requests in progress on it (apps/gateway/src/app.ts), and what the
 reclaim scan and the idle sweep therefore never touch.
 */
module SessionRequests {
  import opened Results
  import opened Sequences
  import opened Sessions
  import opened SessionRuns
  import opened SessionReclaim
  import opened SessionReclaimRuns

  function Under(requests: map<nat, nat>, x: nat): set<nat> { set q | q in requests && requests[q] == x }

  function HandledFor(slots: map<nat, Slot>, x: nat): set<nat> { set r | r in slots && slots[r] == Handling(x) }

  /** The requests on a registered session that have begun and not ended. */
  function Running(g: Gateway, x: nat): set<nat> { Under(g.requests, x) }

  /** The initialise request, while its handler runs. */
  function Initialising(g: Gateway, x: nat): set<nat> { HandledFor(g.slots, x) }

  function InProgress(g: Gateway, x: nat): nat { |Running(g, x)| + |Initialising(g, x)| }

  predicate TallyAt(g: Gateway, x: nat) {
    x in g.entries ==> g.entries[x].activeRequestCount == InProgress(g, x)
  }

  ghost predicate Carried(g: Gateway) { forall q :: q in g.requests ==> g.requests[q] in g.entries }

  ghost predicate Tally(g: Gateway) { Carried(g) && forall x :: x in g.entries ==> TallyAt(g, x) }

  // --- what the steps do to requests, slots and counts ---

  /** The step keeps the requests, and no handler starts or returns. */
  predicate SameRequests(g: Gateway, h: Gateway, x: nat) {
    Running(h, x) == Running(g, x) && Initialising(h, x) == Initialising(g, x)
  }

  lemma SameTally(g: Gateway, h: Gateway, x: nat)
    requires TallyAt(g, x) && SameRequests(g, h, x) && x in g.entries && x in h.entries
    requires h.entries[x].activeRequestCount == g.entries[x].activeRequestCount
    ensures TallyAt(h, x)
  {}

  lemma CloseKeepsCount(e: Entry, reason: Reason, changes: nat)
    ensures CloseEntry(e, reason, changes).activeRequestCount == e.activeRequestCount
  {
    CloseKeepsActivity(e, reason, changes);
  }

  lemma DisposeTally(g: Gateway, y: nat, reason: Reason, x: nat)
    requires TallyAt(g, x) && x in g.entries
    ensures TallyAt(Dispose(g, y, reason), x)
  {
    CloseKeepsCount(g.entries[x], reason, g.changes);
    assert SameRequests(g, Dispose(g, y, reason), x);
  }

  lemma TransportTally(g: Gateway, y: nat, x: nat)
    requires TallyAt(g, x) && x in g.entries
    ensures TallyAt(TransportCloses(g, y), x)
  {
    CloseKeepsCount(g.entries[x], TransportClosed, g.changes);
    assert SameRequests(g, TransportCloses(g, y), x);
  }

  lemma DisposeAllTally(g: Gateway, xs: set<nat>, reason: Reason, x: nat)
    requires TallyAt(g, x) && x in g.entries
    ensures TallyAt(DisposeAll(g, xs, reason), x)
  {
    CloseKeepsCount(g.entries[x], reason, g.changes);
    assert SameRequests(g, DisposeAll(g, xs, reason), x);
  }

  lemma ClaimTally(g: Gateway, r: nat, y: nat, now: int, x: nat)
    requires Carried(g) && Held(g.slots, g.entries) && r !in g.slots && y !in g.entries && TallyAt(g, x)
    ensures TallyAt(Claim(g, r, y, now), x)
  {
    var h := Claim(g, r, y, now);
    assert SameRequests(g, h, x);
    if x == y {
      assert Running(h, x) == {} && Initialising(h, x) == {};
    }
  }

  lemma TurnTally(g: Gateway, r: nat, rest: seq<nat>, x: nat)
    requires TallyAt(g, x) && x in g.entries
    ensures TallyAt(ReclaimTurn(g, r, rest), x)
  {
    var h := ReclaimTurn(g, r, rest);
    assert SameRequests(g, h, x);
    if rest != [] && rest[0] in g.entries { CloseKeepsCount(g.entries[rest[0]], CapacityReclaimed, g.changes); }
  }

  lemma AdmissionTally(g: Gateway, e: Event, x: nat)
    requires Carried(g) && Held(g.slots, g.entries) && TallyAt(g, x) && x in Step(g, e).entries
    requires e.Post? || e.ReclaimResumes? || e.Decide?
    ensures TallyAt(Step(g, e), x)
  {
    if Enabled(g, e) {
      match e
      case Post(r, y, cs, now) =>
        if Full(g) { TurnNames(g, r, cs); TurnTally(g, r, cs, x); } else { ClaimTally(g, r, y, now, x); }
      case ReclaimResumes(r) => TurnNames(g, r, g.reclaims[r].rest); TurnTally(g, r, g.reclaims[r].rest, x);
      case Decide(r, y, now) =>
        if Full(g) { SameTally(g, Step(g, e), x); } else { ClaimTally(g, r, y, now, x); }
      case _ =>
    }
  }

  lemma BeginCounts(e: Entry, now: int)
    ensures BeginRequest(e, now).activeRequestCount == e.activeRequestCount + 1
    ensures e.activeRequestCount >= 1 ==> EndRequest(e, now).activeRequestCount == e.activeRequestCount - 1
  {}

  lemma NamingKeepsCount(e: Entry, reason: Reason)
    ensures WithReason(e, reason).activeRequestCount == e.activeRequestCount
  {}

  lemma OneMoreUnder(requests: map<nat, nat>, q: nat, y: nat, x: nat)
    requires q !in requests
    ensures |Under(requests[q := y], x)| == |Under(requests, x)| + if x == y then 1 else 0
  {
    assert Under(requests[q := y], x) == Under(requests, x) + if x == y then {q} else {};
    assert q !in Under(requests, x);
  }

  lemma OneFewerUnder(requests: map<nat, nat>, q: nat, x: nat)
    requires q in requests
    ensures |Under(requests, x)| == |Under(requests - {q}, x)| + if x == requests[q] then 1 else 0
  {
    assert Under(requests, x) == Under(requests - {q}, x) + if x == requests[q] then {q} else {};
    assert q !in Under(requests - {q}, x);
  }

  lemma OneMoreHandled(slots: map<nat, Slot>, r: nat, y: nat, x: nat)
    requires r in slots && !slots[r].Handling?
    ensures |HandledFor(slots[r := Handling(y)], x)| == |HandledFor(slots, x)| + if x == y then 1 else 0
  {
    assert HandledFor(slots[r := Handling(y)], x) == HandledFor(slots, x) + if x == y then {r} else {};
    assert r !in HandledFor(slots, x);
  }

  lemma OneFewerHandled(slots: map<nat, Slot>, r: nat, y: nat, x: nat)
    requires r in slots && slots[r] == Handling(y)
    ensures |HandledFor(slots, x)| == |HandledFor(slots[r := Handled(y)], x)| + if x == y then 1 else 0
  {
    assert HandledFor(slots, x) == HandledFor(slots[r := Handled(y)], x) + if x == y then {r} else {};
    assert r !in HandledFor(slots[r := Handled(y)], x);
  }

  /** A step whose parts are known: requests, slots, and one entry's new value. */
  predicate Moves(g: Gateway, h: Gateway, requests: map<nat, nat>, slots: map<nat, Slot>, y: nat, e: Entry) {
    h.requests == requests && h.slots == slots && h.entries == g.entries[y := e]
  }

  lemma MovesTally(g: Gateway, h: Gateway, y: nat, e: Entry, x: nat)
    requires TallyAt(g, x) && x in g.entries && y in g.entries && Moves(g, h, h.requests, h.slots, y, e)
    requires InProgress(h, x) - InProgress(g, x)
             == (if x == y then e.activeRequestCount - g.entries[y].activeRequestCount else 0)
    ensures TallyAt(h, x)
  {}

  lemma ConnectsTally(g: Gateway, r: nat, succeeded: bool, now: int, x: nat)
    requires Held(g.slots, g.entries) && TallyAt(g, x) && x in g.entries
    ensures TallyAt(Step(g, Connects(r, succeeded, now)), x)
  {
    if r in g.slots && g.slots[r].Connecting? {
      if succeeded { ConnectedTally(g, r, now, x); } else { FailedTally(g, r, now, x); }
    }
  }

  lemma ConnectedTally(g: Gateway, r: nat, now: int, x: nat)
    requires Held(g.slots, g.entries) && TallyAt(g, x) && x in g.entries && r in g.slots && g.slots[r].Connecting?
    ensures TallyAt(Step(g, Connects(r, true, now)), x)
  {
    var h, y := Step(g, Connects(r, true, now)), g.slots[r].entry;
    var e := BeginRequest(g.entries[y], now);
    assert Moves(g, h, g.requests, g.slots[r := Handling(y)], y, e);
    BeginCounts(g.entries[y], now);
    OneMoreHandled(g.slots, r, y, x);
    MovesTally(g, h, y, e, x);
  }

  lemma FailedTally(g: Gateway, r: nat, now: int, x: nat)
    requires Held(g.slots, g.entries) && TallyAt(g, x) && x in g.entries && r in g.slots && g.slots[r].Connecting?
    ensures TallyAt(Step(g, Connects(r, false, now)), x)
  {
    var h, y := Step(g, Connects(r, false, now)), g.slots[r].entry;
    var e := CloseEntry(g.entries[y], TransportClosed, g.changes);
    assert Moves(g, h, g.requests, g.slots[r := ConnectFailed(y)], y, e);
    CloseKeepsCount(g.entries[y], TransportClosed, g.changes);
    assert HandledFor(h.slots, x) == HandledFor(g.slots, x);
    MovesTally(g, h, y, e, x);
  }

  lemma ReturnsTally(g: Gateway, r: nat, now: int, x: nat)
    requires Held(g.slots, g.entries) && TallyAt(g, x) && x in g.entries
    requires r in g.slots && g.slots[r].Handling? ==> TallyAt(g, g.slots[r].entry)
    ensures TallyAt(Step(g, HandlerReturns(r, now)), x)
  {
    if r in g.slots && g.slots[r].Handling? {
      var h, y := Step(g, HandlerReturns(r, now)), g.slots[r].entry;
      var e := EndRequest(g.entries[y], now);
      assert Moves(g, h, g.requests, g.slots[r := Handled(y)], y, e);
      OneFewerHandled(g.slots, r, y, x);
      OneFewerHandled(g.slots, r, y, y);
      BeginCounts(g.entries[y], now);
      MovesTally(g, h, y, e, x);
    }
  }

  lemma ReleasedTally(g: Gateway, r: nat, x: nat)
    requires TallyAt(g, x) && x in g.entries
    ensures TallyAt(Step(g, SlotReleased(r)), x)
  {
    if Enabled(g, SlotReleased(r)) {
      var freed := g.(pendingSessionInitializations := g.pendingSessionInitializations - 1, slots := g.slots - {r});
      assert SameRequests(g, freed, x);
      DisposeTally(freed, g.slots[r].entry, TransportClosed, x);
    }
  }

  lemma StartsTally(g: Gateway, q: nat, s: nat, delete: bool, now: int, x: nat)
    requires Linked(g.sessions, g.entries) && TallyAt(g, x) && x in g.entries
    ensures TallyAt(Step(g, RequestStarts(q, s, delete, now)), x)
  {
    if s in g.sessions && q !in g.requests {
      var h, y := Step(g, RequestStarts(q, s, delete, now)), g.sessions[s];
      var named := if delete then WithReason(g.entries[y], ClientDelete) else g.entries[y];
      var e := BeginRequest(named, now);
      assert Moves(g, h, g.requests[q := y], g.slots, y, e);
      OneMoreUnder(g.requests, q, y, x);
      NamingKeepsCount(g.entries[y], ClientDelete);
      BeginCounts(named, now);
      MovesTally(g, h, y, e, x);
    }
  }

  lemma EndsTally(g: Gateway, q: nat, now: int, x: nat)
    requires TallyAt(g, x) && x in g.entries
    requires q in g.requests ==> TallyAt(g, g.requests[q])
    ensures TallyAt(Step(g, RequestEnds(q, now)), x)
  {
    if q in g.requests && g.requests[q] in g.entries {
      var h, y := Step(g, RequestEnds(q, now)), g.requests[q];
      var e := EndRequest(g.entries[y], now);
      assert Moves(g, h, g.requests - {q}, g.slots, y, e);
      OneFewerUnder(g.requests, q, x);
      OneFewerUnder(g.requests, q, y);
      BeginCounts(g.entries[y], now);
      MovesTally(g, h, y, e, x);
    }
  }

  lemma InitializesTally(g: Gateway, e: Event, x: nat)
    requires TallyAt(g, x) && x in g.entries && e.Initializes?
    ensures TallyAt(Step(g, e), x)
  {
    SameTally(g, Step(g, e), x);
  }

  lemma ObservesTally(g: Gateway, x: nat)
    requires TallyAt(g, x) && x in g.entries
    ensures TallyAt(Step(g, CatalogChanges), x)
  {
    SameTally(g, Step(g, CatalogChanges), x);
  }

  lemma ClosingTally(g: Gateway, e: Event, x: nat)
    requires TallyAt(g, x) && x in g.entries
    requires e.Disposes? || e.TransportEnds? || e.Sweep? || e.ShutdownBegins? || e.ShutdownEnds?
    ensures TallyAt(Step(g, e), x)
  {
    match e
    case Disposes(y, reason) => DisposeTally(g, y, reason, x);
    case TransportEnds(y) => TransportTally(g, y, x);
    case Sweep(now) => DisposeAllTally(g, SweptSet(g, now), IdleTimeout, x);
    case ShutdownBegins => DisposeAllTally(g, Registered(g.sessions), GatewayShutdown, x);
    case _ => SameTally(g, Step(g, e), x);
  }

  lemma StepTallyAt(g: Gateway, e: Event, x: nat)
    requires Counted(g) && Tally(g) && TallyAt(g, x) && x in Step(g, e).entries
    ensures TallyAt(Step(g, e), x)
  {
    if e.Post? || e.ReclaimResumes? || e.Decide? {
      AdmissionTally(g, e, x);
    } else {
      EntriesNamed(g, e);
      match e
      case Connects(r, succeeded, now) => ConnectsTally(g, r, succeeded, now, x);
      case HandlerReturns(r, now) => ReturnsTally(g, r, now, x);
      case SlotReleased(r) => ReleasedTally(g, r, x);
      case RequestStarts(q, s, delete, now) => StartsTally(g, q, s, delete, now, x);
      case RequestEnds(q, now) => EndsTally(g, q, now, x);
      case Initializes(_, _, _) => InitializesTally(g, e, x);
      case CatalogChanges => ObservesTally(g, x);
      case _ => ClosingTally(g, e, x);
    }
  }

  // --- requests belong to entries ---

  lemma AdmissionCarries(g: Gateway, e: Event)
    requires Carried(g) && (e.Post? || e.ReclaimResumes? || e.Decide?)
    ensures Carried(Step(g, e))
  {
    if Enabled(g, e) {
      match e
      case Post(r, _, cs, _) => TurnNames(g, r, cs);
      case ReclaimResumes(r) => TurnNames(g, r, g.reclaims[r].rest);
      case _ =>
    }
  }

  lemma SlotRequests(g: Gateway, e: Event)
    requires e.Connects? || e.HandlerReturns? || e.SlotReleased? || e.Initializes?
    ensures Step(g, e).requests == g.requests
  {}

  lemma ClosingRequests(g: Gateway, e: Event)
    requires e.Disposes? || e.TransportEnds? || e.Sweep? || e.ShutdownBegins? || e.ShutdownEnds? || e.CatalogChanges?
    ensures Step(g, e).requests == g.requests
  {}

  lemma RequestCarries(g: Gateway, e: Event)
    requires Linked(g.sessions, g.entries) && Carried(g) && (e.RequestStarts? || e.RequestEnds?)
    ensures Carried(Step(g, e))
  {}

  lemma StepCarries(g: Gateway, e: Event)
    requires Counted(g) && Carried(g)
    ensures Carried(Step(g, e))
  {
    if e.Post? || e.ReclaimResumes? || e.Decide? {
      AdmissionCarries(g, e);
    } else {
      EntriesNamed(g, e);
      if e.RequestStarts? || e.RequestEnds? {
        RequestCarries(g, e);
      } else if e.Connects? || e.HandlerReturns? || e.SlotReleased? || e.Initializes? {
        SlotRequests(g, e);
      } else {
        ClosingRequests(g, e);
      }
    }
  }

  lemma StepTally(g: Gateway, e: Event)
    requires Counted(g) && Tally(g)
    ensures Tally(Step(g, e))
  {
    StepCarries(g, e);
    forall x | x in Step(g, e).entries ensures TallyAt(Step(g, e), x) {
      StepTallyAt(g, e, x);
    }
  }

  /** On every run, whatever interleaves: each entry's count is the number of requests in progress on it. */
  lemma {:induction false} RequestsCounted(policy: Policy, es: seq<Event>)
    ensures Tally(After(Empty(policy), es))
  {
    if es != [] {
      var front := es[..|es| - 1];
      RequestsCounted(policy, front);
      InitialInv(policy);
      RunKeeps(Empty(policy), front);
      StepTally(After(Empty(policy), front), es[|es| - 1]);
    }
  }

  // --- who is idle ---

  /** Registered, open, and no request in progress. */
  predicate Quiet(g: Gateway, x: nat) { x in Registered(g.sessions) && Open(g, x) && InProgress(g, x) == 0 }

  /**
   On every run the reclaim scan takes exactly the sessions without a request in progress whose last activity is a
   reclaim period old, and the idle sweep those whose last activity is longer ago than the idle timeout.
   */
  lemma IdleExactly(policy: Policy, es: seq<Event>, x: nat, now: int)
    ensures var g := After(Empty(policy), es);
            && (Reclaimable(g, x, now)
                <==> Quiet(g, x) && now - g.entries[x].lastActivityAt >= policy.capacityReclaimIdleMs)
            && (Swept(g, x, now)
                <==> Quiet(g, x) && now - g.entries[x].lastActivityAt > policy.sessionIdleTimeoutMs)
  {
    RequestsCounted(policy, es);
    InitialInv(policy);
    RunKeeps(Empty(policy), es);
    var g := After(Empty(policy), es);
    if x in g.entries { assert TallyAt(g, x); }
  }

  /** So the order a scan takes holds exactly those, once each, least recently active first, and none that is busy. */
  lemma ScanExactly(policy: Policy, es: seq<Event>, cs: seq<nat>, now: int, x: nat, i: nat, j: nat)
    requires CandidateOrder(After(Empty(policy), es), cs, now)
    ensures var g := After(Empty(policy), es);
            && (x in cs <==> Quiet(g, x) && now - g.entries[x].lastActivityAt >= policy.capacityReclaimIdleMs)
            && (InProgress(g, x) > 0 ==> x !in cs)
            && (i < j < |cs| ==>
                  && cs[i] != cs[j] && cs[i] in g.entries && cs[j] in g.entries
                  && g.entries[cs[i]].lastActivityAt <= g.entries[cs[j]].lastActivityAt)
  {
    IdleExactly(policy, es, x, now);
  }

  /** The sweep closes and deregisters an open session exactly if it is quiet for long enough, and leaves all others. */
  lemma SweepExactly(policy: Policy, es: seq<Event>, x: nat, now: int)
    requires Open(After(Empty(policy), es), x) && x in Registered(After(Empty(policy), es).sessions)
    ensures var g := After(Empty(policy), es);
            var h := Step(g, Sweep(now));
            if InProgress(g, x) == 0 && now - g.entries[x].lastActivityAt > policy.sessionIdleTimeoutMs
            then !Open(h, x) && x !in Registered(h.sessions)
            else x in h.entries && h.entries[x] == g.entries[x] && x in Registered(h.sessions)
  {
    var g := After(Empty(policy), es);
    IdleExactly(policy, es, x, now);
    SweepEffect(g, x, now);
  }

  lemma SweepEffect(g: Gateway, x: nat, now: int)
    requires Open(g, x) && x in Registered(g.sessions)
    ensures var h := Step(g, Sweep(now));
            if Swept(g, x, now) then !Open(h, x) && x !in Registered(h.sessions)
            else x in h.entries && h.entries[x] == g.entries[x] && x in Registered(h.sessions)
  {
    var h := Step(g, Sweep(now));
    if Swept(g, x, now) {
      CloseCloses(g.entries[x], IdleTimeout, g.changes);
    } else {
      var s :| s in g.sessions && g.sessions[s] == x;
      assert s in h.sessions && h.sessions[s] == x;
    }
  }

  lemma CloseCloses(e: Entry, reason: Reason, changes: nat)
    ensures CloseEntry(e, reason, changes).closing
  {}

  /**
   At the clock of its own turn a candidate still registered and open is reclaimable if and only if no request began or
   ended on it since the scan, or none is in progress and the last that began or ended did so a reclaim period ago.
   */
  lemma IdleAtTurnExactly(policy: Policy, before: seq<Event>, es: seq<Event>, x: nat, now: int, later: int)
    requires Reclaimable(After(Empty(policy), before), x, now) && now <= later
    requires Open(After(Empty(policy), before + es), x) && x in Registered(After(Empty(policy), before + es).sessions)
    ensures var g, h := After(Empty(policy), before), After(Empty(policy), before + es);
            Reclaimable(h, x, later)
            <==> match LastTouch(g, es, x)
                 case None => true
                 case Some(last) => InProgress(h, x) == 0 && last <= later - policy.capacityReclaimIdleMs
  {
    var g := After(Empty(policy), before);
    InitialInv(policy);
    RunKeeps(Empty(policy), before);
    AfterBoth(Empty(policy), before, es);
    IdleAtTurn(g, es, x, now, later);
    RequestsCounted(policy, before + es);
    assert TallyAt(After(Empty(policy), before + es), x);
  }
}

/**
 The Gateway's MCP sessions (apps/gateway/src/app.ts): capacity accounting across awaits, idle
 reclaim, the dispose and close lifecycle, and catalog-change delivery.  Every step below runs without
 an intervening await; a request that is between steps is recorded in `slots` or `reclaims`.
 */
module Sessions {
  import opened Results

  datatype Reason = CapacityReclaimed | IdleTimeout | TransportClosed | ClientDelete | GatewayShutdown

  /** What a session's owner and client are told. */
  datatype Notice = Activity | Closed(reason: Reason) | ListChanged

  datatype Entry = Entry(
    sessionId: Option<nat>,
    lastActivityAt: int,
    activeRequestCount: int,
    initialized: bool,
    catalogChangePending: bool,
    subscribed: bool,
    closing: bool,
    closeReason: Option<Reason>,
    sessionClosedNotified: bool,
    notices: seq<Notice>,             // history
    subscribedAt: nat,                // history: catalog changes published before subscription,
    initializedAt: Option<nat>,       //   before initialisation
    closedAt: Option<nat>)            //   and before closing

  /** An initialise request past admission: its entry, and how far the handler is. */
  datatype Slot = Connecting(entry: nat) | ConnectFailed(entry: nat) | Handling(entry: nat) | Handled(entry: nat)

  /** An initialise request that found no capacity: candidates left to evict, or about to check again. */
  datatype Reclaim = Reclaiming(rest: seq<nat>) | Deciding

  datatype Policy = Policy(maxSessions: nat, capacityReclaimIdleMs: nat, sessionIdleTimeoutMs: nat)

  datatype Gateway = Gateway(
    policy: Policy,
    entries: map<nat, Entry>,         // every entry ever created, by identity
    sessions: map<nat, nat>,          // session id -> entry
    pendingSessionInitializations: int,
    slots: map<nat, Slot>,
    reclaims: map<nat, Reclaim>,
    changes: nat,                     // history: catalog changes published,
    requests: map<nat, nat>)          //   and requests in progress on a session, each with its entry

  function Empty(policy: Policy): Gateway {
    Gateway(policy, map[], map[], 0, map[], map[], 0, map[])
  }

  // --- one entry ---

  function NewEntry(now: int, changes: nat): Entry {
    Entry(None, now, 0, false, false, true, false, None, false, [], changes, None, None)
  }

  function NotifyActivity(e: Entry): Entry {
    if e.sessionId.None? || e.sessionClosedNotified then e
    else e.(notices := e.notices + [Activity])
  }

  function NotifyClosed(e: Entry, fallback: Reason): Entry {
    if e.sessionId.None? || e.sessionClosedNotified then e
    else
      var reason := if e.closeReason.Some? then e.closeReason.value else fallback;
      e.(closeReason := Some(reason), sessionClosedNotified := true, notices := e.notices + [Closed(reason)])
  }

  function WithReason(e: Entry, reason: Reason): Entry {
    if e.closeReason.Some? then e else e.(closeReason := Some(reason))
  }

  function CloseEntry(e: Entry, reason: Reason, changes: nat): Entry {
    var named := WithReason(e, reason);
    if e.closing then NotifyClosed(named, reason)
    else NotifyClosed(named.(closing := true, subscribed := false, closedAt := Some(changes)), reason)
  }

  function BeginRequest(e: Entry, now: int): Entry {
    NotifyActivity(e.(activeRequestCount := e.activeRequestCount + 1, lastActivityAt := now))
  }

  function EndRequest(e: Entry, now: int): Entry {
    e.(activeRequestCount := if e.activeRequestCount < 1 then 0 else e.activeRequestCount - 1, lastActivityAt := now)
  }

  function InitializeEntry(e: Entry, sessionId: nat, now: int, changes: nat): Entry {
    var started := NotifyActivity(e.(sessionId := Some(sessionId), lastActivityAt := now, initialized := true,
                                     initializedAt := Some(changes)));
    if started.catalogChangePending
    then started.(catalogChangePending := false, notices := started.notices + [ListChanged])
    else started
  }

  function ObserveChange(e: Entry): Entry {
    if !e.subscribed || e.closing then e
    else if !e.initialized then e.(catalogChangePending := true)
    else e.(notices := e.notices + [ListChanged])
  }

  // --- the gateway ---

  predicate Full(g: Gateway) {
    |g.sessions| + g.pendingSessionInitializations >= g.policy.maxSessions
  }

  /** The entries some session id leads to. */
  function Registered(sessions: map<nat, nat>): set<nat> {
    set s | s in sessions :: sessions[s]
  }

  /** Removes every session id that leads to the entry. */
  function Without(sessions: map<nat, nat>, x: nat): map<nat, nat> {
    map s | s in sessions && sessions[s] != x :: sessions[s]
  }

  function Dispose(g: Gateway, x: nat, reason: Reason): Gateway {
    if x !in g.entries then g
    else g.(entries := g.entries[x := CloseEntry(g.entries[x], reason, g.changes)],
            sessions := if g.entries[x].closing then g.sessions else Without(g.sessions, x))
  }

  /** The transport's own close callback: it deregisters the entry even when it was closing already. */
  function TransportCloses(g: Gateway, x: nat): Gateway {
    if x !in g.entries then g
    else g.(entries := g.entries[x := CloseEntry(g.entries[x], TransportClosed, g.changes)],
            sessions := Without(g.sessions, x))
  }

  predicate Reclaimable(g: Gateway, x: nat, now: int) {
    && x in Registered(g.sessions) && x in g.entries
    && !g.entries[x].closing && g.entries[x].activeRequestCount == 0
    && g.entries[x].lastActivityAt <= now - g.policy.capacityReclaimIdleMs
  }

  /** Exactly the reclaimable entries, once each, least recently active first. */
  predicate CandidateOrder(g: Gateway, cs: seq<nat>, now: int) {
    && (forall x :: x in cs ==> Reclaimable(g, x, now))
    && (forall x :: x in Registered(g.sessions) ==> Reclaimable(g, x, now) ==> x in cs)
    && (forall i, j :: 0 <= i < j < |cs| ==> cs[i] != cs[j])
    && (forall i, j :: 0 <= i < j < |cs| ==> cs[i] in g.entries && cs[j] in g.entries
                                              && g.entries[cs[i]].lastActivityAt <= g.entries[cs[j]].lastActivityAt)
  }

  /** One turn of the reclaim loop, up to its await. */
  function ReclaimTurn(g: Gateway, r: nat, rest: seq<nat>): Gateway {
    if !Full(g) || rest == [] then g.(reclaims := g.reclaims[r := Deciding])
    else Dispose(g, rest[0], CapacityReclaimed).(reclaims := g.reclaims[r := Reclaiming(rest[1..])])
  }

  function Claim(g: Gateway, r: nat, x: nat, now: int): Gateway {
    g.(pendingSessionInitializations := g.pendingSessionInitializations + 1,
       entries := g.entries[x := NewEntry(now, g.changes)],
       slots := g.slots[r := Connecting(x)],
       reclaims := g.reclaims - {r})
  }

  datatype Event =
    | Post(r: nat, x: nat, candidates: seq<nat>, now: int)   // an initialise request arrives
    | ReclaimResumes(r: nat)
    | Decide(r: nat, x: nat, now: int)
    | Connects(r: nat, succeeded: bool, now: int)
    | Initializes(r: nat, sessionId: nat, now: int)
    | HandlerReturns(r: nat, now: int)
    | SlotReleased(r: nat)
    | RequestStarts(q: nat, sessionId: nat, delete: bool, now: int)
    | RequestEnds(q: nat, now: int)
    | Disposes(x: nat, reason: Reason)                        // after a delete request
    | TransportEnds(x: nat)
    | Sweep(now: int)
    | CatalogChanges
    | ShutdownBegins
    | ShutdownEnds

  /** Identities and session ids the runtime hands out are new, and candidates are sorted as the source sorts them. */
  predicate Enabled(g: Gateway, e: Event) {
    match e
    case Post(r, x, cs, now) =>
      r !in g.slots && r !in g.reclaims && x !in g.entries && CandidateOrder(g, cs, now)
    case ReclaimResumes(r) => r in g.reclaims && g.reclaims[r].Reclaiming?
    case Decide(r, x, _) => r in g.reclaims && g.reclaims[r].Deciding? && r !in g.slots && x !in g.entries
    case Connects(r, _, _) => r in g.slots && g.slots[r].Connecting?
    case Initializes(r, s, _) =>
      && r in g.slots && g.slots[r].Handling? && g.slots[r].entry in g.entries
      && g.entries[g.slots[r].entry].sessionId.None? && s !in g.sessions
      && forall x :: x in g.entries ==> g.entries[x].sessionId != Some(s)
    case HandlerReturns(r, _) => r in g.slots && g.slots[r].Handling?
    case SlotReleased(r) => r in g.slots && (g.slots[r].Handled? || g.slots[r].ConnectFailed?)
    case RequestStarts(q, s, _, _) => s in g.sessions && q !in g.requests
    case RequestEnds(q, _) => q in g.requests && g.requests[q] in g.entries
    case _ => true
  }

  predicate Swept(g: Gateway, x: nat, now: int) {
    && x in Registered(g.sessions) && x in g.entries
    && !g.entries[x].closing && g.entries[x].activeRequestCount == 0
    && g.entries[x].lastActivityAt < now - g.policy.sessionIdleTimeoutMs
  }

  /** Disposes a set of registered, open entries. */
  function DisposeAll(g: Gateway, xs: set<nat>, reason: Reason): Gateway {
    g.(entries := map x | x in g.entries ::
                    if x in xs then CloseEntry(g.entries[x], reason, g.changes) else g.entries[x],
       sessions := map s | s in g.sessions && !(g.sessions[s] in xs && Open(g, g.sessions[s])) :: g.sessions[s])
  }

  predicate Open(g: Gateway, x: nat) { x in g.entries && !g.entries[x].closing }

  function SweptSet(g: Gateway, now: int): set<nat> {
    set x | x in Registered(g.sessions) && Swept(g, x, now)
  }

  function Update(g: Gateway, x: nat, e: Entry): Gateway {
    g.(entries := g.entries[x := e])
  }

  function EntryOf(g: Gateway, x: nat): Entry {
    if x in g.entries then g.entries[x] else NewEntry(0, 0)
  }

  /** A delete request leaves its reason before it is counted. */
  function StartRequest(g: Gateway, q: nat, x: nat, delete: bool, now: int): Gateway {
    var named := if delete then WithReason(EntryOf(g, x), ClientDelete) else EntryOf(g, x);
    Update(g, x, BeginRequest(named, now)).(requests := g.requests[q := x])
  }

  function Step(g: Gateway, e: Event): Gateway {
    if !Enabled(g, e) then g
    else match e
      case Post(r, x, cs, now) => if Full(g) then ReclaimTurn(g, r, cs) else Claim(g, r, x, now)
      case ReclaimResumes(r) => ReclaimTurn(g, r, g.reclaims[r].rest)
      case Decide(r, x, now) => if Full(g) then g.(reclaims := g.reclaims - {r}) else Claim(g, r, x, now)
      case Connects(r, succeeded, now) =>
        var x := g.slots[r].entry;
        if succeeded then Update(g, x, BeginRequest(EntryOf(g, x), now)).(slots := g.slots[r := Handling(x)])
        else Dispose(g, x, TransportClosed).(slots := g.slots[r := ConnectFailed(x)])
      case Initializes(r, s, now) =>
        var x := g.slots[r].entry;
        Update(g, x, InitializeEntry(EntryOf(g, x), s, now, g.changes)).(sessions := g.sessions[s := x])
      case HandlerReturns(r, now) =>
        var x := g.slots[r].entry;
        Update(g, x, EndRequest(EntryOf(g, x), now)).(slots := g.slots[r := Handled(x)])
      case SlotReleased(r) =>
        var x := g.slots[r].entry;
        var freed := g.(pendingSessionInitializations := g.pendingSessionInitializations - 1, slots := g.slots - {r});
        if g.slots[r].Handled? && !EntryOf(g, x).initialized then Dispose(freed, x, TransportClosed) else freed
      case RequestStarts(q, s, delete, now) => StartRequest(g, q, g.sessions[s], delete, now)
      case RequestEnds(q, now) =>
        var x := g.requests[q];
        Update(g, x, EndRequest(EntryOf(g, x), now)).(requests := g.requests - {q})
      case Disposes(x, reason) => Dispose(g, x, reason)
      case TransportEnds(x) => TransportCloses(g, x)
      case Sweep(now) => DisposeAll(g, SweptSet(g, now), IdleTimeout)
      case CatalogChanges =>
        g.(changes := g.changes + 1, entries := map x | x in g.entries :: ObserveChange(g.entries[x]))
      case ShutdownBegins => DisposeAll(g, Registered(g.sessions), GatewayShutdown)
      case ShutdownEnds => g.(sessions := map[])
  }

  function After(g: Gateway, es: seq<Event>): Gateway {
    if es == [] then g else Step(After(g, es[..|es| - 1]), es[|es| - 1])
  }
}

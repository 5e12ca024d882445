/** What every interleaving of session steps keeps: capacity, the notice lifecycle, catalog delivery. */
module SessionRuns {
  import opened Results
  import opened Sessions

  // --- one entry's notices ---

  function Announcements(notices: seq<Notice>): nat {
    if notices == [] then 0
    else Announcements(notices[..|notices| - 1]) + if notices[|notices| - 1] == ListChanged then 1 else 0
  }

  /** Activity first, at most one close, and nothing after the close. */
  predicate Lifecycle(notices: seq<Notice>) {
    && (notices != [] ==> notices[0].Activity?)
    && forall i :: 0 <= i < |notices| && notices[i].Closed? ==> i == |notices| - 1
  }

  /**
   The announcements an entry owes after `changes` catalog changes: one for each change while it was
   initialised and open, and one for all those between its subscription and its initialisation.
   */
  function Owed(e: Entry, changes: nat): nat {
    if e.initializedAt.None? then 0
    else
      var end := if e.closedAt.Some? then e.closedAt.value else changes;
      var start := e.initializedAt.value;
      (if end > start then end - start else 0)
      + (if e.subscribedAt < (if end < start then end else start) then 1 else 0)
  }

  ghost predicate EntryOk(e: Entry, changes: nat) {
    && Lifecycle(e.notices)
    && e.initialized == e.sessionId.Some? == e.initializedAt.Some? == (e.notices != [])
    && (e.sessionClosedNotified <==> e.notices != [] && e.notices[|e.notices| - 1].Closed?)
    && (e.sessionClosedNotified ==> e.closing)
    && e.closing == e.closedAt.Some? == !e.subscribed
    && Announcements(e.notices) == Owed(e, changes)
    && e.subscribedAt <= changes
    && (e.initializedAt.Some? ==> e.subscribedAt <= e.initializedAt.value <= changes)
    && (e.closedAt.Some? ==> e.subscribedAt <= e.closedAt.value <= changes)
    && (e.catalogChangePending <==>
          !e.initialized && e.subscribedAt < (if e.closedAt.Some? then e.closedAt.value else changes))
  }

  lemma Appended(notices: seq<Notice>, n: Notice)
    ensures Announcements(notices + [n]) == Announcements(notices) + if n == ListChanged then 1 else 0
  {
    assert (notices + [n])[..|notices|] == notices;
  }

  lemma NewEntryOk(now: int, changes: nat)
    ensures EntryOk(NewEntry(now, changes), changes)
  {
  }

  /** A notice may follow: the first is an activity, and nothing follows a close. */
  predicate MayFollow(notices: seq<Notice>, n: Notice) {
    if notices == [] then n.Activity? else !notices[|notices| - 1].Closed?
  }

  lemma LifecycleGrows(notices: seq<Notice>, n: Notice)
    requires Lifecycle(notices) && MayFollow(notices, n)
    ensures Lifecycle(notices + [n]) && notices + [n] != [] && (notices + [n])[|notices + [n]| - 1] == n
  {
    var more := notices + [n];
    assert forall i :: 0 <= i < |notices| ==> more[i] == notices[i];
    assert more[|notices|] == n;
  }

  lemma NotifyActivityOk(e: Entry, changes: nat)
    requires EntryOk(e, changes)
    ensures EntryOk(NotifyActivity(e), changes)
  {
    if e.sessionId.Some? && !e.sessionClosedNotified {
      LifecycleGrows(e.notices, Activity);
      Appended(e.notices, Activity);
    }
  }

  /** The reason given only matters to the notice. */
  lemma ReasonOk(e: Entry, reason: Option<Reason>, changes: nat)
    requires EntryOk(e, changes)
    ensures EntryOk(e.(closeReason := reason), changes)
  {}

  lemma ClosedNoticeOk(e: Entry, reason: Reason, changes: nat)
    requires EntryOk(e, changes) && e.closing && e.sessionId.Some? && !e.sessionClosedNotified
    ensures EntryOk(e.(sessionClosedNotified := true, notices := e.notices + [Closed(reason)]), changes)
  {
    LifecycleGrows(e.notices, Closed(reason));
    Appended(e.notices, Closed(reason));
  }

  lemma NotifyClosedOk(e: Entry, reason: Reason, changes: nat)
    requires EntryOk(e, changes) && e.closing
    ensures EntryOk(NotifyClosed(e, reason), changes)
  {
    if e.sessionId.Some? && !e.sessionClosedNotified {
      var named := Some(if e.closeReason.Some? then e.closeReason.value else reason);
      ReasonOk(e, named, changes);
      ClosedNoticeOk(e.(closeReason := named), named.value, changes);
    }
  }

  lemma CloseEntryOk(e: Entry, reason: Reason, changes: nat)
    requires EntryOk(e, changes)
    ensures EntryOk(CloseEntry(e, reason, changes), changes)
  {
    var named := WithReason(e, reason);
    ReasonOk(e, named.closeReason, changes);
    if e.closing {
      NotifyClosedOk(named, reason, changes);
    } else {
      ClosingOk(named, changes);
      NotifyClosedOk(named.(closing := true, subscribed := false, closedAt := Some(changes)), reason, changes);
    }
  }

  lemma ClosingOk(e: Entry, changes: nat)
    requires EntryOk(e, changes) && !e.closing
    ensures EntryOk(e.(closing := true, subscribed := false, closedAt := Some(changes)), changes)
  {}

  lemma RequestOk(e: Entry, now: int, changes: nat)
    requires EntryOk(e, changes)
    ensures EntryOk(BeginRequest(e, now), changes) && EntryOk(EndRequest(e, now), changes)
  {
    var begun := e.(activeRequestCount := e.activeRequestCount + 1, lastActivityAt := now);
    TouchedOk(e, begun, changes);
    NotifyActivityOk(begun, changes);
    TouchedOk(e, EndRequest(e, now), changes);
  }

  /** Counts and activity times do not matter to the notices. */
  lemma TouchedOk(e: Entry, touched: Entry, changes: nat)
    requires EntryOk(e, changes)
    requires touched == e.(activeRequestCount := touched.activeRequestCount, lastActivityAt := touched.lastActivityAt)
    ensures EntryOk(touched, changes)
  {
  }

  lemma InitializeOk(e: Entry, sessionId: nat, now: int, changes: nat)
    requires EntryOk(e, changes) && !e.initialized
    ensures EntryOk(InitializeEntry(e, sessionId, now, changes), changes)
  {
    Appended([], Activity);
    Appended([Activity], ListChanged);
  }

  lemma ObserveOk(e: Entry, changes: nat)
    requires EntryOk(e, changes)
    ensures EntryOk(ObserveChange(e), changes + 1)
  {
    Appended(e.notices, ListChanged);
  }

  // --- capacity ---

  function Initializing(slots: map<nat, Slot>): set<nat> {
    set r | r in slots :: slots[r].entry
  }

  /** The registered entries together with those of initialisations still in flight. */
  function Occupied(g: Gateway): set<nat> {
    Registered(g.sessions) + Initializing(g.slots)
  }

  ghost predicate Linked(sessions: map<nat, nat>, entries: map<nat, Entry>) {
    forall s :: s in sessions ==> sessions[s] in entries && entries[sessions[s]].sessionId == Some(s)
  }

  ghost predicate Held(slots: map<nat, Slot>, entries: map<nat, Entry>) {
    forall r :: r in slots ==> slots[r].entry in entries
  }

  ghost predicate Counted(g: Gateway) {
    && g.pendingSessionInitializations == |g.slots|
    && Linked(g.sessions, g.entries) && Held(g.slots, g.entries)
    && |Occupied(g)| <= g.policy.maxSessions
  }

  ghost predicate Inv(g: Gateway) {
    && Counted(g)
    && forall x :: x in g.entries ==> EntryOk(g.entries[x], g.changes)
  }

  ghost predicate SubMap<K, V>(a: map<K, V>, b: map<K, V>) {
    forall k :: k in a ==> k in b && a[k] == b[k]
  }

  lemma RegisteredFewer(a: map<nat, nat>, b: map<nat, nat>)
    requires SubMap(a, b)
    ensures Registered(a) <= Registered(b)
  {
    forall x | x in Registered(a) ensures x in Registered(b) {
      var s :| s in a && a[s] == x;
      assert s in b && b[s] == x;
    }
  }

  lemma InitializingFewer(a: map<nat, Slot>, b: map<nat, Slot>)
    requires forall r :: r in a ==> r in b && a[r].entry == b[r].entry
    ensures Initializing(a) <= Initializing(b)
  {
    forall x | x in Initializing(a) ensures x in Initializing(b) {
      var r :| r in a && a[r].entry == x;
      assert r in b && b[r].entry == x;
    }
  }

  lemma RegisteredAdded(m: map<nat, nat>, s: nat, x: nat)
    ensures Registered(m[s := x]) <= Registered(m) + {x}
  {
    forall y | y in Registered(m[s := x]) ensures y in Registered(m) + {x} {
      var t :| t in m[s := x] && m[s := x][t] == y;
      if t != s { assert t in m && m[t] == y; }
    }
  }

  lemma InitializingAdded(slots: map<nat, Slot>, r: nat, slot: Slot)
    requires r !in slots
    ensures Initializing(slots[r := slot]) <= Initializing(slots) + {slot.entry}
  {
    forall x | x in Initializing(slots[r := slot]) ensures x in Initializing(slots) + {slot.entry} {
      var q :| q in slots[r := slot] && slots[r := slot][q].entry == x;
      if q != r { assert q in slots && slots[q].entry == x; }
    }
  }

  lemma Fewer<T>(a: set<T>, b: set<T>)
    requires a <= b
    ensures |a| <= |b|
  {
    assert b == a + (b - a);
  }

  lemma {:induction false} RegisteredBound(m: map<nat, nat>)
    ensures |Registered(m)| <= |m|
  {
    if m == map[] {
      assert Registered(m) == {};
    } else {
      var k :| k in m;
      var rest := m - {k};
      assert m.Keys == rest.Keys + {k};
      RegisteredBound(rest);
      assert Registered(m) <= Registered(rest) + {m[k]} by {
        forall v | v in Registered(m) ensures v in Registered(rest) + {m[k]} {
          var j :| j in m && m[j] == v;
          if j != k { assert j in rest && rest[j] == v; }
        }
      }
      Fewer(Registered(m), Registered(rest) + {m[k]});
    }
  }

  lemma {:induction false} InitializingBound(m: map<nat, Slot>)
    ensures |Initializing(m)| <= |m|
  {
    if m == map[] {
      assert Initializing(m) == {};
    } else {
      var k :| k in m;
      var rest := m - {k};
      assert m.Keys == rest.Keys + {k};
      InitializingBound(rest);
      assert rest[k := m[k]] == m;
      InitializingAdded(rest, k, m[k]);
      Fewer(Initializing(m), Initializing(rest) + {m[k].entry});
    }
  }

  /** Two sessions never share an entry, so there are as many sessions as registered entries. */
  lemma {:induction false} InjectiveSize(m: map<nat, nat>)
    requires forall s, t :: s in m && t in m && m[s] == m[t] ==> s == t
    ensures |m| == |Registered(m)|
  {
    if m == map[] {
      assert Registered(m) == {};
    } else {
      var k :| k in m;
      var rest := m - {k};
      assert m.Keys == rest.Keys + {k};
      InjectiveSize(rest);
      assert m[k] !in Registered(rest);
      assert Registered(m) == Registered(rest) + {m[k]} by {
        assert m[k] in Registered(m);
        forall v | v in Registered(m) ensures v in Registered(rest) + {m[k]} {
          var j :| j in m && m[j] == v;
          if j != k { assert j in rest && rest[j] == v; }
        }
        RegisteredFewer(rest, m);
      }
    }
  }

  lemma InitialInv(policy: Policy)
    ensures Inv(Empty(policy))
  {
    assert Occupied(Empty(policy)) == {};
  }

  // --- the steps ---

  /** A step that registers nothing new and keeps the slots occupies no more than before. */
  lemma OccupiesNoMore(g: Gateway, h: Gateway)
    requires Counted(g) && h.policy == g.policy && SubMap(h.sessions, g.sessions)
    requires h.slots == g.slots && h.pendingSessionInitializations == g.pendingSessionInitializations
    requires forall x :: x in g.entries ==> x in h.entries && h.entries[x].sessionId == g.entries[x].sessionId
    ensures Counted(h)
  {
    RegisteredFewer(h.sessions, g.sessions);
    Fewer(Occupied(h), Occupied(g));
  }

  lemma UpdateCounted(g: Gateway, x: nat, e: Entry)
    requires Counted(g) && x in g.entries && e.sessionId == g.entries[x].sessionId
    ensures Counted(Update(g, x, e))
  {
    OccupiesNoMore(g, Update(g, x, e));
  }

  lemma CloseKeepsId(e: Entry, reason: Reason, changes: nat)
    ensures CloseEntry(e, reason, changes).sessionId == e.sessionId
  {
  }

  lemma DisposeCounted(g: Gateway, x: nat, reason: Reason)
    requires Counted(g)
    ensures Counted(Dispose(g, x, reason))
  {
    if x in g.entries {
      CloseKeepsId(g.entries[x], reason, g.changes);
      OccupiesNoMore(g, Dispose(g, x, reason));
    }
  }

  lemma TransportCounted(g: Gateway, x: nat)
    requires Counted(g)
    ensures Counted(TransportCloses(g, x))
  {
    if x in g.entries {
      CloseKeepsId(g.entries[x], TransportClosed, g.changes);
      OccupiesNoMore(g, TransportCloses(g, x));
    }
  }

  lemma DisposeAllCounted(g: Gateway, xs: set<nat>, reason: Reason)
    requires Counted(g)
    ensures Counted(DisposeAll(g, xs, reason))
  {
    var h := DisposeAll(g, xs, reason);
    forall x | x in g.entries ensures x in h.entries && h.entries[x].sessionId == g.entries[x].sessionId {
      CloseKeepsId(g.entries[x], reason, g.changes);
    }
    OccupiesNoMore(g, h);
  }

  lemma LinksSurvive(g: Gateway, r: nat, x: nat, e: Entry)
    requires Linked(g.sessions, g.entries) && Held(g.slots, g.entries) && x !in g.entries
    ensures Linked(g.sessions, g.entries[x := e]) && Held(g.slots[r := Connecting(x)], g.entries[x := e])
  {
  }

  lemma RoomForOne(g: Gateway, r: nat, x: nat)
    requires g.pendingSessionInitializations == |g.slots| && !Full(g) && r !in g.slots
    ensures |Registered(g.sessions) + Initializing(g.slots[r := Connecting(x)])| <= g.policy.maxSessions
  {
    OccupiedBound(g);
    InitializingAdded(g.slots, r, Connecting(x));
    Fewer(Registered(g.sessions) + Initializing(g.slots[r := Connecting(x)]), Occupied(g) + {x});
  }

  /** Admission: the check may count one entry twice, so passing it leaves room for one more. */
  lemma ClaimCounted(g: Gateway, r: nat, x: nat, now: int)
    requires Counted(g) && !Full(g) && r !in g.slots && x !in g.entries
    ensures Counted(Claim(g, r, x, now))
  {
    LinksSurvive(g, r, x, NewEntry(now, g.changes));
    RoomForOne(g, r, x);
    OneMoreSlot(g.slots, r, Connecting(x));
    ClaimOccupies(g, r, x, now);
  }

  lemma ClaimOccupies(g: Gateway, r: nat, x: nat, now: int)
    requires r !in g.slots
    ensures Occupied(Claim(g, r, x, now)) == Registered(g.sessions) + Initializing(g.slots[r := Connecting(x)])
  {
  }

  lemma OneMoreSlot(slots: map<nat, Slot>, r: nat, slot: Slot)
    requires r !in slots
    ensures |slots[r := slot]| == |slots| + 1
  {
    assert slots[r := slot].Keys == slots.Keys + {r};
  }

  lemma OccupiedBound(g: Gateway)
    ensures |Occupied(g)| <= |g.sessions| + |g.slots|
  {
    RegisteredBound(g.sessions);
    InitializingBound(g.slots);
    assert |Occupied(g)| <= |Registered(g.sessions)| + |Initializing(g.slots)|;
  }

  /** Moving a request to its next phase keeps its entry. */
  lemma PhaseCounted(g: Gateway, r: nat, phase: Slot)
    requires Counted(g) && r in g.slots && phase.entry == g.slots[r].entry
    ensures Counted(g.(slots := g.slots[r := phase]))
  {
    var h := g.(slots := g.slots[r := phase]);
    InitializingFewer(h.slots, g.slots);
    assert h.slots.Keys == g.slots.Keys;
    Fewer(Occupied(h), Occupied(g));
  }

  function Freed(g: Gateway, r: nat): Gateway {
    g.(pendingSessionInitializations := g.pendingSessionInitializations - 1, slots := g.slots - {r})
  }

  lemma FreeCounted(g: Gateway, r: nat)
    requires Counted(g) && r in g.slots
    ensures Counted(Freed(g, r))
  {
    var h := Freed(g, r);
    assert h.slots.Keys == g.slots.Keys - {r};
    InitializingFewer(h.slots, g.slots);
    Fewer(Occupied(h), Occupied(g));
  }

  /** Registration moves an entry that is already occupied into the session map. */
  lemma RegisterCounted(g: Gateway, x: nat, s: nat, e: Entry)
    requires Counted(g) && x in Initializing(g.slots) && x in g.entries
    requires g.entries[x].sessionId == None && e.sessionId == Some(s)
    ensures Counted(Update(g, x, e).(sessions := g.sessions[s := x]))
  {
    var h := Update(g, x, e).(sessions := g.sessions[s := x]);
    RegisteredAdded(g.sessions, s, x);
    Fewer(Occupied(h), Occupied(g));
    RegisterLinks(g.sessions, g.entries, x, s, e);
  }

  lemma RegisterLinks(sessions: map<nat, nat>, entries: map<nat, Entry>, x: nat, s: nat, e: Entry)
    requires Linked(sessions, entries) && x in entries
    requires entries[x].sessionId == None && e.sessionId == Some(s)
    ensures Linked(sessions[s := x], entries[x := e])
  {
    forall t | t in sessions[s := x]
      ensures sessions[s := x][t] in entries[x := e] && entries[x := e][sessions[s := x][t]].sessionId == Some(t)
    {
      if t != s { assert t in sessions && sessions[t] != x; }
    }
  }

  lemma ReclaimTurnCounted(g: Gateway, r: nat, rest: seq<nat>)
    requires Counted(g)
    ensures Counted(ReclaimTurn(g, r, rest))
  {
    if Full(g) && rest != [] {
      DisposeCounted(g, rest[0], CapacityReclaimed);
    }
  }

  lemma AdmissionCounted(g: Gateway, e: Event)
    requires Counted(g) && Enabled(g, e) && (e.Post? || e.ReclaimResumes? || e.Decide?)
    ensures Counted(Step(g, e))
  {
    match e
    case Post(r, x, cs, now) => if Full(g) { ReclaimTurnCounted(g, r, cs); } else { ClaimCounted(g, r, x, now); }
    case ReclaimResumes(r) => ReclaimTurnCounted(g, r, g.reclaims[r].rest);
    case Decide(r, x, now) => if !Full(g) { ClaimCounted(g, r, x, now); }
  }

  lemma SlotCounted(g: Gateway, e: Event)
    requires Counted(g) && Enabled(g, e) && (e.Connects? || e.HandlerReturns? || e.SlotReleased?)
    ensures Counted(Step(g, e))
  {
    var x := g.slots[e.r].entry;
    match e
    case Connects(r, succeeded, now) =>
      if succeeded {
        UpdateCounted(g, x, BeginRequest(g.entries[x], now));
        PhaseCounted(Update(g, x, BeginRequest(g.entries[x], now)), r, Handling(x));
      } else {
        DisposeCounted(g, x, TransportClosed);
        PhaseCounted(Dispose(g, x, TransportClosed), r, ConnectFailed(x));
      }
    case HandlerReturns(r, now) =>
      UpdateCounted(g, x, EndRequest(g.entries[x], now));
      PhaseCounted(Update(g, x, EndRequest(g.entries[x], now)), r, Handled(x));
    case SlotReleased(r) =>
      FreeCounted(g, r);
      DisposeCounted(Freed(g, r), x, TransportClosed);
  }

  lemma InitializesCounted(g: Gateway, e: Event)
    requires Counted(g) && Enabled(g, e) && e.Initializes?
    ensures Counted(Step(g, e))
  {
    var x := g.slots[e.r].entry;
    var named := InitializeEntry(g.entries[x], e.sessionId, e.now, g.changes);
    assert x in Initializing(g.slots);
    RegisterCounted(g, x, e.sessionId, named);
  }

  lemma SessionCounted(g: Gateway, e: Event)
    requires Counted(g) && Enabled(g, e) && (e.Initializes? || e.RequestStarts? || e.RequestEnds?)
    ensures Counted(Step(g, e))
  {
    match e
    case Initializes(r, s, now) => InitializesCounted(g, e);
    case RequestStarts(q, s, delete, now) => StartCounted(g, q, s, delete, now);
    case RequestEnds(q, now) => EndCounted(g, q, now);
  }

  /** Which requests run does not matter to the slots. */
  lemma RequestsImmaterial(g: Gateway, requests: map<nat, nat>)
    requires Counted(g)
    ensures Counted(g.(requests := requests))
  {
    assert Occupied(g.(requests := requests)) == Occupied(g);
  }

  lemma EndCounted(g: Gateway, q: nat, now: int)
    requires Counted(g) && q in g.requests && g.requests[q] in g.entries
    ensures Counted(Step(g, RequestEnds(q, now)))
  {
    var x := g.requests[q];
    UpdateCounted(g, x, EndRequest(g.entries[x], now));
    RequestsImmaterial(Update(g, x, EndRequest(g.entries[x], now)), g.requests - {q});
  }

  lemma StartCounted(g: Gateway, q: nat, s: nat, delete: bool, now: int)
    requires Counted(g) && s in g.sessions && q !in g.requests
    ensures Counted(Step(g, RequestStarts(q, s, delete, now)))
  {
    StartsCounted(g, q, g.sessions[s], delete, now);
  }

  lemma StartsCounted(g: Gateway, q: nat, x: nat, delete: bool, now: int)
    requires Counted(g) && x in g.entries
    ensures Counted(StartRequest(g, q, x, delete, now))
  {
    RequestKeepsId(g.entries[x], delete, now);
    BegunCounted(g, q, x, BeginRequest(if delete then WithReason(g.entries[x], ClientDelete) else g.entries[x], now));
  }

  lemma BegunCounted(g: Gateway, q: nat, x: nat, begun: Entry)
    requires Counted(g) && x in g.entries && begun.sessionId == g.entries[x].sessionId
    ensures Counted(Update(g, x, begun).(requests := g.requests[q := x]))
  {
    UpdateCounted(g, x, begun);
    RequestsImmaterial(Update(g, x, begun), g.requests[q := x]);
  }

  lemma RequestKeepsId(e: Entry, delete: bool, now: int)
    ensures BeginRequest(if delete then WithReason(e, ClientDelete) else e, now).sessionId == e.sessionId
  {}

  lemma ClosingCounted(g: Gateway, e: Event)
    requires Counted(g) && (e.Disposes? || e.TransportEnds?)
    ensures Counted(Step(g, e))
  {
    DisposeCounted(g, e.x, if e.Disposes? then e.reason else TransportClosed);
    TransportCounted(g, e.x);
  }

  lemma ClosingAllCounted(g: Gateway, e: Event)
    requires Counted(g) && (e.Sweep? || e.ShutdownBegins? || e.ShutdownEnds?)
    ensures Counted(Step(g, e))
  {
    match e
    case Sweep(now) => SweepCounted(g, now);
    case ShutdownBegins => ShutdownBeginsCounted(g);
    case ShutdownEnds => ShutdownCounted(g);
  }

  lemma SweepCounted(g: Gateway, now: int)
    requires Counted(g)
    ensures Counted(Step(g, Sweep(now)))
  {
    DisposeAllCounted(g, SweptSet(g, now), IdleTimeout);
    assert Step(g, Sweep(now)) == DisposeAll(g, SweptSet(g, now), IdleTimeout);
  }

  lemma ShutdownBeginsCounted(g: Gateway)
    requires Counted(g)
    ensures Counted(Step(g, ShutdownBegins))
  {
    DisposeAllCounted(g, Registered(g.sessions), GatewayShutdown);
    assert Step(g, ShutdownBegins) == DisposeAll(g, Registered(g.sessions), GatewayShutdown);
  }

  lemma ShutdownCounted(g: Gateway)
    requires Counted(g)
    ensures Counted(Step(g, ShutdownEnds))
  {
    OccupiesNoMore(g, Step(g, ShutdownEnds));
  }

  lemma ObserveKeepsId(e: Entry)
    ensures ObserveChange(e).sessionId == e.sessionId
  {}

  lemma ChangeCounted(g: Gateway)
    requires Counted(g)
    ensures Counted(Step(g, CatalogChanges))
  {
    var h := Observed(g);
    forall x | x in g.entries ensures h.entries[x].sessionId == g.entries[x].sessionId {
      ObserveKeepsId(g.entries[x]);
    }
    OccupiesNoMore(g, h);
    assert Step(g, CatalogChanges) == h;
  }

  function Observed(g: Gateway): Gateway {
    g.(changes := g.changes + 1, entries := map x | x in g.entries :: ObserveChange(g.entries[x]))
  }

  lemma StepCounted(g: Gateway, e: Event)
    requires Counted(g)
    ensures Counted(Step(g, e))
  {
    if Enabled(g, e) {
      if e.Post? || e.ReclaimResumes? || e.Decide? {
        AdmissionCounted(g, e);
      } else if e.Connects? || e.HandlerReturns? || e.SlotReleased? {
        SlotCounted(g, e);
      } else if e.Initializes? || e.RequestStarts? || e.RequestEnds? {
        SessionCounted(g, e);
      } else if e.CatalogChanges? {
        ChangeCounted(g);
      } else if e.Disposes? || e.TransportEnds? {
        ClosingCounted(g, e);
      } else {
        ClosingAllCounted(g, e);
      }
    }
  }

  lemma PolicyFixed(g: Gateway, e: Event)
    ensures Step(g, e).policy == g.policy
  {
  }

  // What one step makes of one entry, by kind of step.

  lemma DisposedEntry(g: Gateway, y: nat, reason: Reason, x: nat)
    requires x in g.entries && EntryOk(g.entries[x], g.changes)
    ensures EntryOk(Dispose(g, y, reason).entries[x], g.changes)
  {
    CloseEntryOk(g.entries[x], reason, g.changes);
  }

  lemma AdmissionEntry(g: Gateway, e: Event, x: nat)
    requires e.Post? || e.ReclaimResumes? || e.Decide?
    requires x in Step(g, e).entries && (x in g.entries ==> EntryOk(g.entries[x], g.changes))
    ensures EntryOk(Step(g, e).entries[x], Step(g, e).changes)
  {
    match e
    case Post(r, y, cs, now) => if Full(g) { TurnEntry(g, r, cs, x); } else { ClaimEntry(g, r, y, now, x); }
    case ReclaimResumes(r) => if Enabled(g, e) { TurnEntry(g, r, g.reclaims[r].rest, x); }
    case Decide(r, y, now) => ClaimEntry(g, r, y, now, x);
  }

  lemma TurnEntry(g: Gateway, r: nat, rest: seq<nat>, x: nat)
    requires x in g.entries ==> EntryOk(g.entries[x], g.changes)
    ensures var h := ReclaimTurn(g, r, rest);
            h.changes == g.changes && (x in h.entries ==> x in g.entries && EntryOk(h.entries[x], h.changes))
  {
    if x in g.entries && rest != [] { DisposedEntry(g, rest[0], CapacityReclaimed, x); }
  }

  lemma ClaimEntry(g: Gateway, r: nat, y: nat, now: int, x: nat)
    requires x in g.entries ==> EntryOk(g.entries[x], g.changes)
    ensures var h := Claim(g, r, y, now);
            h.changes == g.changes && (x in h.entries ==> EntryOk(h.entries[x], h.changes))
  {
    NewEntryOk(now, g.changes);
  }

  lemma SlotEntry(g: Gateway, e: Event, x: nat)
    requires Counted(g) && Enabled(g, e) && (e.Connects? || e.HandlerReturns? || e.SlotReleased?)
    requires x in g.entries && EntryOk(g.entries[x], g.changes)
    ensures x in Step(g, e).entries && EntryOk(Step(g, e).entries[x], Step(g, e).changes)
  {
    match e
    case Connects(r, succeeded, now) =>
      RequestOk(g.entries[x], now, g.changes);
      DisposedEntry(g, g.slots[r].entry, TransportClosed, x);
    case HandlerReturns(_, now) => RequestOk(g.entries[x], now, g.changes);
    case SlotReleased(r) => DisposedEntry(Freed(g, r), g.slots[r].entry, TransportClosed, x);
  }

  lemma DeleteOk(e: Entry, now: int, changes: nat)
    requires EntryOk(e, changes)
    ensures EntryOk(BeginRequest(WithReason(e, ClientDelete), now), changes)
  {
    assert EntryOk(WithReason(e, ClientDelete), changes);
    RequestOk(WithReason(e, ClientDelete), now, changes);
  }

  lemma RequestEntry(g: Gateway, e: Event, x: nat)
    requires Counted(g) && Enabled(g, e) && (e.RequestStarts? || e.RequestEnds?)
    requires x in g.entries && EntryOk(g.entries[x], g.changes)
    ensures x in Step(g, e).entries && EntryOk(Step(g, e).entries[x], Step(g, e).changes)
  {
    match e
    case RequestStarts(q, s, delete, now) => StartEntry(g, q, s, delete, now, x);
    case RequestEnds(q, now) => EndEntry(g, q, now, x);
  }

  lemma StartEntry(g: Gateway, q: nat, s: nat, delete: bool, now: int, x: nat)
    requires Linked(g.sessions, g.entries) && x in g.entries && EntryOk(g.entries[x], g.changes)
    ensures var h := Step(g, RequestStarts(q, s, delete, now)); x in h.entries && EntryOk(h.entries[x], h.changes)
  {
    if delete { DeleteOk(g.entries[x], now, g.changes); } else { RequestOk(g.entries[x], now, g.changes); }
  }

  lemma EndEntry(g: Gateway, q: nat, now: int, x: nat)
    requires x in g.entries && EntryOk(g.entries[x], g.changes)
    ensures var h := Step(g, RequestEnds(q, now)); x in h.entries && EntryOk(h.entries[x], h.changes)
  {
    RequestOk(g.entries[x], now, g.changes);
  }

  lemma InitializedEntry(g: Gateway, e: Event, x: nat)
    requires Enabled(g, e) && e.Initializes?
    requires x in g.entries && EntryOk(g.entries[x], g.changes)
    ensures x in Step(g, e).entries && EntryOk(Step(g, e).entries[x], Step(g, e).changes)
  {
    if x == g.slots[e.r].entry { InitializeOk(g.entries[x], e.sessionId, e.now, g.changes); }
  }

  lemma ClosingEntry(g: Gateway, e: Event, x: nat)
    requires e.Disposes? || e.TransportEnds? || e.Sweep? || e.ShutdownBegins? || e.ShutdownEnds?
    requires x in g.entries && EntryOk(g.entries[x], g.changes)
    ensures x in Step(g, e).entries && EntryOk(Step(g, e).entries[x], Step(g, e).changes)
  {
    var reason := match e
      case Disposes(_, r) => r
      case Sweep(_) => IdleTimeout
      case ShutdownBegins => GatewayShutdown
      case _ => TransportClosed;
    CloseEntryOk(g.entries[x], reason, g.changes);
  }

  lemma ChangeEntry(g: Gateway, x: nat)
    requires x in g.entries && EntryOk(g.entries[x], g.changes)
    ensures x in Step(g, CatalogChanges).entries
    ensures EntryOk(Step(g, CatalogChanges).entries[x], Step(g, CatalogChanges).changes)
  {
    ObserveOk(g.entries[x], g.changes);
  }

  lemma ConnectNames(g: Gateway, r: nat, succeeded: bool, now: int)
    requires Held(g.slots, g.entries)
    ensures Step(g, Connects(r, succeeded, now)).entries.Keys == g.entries.Keys
  {}

  lemma ReturnNames(g: Gateway, r: nat, now: int)
    requires Held(g.slots, g.entries)
    ensures Step(g, HandlerReturns(r, now)).entries.Keys == g.entries.Keys
  {}

  lemma ReleaseNames(g: Gateway, r: nat)
    ensures Step(g, SlotReleased(r)).entries.Keys == g.entries.Keys
  {}

  lemma SlotNames(g: Gateway, e: Event)
    requires Counted(g) && (e.Connects? || e.HandlerReturns? || e.SlotReleased?)
    ensures Step(g, e).entries.Keys == g.entries.Keys
  {
    match e
    case Connects(r, succeeded, now) => ConnectNames(g, r, succeeded, now);
    case HandlerReturns(r, now) => ReturnNames(g, r, now);
    case SlotReleased(r) => ReleaseNames(g, r);
  }

  lemma SessionNames(g: Gateway, e: Event)
    requires Counted(g) && (e.Initializes? || e.RequestStarts? || e.RequestEnds? || e.CatalogChanges?)
    ensures Step(g, e).entries.Keys == g.entries.Keys
  {
  }

  lemma TurnNames(g: Gateway, r: nat, rest: seq<nat>)
    ensures ReclaimTurn(g, r, rest).entries.Keys == g.entries.Keys
  {}

  lemma ClosingNames(g: Gateway, e: Event)
    requires e.Disposes? || e.TransportEnds? || e.Sweep? || e.ShutdownBegins? || e.ShutdownEnds?
    ensures Step(g, e).entries.Keys == g.entries.Keys
  {
  }

  lemma EntriesNamed(g: Gateway, e: Event)
    requires Counted(g) && !(e.Post? || e.ReclaimResumes? || e.Decide?)
    ensures Step(g, e).entries.Keys == g.entries.Keys
  {
    if e.Connects? || e.HandlerReturns? || e.SlotReleased? {
      SlotNames(g, e);
    } else if e.Initializes? || e.RequestStarts? || e.RequestEnds? || e.CatalogChanges? {
      SessionNames(g, e);
    } else {
      ClosingNames(g, e);
    }
  }

  lemma StepEntry(g: Gateway, e: Event, x: nat)
    requires Counted(g) && x in Step(g, e).entries && (x in g.entries ==> EntryOk(g.entries[x], g.changes))
    ensures EntryOk(Step(g, e).entries[x], Step(g, e).changes)
  {
    if e.Post? || e.ReclaimResumes? || e.Decide? {
      AdmissionEntry(g, e, x);
    } else {
      EntriesNamed(g, e);
      if !Enabled(g, e) {
      } else if e.Connects? || e.HandlerReturns? || e.SlotReleased? {
        SlotEntry(g, e, x);
      } else if e.RequestStarts? || e.RequestEnds? {
        RequestEntry(g, e, x);
      } else if e.Initializes? {
        InitializedEntry(g, e, x);
      } else if e.CatalogChanges? {
        ChangeEntry(g, x);
      } else {
        ClosingEntry(g, e, x);
      }
    }
  }

  lemma StepKeeps(g: Gateway, e: Event)
    requires Inv(g)
    ensures Inv(Step(g, e)) && Step(g, e).policy == g.policy
  {
    StepCounted(g, e);
    PolicyFixed(g, e);
    forall x | x in Step(g, e).entries ensures EntryOk(Step(g, e).entries[x], Step(g, e).changes) {
      StepEntry(g, e, x);
    }
  }

  lemma {:induction false} RunKeeps(g: Gateway, es: seq<Event>)
    requires Inv(g)
    ensures Inv(After(g, es)) && After(g, es).policy == g.policy
  {
    if es != [] {
      RunKeeps(g, es[..|es| - 1]);
      StepKeeps(After(g, es[..|es| - 1]), es[|es| - 1]);
    }
  }

  // --- the main results ---

  /**
   Under every interleaving the registered sessions and the initialisations in flight together never
   exceed the limit, hence neither does the number of sessions.
   */
  lemma CapacityHolds(policy: Policy, es: seq<Event>)
    ensures var g := After(Empty(policy), es);
            |Occupied(g)| <= policy.maxSessions && |g.sessions| <= policy.maxSessions
  {
    InitialInv(policy);
    RunKeeps(Empty(policy), es);
    var g := After(Empty(policy), es);
    InjectiveSize(g.sessions);
    Fewer(Registered(g.sessions), Occupied(g));
  }

  /**
   Under every interleaving a session's notices start with an activity, contain at most one close and
   nothing after it, and announce each catalog change published while it was initialised and open, plus
   once those published between its subscription and its initialisation.
   */
  lemma NoticesHold(policy: Policy, es: seq<Event>, x: nat)
    requires x in After(Empty(policy), es).entries
    ensures var g := After(Empty(policy), es); var e := g.entries[x];
            && Lifecycle(e.notices)
            && (e.sessionClosedNotified <==> e.notices != [] && e.notices[|e.notices| - 1].Closed?)
            && Announcements(e.notices) == Owed(e, g.changes)
  {
    InitialInv(policy);
    RunKeeps(Empty(policy), es);
  }
}

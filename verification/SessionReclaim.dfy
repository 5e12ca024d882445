/** Reclaiming idle sessions for capacity, and the back-off a refused client is told (apps/gateway/src/app.ts). */
module SessionReclaim {
  import opened Results
  import opened Sessions
  import opened SessionRuns

  // --- the reclaim loop without interleaving ---

  function DisposeEach(g: Gateway, xs: seq<nat>): Gateway
    decreases |xs|
  {
    if xs == [] then g else DisposeEach(Dispose(g, xs[0], CapacityReclaimed), xs[1..])
  }

  /** Sessions above the last that would still leave a slot free. */
  function Excess(g: Gateway): nat {
    var over := |g.sessions| + g.pendingSessionInitializations - g.policy.maxSessions + 1;
    if over < 0 then 0 else over
  }

  predicate Evictable(g: Gateway, x: nat) {
    x in Registered(g.sessions) && x in g.entries && !g.entries[x].closing
  }

  lemma DisposeFreesOne(g: Gateway, x: nat)
    requires Counted(g) && Evictable(g, x)
    ensures |Dispose(g, x, CapacityReclaimed).sessions| == |g.sessions| - 1
  {
    var s :| s in g.sessions && g.sessions[s] == x;
    assert forall t :: t in g.sessions && g.sessions[t] == x ==> t == s;
    WithoutOne(g.sessions, s, x);
  }

  lemma WithoutOne(sessions: map<nat, nat>, s: nat, x: nat)
    requires s in sessions && sessions[s] == x
    requires forall t :: t in sessions && sessions[t] == x ==> t == s
    ensures |Without(sessions, x)| == |sessions| - 1
  {
    var left := Without(sessions, x);
    assert left.Keys == sessions.Keys - {s};
    assert |left.Keys| == |left| && |sessions.Keys| == |sessions|;
  }

  lemma EvictableStays(g: Gateway, x: nat, y: nat)
    requires Evictable(g, y) && x != y
    ensures Evictable(Dispose(g, x, CapacityReclaimed), y)
  {
    if x in g.entries {
      var s :| s in g.sessions && g.sessions[s] == y;
      assert s in Without(g.sessions, x) && Without(g.sessions, x)[s] == y;
    }
  }

  lemma {:induction false} DisposeEachFrees(g: Gateway, xs: seq<nat>)
    requires Counted(g)
    requires forall i, j :: 0 <= i < j < |xs| ==> xs[i] != xs[j]
    requires forall i :: 0 <= i < |xs| ==> Evictable(g, xs[i])
    ensures var h := DisposeEach(g, xs);
            && |h.sessions| == |g.sessions| - |xs| && h.policy == g.policy
            && h.pendingSessionInitializations == g.pendingSessionInitializations
    decreases |xs|
  {
    if xs != [] {
      DisposeCounted(g, xs[0], CapacityReclaimed);
      DisposeFreesOne(g, xs[0]);
      var h := Dispose(g, xs[0], CapacityReclaimed);
      forall i | 0 <= i < |xs[1..]| ensures Evictable(h, xs[1..][i]) {
        EvictableStays(g, xs[0], xs[i + 1]);
      }
      DisposeEachFrees(h, xs[1..]);
    }
  }

  /**
   Evicting in candidate order until a slot is free evicts the shortest prefix that frees one, or every
   candidate if none does: a prefix leaves the gateway full exactly while it is shorter than the excess.
   */
  lemma ShortestPrefix(g: Gateway, cs: seq<nat>, now: int, k: nat)
    requires Counted(g) && CandidateOrder(g, cs, now) && k <= |cs|
    ensures Full(DisposeEach(g, cs[..k])) <==> k < Excess(g)
  {
    forall i | 0 <= i < k ensures Evictable(g, cs[..k][i]) {
      assert cs[i] in cs && Reclaimable(g, cs[i], now);
    }
    DisposeEachFrees(g, cs[..k]);
  }

  // --- interleaving ---

  function IdleEntry(s: nat): Entry {
    Entry(Some(s), s, 0, true, false, true, false, None, false, [Activity], 0, Some(0), None)
  }

  /** Two sessions fill the gateway, both idle for longer than the reclaim period of 10. */
  const TWO_IDLE := Gateway(
    Policy(2, 10, 1000), map[0 := IdleEntry(0), 1 := IdleEntry(1)], map[0 := 0, 1 := 1], 0, map[], map[], 0, map[])

  /** A request that connects, initialises its session and returns, all at the time its number says. */
  function OneSession(x: nat): seq<Event> {
    [Post(x, x, [], x), Connects(x, true, x), Initializes(x, x, x), HandlerReturns(x, x), SlotReleased(x)]
  }

  lemma EntryLife(x: nat)
    ensures EndRequest(InitializeEntry(BeginRequest(NewEntry(x, 0), x), x, x, 0), x) == IdleEntry(x)
    ensures InitializeEntry(BeginRequest(NewEntry(x, 0), x), x, x, 0).initialized
  {
    assert [] + [Activity] == [Activity];
  }

  /** Nothing in flight, room for one more, and the identity is new. */
  predicate Roomy(g: Gateway, x: nat) {
    && g.slots == map[] && g.reclaims == map[] && g.pendingSessionInitializations == 0 && g.changes == 0
    && !Full(g) && x !in g.entries && x !in g.sessions && CandidateOrder(g, [], x)
    && forall y :: y in g.entries ==> g.entries[y].sessionId != Some(x)
  }

  /** The gateway in the middle of the request: its entry, the registrations, and how far its handler is. */
  function Amid(g: Gateway, x: nat, entry: Entry, sessions: map<nat, nat>, slot: Slot): Gateway {
    g.(entries := g.entries[x := entry], sessions := sessions, pendingSessionInitializations := 1,
       slots := map[x := slot])
  }

  lemma Connected(g: Gateway, x: nat)
    requires Roomy(g, x)
    ensures Step(Step(g, Post(x, x, [], x)), Connects(x, true, x))
            == Amid(g, x, BeginRequest(NewEntry(x, 0), x), g.sessions, Handling(x))
  {
    assert Step(g, Post(x, x, [], x)) == Amid(g, x, NewEntry(x, 0), g.sessions, Connecting(x));
  }

  /** The entry once it is registered, its request still running. */
  function NamedEntry(x: nat): Entry { InitializeEntry(BeginRequest(NewEntry(x, 0), x), x, x, 0) }

  lemma Named(g: Gateway, x: nat)
    requires Roomy(g, x)
    ensures Step(Amid(g, x, BeginRequest(NewEntry(x, 0), x), g.sessions, Handling(x)), Initializes(x, x, x))
            == Amid(g, x, NamedEntry(x), g.sessions[x := x], Handling(x))
  {
    var begun := BeginRequest(NewEntry(x, 0), x);
    var b := Amid(g, x, begun, g.sessions, Handling(x));
    assert begun.sessionId == None;
    assert forall y :: y in b.entries ==> b.entries[y].sessionId != Some(x);
    assert b.entries[x := NamedEntry(x)] == g.entries[x := NamedEntry(x)];
  }

  lemma Returned(g: Gateway, x: nat)
    requires Roomy(g, x)
    ensures Step(Amid(g, x, NamedEntry(x), g.sessions[x := x], Handling(x)), HandlerReturns(x, x))
            == Amid(g, x, IdleEntry(x), g.sessions[x := x], Handled(x))
  {
    EntryLife(x);
    var c := Amid(g, x, NamedEntry(x), g.sessions[x := x], Handling(x));
    assert c.entries[x := IdleEntry(x)] == g.entries[x := IdleEntry(x)];
    assert c.slots[x := Handled(x)] == map[x := Handled(x)];
  }

  lemma Released(g: Gateway, x: nat)
    requires Roomy(g, x)
    ensures Step(Amid(g, x, IdleEntry(x), g.sessions[x := x], Handled(x)), SlotReleased(x))
            == g.(entries := g.entries[x := IdleEntry(x)], sessions := g.sessions[x := x])
  {
    var d := Amid(g, x, IdleEntry(x), g.sessions[x := x], Handled(x));
    assert d.slots - {x} == map[];
  }

  lemma SessionAdded(g: Gateway, x: nat)
    requires Roomy(g, x)
    ensures After(g, OneSession(x)) == g.(entries := g.entries[x := IdleEntry(x)], sessions := g.sessions[x := x])
  {
    var es := OneSession(x);
    Connected(g, x);
    Named(g, x);
    Returned(g, x);
    Released(g, x);
    Unroll(g, es[0], es[1], es[2], es[3], es[4]);
  }

  lemma AfterNext(g: Gateway, es: seq<Event>, e: Event)
    ensures After(g, es + [e]) == Step(After(g, es), e)
  {
    assert (es + [e])[..|es|] == es;
  }

  lemma AfterFour(g: Gateway, p: Event, q: Event, r: Event, s: Event)
    ensures After(g, [p, q, r, s]) == Step(Step(Step(Step(g, p), q), r), s)
  {
    assert [] + [p] == [p] && [p] + [q] == [p, q] && [p, q] + [r] == [p, q, r] && [p, q, r] + [s] == [p, q, r, s];
    AfterNext(g, [], p);
    AfterNext(g, [p], q);
    AfterNext(g, [p, q], r);
    AfterNext(g, [p, q, r], s);
  }

  lemma Unroll(g: Gateway, p: Event, q: Event, r: Event, s: Event, t: Event)
    ensures After(g, [p, q, r, s, t]) == Step(Step(Step(Step(Step(g, p), q), r), s), t)
  {
    assert [] + [p] == [p] && [p] + [q] == [p, q] && [p, q] + [r] == [p, q, r];
    assert [p, q, r] + [s] == [p, q, r, s] && [p, q, r, s] + [t] == [p, q, r, s, t];
    AfterNext(g, [], p);
    AfterNext(g, [p], q);
    AfterNext(g, [p, q], r);
    AfterNext(g, [p, q, r], s);
    AfterNext(g, [p, q, r, s], t);
  }

  lemma {:induction false} AfterBoth(g: Gateway, a: seq<Event>, b: seq<Event>)
    ensures After(g, a + b) == After(After(g, a), b)
    decreases |b|
  {
    if b == [] {
      assert a + b == a;
    } else {
      var front, e := b[..|b| - 1], b[|b| - 1];
      assert b == front + [e] && a + b == (a + front) + [e];
      AfterBoth(g, a, front);
      AfterNext(g, a + front, e);
      AfterNext(After(g, a), front, e);
    }
  }

  /** Ten steps from the empty gateway lead to the two idle sessions. */
  lemma TwoIdleReached(g: Gateway)
    requires g == Empty(Policy(2, 10, 1000))
    ensures After(g, OneSession(0) + OneSession(1)) == TWO_IDLE
  {
    AfterBoth(g, OneSession(0), OneSession(1));
    OneIdleReached(g);
    SecondIdleReached();
  }

  const ONE_IDLE := Empty(Policy(2, 10, 1000)).(entries := map[0 := IdleEntry(0)], sessions := map[0 := 0])

  lemma OneIdleReached(g: Gateway)
    requires g == Empty(Policy(2, 10, 1000))
    ensures After(g, OneSession(0)) == ONE_IDLE
  {
    SessionAdded(g, 0);
    assert g.entries[0 := IdleEntry(0)] == ONE_IDLE.entries && g.sessions[0 := 0] == ONE_IDLE.sessions;
  }

  lemma SecondIdleReached()
    ensures After(ONE_IDLE, OneSession(1)) == TWO_IDLE
  {
    SessionAdded(ONE_IDLE, 1);
    assert ONE_IDLE.entries[1 := IdleEntry(1)] == TWO_IDLE.entries && ONE_IDLE.sessions[1 := 1] == TWO_IDLE.sessions;
  }

  /** After request 0 evicted session 0 and suspended, and request 1 claimed the slot that freed. */
  const SLOT_TAKEN := TWO_IDLE.(
    entries := map[0 := CloseEntry(IdleEntry(0), CapacityReclaimed, 0), 1 := IdleEntry(1), 2 := NewEntry(20, 0)],
    sessions := map[1 := 1], pendingSessionInitializations := 1,
    slots := map[1 := Connecting(2)], reclaims := map[0 := Reclaiming([1])])

  const FIRST_EVICTED := TWO_IDLE.(
    entries := map[0 := CloseEntry(IdleEntry(0), CapacityReclaimed, 0), 1 := IdleEntry(1)],
    sessions := map[1 := 1], reclaims := map[0 := Reclaiming([1])])

  lemma FirstEvictedReached()
    ensures Step(TWO_IDLE, Post(0, 2, [0, 1], 20)) == FIRST_EVICTED
  {
    assert TWO_IDLE.sessions[0] == 0 && TWO_IDLE.sessions[1] == 1;
    assert CandidateOrder(TWO_IDLE, [0, 1], 20);
    assert Without(TWO_IDLE.sessions, 0) == map[1 := 1];
  }

  lemma SlotTakenReached()
    ensures Step(FIRST_EVICTED, Post(1, 2, [1], 20)) == SLOT_TAKEN
  {
    assert FIRST_EVICTED.sessions[1] == 1;
    assert CandidateOrder(FIRST_EVICTED, [1], 20);
    assert FIRST_EVICTED.reclaims - {1} == FIRST_EVICTED.reclaims;
  }

  /** Two sessions go idle; request 0 evicts the first and awaits, and request 1 takes its place. */
  function SlotTakenRun(): seq<Event> {
    (OneSession(0) + OneSession(1)) + [Post(0, 2, [0, 1], 20), Post(1, 2, [1], 20)]
  }

  lemma SlotTakenByRun(g: Gateway)
    requires g == Empty(Policy(2, 10, 1000))
    ensures After(g, SlotTakenRun()) == SLOT_TAKEN
  {
    var p, q := Post(0, 2, [0, 1], 20), Post(1, 2, [1], 20);
    TwoIdleReached(g);
    AfterBoth(g, OneSession(0) + OneSession(1), [p, q]);
    AfterTwo(TWO_IDLE, p, q);
    FirstEvictedReached();
    SlotTakenReached();
  }

  lemma AfterTwo(g: Gateway, p: Event, q: Event)
    ensures After(g, [p, q]) == Step(Step(g, p), q)
  {
    assert [] + [p] == [p] && [p] + [q] == [p, q];
    AfterNext(g, [], p);
    AfterNext(g, [p], q);
  }

  /**
   Candidates are chosen once, before the first await.  After this run session 1 is still on request 0's list; it
   starts a call before request 0 resumes, and the busy session is evicted.
   */
  lemma BusySessionEvicted(g: Gateway)
    requires g == Empty(Policy(2, 10, 1000))
    ensures var called := SlotTakenRun() + [RequestStarts(0, 1, false, 20)];
            var b := After(g, called);
            var d := After(g, called + [ReclaimResumes(0)]);
            && 1 in b.entries && b.entries[1].activeRequestCount == 1 && 1 in b.sessions && !b.entries[1].closing
            && 1 in d.entries && d.entries[1].notices == [Activity, Activity, Closed(CapacityReclaimed)]
            && 1 !in d.sessions
  {
    SlotTakenByRun(g);
    AfterNext(g, SlotTakenRun(), RequestStarts(0, 1, false, 20));
    AfterNext(g, SlotTakenRun() + [RequestStarts(0, 1, false, 20)], ReclaimResumes(0));
    BusyEvicted();
  }

  lemma BusyEvicted()
    ensures var c := Step(SLOT_TAKEN, RequestStarts(0, 1, false, 20));
            && 1 in c.entries && c.entries[1].activeRequestCount == 1 && 1 in c.sessions && !c.entries[1].closing
    ensures var d := Step(Step(SLOT_TAKEN, RequestStarts(0, 1, false, 20)), ReclaimResumes(0));
            && 1 in d.entries && d.entries[1].notices == [Activity, Activity, Closed(CapacityReclaimed)]
            && 1 !in d.sessions
  {
    var c := Step(SLOT_TAKEN, RequestStarts(0, 1, false, 20));
    assert c.entries[1].notices == [Activity, Activity];
    assert Full(c);
  }

  /** A candidate of an interrupted reclaim that has a request in progress and is closed by the next turn. */
  predicate EvictedBusy(h: Gateway, r: nat, x: nat) {
    && Open(h, x) && h.entries[x].activeRequestCount > 0
    && !Open(Step(h, ReclaimResumes(r)), x)
  }

  /**
   At its turn an open candidate is closed exactly when no slot is free, however busy it has become; so the
   turn closes a busy session exactly when the first candidate left is busy and no slot is free.
   */
  lemma EvictedIffFull(h: Gateway, r: nat, x: nat)
    requires r in h.reclaims && h.reclaims[r].Reclaiming? && h.reclaims[r].rest != []
    ensures var first := h.reclaims[r].rest[0];
            && (Open(h, first) ==> (!Open(Step(h, ReclaimResumes(r)), first) <==> Full(h)))
            && (EvictedBusy(h, r, x) <==>
                  x == first && Open(h, x) && h.entries[x].activeRequestCount > 0 && Full(h))
  {
  }

  // --- back-off ---

  predicate Idle(g: Gateway, x: nat) {
    x in Registered(g.sessions) && x in g.entries && !g.entries[x].closing && g.entries[x].activeRequestCount == 0
  }

  function WholeSeconds(ms: nat): (s: nat)
    ensures s >= 1 && 1000 * s >= ms && (s > 1 ==> 1000 * (s - 1) < ms)
  {
    var up := (ms + 999) / 1000;
    if up < 1 then 1 else up
  }

  /** How long until an idle entry is reclaimable. */
  function WaitOf(g: Gateway, x: nat, now: int): nat {
    if x !in g.entries then 0
    else
      var wait := g.entries[x].lastActivityAt + g.policy.capacityReclaimIdleMs - now;
      if wait < 0 then 0 else wait
  }

  predicate ReclaimableAfter(g: Gateway, x: nat, now: int, seconds: int) {
    Reclaimable(g, x, now + 1000 * seconds)
  }

  /**
   The advised back-off is the least whole number of seconds, at least one, after which some currently
   idle session becomes reclaimable; with none idle it is the reclaim period itself.
   */
  ghost predicate BackOff(g: Gateway, now: int, seconds: nat) {
    && seconds >= 1
    && ((exists x :: Idle(g, x)) ==>
          && (exists x :: ReclaimableAfter(g, x, now, seconds))
          && (forall s, x :: 1 <= s < seconds ==> !ReclaimableAfter(g, x, now, s)))
    && ((forall x :: !Idle(g, x)) ==> seconds == WholeSeconds(g.policy.capacityReclaimIdleMs))
  }

  lemma BackOffFromLeast(g: Gateway, now: int, least: nat)
    requires Idle(g, least)
    requires forall x :: Idle(g, x) ==> WaitOf(g, least, now) <= WaitOf(g, x, now)
    ensures BackOff(g, now, WholeSeconds(WaitOf(g, least, now)))
  {
    var seconds := WholeSeconds(WaitOf(g, least, now));
    assert ReclaimableAfter(g, least, now, seconds);
    forall s, x | 1 <= s < seconds ensures !ReclaimableAfter(g, x, now, s) {
      assert 1000 * s <= 1000 * (seconds - 1) < WaitOf(g, least, now);
      assert Idle(g, x) || !ReclaimableAfter(g, x, now, s);
    }
  }
}

/**
 How far the capacity check (apps/gateway/src/app.ts) is off.  It adds up sessions and initialisations in flight, and an
 initialisation that has registered its session is both until its request returns.
 */
module SessionCapacity {
  import opened Results
  import opened Sessions
  import opened SessionRuns
  import opened SessionReclaim

  // --- what the two counters count ---

  /** Requests in flight hold different entries. */
  ghost predicate Distinct(slots: map<nat, Slot>) {
    forall r, q :: r in slots && q in slots && slots[r].entry == slots[q].entry ==> r == q
  }

  /** The entries counted twice: registered, their initialise request still running. */
  function Twice(g: Gateway): set<nat> { Registered(g.sessions) * Initializing(g.slots) }

  lemma {:induction false} DistinctSize(slots: map<nat, Slot>)
    requires Distinct(slots)
    ensures |slots| == |Initializing(slots)|
  {
    if slots == map[] {
      assert Initializing(slots) == {};
    } else {
      var r :| r in slots;
      var rest := slots - {r};
      assert slots.Keys == rest.Keys + {r};
      DistinctSize(rest);
      InitializingLast(slots, r);
    }
  }

  lemma InitializingLast(slots: map<nat, Slot>, r: nat)
    requires Distinct(slots) && r in slots
    ensures Initializing(slots) == Initializing(slots - {r}) + {slots[r].entry}
    ensures slots[r].entry !in Initializing(slots - {r})
  {
    var rest := slots - {r};
    forall x | x in Initializing(slots) ensures x in Initializing(rest) + {slots[r].entry} {
      var q :| q in slots && slots[q].entry == x;
      if q != r { assert q in rest && rest[q].entry == x; }
    }
    InitializingFewer(rest, slots);
    assert slots[r].entry in Initializing(slots);
  }

  // --- every step keeps the entries in flight distinct ---

  /** Requests in flight keep their entries, and at most one joins them, with an entry that is new. */
  ghost predicate SlotsMove(g: Gateway, h: Gateway) {
    && (forall r :: r in h.slots && r in g.slots ==> h.slots[r].entry == g.slots[r].entry)
    && (forall r :: r in h.slots && r !in g.slots ==> h.slots[r].entry !in g.entries)
    && (forall r, q :: r in h.slots && q in h.slots && r !in g.slots && q !in g.slots ==> r == q)
  }

  lemma SlotsMoveDistinct(g: Gateway, h: Gateway)
    requires SlotsMove(g, h) && Distinct(g.slots) && Held(g.slots, g.entries)
    ensures Distinct(h.slots)
  {}

  lemma ClaimMoves(g: Gateway, r: nat, x: nat, now: int)
    requires r !in g.slots && x !in g.entries
    ensures SlotsMove(g, Claim(g, r, x, now))
  {}

  lemma TurnMoves(g: Gateway, r: nat, rest: seq<nat>)
    ensures ReclaimTurn(g, r, rest).slots == g.slots
  {}

  lemma AdmissionMoves(g: Gateway, e: Event)
    requires e.Post? || e.ReclaimResumes? || e.Decide?
    ensures SlotsMove(g, Step(g, e))
  {
    if Enabled(g, e) {
      match e
      case Post(r, x, cs, now) => if Full(g) { TurnMoves(g, r, cs); } else { ClaimMoves(g, r, x, now); }
      case ReclaimResumes(r) => TurnMoves(g, r, g.reclaims[r].rest);
      case Decide(r, x, now) => if !Full(g) { ClaimMoves(g, r, x, now); }
      case _ =>
    }
  }

  lemma SlotMoves(g: Gateway, e: Event)
    requires e.Connects? || e.HandlerReturns? || e.SlotReleased?
    ensures SlotsMove(g, Step(g, e))
  {}

  lemma OtherMoves(g: Gateway, e: Event)
    requires !e.Post? && !e.ReclaimResumes? && !e.Decide? && !e.Connects? && !e.HandlerReturns? && !e.SlotReleased?
    ensures Step(g, e).slots == g.slots
  {}

  lemma StepDistinct(g: Gateway, e: Event)
    requires Counted(g) && Distinct(g.slots)
    ensures Distinct(Step(g, e).slots)
  {
    if e.Post? || e.ReclaimResumes? || e.Decide? {
      AdmissionMoves(g, e);
    } else if e.Connects? || e.HandlerReturns? || e.SlotReleased? {
      SlotMoves(g, e);
    } else {
      OtherMoves(g, e);
    }
    SlotsMoveDistinct(g, Step(g, e));
  }

  lemma {:induction false} RunDistinct(policy: Policy, es: seq<Event>)
    ensures Counted(After(Empty(policy), es)) && Distinct(After(Empty(policy), es).slots)
  {
    InitialInv(policy);
    RunKeeps(Empty(policy), es);
    if es != [] {
      RunDistinct(policy, es[..|es| - 1]);
      StepDistinct(After(Empty(policy), es[..|es| - 1]), es[|es| - 1]);
    }
  }

  // --- the check against what is occupied ---

  /** On every run the two counters add up to the entries occupied, plus those that are counted twice. */
  lemma CountersExact(policy: Policy, es: seq<Event>)
    ensures var g := After(Empty(policy), es);
            |g.sessions| + g.pendingSessionInitializations == |Occupied(g)| + |Twice(g)|
  {
    var g := After(Empty(policy), es);
    RunDistinct(policy, es);
    InjectiveSize(g.sessions);
    DistinctSize(g.slots);
  }

  /** The check finds no capacity although fewer entries are occupied than the limit allows. */
  predicate FullTooEarly(g: Gateway) { Full(g) && |Occupied(g)| < g.policy.maxSessions }

  /**
   The capacity check on every run.  It is never too late: with every place occupied it finds none.  It is too early if
   and only if there is room, but no more than there are entries counted twice; and then at least half the places are
   occupied.
   */
  lemma CheckExactly(policy: Policy, es: seq<Event>)
    ensures var g := After(Empty(policy), es);
            && (|Occupied(g)| >= policy.maxSessions ==> Full(g))
            && (FullTooEarly(g) <==> 0 < policy.maxSessions - |Occupied(g)| <= |Twice(g)|)
            && (Full(g) ==> 2 * |Occupied(g)| >= policy.maxSessions)
  {
    var g := After(Empty(policy), es);
    CountersExact(policy, es);
    InitialInv(policy);
    RunKeeps(Empty(policy), es);
    Fewer(Twice(g), Occupied(g));
  }

  /** An initialise request is refused at its second check. */
  predicate Refused(g: Gateway, r: nat, x: nat, now: int) {
    Enabled(g, Decide(r, x, now)) && r !in Step(g, Decide(r, x, now)).slots
  }

  /** On every run a request at its second check is refused iff entries occupied and counted twice fill it. */
  lemma RefusedExactly(policy: Policy, es: seq<Event>, r: nat, x: nat, now: int)
    ensures var g := After(Empty(policy), es);
            Enabled(g, Decide(r, x, now)) ==>
              (Refused(g, r, x, now) <==> |Occupied(g)| + |Twice(g)| >= policy.maxSessions)
  {
    CountersExact(policy, es);
    InitialInv(policy);
    RunKeeps(Empty(policy), es);
  }

  // --- an early refusal ---

  /** A session registers, its request still running, and a second initialise request arrives. */
  const SECOND_ARRIVES: seq<Event> :=
    [Post(0, 0, [], 0), Connects(0, true, 0), Initializes(0, 7, 0), Post(1, 1, [], 0)]

  function Registering(): Entry { InitializeEntry(BeginRequest(NewEntry(0, 0), 0), 7, 0, 0) }

  /** The gateway after these events: one entry, in both counters, and the second request about to check again. */
  function OneCountedTwice(policy: Policy): Gateway {
    Gateway(policy, map[0 := Registering()], map[7 := 0], 1, map[0 := Handling(0)], map[1 := Deciding], 0, map[])
  }

  lemma ReachesOneCountedTwice(policy: Policy)
    requires 1 <= policy.maxSessions <= 2
    ensures After(Empty(policy), SECOND_ARRIVES) == OneCountedTwice(policy)
  {
    var g, es := Empty(policy), SECOND_ARRIVES;
    var a := Step(g, es[0]);
    assert a == Gateway(policy, map[0 := NewEntry(0, 0)], map[], 1, map[0 := Connecting(0)], map[], 0, map[]);
    var b := Step(a, es[1]);
    assert b == Gateway(policy, map[0 := BeginRequest(NewEntry(0, 0), 0)], map[], 1, map[0 := Handling(0)], map[], 0,
                        map[]);
    var c := Step(b, es[2]);
    assert c == Gateway(policy, map[0 := Registering()], map[7 := 0], 1, map[0 := Handling(0)], map[], 0, map[]);
    assert Step(c, es[3]) == OneCountedTwice(policy);
    AfterFour(g, es[0], es[1], es[2], es[3]);
  }

  /** With a limit of two and one entry occupied, the second request is refused. */
  lemma RefusedWithRoom()
    ensures var g := After(Empty(Policy(2, 10, 1000)), SECOND_ARRIVES);
            && Occupied(g) == Twice(g) == {0} && FullTooEarly(g) && Refused(g, 1, 1, 0)
  {
    var g := OneCountedTwice(Policy(2, 10, 1000));
    ReachesOneCountedTwice(g.policy);
    assert 7 in g.sessions && g.sessions[7] == 0 && 0 in g.slots && g.slots[0].entry == 0;
    assert Registered(g.sessions) == {0} && Initializing(g.slots) == {0};
  }
}

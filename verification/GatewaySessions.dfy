/**
 The session variables `createGatewayApplication` closes over and the handlers that update them
 (apps/gateway/src/app.ts).  Session entries live in a table indexed by entry identity.  Each method is
 one step between awaits and computes the corresponding step of module `Sessions`.
 */
module GatewaySessions {
  import opened Results
  import opened Sessions
  import SessionRuns
  import opened SessionReclaim

  class GatewayApplication {
    const policy: Policy
    var entries: map<nat, Entry>
    var sessions: map<nat, nat>
    var pendingSessionInitializations: int
    var slots: map<nat, Slot>
    var reclaims: map<nat, Reclaim>
    var changes: nat
    var requests: map<nat, nat>          // history: requests in progress, each with its entry

    ghost function State(): Gateway
      reads this
    {
      Gateway(policy, entries, sessions, pendingSessionInitializations, slots, reclaims, changes, requests)
    }

    constructor (policy: Policy)
      ensures State() == Empty(policy)
    {
      this.policy := policy;
      entries, sessions, pendingSessionInitializations := map[], map[], 0;
      slots, reclaims, changes, requests := map[], map[], 0, map[];
    }

    // --- closing ---

    method RemoveSessionEntry(x: nat)
      modifies this`sessions
      ensures sessions == Without(old(sessions), x)
    {
      ghost var before := sessions;
      var todo := sessions.Keys;
      while todo != {}
        invariant todo <= before.Keys
        invariant sessions == map s | s in before && (s in todo || before[s] != x) :: before[s]
      {
        var s :| s in todo;
        if sessions[s] == x {
          sessions := sessions - {s};
        }
        todo := todo - {s};
      }
    }

    method DisposeSession(x: nat, reason: Reason)
      modifies this`entries, this`sessions
      ensures State() == Dispose(old(State()), x, reason)
    {
      if x !in entries { return; }
      var wasClosing := entries[x].closing;
      entries := entries[x := CloseEntry(entries[x], reason, changes)];
      if !wasClosing {
        RemoveSessionEntry(x);
      }
    }

    method OnTransportClose(x: nat)
      modifies this`entries, this`sessions
      ensures State() == TransportCloses(old(State()), x)
    {
      if x !in entries { return; }
      entries := entries[x := CloseEntry(entries[x], TransportClosed, changes)];
      RemoveSessionEntry(x);
    }

    // --- capacity ---

    method AtCapacity() returns (full: bool)
      ensures full == Full(State())
    {
      full := |sessions| + pendingSessionInitializations >= policy.maxSessions;
    }

    method TakeReclaimTurn(r: nat, rest: seq<nat>)
      modifies this`entries, this`sessions, this`reclaims
      ensures State() == ReclaimTurn(old(State()), r, rest)
    {
      var full := AtCapacity();
      if !full || rest == [] {
        reclaims := reclaims[r := Deciding];
      } else {
        DisposeSession(rest[0], CapacityReclaimed);
        reclaims := reclaims[r := Reclaiming(rest[1..])];
      }
    }

    method ClaimSlot(r: nat, x: nat, now: int)
      modifies this
      ensures State() == Claim(old(State()), r, x, now)
    {
      pendingSessionInitializations := pendingSessionInitializations + 1;
      entries := entries[x := NewEntry(now, changes)];
      slots := slots[r := Connecting(x)];
      reclaims := reclaims - {r};
    }

    method PostInitialize(r: nat, x: nat, candidates: seq<nat>, now: int)
      requires r !in slots && r !in reclaims && x !in entries && CandidateOrder(State(), candidates, now)
      modifies this
      ensures State() == Step(old(State()), Post(r, x, candidates, now))
    {
      var full := AtCapacity();
      if full { TakeReclaimTurn(r, candidates); } else { ClaimSlot(r, x, now); }
    }

    method ResumeReclaim(r: nat)
      requires r in reclaims && reclaims[r].Reclaiming?
      modifies this
      ensures State() == Step(old(State()), ReclaimResumes(r))
    {
      TakeReclaimTurn(r, reclaims[r].rest);
    }

    /** The second capacity check; a refused client is told how long to back off. */
    method DecideCapacity(r: nat, x: nat, now: int) returns (retryAfter: Option<nat>)
      requires r in reclaims && reclaims[r].Deciding? && r !in slots && x !in entries
      modifies this
      ensures State() == Step(old(State()), Decide(r, x, now))
      ensures retryAfter.Some? == Full(old(State()))
      ensures retryAfter.Some? ==> BackOff(old(State()), now, retryAfter.value)
    {
      var full := AtCapacity();
      if full {
        var seconds := SessionCapacityRetryAfterSeconds(now);
        reclaims := reclaims - {r};
        retryAfter := Some(seconds);
      } else {
        ClaimSlot(r, x, now);
        retryAfter := None;
      }
    }

    method SessionCapacityRetryAfterSeconds(now: int) returns (seconds: nat)
      ensures BackOff(State(), now, seconds)
    {
      var todo := Registered(sessions);
      ghost var seen: set<nat> := {};
      var least: Option<nat> := None;
      while todo != {}
        invariant todo + seen == Registered(sessions)
        invariant least.None? ==> forall x :: x in seen ==> !Idle(State(), x)
        invariant least.Some? ==> Idle(State(), least.value)
                                  && forall x :: x in seen && Idle(State(), x) ==>
                                       WaitOf(State(), least.value, now) <= WaitOf(State(), x, now)
      {
        var x :| x in todo;
        if x in entries && !entries[x].closing && entries[x].activeRequestCount == 0 {
          if least.None? || Wait(x, now) < Wait(least.value, now) { least := Some(x); }
        }
        todo := todo - {x};
        seen := seen + {x};
      }
      if least.None? {
        seconds := WholeSeconds(policy.capacityReclaimIdleMs);
      } else {
        BackOffFromLeast(State(), now, least.value);
        seconds := WholeSeconds(Wait(least.value, now));
      }
    }

    function Wait(x: nat, now: int): (ms: nat)
      reads this
      ensures ms == WaitOf(State(), x, now)
    {
      if x !in entries then 0
      else
        var wait := entries[x].lastActivityAt + policy.capacityReclaimIdleMs - now;
        if wait < 0 then 0 else wait
    }

    /** The reclaimable entries, least recently active first. */
    method SortCandidates(now: int) returns (order: seq<nat>)
      ensures CandidateOrder(State(), order, now)
    {
      var todo := set x | x in Registered(sessions) && x in entries
                          && !entries[x].closing && entries[x].activeRequestCount == 0
                          && entries[x].lastActivityAt <= now - policy.capacityReclaimIdleMs;
      assert forall x :: x in Registered(sessions) ==> (x in todo <==> Reclaimable(State(), x, now));
      order := [];
      while todo != {}
        invariant forall x :: x in Registered(sessions) ==> (x in todo || x in order <==> Reclaimable(State(), x, now))
        invariant forall x :: x in todo || x in order ==> x in Registered(sessions) && x in entries
        invariant forall x :: x in todo ==> x !in order
        invariant forall i, j :: 0 <= i < j < |order| ==> order[i] != order[j]
        invariant forall i, j :: 0 <= i < j < |order| ==>
                    entries[order[i]].lastActivityAt <= entries[order[j]].lastActivityAt
        invariant forall i, x :: 0 <= i < |order| && x in todo ==>
                    entries[order[i]].lastActivityAt <= entries[x].lastActivityAt
      {
        var first := Earliest(todo);
        order := order + [first];
        todo := todo - {first};
      }
    }

    method Earliest(xs: set<nat>) returns (first: nat)
      requires xs != {} && forall x :: x in xs ==> x in entries
      ensures first in xs && forall x :: x in xs ==> entries[first].lastActivityAt <= entries[x].lastActivityAt
    {
      first :| first in xs;
      var todo := xs;
      while todo != {}
        invariant todo <= xs && first in xs
        invariant forall x :: x in xs && x !in todo ==> entries[first].lastActivityAt <= entries[x].lastActivityAt
      {
        var x :| x in todo;
        if entries[x].lastActivityAt < entries[first].lastActivityAt { first := x; }
        todo := todo - {x};
      }
    }

    /**
     The whole reclaim loop with nothing interleaved: it evicts exactly the first `Excess` candidates,
     or all of them, so the shortest prefix that frees a slot.
     */
    method ReclaimIdleSessionsForCapacity(now: int) returns (evicted: seq<nat>, ghost order: seq<nat>)
      requires SessionRuns.Counted(State())
      modifies this`entries, this`sessions
      ensures CandidateOrder(old(State()), order, now)
      ensures |evicted| == if Excess(old(State())) < |order| then Excess(old(State())) else |order|
      ensures evicted == order[..|evicted|] && State() == DisposeEach(old(State()), evicted)
    {
      ghost var before := State();
      evicted := [];
      var cs := SortCandidates(now);
      order := cs;
      while |evicted| < |cs|
        invariant |evicted| <= |cs| && evicted == cs[..|evicted|]
        invariant State() == DisposeEach(before, evicted)
        invariant |evicted| <= Excess(before)
      {
        var next := cs[|evicted|];
        ShortestPrefix(before, cs, now, |evicted|);
        var full := AtCapacity();
        if !full { break; }
        DisposeEachSnoc(before, evicted, next);
        DisposeSession(next, CapacityReclaimed);
        assert cs[..|evicted| + 1] == cs[..|evicted|] + [next];
        evicted := evicted + [next];
      }
    }

    // --- the initialise handler ---

    method FinishConnect(r: nat, succeeded: bool, now: int)
      requires r in slots && slots[r].Connecting? && slots[r].entry in entries
      modifies this
      ensures State() == Step(old(State()), Connects(r, succeeded, now))
    {
      var x := slots[r].entry;
      if succeeded {
        entries := entries[x := BeginRequest(entries[x], now)];
        slots := slots[r := Handling(x)];
      } else {
        DisposeSession(x, TransportClosed);
        slots := slots[r := ConnectFailed(x)];
      }
    }

    method OnSessionInitialized(r: nat, sessionId: nat, now: int)
      requires Enabled(State(), Initializes(r, sessionId, now))
      modifies this
      ensures State() == Step(old(State()), Initializes(r, sessionId, now))
    {
      var x := slots[r].entry;
      entries := entries[x := InitializeEntry(entries[x], sessionId, now, changes)];
      sessions := sessions[sessionId := x];
    }

    method ReturnFromHandler(r: nat, now: int)
      requires r in slots && slots[r].Handling? && slots[r].entry in entries
      modifies this
      ensures State() == Step(old(State()), HandlerReturns(r, now))
    {
      var x := slots[r].entry;
      entries := entries[x := EndRequest(entries[x], now)];
      slots := slots[r := Handled(x)];
    }

    method ReleaseSlot(r: nat)
      requires r in slots && (slots[r].Handled? || slots[r].ConnectFailed?) && slots[r].entry in entries
      modifies this
      ensures State() == Step(old(State()), SlotReleased(r))
    {
      var slot := slots[r];
      pendingSessionInitializations := pendingSessionInitializations - 1;
      slots := slots - {r};
      if slot.Handled? && !entries[slot.entry].initialized {
        DisposeSession(slot.entry, TransportClosed);
      }
    }

    // --- requests on a session ---

    method StartRequest(q: nat, sessionId: nat, delete: bool, now: int)
      requires sessionId in sessions && sessions[sessionId] in entries && q !in requests
      modifies this`entries, this`requests
      ensures State() == Step(old(State()), RequestStarts(q, sessionId, delete, now))
    {
      var x := sessions[sessionId];
      requests := requests[q := x];
      if delete {
        entries := entries[x := BeginRequest(WithReason(entries[x], ClientDelete), now)];
      } else {
        entries := entries[x := BeginRequest(entries[x], now)];
      }
    }

    method FinishRequest(q: nat, now: int)
      requires q in requests && requests[q] in entries
      modifies this`entries, this`requests
      ensures State() == Step(old(State()), Event.RequestEnds(q, now))
    {
      var x := requests[q];
      requests := requests - {q};
      entries := entries[x := EndRequest(entries[x], now)];
    }

    // --- timers, catalog and shutdown ---

    /** Disposes every registered entry of a set that is still open. */
    method DisposeMany(xs: set<nat>, reason: Reason)
      requires xs <= Registered(sessions) && forall x :: x in xs ==> x in entries
      modifies this`entries, this`sessions
      ensures State() == DisposeAll(old(State()), xs, reason)
    {
      ghost var before := State();
      ghost var done: set<nat> := {};
      var todo := xs;
      assert DisposeAll(before, {}, reason).entries == before.entries;
      assert DisposeAll(before, {}, reason).sessions == before.sessions;
      while todo != {}
        invariant done !! todo && done + todo == xs
        invariant State() == DisposeAll(before, done, reason)
      {
        var x :| x in todo;
        DisposeOneMore(before, done, x, reason);
        DisposeSession(x, reason);
        todo, done := todo - {x}, done + {x};
      }
      assert done == xs;
    }

    method SweepIdleSessions(now: int)
      requires forall x :: x in Registered(sessions) ==> x in entries
      modifies this`entries, this`sessions
      ensures State() == Step(old(State()), Sweep(now))
    {
      var idle := set x | x in Registered(sessions) && x in entries
                          && !entries[x].closing && entries[x].activeRequestCount == 0
                          && entries[x].lastActivityAt < now - policy.sessionIdleTimeoutMs;
      assert idle == SweptSet(State(), now);
      DisposeMany(idle, IdleTimeout);
    }

    method CloseSessions()
      requires forall x :: x in Registered(sessions) ==> x in entries
      modifies this`entries, this`sessions
      ensures State() == Step(old(State()), ShutdownBegins)
    {
      DisposeMany(Registered(sessions), GatewayShutdown);
    }

    method PublishCatalogChange()
      modifies this`entries, this`changes
      ensures State() == Step(old(State()), CatalogChanges)
    {
      ghost var before := entries;
      var todo := entries.Keys;
      while todo != {}
        invariant todo <= before.Keys && entries.Keys == before.Keys && changes == old(changes)
        invariant forall x :: x in before ==> entries[x] == if x in todo then before[x] else ObserveChange(before[x])
      {
        var x :| x in todo;
        entries := entries[x := ObserveChange(entries[x])];
        todo := todo - {x};
      }
      changes := changes + 1;
      assert entries == Step(old(State()), CatalogChanges).entries;
    }
  }

  lemma {:induction false} DisposeEachSnoc(g: Gateway, xs: seq<nat>, x: nat)
    ensures DisposeEach(g, xs + [x]) == Dispose(DisposeEach(g, xs), x, CapacityReclaimed)
    decreases |xs|
  {
    if xs == [] {
      assert [] + [x] == [x] && [x][1..] == [];
    } else {
      assert (xs + [x])[1..] == xs[1..] + [x];
      DisposeEachSnoc(Dispose(g, xs[0], CapacityReclaimed), xs[1..], x);
    }
  }

  lemma DisposeOneMore(g: Gateway, done: set<nat>, x: nat, reason: Reason)
    requires x in g.entries && x !in done
    ensures Dispose(DisposeAll(g, done, reason), x, reason) == DisposeAll(g, done + {x}, reason)
  {
    var some, more := DisposeAll(g, done, reason), DisposeAll(g, done + {x}, reason);
    assert some.entries[x] == g.entries[x];
    assert Dispose(some, x, reason).entries == more.entries;
    assert Dispose(some, x, reason).sessions == more.sessions;
  }
}

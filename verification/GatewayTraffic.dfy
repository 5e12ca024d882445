/**
 The Gateway's traffic gate: what `createGatewayApplication` closes over to admit, count, quiesce and
 drain MCP requests (apps/gateway/src/app.ts).
 */
module GatewayTraffic {
  import opened Results
  import opened Drains

  const MAX_SAFE_INTEGER: int := 9007199254740991
  const MAX_DRAIN_MS: int := 300000

  predicate IsGeneration(value: int) { 0 <= value <= MAX_SAFE_INTEGER }

  predicate IsTimeout(value: int) { 1 <= value <= MAX_DRAIN_MS }

  /** What the admission middleware does with a request. */
  datatype Admission = Rejected503 | Uncounted | Counted(permit: nat)

  // --- one atomic step each ---

  /** Long-lived GET streams pass without being counted. */
  function AdmitRequest(l: Layer, isGet: bool): (Layer, Admission) {
    if !l.open then (l, Rejected503)
    else if isGet then (l, Uncounted)
    else (Admit(l), Counted(|l.permits|))
  }

  function GenerationFault(l: Layer, expected: int): Option<Code> {
    if !IsGeneration(expected) then Some(InvalidInput)
    else if expected != l.generation then Some(StaleHash)
    else None
  }

  function ResumeAt(l: Layer, expected: int): (Layer, Option<Code>) {
    var fault := GenerationFault(l, expected);
    if fault.Some? then (l, fault) else (Drains.Resume(l), None)
  }

  /** Succeeds with the identity of the drain it starts. */
  function WaitForIdle(l: Layer, expected: int, timeoutMs: int): (Layer, Result<nat, Code>) {
    var fault := GenerationFault(l, expected);
    if fault.Some? then (l, Failure(fault.value))
    else if l.open || !IsTimeout(timeoutMs) then (l, Failure(InvalidInput))
    else (Wait(l), Success(l.begun))
  }

  datatype Event =
    | RequestArrives(isGet: bool)
    | RequestEnds(permit: nat)
    | DrainTimer(drain: nat)
    | DoQuiesce
    | DoResume(expected: int)
    | DoWait(expected: int, timeoutMs: int)
    | DoClose

  function Step(l: Layer, e: Event): Layer {
    match e
    case RequestArrives(isGet) => AdmitRequest(l, isGet).0
    case RequestEnds(permit) => Release(l, permit)
    case DrainTimer(drain) => TimeOut(l, drain)
    case DoQuiesce => Drains.Quiesce(l)
    case DoResume(expected) => ResumeAt(l, expected).0
    case DoWait(expected, timeoutMs) => WaitForIdle(l, expected, timeoutMs).0
    case DoClose => Drains.Close(l)
  }

  /** The Gateway's steps are moves of its layer. */
  function MoveOf(l: Layer, e: Event): Move {
    match e
    case RequestArrives(isGet) => if isGet then Stay else Enter
    case RequestEnds(permit) => Leave(permit)
    case DrainTimer(drain) => Expire(drain)
    case DoQuiesce => Shut
    case DoResume(expected) => if GenerationFault(l, expected).Some? then Stay else OpenIfShut
    case DoWait(expected, timeoutMs) =>
      if GenerationFault(l, expected).Some? || !IsTimeout(timeoutMs) then Stay else Begin
    case DoClose => ShutDown
  }

  lemma StepMoves(l: Layer, e: Event)
    ensures Step(l, e) == Apply(l, MoveOf(l, e))
  {
  }

  /** The gate itself, with the variables the source's closures share. */
  class TrafficGate {
    var acceptingMcpRequests: bool
    var trafficGeneration: nat
    var activeMcpRequestCount: int
    var released: seq<bool>
    var trafficWaiters: map<nat, nat>
    var reports: map<nat, Report>
    var drainsBegun: nat

    ghost function State(): Layer
      reads this
    {
      Layer(acceptingMcpRequests, trafficGeneration, activeMcpRequestCount, released,
            trafficWaiters, reports, drainsBegun)
    }

    constructor ()
      ensures State() == FRESH
    {
      acceptingMcpRequests, trafficGeneration, activeMcpRequestCount := true, 0, 0;
      released, trafficWaiters, reports, drainsBegun := [], map[], map[], 0;
    }

    method FinishDrain(w: nat, drained: bool, timedOut: bool, interrupted: bool)
      modifies this`trafficWaiters, this`reports
      ensures State() == Finish(old(State()), w, drained, timedOut, interrupted)
    {
      trafficWaiters := trafficWaiters - {w};
      reports := reports[w := Report(drained, timedOut, interrupted, trafficGeneration, activeMcpRequestCount)];
    }

    method CheckWaiter(w: nat)
      requires w in trafficWaiters
      modifies this`trafficWaiters, this`reports
      ensures State() == Check(old(State()), w)
    {
      if trafficGeneration != trafficWaiters[w] || acceptingMcpRequests {
        FinishDrain(w, false, false, true);
      } else if activeMcpRequestCount == 0 {
        FinishDrain(w, true, false, false);
      }
    }

    /** Runs every registered waiter's check over a snapshot of the waiter set. */
    method NotifyTrafficWaiters()
      modifies this`trafficWaiters, this`reports
      ensures State() == Notify(old(State()))
    {
      ghost var before, done := State(), {};
      var todo := trafficWaiters.Keys;
      assert NotifySome(before, {}).waiters == before.waiters;
      assert NotifySome(before, {}).settled == before.settled;
      while todo != {}
        invariant done !! todo && done + todo == before.waiters.Keys
        invariant State() == NotifySome(before, done)
      {
        var w :| w in todo;
        NotifyOne(before, done, w);
        CheckWaiter(w);
        todo, done := todo - {w}, done + {w};
      }
      assert done == before.waiters.Keys;
    }

    method AdmitMcpRequest(isGet: bool) returns (a: Admission)
      modifies this
      ensures (State(), a) == AdmitRequest(old(State()), isGet)
    {
      if !acceptingMcpRequests { return Rejected503; }
      if isGet { return Uncounted; }
      activeMcpRequestCount := activeMcpRequestCount + 1;
      a := Counted(|released|);
      released := released + [false];
    }

    method ReleaseMcpRequest(permit: nat)
      modifies this
      ensures State() == Release(old(State()), permit)
    {
      if permit < |released| && !released[permit] {
        released := released[permit := true];
        activeMcpRequestCount := AtLeastZero(activeMcpRequestCount - 1);
        NotifyTrafficWaiters();
      }
    }

    method Quiesce()
      modifies this
      ensures State() == Drains.Quiesce(old(State()))
    {
      if acceptingMcpRequests {
        acceptingMcpRequests := false;
        trafficGeneration := trafficGeneration + 1;
        NotifyTrafficWaiters();
      }
    }

    method Resume(expected: int) returns (fault: Option<Code>)
      modifies this
      ensures (State(), fault) == ResumeAt(old(State()), expected)
    {
      if !IsGeneration(expected) { return Some(InvalidInput); }
      if expected != trafficGeneration { return Some(StaleHash); }
      if !acceptingMcpRequests {
        acceptingMcpRequests := true;
        trafficGeneration := trafficGeneration + 1;
        NotifyTrafficWaiters();
      }
      fault := None;
    }

    method BeginWait(expected: int, timeoutMs: int) returns (r: Result<nat, Code>)
      modifies this
      ensures (State(), r) == WaitForIdle(old(State()), expected, timeoutMs)
    {
      if !IsGeneration(expected) { return Failure(InvalidInput); }
      if expected != trafficGeneration { return Failure(StaleHash); }
      if acceptingMcpRequests { return Failure(InvalidInput); }
      if !IsTimeout(timeoutMs) { return Failure(InvalidInput); }
      r := Success(drainsBegun);
      drainsBegun := drainsBegun + 1;
      if activeMcpRequestCount == 0 {
        FinishDrain(r.value, true, false, false);
      } else {
        trafficWaiters := trafficWaiters[r.value := trafficGeneration];
        CheckWaiter(r.value);
      }
    }

    method TimerFires(w: nat)
      modifies this
      ensures State() == TimeOut(old(State()), w)
    {
      if w in trafficWaiters {
        FinishDrain(w, false, true, false);
      }
    }

    method Close()
      modifies this
      ensures State() == Drains.Close(old(State()))
    {
      if acceptingMcpRequests {
        acceptingMcpRequests := false;
        trafficGeneration := trafficGeneration + 1;
      }
      NotifyTrafficWaiters();
    }
  }
}

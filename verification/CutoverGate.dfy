/**
 `RuntimeCutoverGate` with the fields its methods update (apps/runtime-host/src/cutover.ts).  Each
 asynchronous method is a Begin method up to its await and an End method after it; the Gateway is
 reached through the host adapter's synchronous calls.  Every method computes the corresponding step
 of module `Cutover`.
 */
module CutoverGate {
  import opened Results
  import opened Drains
  import GatewayTraffic
  import opened Cutover

  /** Well-formed identities and token, and a candidate brings its promotion token. */
  predicate OptionsOk(instanceId: string, releaseId: string, role: Role, token: Option<string>) {
    && IsIdentifier(instanceId) && IsIdentifier(releaseId)
    && (token.Some? ==> IsToken(token.value))
    && (role.CandidateRole? ==> token.Some?)
  }

  class RuntimeCutoverGate {
    const gateway: GatewayTraffic.TrafficGate?
    const promotionFencingToken: Option<string>
    var role: Role
    var promoted: bool
    var promotedCheckpointId: Option<string>
    var externalRouteDesired: bool
    var trafficDetached: bool
    var controlQuiesced: bool
    var controlGeneration: nat
    var activeControlRequestCount: int
    var released: seq<bool>
    var controlWaiters: map<nat, nat>
    var reports: map<nat, Report>
    var drainsBegun: nat
    var checkpoint: Option<StoredCheckpoint>
    var pending: map<nat, Frame>
    var calls: seq<AdapterCall>
    var captured: map<string, bool>

    ghost function Control(): Layer
      reads this
    {
      Layer(!controlQuiesced, controlGeneration, activeControlRequestCount, released,
            controlWaiters, reports, drainsBegun)
    }

    ghost function State(): System
      reads this, gateway
    {
      System(Control(), if gateway == null then None else Some(gateway.State()), role, promoted,
             promotionFencingToken, promotedCheckpointId, externalRouteDesired, trafficDetached,
             checkpoint, pending, calls, captured)
    }

    constructor (role: Role, token: Option<string>, gateway: GatewayTraffic.TrafficGate?, routeNow: bool)
      requires gateway != null ==> gateway.State() == FRESH
      ensures State() == Initial(role, token, gateway != null, routeNow) && this.gateway == gateway
    {
      this.gateway, this.promotionFencingToken, this.role := gateway, token, role;
      promoted, promotedCheckpointId := role.ActiveRole?, None;
      externalRouteDesired := role.ActiveRole? && routeNow;
      trafficDetached, controlQuiesced, controlGeneration, activeControlRequestCount := false, false, 0, 0;
      released, controlWaiters, reports, drainsBegun := [], map[], map[], 0;
      checkpoint, pending, calls, captured := None, map[], [], map[];
    }

    /** The constructor's option checks: a gate is built exactly when they pass. */
    static method Create(instanceId: string, releaseId: string, role: Role, token: Option<string>,
                         gateway: GatewayTraffic.TrafficGate?, routeNow: bool)
      returns (r: Result<RuntimeCutoverGate, Code>)
      requires gateway != null ==> gateway.State() == FRESH
      ensures r.Success? <==> OptionsOk(instanceId, releaseId, role, token)
      ensures r.Failure? ==> r.error == InvalidInput
      ensures r.Success? ==> fresh(r.value) && r.value.gateway == gateway
                             && r.value.State() == Initial(role, token, gateway != null, routeNow)
    {
      if !IsIdentifier(instanceId) || !IsIdentifier(releaseId) { return Failure(InvalidInput); }
      if token.Some? && !IsToken(token.value) { return Failure(InvalidInput); }
      if role.CandidateRole? && token.None? { return Failure(InvalidInput); }
      var gate := new RuntimeCutoverGate(role, token, gateway, routeNow);
      return Success(gate);
    }

    // --- waiters ---

    method CheckWaiter(w: nat)
      requires w in controlWaiters
      modifies this`controlWaiters, this`reports
      ensures Control() == Check(old(Control()), w)
    {
      if !controlQuiesced || controlGeneration != controlWaiters[w] {
        FinishDrain(w, false, false, true);
      } else if activeControlRequestCount == 0 {
        FinishDrain(w, true, false, false);
      }
    }

    method FinishDrain(w: nat, drained: bool, timedOut: bool, interrupted: bool)
      modifies this`controlWaiters, this`reports
      ensures Control() == Finish(old(Control()), w, drained, timedOut, interrupted)
    {
      controlWaiters := controlWaiters - {w};
      reports := reports[w := Report(drained, timedOut, interrupted, controlGeneration, activeControlRequestCount)];
    }

    method NotifyControlWaiters()
      modifies this`controlWaiters, this`reports
      ensures Control() == Notify(old(Control()))
    {
      ghost var before, done := Control(), {};
      var todo := controlWaiters.Keys;
      assert NotifySome(before, {}).waiters == before.waiters;
      assert NotifySome(before, {}).settled == before.settled;
      while todo != {}
        invariant done !! todo && done + todo == before.waiters.Keys
        invariant Control() == NotifySome(before, done)
      {
        var w :| w in todo;
        NotifyOne(before, done, w);
        CheckWaiter(w);
        todo, done := todo - {w}, done + {w};
      }
      assert done == before.waiters.Keys;
    }

    method ControlTimerFires(w: nat)
      modifies this
      ensures State() == Step(old(State()), ControlTimer(w)).0
    {
      if w in controlWaiters {
        FinishDrain(w, false, true, false);
      }
    }

    // --- permits ---

    method AdmitRequest(name: string) returns (r: Response)
      modifies this
      ensures (State(), r) == AdmitStep(old(State()), name)
    {
      if name in CUTOVER_METHODS || name == "shutdown" { return Exempt; }
      if controlQuiesced { return Failed(PolicyDenied); }
      if !promoted && name !in PASSIVE_CANDIDATE_METHODS { return Failed(PolicyDenied); }
      activeControlRequestCount := activeControlRequestCount + 1;
      r := Admitted(|released|);
      released := released + [false];
    }

    method ReleaseRequest(permit: nat)
      modifies this
      ensures Control() == Release(old(Control()), permit)
      ensures State() == Step(old(State()), ReleaseControl(permit)).0
    {
      if permit >= |released| || released[permit] { return; }
      released := released[permit := true];
      activeControlRequestCount := AtLeastZero(activeControlRequestCount - 1);
      NotifyControlWaiters();
    }

    // --- guards ---

    method AssertFence(cg: int, argumentsOk: bool, gg: Option<int>) returns (fault: Option<Code>)
      ensures fault == Guard(State(), cg, argumentsOk, gg)
    {
      if !promoted || !role.ActiveRole? { return Some(PolicyDenied); }
      if !GatewayTraffic.IsGeneration(cg) || !argumentsOk { return Some(InvalidInput); }
      if !controlQuiesced { return Some(InvalidInput); }
      if controlGeneration != cg { return Some(StaleHash); }
      if gateway == null { return if gg.Some? then Some(StaleHash) else None; }
      if gg.None? || !GatewayTraffic.IsGeneration(gg.value) { return Some(InvalidInput); }
      if gateway.trafficGeneration != gg.value { return Some(StaleHash); }
      fault := None;
    }

    method AllIdle() returns (idle: bool)
      ensures idle == Idle(State())
    {
      idle := activeControlRequestCount == 0
              && (gateway == null || (!gateway.acceptingMcpRequests && gateway.activeMcpRequestCount == 0));
    }

    // --- synchronous requests ---

    method ReportStatus(routeNow: bool) returns (r: Response)
      modifies this`externalRouteDesired
      ensures (State(), r) == Observe(old(State()), routeNow)
    {
      if promoted && !trafficDetached && checkpoint.None? {
        externalRouteDesired := routeNow;
      }
      r := Observed(Status(
        role, promoted, promotedCheckpointId, controlQuiesced, controlGeneration, activeControlRequestCount,
        if gateway == null then None
        else Some((gateway.trafficGeneration, gateway.acceptingMcpRequests, gateway.activeMcpRequestCount)),
        if checkpoint.None? then None else Some(checkpoint.value.id), externalRouteDesired, trafficDetached));
    }

    method QuiesceBoth()
      requires !controlQuiesced
      modifies this, gateway
      ensures State() == QuiesceGateway(old(State()).(control := Drains.Quiesce(old(Control()))))
    {
      controlQuiesced := true;
      controlGeneration := controlGeneration + 1;
      if gateway != null { gateway.Quiesce(); }
      NotifyControlWaiters();
    }

    method Quiesce(routeNow: bool) returns (r: Response)
      modifies this, gateway
      ensures (State(), r) == QuiesceStep(old(State()), routeNow)
    {
      if !promoted || !role.ActiveRole? { return Failed(PolicyDenied); }
      if !controlQuiesced { QuiesceBoth(); }
      r := ReportStatus(routeNow);
    }

    // --- suspended requests ---

    /** Called under the control fence, so the new waiter's first check leaves it registered. */
    method WaitForControlIdle() returns (drain: nat)
      requires controlQuiesced
      modifies this`drainsBegun, this`controlWaiters, this`reports
      ensures Control() == Wait(old(Control())) && drain == old(drainsBegun)
    {
      drain := drainsBegun;
      drainsBegun := drainsBegun + 1;
      if activeControlRequestCount == 0 {
        FinishDrain(drain, true, false, false);
      } else {
        controlWaiters := controlWaiters[drain := controlGeneration];
        CheckWaiter(drain);
      }
    }

    method BeginDrainRequest(op: nat, cg: int, gg: Option<int>, timeoutMs: int) returns (r: Response)
      modifies this, gateway
      ensures (State(), r) == BeginDrainStep(old(State()), op, cg, gg, timeoutMs)
    {
      var fault := AssertFence(cg, GatewayTraffic.IsTimeout(timeoutMs), gg);
      if fault.Some? { return Failed(fault.value); }
      var control := WaitForControlIdle();
      if gateway == null {
        pending := pending[op := Draining(controlGeneration, control, None, None)];
        return Suspended;
      }
      var generation := gateway.trafficGeneration;
      var wait := gateway.BeginWait(generation, timeoutMs);
      if wait.Failure? { return Failed(wait.error); }
      pending := pending[op := Draining(controlGeneration, control, Some(generation), Some(wait.value))];
      r := Suspended;
    }

    method EndDrainRequest(op: nat) returns (r: Response)
      modifies this
      ensures (State(), r) == EndDrainStep(old(State()), op)
    {
      if op !in pending || !pending[op].Draining? { return Ignored; }
      var f := pending[op];
      if f.control !in reports { return Ignored; }
      var gatewayReport := None;
      if f.gateway.Some? {
        if gateway == null || f.gateway.value !in gateway.reports { return Ignored; }
        gatewayReport := Some(gateway.reports[f.gateway.value]);
      }
      pending := pending - {op};
      r := Drained(Combine(controlGeneration, reports[f.control], gatewayReport));
    }

    method BeginCheckpointRequest(op: nat, cg: int, gg: Option<int>, token: string, routeNow: bool)
      returns (r: Response)
      modifies this
      ensures (State(), r) == BeginCheckpointStep(old(State()), op, cg, gg, token, routeNow)
    {
      var fault := AssertFence(cg, IsToken(token), gg);
      if fault.Some? { return Failed(fault.value); }
      if trafficDetached { return Failed(InvalidInput); }
      var idle := AllIdle();
      if !idle { return Failed(ProcessFailed); }
      externalRouteDesired := routeNow;
      pending := pending[op := Checkpointing(token, externalRouteDesired)];
      r := Suspended;
    }

    method EndCheckpointRequest(op: nat, snapshot: Snapshot, freshId: string) returns (r: Response)
      modifies this
      ensures (State(), r) == EndCheckpointStep(old(State()), op, snapshot, freshId)
    {
      if op !in pending || !pending[op].Checkpointing? || freshId in captured || !IsIdentifier(freshId) {
        return Ignored;
      }
      var f := pending[op];
      pending := pending - {op};
      if snapshot.Thrown? { return AdapterThrew; }
      if snapshot.Undigestible? { return Failed(if snapshot.tooLarge then FileTooLarge else ProcessFailed); }
      var stored := StoredCheckpoint(freshId, TokenDigest(f.token), StateDigest(f.digestRoute, snapshot.state),
                                     externalRouteDesired);
      checkpoint := Some(stored);
      captured := captured[freshId := externalRouteDesired];
      r := Checkpointed(stored);
    }

    method BeginDetachRequest(op: nat, cg: int, gg: Option<int>, id: string, token: string, routeNow: bool)
      returns (r: Response)
      modifies this
      ensures (State(), r) == BeginDetachStep(old(State()), op, cg, gg, id, token, routeNow)
    {
      var fault := AssertFence(cg, true, gg);
      if fault.Some? { return Failed(fault.value); }
      if !IsIdentifier(id) || !IsToken(token) || checkpoint.None? { return Failed(InvalidInput); }
      if checkpoint.value.id != id { return Failed(StaleHash); }
      if checkpoint.value.token != TokenDigest(token) { return Failed(AuthInvalid); }
      var idle := AllIdle();
      if !idle { return Failed(ProcessFailed); }
      if trafficDetached {
        r := ReportStatus(routeNow);
        return;
      }
      pending := pending[op := Detaching(id)];
      calls := calls + [DetachTried(id)];
      r := Suspended;
    }

    method EndDetachRequest(op: nat, succeeded: bool, routeNow: bool) returns (r: Response)
      modifies this
      ensures (State(), r) == EndDetachStep(old(State()), op, succeeded, routeNow)
    {
      if op !in pending || !pending[op].Detaching? { return Ignored; }
      var f := pending[op];
      pending := pending - {op};
      if !succeeded { return AdapterThrew; }
      calls := calls + [Detached(f.checkpointId)];
      trafficDetached := true;
      r := ReportStatus(routeNow);
    }

    method ReopenControl()
      modifies this`controlQuiesced, this`controlGeneration, this`controlWaiters, this`reports
      ensures Control() == Reopen(old(Control()))
    {
      controlQuiesced := false;
      controlGeneration := controlGeneration + 1;
      NotifyControlWaiters();
    }

    method WriteResumed()
      modifies this
      ensures State() == ResumeWrites(old(State()))
    {
      trafficDetached := false;
      checkpoint := None;
      ReopenControl();
    }

    method FinishResume(routeNow: bool) returns (r: Response)
      modifies this
      ensures (State(), r) == Resumed(old(State()), routeNow)
    {
      WriteResumed();
      r := ReportStatus(routeNow);
    }

    method BeginResumeRequest(op: nat, cg: int, gg: Option<int>, routeNow: bool) returns (r: Response)
      modifies this, gateway
      ensures (State(), r) == BeginResumeStep(old(State()), op, cg, gg, routeNow)
    {
      var fault := AssertFence(cg, true, gg);
      if fault.Some? { return Failed(fault.value); }
      if gateway != null {
        var stale := gateway.Resume(gateway.trafficGeneration);
      }
      if !trafficDetached {
        r := FinishResume(routeNow);
        return;
      }
      if checkpoint.None? {
        if gateway != null { gateway.Quiesce(); }
        return Failed(ProcessFailed);
      }
      var c := checkpoint.value;
      pending := pending[op := Resuming(gateway != null, c.id, c.externalRouteDesired)];
      calls := calls + [RestoreTried(c.id, c.externalRouteDesired)];
      r := Suspended;
    }

    method EndResumeRequest(op: nat, succeeded: bool, routeNow: bool) returns (r: Response)
      modifies this, gateway
      ensures (State(), r) == EndResumeStep(old(State()), op, succeeded, routeNow)
    {
      if op !in pending || !pending[op].Resuming? { return Ignored; }
      var f := pending[op];
      pending := pending - {op};
      if !succeeded {
        if f.resumedGateway && gateway != null { gateway.Quiesce(); }
        return AdapterThrew;
      }
      calls := calls + [Restored(f.checkpointId)];
      r := FinishResume(routeNow);
    }

    method BeginPromoteRequest(op: nat, id: string, token: string, route: bool) returns (r: Response)
      modifies this
      ensures (State(), r) == BeginPromoteStep(old(State()), op, id, token, route)
    {
      if !IsIdentifier(id) || !IsToken(token) { return Failed(InvalidInput); }
      if !role.CandidateRole? || promoted { return Failed(PolicyDenied); }
      if promotionFencingToken != Some(token) { return Failed(AuthInvalid); }
      pending := pending[op := Promoting(id, route)];
      r := Suspended;
    }

    method WritePromoted(checkpointId: string, route: bool)
      modifies this`promoted, this`role, this`promotedCheckpointId, this`externalRouteDesired
      ensures State() == old(State()).(promoted := true, role := ActiveRole, externalRouteDesired := route,
                                       promotedCheckpointId := Some(checkpointId))
    {
      promoted, role := true, ActiveRole;
      promotedCheckpointId := Some(checkpointId);
      externalRouteDesired := route;
    }

    method EndPromoteRequest(op: nat, succeeded: bool, routeNow: bool) returns (r: Response)
      modifies this
      ensures (State(), r) == EndPromoteStep(old(State()), op, succeeded, routeNow)
    {
      if op !in pending || !pending[op].Promoting? { return Ignored; }
      var f := pending[op];
      pending := pending - {op};
      if !succeeded { return AdapterThrew; }
      WritePromoted(f.checkpointId, f.externalRouteDesired);
      r := ReportStatus(routeNow);
    }
  }
}

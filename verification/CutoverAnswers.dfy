/**
 What the cutover requests answer (apps/runtime-host/src/cutover.ts): for each of them exactly when it goes on past its
 guards, what it is refused with otherwise, and what it does to the layers.
 */
module CutoverAnswers {
  import opened Results
  import opened Drains
  import GatewayTraffic
  import opened Cutover

  // --- the fence ---

  /** An authoritative host, quiesced, and both generations are the ones named. */
  predicate FenceMet(s: System, c: int, g: Option<int>) {
    && s.promoted && s.role == ActiveRole
    && !s.control.open && s.control.generation == c <= GatewayTraffic.MAX_SAFE_INTEGER
    && match s.gateway
       case None => g == None
       case Some(l) => g == Some(l.generation) && l.generation <= GatewayTraffic.MAX_SAFE_INTEGER
  }

  /** The arguments are well formed, and one of the generations named is not the present one. */
  predicate Stale(s: System, c: int, g: Option<int>) {
    && !s.control.open && 0 <= c <= GatewayTraffic.MAX_SAFE_INTEGER
    && (|| c != s.control.generation
        || (s.gateway.None? && g.Some?)
        || (s.gateway.Some? && g.Some? && 0 <= g.value <= GatewayTraffic.MAX_SAFE_INTEGER
            && g.value != s.gateway.value.generation))
  }

  /** What the guards of the fenced requests answer, without their order. */
  lemma GuardAnswers(s: System, c: int, argumentsOk: bool, g: Option<int>)
    ensures Guard(s, c, argumentsOk, g) == None <==> FenceMet(s, c, g) && argumentsOk
    ensures Guard(s, c, argumentsOk, g) == Some(PolicyDenied) <==> !(s.promoted && s.role == ActiveRole)
    ensures Guard(s, c, argumentsOk, g) == Some(StaleHash)
            <==> s.promoted && s.role == ActiveRole && argumentsOk && Stale(s, c, g)
    ensures Guard(s, c, argumentsOk, g) in {None, Some(PolicyDenied), Some(StaleHash), Some(InvalidInput)}
  {}

  // --- quiesce and status ---

  /** A layer closed, once: its generation moves if it was open, and nobody is let in or out. */
  predicate ClosedOnce(l: Layer, m: Layer) {
    && !m.open && m.permits == l.permits && m.active == l.active && m.begun == l.begun
    && m.generation == l.generation + (if l.open then 1 else 0)
    && (!l.open ==> m == l)
  }

  lemma QuiescedOnce(l: Layer)
    ensures ClosedOnce(l, Drains.Quiesce(l))
  {}

  /** Quiescing closes both layers together, once; a host without authority is refused and unchanged. */
  lemma QuiesceAnswers(s: System, routeNow: bool)
    ensures var (t, r) := Step(s, BeginQuiesce(routeNow));
            if !(s.promoted && s.role == ActiveRole) then r == Failed(PolicyDenied) && t == s
            else
              && r == Observed(StatusOf(t)) && ClosedOnce(s.control, t.control)
              && t.gateway.Some? == s.gateway.Some?
              && (s.control.open && s.gateway.Some? ==> ClosedOnce(s.gateway.value, t.gateway.value))
              && (!s.control.open ==> t.gateway == s.gateway)
  {
    QuiescedOnce(s.control);
    if s.gateway.Some? { QuiescedOnce(s.gateway.value); }
  }

  /** A status read changes nothing but, unless something pins it, the route intent. */
  lemma StatusAnswers(s: System, routeNow: bool)
    ensures var (t, r) := Step(s, ReadStatus(routeNow));
            && r == Observed(StatusOf(t))
            && t == s.(externalRouteDesired := t.externalRouteDesired)
            && t.externalRouteDesired
               == if s.promoted && !s.trafficDetached && s.checkpoint.None? then routeNow else s.externalRouteDesired
  {}

  /** What a status record tells: each field is the one named so, and the counters are requests outstanding. */
  lemma StatusTells(s: System)
    requires Ok(s.control) && (s.gateway.Some? ==> Ok(s.gateway.value))
    ensures var r := StatusOf(s);
            && r.role == s.role && r.promoted == s.promoted && r.promotedCheckpointId == s.promotedCheckpointId
            && r.controlQuiesced == !s.control.open && r.controlGeneration == s.control.generation
            && r.activeControlRequestCount == Outstanding(s.control.permits)
            && r.gateway.Some? == s.gateway.Some?
            && (s.gateway.Some? ==>
                  && r.gateway.value.0 == s.gateway.value.generation && r.gateway.value.1 == s.gateway.value.open
                  && r.gateway.value.2 == Outstanding(s.gateway.value.permits))
            && r.checkpointId.Some? == s.checkpoint.Some?
            && (s.checkpoint.Some? ==> r.checkpointId.value == s.checkpoint.value.id)
            && r.externalRouteDesired == s.externalRouteDesired && r.trafficDetached == s.trafficDetached
  {}

  // --- drain ---

  /** Neither layer admits anything. */
  predicate GatewayClosed(s: System) { s.gateway.Some? ==> !s.gateway.value.open }

  /**
   A drain is suspended exactly behind its fence, with a timeout in range and the Gateway closed, and registers with
   both layers.  Where only the Gateway is open it is refused after the control layer has begun to wait; all other
   refusals change nothing.
   */
  lemma DrainAnswers(s: System, op: nat, c: int, g: Option<int>, timeoutMs: int)
    requires op !in s.pending
    ensures var (t, r) := Step(s, BeginDrain(op, c, g, timeoutMs));
            var passes := FenceMet(s, c, g) && 1 <= timeoutMs <= 300000;
            && (r == Suspended <==> passes && GatewayClosed(s))
            && (r != Suspended ==> r.Failed? && t == s.(control := if passes then Wait(s.control) else s.control))
            && (r == Suspended ==> DrainBegun(s, t, op))
  {
    GuardAnswers(s, c, GatewayTraffic.IsTimeout(timeoutMs), g);
  }

  /** Two drains more, and the operation waits for them under the generations of now. */
  predicate DrainBegun(s: System, t: System, op: nat) {
    && t.control == Wait(s.control)
    && t.gateway == (if s.gateway.None? then None else Some(Wait(s.gateway.value)))
    && op in t.pending
    && t.pending[op] == Draining(s.control.generation, s.control.begun,
                                 if s.gateway.None? then None else Some(s.gateway.value.generation),
                                 if s.gateway.None? then None else Some(s.gateway.value.begun))
    && t == s.(control := t.control, gateway := t.gateway, pending := s.pending[op := t.pending[op]])
  }

  /** A drain begun is settled at once when nothing is outstanding, and registered for its generation if not. */
  lemma WaitBegins(l: Layer)
    requires Ok(l) && !l.open
    ensures var m := Wait(l);
            && m.begun == l.begun + 1 && m.generation == l.generation && m.permits == l.permits && !m.open
            && (Outstanding(l.permits) == 0 ==>
                  l.begun in m.settled && m.settled[l.begun] == Report(true, false, false, l.generation, 0))
            && (Outstanding(l.permits) > 0 ==> l.begun in m.waiters && m.waiters[l.begun] == l.generation)
  {}

  /** The report of a drain, from the reports of the layers it waited for, and when there is one. */
  lemma DrainReports(s: System, op: nat)
    requires op in s.pending && s.pending[op].Draining? && s.pending[op].gateway.Some? == s.gateway.Some?
    ensures var (t, r) := Step(s, EndDrain(op));
            var f := s.pending[op];
            var settled := f.control in s.control.settled
                           && (s.gateway.Some? ==> f.gateway.value in s.gateway.value.settled);
            && (!settled ==> r == Ignored && t == s)
            && (settled ==> r.Drained? && t == s.(pending := s.pending - {op}))
    ensures Step(s, EndDrain(op)).1.Drained? ==>
              Combines(Step(s, EndDrain(op)).1.report, s.control.generation, s.control.settled[s.pending[op].control],
                       if s.gateway.None? then None else Some(s.gateway.value.settled[s.pending[op].gateway.value]))
  {}

  /** Each count is its own layer's; a verdict holds of the whole when it holds of a part, or for drained of both. */
  predicate Combines(r: DrainReport, generation: nat, control: Report, gateway: Option<Report>) {
    && r.controlGeneration == generation && r.activeControlRequestCount == control.active
    && (r.drained ==> r.unknownOutcomeCount == 0)
    && match gateway
       case None =>
         && r.gatewayGeneration == None && r.activeGatewayRequestCount == 0
         && r.drained == control.drained && r.timedOut == control.timedOut && r.interrupted == control.interrupted
         && (!r.drained ==> r.unknownOutcomeCount >= 1 && r.unknownOutcomeCount >= control.active
                            && (r.unknownOutcomeCount == 1 || r.unknownOutcomeCount == control.active))
       case Some(traffic) =>
         && r.gatewayGeneration == Some(traffic.generation) && r.activeGatewayRequestCount == traffic.active
         && (r.drained <==> control.drained && traffic.drained)
         && (r.timedOut <==> control.timedOut || traffic.timedOut)
         && (r.interrupted <==> control.interrupted || traffic.interrupted)
         && (!r.drained ==> r.unknownOutcomeCount >= 1 && r.unknownOutcomeCount >= control.active + traffic.active
                            && (r.unknownOutcomeCount == 1
                                || r.unknownOutcomeCount == control.active + traffic.active))
  }

  // --- checkpoint ---

  /** A checkpoint is suspended exactly behind its fence, with a token, traffic attached and both layers idle. */
  lemma CheckpointAnswers(s: System, op: nat, c: int, g: Option<int>, token: string, routeNow: bool)
    requires op !in s.pending
    ensures var (t, r) := Step(s, BeginCheckpoint(op, c, g, token, routeNow));
            && (r == Suspended <==> FenceMet(s, c, g) && IsToken(token) && !s.trafficDetached && Quiet(s))
            && (r != Suspended ==> r.Failed? && t == s)
            && (r == Suspended ==>
                  t == s.(externalRouteDesired := routeNow, pending := s.pending[op := Checkpointing(token, routeNow)]))
            && (r == Failed(ProcessFailed)
                <==> FenceMet(s, c, g) && IsToken(token) && !s.trafficDetached && !Quiet(s))
  {
    GuardAnswers(s, c, IsToken(token), g);
  }

  /** No request is outstanding in either layer, and the Gateway is closed. */
  predicate Quiet(s: System) {
    && s.control.active == 0
    && GatewayClosed(s)
    && (s.gateway.Some? ==> s.gateway.value.active == 0)
  }

  /** A checkpoint answers with what was taken, under the token and intent it began with and the intent of now. */
  lemma CheckpointStores(s: System, op: nat, snapshot: Snapshot, id: string)
    requires op in s.pending && s.pending[op].Checkpointing? && id !in s.captured && IsIdentifier(id)
    ensures var (t, r) := Step(s, EndCheckpoint(op, snapshot, id));
            var f := s.pending[op];
            && op !in t.pending
            && (snapshot.Taken? ==>
                  && r == Checkpointed(t.checkpoint.value)
                  && t.checkpoint == Some(StoredCheckpoint(id, TokenDigest(f.token),
                                                           StateDigest(f.digestRoute, snapshot.state),
                                                           s.externalRouteDesired))
                  && t.trafficDetached == s.trafficDetached && t.control == s.control)
            && (!snapshot.Taken? ==> t == s.(pending := s.pending - {op}) && !r.Checkpointed?)
            && (snapshot == Undigestible(true) ==> r == Failed(FileTooLarge))
            && (snapshot == Undigestible(false) ==> r == Failed(ProcessFailed))
  {}

  // --- detach ---

  /** The caller holds the stored checkpoint: its id and its token. */
  predicate Holds(s: System, id: string, token: string) {
    s.checkpoint.Some? && s.checkpoint.value.id == id && s.checkpoint.value.token.token == token
  }

  /**
   A detachment is suspended exactly behind its fence, by the holder of the stored checkpoint, with both layers idle and
   traffic attached.  The right id with any other token is refused as unauthorised, another id as stale.
   */
  lemma DetachAnswers(s: System, op: nat, c: int, g: Option<int>, id: string, token: string, routeNow: bool)
    requires op !in s.pending
    ensures var (t, r) := Step(s, BeginDetach(op, c, g, id, token, routeNow));
            var formed := IsIdentifier(id) && IsToken(token);
            && (r == Suspended
                <==> FenceMet(s, c, g) && formed && Holds(s, id, token) && Quiet(s) && !s.trafficDetached)
            && (r.Observed? <==> FenceMet(s, c, g) && formed && Holds(s, id, token) && Quiet(s) && s.trafficDetached)
            && (r.Failed? ==> t == s)
            && (r == Suspended ==>
                  t == s.(pending := s.pending[op := Detaching(id)], calls := s.calls + [DetachTried(id)]))
            && (FenceMet(s, c, g) && formed && s.checkpoint.Some? && !Holds(s, id, token) ==>
                  r == Failed(if s.checkpoint.value.id == id then AuthInvalid else StaleHash))
  {
    GuardAnswers(s, c, true, g);
  }

  lemma DetachFinishes(s: System, op: nat, succeeded: bool, routeNow: bool)
    requires op in s.pending && s.pending[op].Detaching?
    ensures var (t, r) := Step(s, EndDetach(op, succeeded, routeNow));
            && t.pending == s.pending - {op}
            && (!succeeded ==> r == AdapterThrew && t == s.(pending := s.pending - {op}))
            && (succeeded ==>
                  && r == Observed(StatusOf(t)) && t.trafficDetached
                  && t == s.(pending := s.pending - {op}, trafficDetached := true,
                             calls := s.calls + [Detached(s.pending[op].checkpointId)]))
  {}

  // --- resume ---

  /** The Gateway of `t`, if any, is that of `s` admitting again: its generation moves once if it was closed. */
  predicate GatewayReopened(s: System, t: System) {
    && (s.gateway.Some? <==> t.gateway.Some?)
    && (s.gateway.Some? ==>
          var (was, now) := (s.gateway.value, t.gateway.value);
          && now.open && (was.open ==> now == was)
          && now.generation == was.generation + (if was.open then 0 else 1)
          && now == was.(open := true, generation := now.generation, waiters := now.waiters, settled := now.settled))
  }

  /**
   Behind its fence a resume reopens the Gateway; with traffic attached it finishes at once, with traffic detached it
   suspends on restoring the stored checkpoint's route, and without that checkpoint it closes the Gateway again.
   */
  lemma ResumeAnswers(s: System, op: nat, c: int, g: Option<int>, routeNow: bool)
    requires op !in s.pending
    ensures var (t, r) := Step(s, BeginResume(op, c, g, routeNow));
            && (r == Suspended <==> FenceMet(s, c, g) && s.trafficDetached && s.checkpoint.Some?)
            && (r.Observed? <==> FenceMet(s, c, g) && !s.trafficDetached)
            && (r.Failed? ==> (if FenceMet(s, c, g) then r.code == ProcessFailed && GatewayClosed(t) else t == s))
            && (r.Failed? && FenceMet(s, c, g) ==> t == s.(gateway := t.gateway))
            && (r == Suspended ==>
                  && GatewayReopened(s, t)
                  && t == s.(gateway := t.gateway, pending := t.pending, calls := t.calls)
                  && t.pending == s.pending[op := Resuming(s.gateway.Some?, s.checkpoint.value.id,
                                                           s.checkpoint.value.externalRouteDesired)]
                  && t.calls == s.calls + [RestoreTried(s.checkpoint.value.id,
                                                        s.checkpoint.value.externalRouteDesired)])
            && (r.Observed? ==> Resumes(s, t) && GatewayReopened(s, t))
  {
    GuardAnswers(s, c, true, g);
  }

  /** Control admits again under a new generation, the checkpoint is dropped and traffic is attached. */
  predicate Resumes(s: System, t: System) {
    && t.control.open && t.control.generation == s.control.generation + 1 && t.control.permits == s.control.permits
    && t.checkpoint == None && !t.trafficDetached
    && t.promoted == s.promoted && t.role == s.role && t.captured == s.captured
  }

  lemma ResumeFinishes(s: System, op: nat, succeeded: bool, routeNow: bool)
    requires op in s.pending && s.pending[op].Resuming?
    ensures var (t, r) := Step(s, EndResume(op, succeeded, routeNow));
            var f := s.pending[op];
            && t.pending == s.pending - {op}
            && (succeeded ==>
                  r == Observed(StatusOf(t)) && Resumes(s, t) && t.calls == s.calls + [Restored(f.checkpointId)]
                  && t.gateway == s.gateway)
            && (!succeeded ==>
                  && r == AdapterThrew && t.checkpoint == s.checkpoint && t.trafficDetached == s.trafficDetached
                  && t.control == s.control && t.calls == s.calls
                  && (f.resumedGateway ==> GatewayClosed(t)) && (!f.resumedGateway ==> t.gateway == s.gateway))
  {}

  // --- promotion ---

  /** A promotion is suspended exactly by a candidate not yet promoted that is given the token it was started with. */
  lemma PromoteAnswers(s: System, op: nat, id: string, token: string, route: bool)
    requires op !in s.pending
    ensures var (t, r) := Step(s, BeginPromote(op, id, token, route));
            var formed := IsIdentifier(id) && IsToken(token);
            var candidate := s.role == CandidateRole && !s.promoted;
            && (r == Suspended <==> formed && candidate && s.promotionToken == Some(token))
            && (r == Failed(AuthInvalid) <==> formed && candidate && s.promotionToken != Some(token))
            && (r == Failed(PolicyDenied) <==> formed && !candidate)
            && (r == Failed(InvalidInput) <==> !formed)
            && (r != Suspended ==> t == s)
            && (r == Suspended ==> t == s.(pending := s.pending[op := Promoting(id, route)]))
  {}

  lemma PromoteFinishes(s: System, op: nat, succeeded: bool, routeNow: bool)
    requires op in s.pending && s.pending[op].Promoting?
    ensures var (t, r) := Step(s, EndPromote(op, succeeded, routeNow));
            var f := s.pending[op];
            && t.pending == s.pending - {op} && t.control == s.control && t.gateway == s.gateway
            && t.checkpoint == s.checkpoint && t.trafficDetached == s.trafficDetached
            && (!succeeded ==> r == AdapterThrew && t == s.(pending := s.pending - {op}))
            && (succeeded ==>
                  && r == Observed(StatusOf(t)) && t.promoted && t.role == ActiveRole
                  && t.promotedCheckpointId == Some(f.checkpointId)
                  && t.externalRouteDesired
                     == if !s.trafficDetached && s.checkpoint.None? then routeNow else f.externalRouteDesired)
  {}

  // --- events that are not operations ---

  /** A finishing event without its suspended operation does nothing. */
  lemma StraysIgnored(s: System, e: Event)
    requires || (e.EndDrain? && !(e.op in s.pending && s.pending[e.op].Draining?))
             || (e.EndCheckpoint? && !(e.op in s.pending && s.pending[e.op].Checkpointing?))
             || (e.EndDetach? && !(e.op in s.pending && s.pending[e.op].Detaching?))
             || (e.EndResume? && !(e.op in s.pending && s.pending[e.op].Resuming?))
             || (e.EndPromote? && !(e.op in s.pending && s.pending[e.op].Promoting?))
    ensures Step(s, e) == (s, Ignored)
  {}

  /** Timers and the ends of requests act on their own layer alone. */
  lemma LayerEvents(s: System, permit: nat, drain: nat, e: GatewayTraffic.Event)
    ensures Step(s, ReleaseControl(permit)).0 == s.(control := Drains.Release(s.control, permit))
    ensures Step(s, ControlTimer(drain)).0 == s.(control := Drains.TimeOut(s.control, drain))
    ensures Step(s, AtGateway(e)).0
            == if s.gateway.None? then s else s.(gateway := Some(GatewayTraffic.Step(s.gateway.value, e)))
  {}

  // --- refusals and failures ---

  /** The drain of a host whose Gateway is open: refused only once the control layer has begun to wait. */
  predicate DrainsTooSoon(s: System, e: Event) {
    e.BeginDrain? && FenceMet(s, e.controlGeneration, e.gatewayGeneration) && 1 <= e.timeoutMs <= 300000
    && !GatewayClosed(s)
  }

  /** The resume of detached traffic whose checkpoint is gone: refused only once the Gateway was reopened. */
  predicate ResumesStranded(s: System, e: Event) {
    e.BeginResume? && FenceMet(s, e.controlGeneration, e.gatewayGeneration) && s.trafficDetached && s.checkpoint.None?
  }

  /** The checkpoint whose state cannot be digested: refused once it is no longer suspended. */
  predicate RefusesState(s: System, e: Event) {
    e.EndCheckpoint? && e.op in s.pending && s.pending[e.op].Checkpointing? && e.snapshot.Undigestible?
  }

  lemma BeginRefused(s: System, e: Event)
    requires e.BeginDrain? || e.BeginCheckpoint? || e.BeginDetach? || e.BeginResume? || e.BeginPromote?
    requires Step(s, e).1.Failed? || Step(s, e).1 == Ignored
    requires !DrainsTooSoon(s, e) && !ResumesStranded(s, e)
    ensures Step(s, e).0 == s
  {
    if e.op !in s.pending {
      match e
      case BeginDrain(op, c, g, t) => DrainAnswers(s, op, c, g, t);
      case BeginCheckpoint(op, c, g, token, r) => CheckpointAnswers(s, op, c, g, token, r);
      case BeginDetach(op, c, g, id, token, r) => DetachAnswers(s, op, c, g, id, token, r);
      case BeginResume(op, c, g, r) => ResumeAnswers(s, op, c, g, r);
      case BeginPromote(op, id, token, r) => PromoteAnswers(s, op, id, token, r);
    }
  }

  lemma EndRefused(s: System, e: Event)
    requires e.EndDrain? || e.EndCheckpoint? || e.EndDetach? || e.EndResume? || e.EndPromote?
    requires (Step(s, e).1.Failed? || Step(s, e).1 == Ignored) && !RefusesState(s, e)
    ensures Step(s, e).0 == s
  {
    match e
    case EndDrain(op) => if !(op in s.pending && s.pending[op].Draining?) { StraysIgnored(s, e); }
    case EndCheckpoint(op, snapshot, id) =>
      if !(op in s.pending && s.pending[op].Checkpointing?) { StraysIgnored(s, e); }
    case EndDetach(op, succeeded, r) =>
      if !(op in s.pending && s.pending[op].Detaching?) { StraysIgnored(s, e); }
    case EndResume(op, succeeded, r) =>
      if !(op in s.pending && s.pending[op].Resuming?) { StraysIgnored(s, e); }
    case EndPromote(op, succeeded, r) =>
      if !(op in s.pending && s.pending[op].Promoting?) { StraysIgnored(s, e); }
  }

  /** Whatever is refused or ignored changes nothing, but in three cases that are named. */
  lemma RefusalsChangeNothing(s: System, e: Event)
    requires Step(s, e).1.Failed? || Step(s, e).1 == Ignored
    requires !DrainsTooSoon(s, e) && !ResumesStranded(s, e) && !RefusesState(s, e)
    ensures Step(s, e).0 == s
  {
    if e.BeginDrain? || e.BeginCheckpoint? || e.BeginDetach? || e.BeginResume? || e.BeginPromote? {
      BeginRefused(s, e);
    } else if e.EndDrain? || e.EndCheckpoint? || e.EndDetach? || e.EndResume? || e.EndPromote? {
      EndRefused(s, e);
    } else {
      if e.BeginQuiesce? { QuiesceAnswers(s, e.routeNow); }
    }
  }

  /** An operation whose adapter call threw is over and changed nothing, but for a resume closing the Gateway again. */
  lemma FailuresChangeNothing(s: System, e: Event)
    requires Step(s, e).1 == AdapterThrew
    ensures (e.EndCheckpoint? || e.EndDetach? || e.EndResume? || e.EndPromote?) && e.op in s.pending
    ensures var t := Step(s, e).0;
            if e.EndResume? && s.pending[e.op].resumedGateway
            then t == s.(pending := s.pending - {e.op}, gateway := t.gateway) && GatewayClosed(t)
            else t == s.(pending := s.pending - {e.op})
  {
    ThrewWhere(s, e);
    match e
    case EndCheckpoint(op, snapshot, id) => CheckpointThrew(s, op, snapshot, id);
    case EndDetach(op, succeeded, r) => DetachFinishes(s, op, succeeded, r);
    case EndResume(op, succeeded, r) => ResumeThrew(s, op, succeeded, r);
    case EndPromote(op, succeeded, r) => PromoteFinishes(s, op, succeeded, r);
    case _ =>
  }

  lemma ThrewWhere(s: System, e: Event)
    requires Step(s, e).1 == AdapterThrew
    ensures (e.EndCheckpoint? || e.EndDetach? || e.EndResume? || e.EndPromote?) && e.op in s.pending
    ensures e.EndCheckpoint? ==> s.pending[e.op].Checkpointing? && e.snapshot == Thrown
    ensures e.EndDetach? ==> s.pending[e.op].Detaching? && !e.succeeded
    ensures e.EndResume? ==> s.pending[e.op].Resuming? && !e.succeeded
    ensures e.EndPromote? ==> s.pending[e.op].Promoting? && !e.succeeded
  {}

  lemma CheckpointThrew(s: System, op: nat, snapshot: Snapshot, id: string)
    requires Step(s, EndCheckpoint(op, snapshot, id)).1 == AdapterThrew
    ensures Step(s, EndCheckpoint(op, snapshot, id)).0 == s.(pending := s.pending - {op})
  {
    ThrewWhere(s, EndCheckpoint(op, snapshot, id));
    if id !in s.captured && IsIdentifier(id) { CheckpointStores(s, op, snapshot, id); }
  }

  lemma ResumeThrew(s: System, op: nat, succeeded: bool, routeNow: bool)
    requires Step(s, EndResume(op, succeeded, routeNow)).1 == AdapterThrew
    requires op in s.pending && s.pending[op].Resuming? && !succeeded
    ensures var t := Step(s, EndResume(op, succeeded, routeNow)).0;
            if s.pending[op].resumedGateway
            then t == s.(pending := s.pending - {op}, gateway := t.gateway) && GatewayClosed(t)
            else t == s.(pending := s.pending - {op})
  {}
}

/**
 The runtime cutover protocol as a state machine (apps/runtime-host/src/cutover.ts): the control
 layer and the cutover state of `RuntimeCutoverGate`, over the Gateway's traffic layer it reaches
 through its host adapter.  Every asynchronous operation is split at its `await`: the guards run in
 the starting event, the writes after the await in the finishing one, and `pending` holds the frames
 in between.
 */
module Cutover {
  import opened Results
  import opened Drains
  import GatewayTraffic

  const CUTOVER_METHODS: set<string> := {
    "cutover.status", "cutover.quiesce", "cutover.drain", "cutover.checkpoint",
    "cutover.detach", "cutover.resume", "cutover.promote", "cutover.canary"
  }

  const PASSIVE_CANDIDATE_METHODS: set<string> := {
    "state.get", "manifest.get", "audit.list", "runs.list", "runs.get", "tasks.snapshot", "tasks.get"
  }

  const TOKEN_LENGTH := 43
  const MAX_IDENTIFIER_LENGTH := 256

  predicate IsAlphanumeric(c: char) { 'A' <= c <= 'Z' || 'a' <= c <= 'z' || '0' <= c <= '9' }

  predicate IsToken(s: string) {
    |s| == TOKEN_LENGTH && forall i :: 0 <= i < |s| ==> IsAlphanumeric(s[i]) || s[i] in "_-"
  }

  predicate IsIdentifier(s: string) {
    && 1 <= |s| <= MAX_IDENTIFIER_LENGTH
    && IsAlphanumeric(s[0])
    && forall i :: 0 <= i < |s| ==> IsAlphanumeric(s[i]) || s[i] in "._:-"
  }

  /** SHA-256 taken as injective: a digest is the value it was taken of. */
  datatype TokenDigest = TokenDigest(token: string)
  datatype StateDigest = StateDigest(externalRouteDesired: bool, snapshot: nat)

  datatype Role = ActiveRole | CandidateRole

  datatype StoredCheckpoint = StoredCheckpoint(
    id: string, token: TokenDigest, state: StateDigest, externalRouteDesired: bool)

  /** What the adapter's snapshot came to: it threw, it has no bounded JSON text to digest, or it is digested. */
  datatype Snapshot = Thrown | Undigestible(tooLarge: bool) | Taken(state: nat)

  /** An operation suspended at its await. */
  datatype Frame =
    | Draining(controlGeneration: nat, control: nat, gatewayGeneration: Option<nat>, gateway: Option<nat>)
    | Checkpointing(token: string, digestRoute: bool)
    | Detaching(checkpointId: string)
    | Resuming(resumedGateway: bool, checkpointId: string, externalRouteDesired: bool)
    | Promoting(checkpointId: string, externalRouteDesired: bool)

  /** The adapter's route calls, as they start and as they succeed. */
  datatype AdapterCall =
    | DetachTried(id: string)
    | Detached(id: string)
    | RestoreTried(id: string, externalRouteDesired: bool)
    | Restored(id: string)

  datatype System = System(
    control: Layer,                        // open = not quiesced
    gateway: Option<Layer>,
    role: Role,
    promoted: bool,
    promotionToken: Option<string>,
    promotedCheckpointId: Option<string>,
    externalRouteDesired: bool,
    trafficDetached: bool,
    checkpoint: Option<StoredCheckpoint>,
    pending: map<nat, Frame>,
    calls: seq<AdapterCall>,               // history: every route call so far
    captured: map<string, bool>)           // history: checkpoint id -> route intent it captured

  datatype Status = Status(
    role: Role, promoted: bool, promotedCheckpointId: Option<string>,
    controlQuiesced: bool, controlGeneration: nat, activeControlRequestCount: int,
    gateway: Option<(nat, bool, int)>, checkpointId: Option<string>,
    externalRouteDesired: bool, trafficDetached: bool)

  datatype DrainReport = DrainReport(
    controlGeneration: nat, gatewayGeneration: Option<nat>,
    drained: bool, timedOut: bool, interrupted: bool,
    activeControlRequestCount: int, activeGatewayRequestCount: int, unknownOutcomeCount: int)

  datatype Response =
    | Ignored                              // no such suspended operation, or its await has not settled
    | Failed(code: Code)
    | AdapterThrew
    | Exempt
    | Admitted(permit: nat)
    | Suspended
    | Observed(status: Status)
    | Drained(report: DrainReport)
    | Checkpointed(checkpoint: StoredCheckpoint)
    | Done

  datatype Event =
    | AdmitControl(name: string)
    | ReleaseControl(permit: nat)
    | ControlTimer(drain: nat)
    | AtGateway(event: GatewayTraffic.Event)
    | ReadStatus(routeNow: bool)
    | BeginQuiesce(routeNow: bool)
    | BeginDrain(op: nat, controlGeneration: int, gatewayGeneration: Option<int>, timeoutMs: int)
    | EndDrain(op: nat)
    | BeginCheckpoint(op: nat, controlGeneration: int, gatewayGeneration: Option<int>, token: string, routeNow: bool)
    | EndCheckpoint(op: nat, snapshot: Snapshot, freshId: string)
    | BeginDetach(op: nat, controlGeneration: int, gatewayGeneration: Option<int>,
                  checkpointId: string, token: string, routeNow: bool)
    | EndDetach(op: nat, succeeded: bool, routeNow: bool)
    | BeginResume(op: nat, controlGeneration: int, gatewayGeneration: Option<int>, routeNow: bool)
    | EndResume(op: nat, succeeded: bool, routeNow: bool)
    | BeginPromote(op: nat, checkpointId: string, token: string, externalRouteDesired: bool)
    | EndPromote(op: nat, succeeded: bool, routeNow: bool)

  /** The state the constructor leaves: an authoritative host, or a passive candidate. */
  function Initial(role: Role, token: Option<string>, hasGateway: bool, routeNow: bool): System {
    System(FRESH, if hasGateway then Some(FRESH) else None, role, role.ActiveRole?, token, None,
           role.ActiveRole? && routeNow, false, None, map[], [], map[])
  }

  // --- guards ---

  predicate Authoritative(s: System) { s.promoted && s.role.ActiveRole? }

  function ControlFault(s: System, expected: int): Option<Code> {
    if s.control.open then Some(InvalidInput)
    else if s.control.generation != expected then Some(StaleHash)
    else None
  }

  function GatewayFault(s: System, expected: Option<int>): Option<Code> {
    if s.gateway.None? then (if expected.None? then None else Some(StaleHash))
    else if expected.None? then Some(InvalidInput)
    else GatewayTraffic.GenerationFault(s.gateway.value, expected.value)
  }

  /** Authority, argument and fence checks, in the order the fenced operations make them. */
  function Guard(s: System, controlGeneration: int, argumentsOk: bool, gatewayGeneration: Option<int>): Option<Code> {
    if !Authoritative(s) then Some(PolicyDenied)
    else if !GatewayTraffic.IsGeneration(controlGeneration) || !argumentsOk then Some(InvalidInput)
    else if ControlFault(s, controlGeneration).Some? then ControlFault(s, controlGeneration)
    else GatewayFault(s, gatewayGeneration)
  }

  /** Both layers are idle and the Gateway admits nothing. */
  predicate Idle(s: System) {
    && s.control.active == 0
    && (s.gateway.Some? ==> !s.gateway.value.open && s.gateway.value.active == 0)
  }

  function StoredCheckpointFault(s: System, id: string, token: string): Option<Code> {
    if !IsIdentifier(id) || !IsToken(token) || s.checkpoint.None? then Some(InvalidInput)
    else if s.checkpoint.value.id != id then Some(StaleHash)
    else if s.checkpoint.value.token != TokenDigest(token) then Some(AuthInvalid)
    else None
  }

  // --- steps ---

  /** Requests that pass admission uncounted in every state. */
  predicate ExemptName(name: string) { name in CUTOVER_METHODS || name == "shutdown" }

  function StatusOf(s: System): Status {
    Status(s.role, s.promoted, s.promotedCheckpointId, !s.control.open, s.control.generation, s.control.active,
           match s.gateway case None => None case Some(g) => Some((g.generation, g.open, g.active)),
           match s.checkpoint case None => None case Some(c) => Some(c.id),
           s.externalRouteDesired, s.trafficDetached)
  }

  /** Reading the status refreshes the route intent unless a checkpoint or a detachment pins it. */
  function Refresh(s: System, routeNow: bool): System {
    if s.promoted && !s.trafficDetached && s.checkpoint.None?
    then s.(externalRouteDesired := routeNow) else s
  }

  function Observe(s: System, routeNow: bool): (System, Response) {
    (Refresh(s, routeNow), Observed(StatusOf(Refresh(s, routeNow))))
  }

  function AdmitStep(s: System, name: string): (System, Response) {
    if ExemptName(name) then (s, Exempt)
    else if !s.control.open then (s, Failed(PolicyDenied))
    else if !s.promoted && name !in PASSIVE_CANDIDATE_METHODS then (s, Failed(PolicyDenied))
    else (s.(control := Admit(s.control)), Admitted(|s.control.permits|))
  }

  function QuiesceGateway(s: System): System {
    if s.gateway.None? then s else s.(gateway := Some(Quiesce(s.gateway.value)))
  }

  function QuiesceStep(s: System, routeNow: bool): (System, Response) {
    if !Authoritative(s) then (s, Failed(PolicyDenied))
    else
      var s' := if s.control.open then QuiesceGateway(s.(control := Quiesce(s.control))) else s;
      Observe(s', routeNow)
  }

  function BeginDrainStep(s: System, op: nat, cg: int, gg: Option<int>, timeoutMs: int): (System, Response) {
    var fault := Guard(s, cg, GatewayTraffic.IsTimeout(timeoutMs), gg);
    if fault.Some? then (s, Failed(fault.value))
    else
      var s' := s.(control := Wait(s.control));
      if s.gateway.None? then
        (s'.(pending := s.pending[op := Draining(s.control.generation, s.control.begun, None, None)]), Suspended)
      else
        var (gateway, r) := GatewayTraffic.WaitForIdle(s.gateway.value, s.gateway.value.generation, timeoutMs);
        if r.Failure? then (s', Failed(r.error))
        else
          var frame := Draining(s.control.generation, s.control.begun, Some(gateway.generation), Some(r.value));
          (s'.(gateway := Some(gateway), pending := s.pending[op := frame]), Suspended)
  }

  function Combine(controlGeneration: nat, control: Report, gateway: Option<Report>): DrainReport {
    var active := if gateway.None? then 0 else gateway.value.active;
    var drained := control.drained && (gateway.None? || gateway.value.drained);
    var total := control.active + active;
    DrainReport(
      controlGeneration,
      if gateway.None? then None else Some(gateway.value.generation),
      drained,
      control.timedOut || (gateway.Some? && gateway.value.timedOut),
      control.interrupted || (gateway.Some? && gateway.value.interrupted),
      control.active, active,
      if drained then 0 else if total < 1 then 1 else total)
  }

  /** The drain's two awaited promises have both resolved. */
  predicate Joined(s: System, f: Frame)
    requires f.Draining?
  {
    && f.control in s.control.settled
    && (f.gateway.Some? ==> s.gateway.Some? && f.gateway.value in s.gateway.value.settled)
  }

  function EndDrainStep(s: System, op: nat): (System, Response) {
    if op !in s.pending || !s.pending[op].Draining? || !Joined(s, s.pending[op]) then (s, Ignored)
    else
      var f := s.pending[op];
      (s.(pending := s.pending - {op}),
       Drained(Combine(s.control.generation, s.control.settled[f.control],
                       if f.gateway.None? then None else Some(s.gateway.value.settled[f.gateway.value]))))
  }

  function BeginCheckpointStep(s: System, op: nat, cg: int, gg: Option<int>, token: string, routeNow: bool)
    : (System, Response)
  {
    var fault := Guard(s, cg, IsToken(token), gg);
    if fault.Some? then (s, Failed(fault.value))
    else if s.trafficDetached then (s, Failed(InvalidInput))
    else if !Idle(s) then (s, Failed(ProcessFailed))
    else (s.(externalRouteDesired := routeNow, pending := s.pending[op := Checkpointing(token, routeNow)]), Suspended)
  }

  /** The digest uses the route intent read before the await, the stored checkpoint the one read after. */
  function EndCheckpointStep(s: System, op: nat, snapshot: Snapshot, freshId: string): (System, Response) {
    if op !in s.pending || !s.pending[op].Checkpointing? || freshId in s.captured || !IsIdentifier(freshId)
    then (s, Ignored)
    else
      var s' := s.(pending := s.pending - {op});
      if snapshot.Thrown? then (s', AdapterThrew)
      else if snapshot.Undigestible? then (s', Failed(if snapshot.tooLarge then FileTooLarge else ProcessFailed))
      else
        var f := s.pending[op];
        var c := StoredCheckpoint(freshId, TokenDigest(f.token), StateDigest(f.digestRoute, snapshot.state),
                                  s.externalRouteDesired);
        (s'.(checkpoint := Some(c), captured := s.captured[freshId := s.externalRouteDesired]), Checkpointed(c))
  }

  function BeginDetachStep(s: System, op: nat, cg: int, gg: Option<int>, id: string, token: string, routeNow: bool)
    : (System, Response)
  {
    var fault := Guard(s, cg, true, gg);
    var stored := StoredCheckpointFault(s, id, token);
    if fault.Some? then (s, Failed(fault.value))
    else if stored.Some? then (s, Failed(stored.value))
    else if !Idle(s) then (s, Failed(ProcessFailed))
    else if s.trafficDetached then Observe(s, routeNow)
    else (s.(pending := s.pending[op := Detaching(id)], calls := s.calls + [DetachTried(id)]), Suspended)
  }

  function EndDetachStep(s: System, op: nat, succeeded: bool, routeNow: bool): (System, Response) {
    if op !in s.pending || !s.pending[op].Detaching? then (s, Ignored)
    else
      var s' := s.(pending := s.pending - {op});
      if !succeeded then (s', AdapterThrew)
      else Observe(s'.(trafficDetached := true, calls := s.calls + [Detached(s.pending[op].checkpointId)]), routeNow)
  }

  /** The writes after route restoration. */
  function ResumeWrites(s: System): System {
    s.(trafficDetached := false, control := Reopen(s.control), checkpoint := None)
  }

  function Resumed(s: System, routeNow: bool): (System, Response) {
    Observe(ResumeWrites(s), routeNow)
  }

  function BeginResumeStep(s: System, op: nat, cg: int, gg: Option<int>, routeNow: bool): (System, Response) {
    var fault := Guard(s, cg, true, gg);
    if fault.Some? then (s, Failed(fault.value))
    else
      var s' := if s.gateway.None? then s else s.(gateway := Some(Resume(s.gateway.value)));
      if !s.trafficDetached then Resumed(s', routeNow)
      else if s.checkpoint.None? then (QuiesceGateway(s'), Failed(ProcessFailed))
      else
        var c := s.checkpoint.value;
        (s'.(pending := s.pending[op := Resuming(s.gateway.Some?, c.id, c.externalRouteDesired)],
             calls := s.calls + [RestoreTried(c.id, c.externalRouteDesired)]),
         Suspended)
  }

  function EndResumeStep(s: System, op: nat, succeeded: bool, routeNow: bool): (System, Response) {
    if op !in s.pending || !s.pending[op].Resuming? then (s, Ignored)
    else
      var f := s.pending[op];
      var s' := s.(pending := s.pending - {op});
      if !succeeded then (if f.resumedGateway then QuiesceGateway(s') else s', AdapterThrew)
      else Resumed(s'.(calls := s.calls + [Restored(f.checkpointId)]), routeNow)
  }

  function BeginPromoteStep(s: System, op: nat, id: string, token: string, route: bool): (System, Response) {
    if !IsIdentifier(id) || !IsToken(token) then (s, Failed(InvalidInput))
    else if !s.role.CandidateRole? || s.promoted then (s, Failed(PolicyDenied))
    else if s.promotionToken != Some(token) then (s, Failed(AuthInvalid))
    else (s.(pending := s.pending[op := Promoting(id, route)]), Suspended)
  }

  function EndPromoteStep(s: System, op: nat, succeeded: bool, routeNow: bool): (System, Response) {
    if op !in s.pending || !s.pending[op].Promoting? then (s, Ignored)
    else
      var f := s.pending[op];
      var s' := s.(pending := s.pending - {op});
      if !succeeded then (s', AdapterThrew)
      else Observe(s'.(promoted := true, role := ActiveRole, promotedCheckpointId := Some(f.checkpointId),
                       externalRouteDesired := f.externalRouteDesired), routeNow)
  }

  /** Every operation names its frame; a name already in use cannot start another operation. */
  function Step(s: System, e: Event): (System, Response) {
    match e
    case AdmitControl(name) => AdmitStep(s, name)
    case ReleaseControl(permit) => (s.(control := Release(s.control, permit)), Done)
    case ControlTimer(drain) => (s.(control := TimeOut(s.control, drain)), Done)
    case AtGateway(event) =>
      if s.gateway.None? then (s, Ignored)
      else (s.(gateway := Some(GatewayTraffic.Step(s.gateway.value, event))), Done)
    case ReadStatus(routeNow) => Observe(s, routeNow)
    case BeginQuiesce(routeNow) => QuiesceStep(s, routeNow)
    case BeginDrain(op, cg, gg, timeoutMs) =>
      if op in s.pending then (s, Ignored) else BeginDrainStep(s, op, cg, gg, timeoutMs)
    case EndDrain(op) => EndDrainStep(s, op)
    case BeginCheckpoint(op, cg, gg, token, routeNow) =>
      if op in s.pending then (s, Ignored) else BeginCheckpointStep(s, op, cg, gg, token, routeNow)
    case EndCheckpoint(op, snapshot, freshId) => EndCheckpointStep(s, op, snapshot, freshId)
    case BeginDetach(op, cg, gg, id, token, routeNow) =>
      if op in s.pending then (s, Ignored) else BeginDetachStep(s, op, cg, gg, id, token, routeNow)
    case EndDetach(op, succeeded, routeNow) => EndDetachStep(s, op, succeeded, routeNow)
    case BeginResume(op, cg, gg, routeNow) =>
      if op in s.pending then (s, Ignored) else BeginResumeStep(s, op, cg, gg, routeNow)
    case EndResume(op, succeeded, routeNow) => EndResumeStep(s, op, succeeded, routeNow)
    case BeginPromote(op, id, token, route) =>
      if op in s.pending then (s, Ignored) else BeginPromoteStep(s, op, id, token, route)
    case EndPromote(op, succeeded, routeNow) => EndPromoteStep(s, op, succeeded, routeNow)
  }

  /** The state a run of events leads to. */
  function After(s: System, es: seq<Event>): System {
    if es == [] then s
    else Step(After(s, es[..|es| - 1]), es[|es| - 1]).0
  }

  lemma AfterOneMore(s: System, es: seq<Event>, e: Event)
    ensures After(s, es + [e]) == Step(After(s, es), e).0
  {
    assert (es + [e])[..|es|] == es;
  }

  lemma {:induction false} AfterBoth(s: System, a: seq<Event>, b: seq<Event>)
    ensures After(s, a + b) == After(After(s, a), b)
    decreases |b|
  {
    if b == [] {
      assert a + b == a;
    } else {
      var front, e := b[..|b| - 1], b[|b| - 1];
      assert b == front + [e] && a + b == (a + front) + [e];
      AfterBoth(s, a, front);
      AfterOneMore(s, a + front, e);
      AfterOneMore(After(s, a), front, e);
    }
  }
}

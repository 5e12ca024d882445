/**
 What holds of the cutover protocol under full interleaving: every operation, admission, release and
 timer may run between any two steps, and cutover requests may overlap.
 */
module CutoverRuns {
  import opened Results
  import opened Drains
  import GatewayTraffic
  import opened Cutover

  /** A suspended drain waits for promises of the layers it was started on, at the generations it was given. */
  ghost predicate FrameOk(s: System, f: Frame) {
    f.Draining? ==>
      && WaitsFor(s.control, f.control, f.controlGeneration)
      && f.gateway.Some? == f.gatewayGeneration.Some? == s.gateway.Some?
      && (f.gateway.Some? ==> WaitsFor(s.gateway.value, f.gateway.value, f.gatewayGeneration.value))
  }

  ghost predicate WaitsFor(l: Layer, drain: nat, generation: nat) {
    && drain < l.begun
    && (drain in l.waiters ==> l.waiters[drain] == generation)
    && (drain in l.settled && l.settled[drain].drained ==> l.settled[drain].generation == generation)
  }

  ghost predicate Inv(s: System) {
    && Ok(s.control)
    && (s.gateway.Some? ==> Ok(s.gateway.value))
    && (forall op :: op in s.pending ==> FrameOk(s, s.pending[op]))
  }

  ghost predicate Advances(s: System, t: System) {
    && Evolves(s.control, t.control)
    && s.gateway.Some? == t.gateway.Some?
    && (s.gateway.Some? ==> Evolves(s.gateway.value, t.gateway.value))
  }

  lemma InitialInv(role: Role, token: Option<string>, hasGateway: bool, routeNow: bool)
    ensures Inv(Initial(role, token, hasGateway, routeNow))
  {
    FreshOk();
  }

  lemma ControlMoves(s: System, e: Event) returns (m: Move)
    ensures Step(s, e).0.control == Apply(s.control, m) && !m.Bounce?
  {
    match e
    case AdmitControl(name) => m := AdmitMovesControl(s, name);
    case ReleaseControl(permit) => m := Leave(permit);
    case ControlTimer(drain) => m := Expire(drain);
    case BeginQuiesce(routeNow) => m := QuiesceMovesControl(s, routeNow);
    case BeginDrain(op, cg, gg, t) =>
      m := Stay;
      if op !in s.pending { m := DrainMovesControl(s, op, cg, gg, t); }
    case BeginResume(op, cg, gg, r) =>
      m := Stay;
      if op !in s.pending { m := ResumeMovesControl(s, op, cg, gg, r); }
    case EndResume(op, succeeded, routeNow) => m := EndResumeMovesControl(s, op, succeeded, routeNow);
    case _ =>
      m := Stay;
      OthersKeepControl(s, e);
  }

  lemma OthersKeepControl(s: System, e: Event)
    requires e.AtGateway? || e.ReadStatus? || e.EndDrain? || e.BeginCheckpoint? || e.EndCheckpoint? || e.BeginDetach?
             || e.EndDetach? || e.BeginPromote? || e.EndPromote?
    ensures Step(s, e).0.control == s.control
  {}

  lemma AdmitMovesControl(s: System, name: string) returns (m: Move)
    ensures AdmitStep(s, name).0.control == Apply(s.control, m) && !m.Bounce?
  {
    m := if AdmitStep(s, name).1.Admitted? then Enter else Stay;
  }

  lemma QuiesceMovesControl(s: System, routeNow: bool) returns (m: Move)
    ensures QuiesceStep(s, routeNow).0.control == Apply(s.control, m) && !m.Bounce?
  {
    m := if Authoritative(s) then Shut else Stay;
  }

  lemma DrainMovesControl(s: System, op: nat, cg: int, gg: Option<int>, timeoutMs: int) returns (m: Move)
    ensures BeginDrainStep(s, op, cg, gg, timeoutMs).0.control == Apply(s.control, m) && !m.Bounce?
  {
    m := if Guard(s, cg, GatewayTraffic.IsTimeout(timeoutMs), gg).Some? then Stay else Begin;
  }

  lemma ResumeMovesControl(s: System, op: nat, cg: int, gg: Option<int>, routeNow: bool) returns (m: Move)
    ensures BeginResumeStep(s, op, cg, gg, routeNow).0.control == Apply(s.control, m) && !m.Bounce?
  {
    m := if Guard(s, cg, true, gg).Some? || s.trafficDetached then Stay else Open;
  }

  lemma EndResumeMovesControl(s: System, op: nat, succeeded: bool, routeNow: bool) returns (m: Move)
    ensures EndResumeStep(s, op, succeeded, routeNow).0.control == Apply(s.control, m) && !m.Bounce?
  {
    m := if op in s.pending && s.pending[op].Resuming? && succeeded then Open else Stay;
  }

  lemma GatewayMoves(s: System, e: Event) returns (m: Move)
    requires s.gateway.Some?
    ensures Step(s, e).0.gateway == Some(Apply(s.gateway.value, m))
  {
    match e
    case AtGateway(event) =>
      m := GatewayTraffic.MoveOf(s.gateway.value, event);
      GatewayTraffic.StepMoves(s.gateway.value, event);
    case BeginQuiesce(routeNow) => m := QuiesceMovesGateway(s, routeNow);
    case BeginDrain(op, cg, gg, t) =>
      m := Stay;
      if op !in s.pending { m := DrainMovesGateway(s, op, cg, gg, t); }
    case BeginResume(op, cg, gg, r) =>
      m := Stay;
      if op !in s.pending { m := ResumeMovesGateway(s, op, cg, gg, r); }
    case EndResume(op, succeeded, routeNow) => m := EndResumeMovesGateway(s, op, succeeded, routeNow);
    case _ =>
      m := Stay;
      OthersKeepGateway(s, e);
  }

  lemma OthersKeepGateway(s: System, e: Event)
    requires e.AdmitControl? || e.ReleaseControl? || e.ControlTimer? || e.ReadStatus? || e.EndDrain?
             || e.BeginCheckpoint?
             || e.EndCheckpoint? || e.BeginDetach? || e.EndDetach? || e.BeginPromote? || e.EndPromote?
    ensures Step(s, e).0.gateway == s.gateway
  {}

  lemma QuiesceMovesGateway(s: System, routeNow: bool) returns (m: Move)
    requires s.gateway.Some?
    ensures QuiesceStep(s, routeNow).0.gateway == Some(Apply(s.gateway.value, m))
  {
    m := if Authoritative(s) && s.control.open then Shut else Stay;
  }

  lemma DrainMovesGateway(s: System, op: nat, cg: int, gg: Option<int>, timeoutMs: int) returns (m: Move)
    requires s.gateway.Some?
    ensures BeginDrainStep(s, op, cg, gg, timeoutMs).0.gateway == Some(Apply(s.gateway.value, m))
  {
    m := if Guard(s, cg, GatewayTraffic.IsTimeout(timeoutMs), gg).Some?
            || GatewayTraffic.GenerationFault(s.gateway.value, s.gateway.value.generation).Some? then Stay else Begin;
  }

  lemma ResumeMovesGateway(s: System, op: nat, cg: int, gg: Option<int>, routeNow: bool) returns (m: Move)
    requires s.gateway.Some?
    ensures BeginResumeStep(s, op, cg, gg, routeNow).0.gateway == Some(Apply(s.gateway.value, m))
  {
    m := if Guard(s, cg, true, gg).Some? then Stay
         else if s.trafficDetached && s.checkpoint.None? then Bounce else OpenIfShut;
  }

  lemma EndResumeMovesGateway(s: System, op: nat, succeeded: bool, routeNow: bool) returns (m: Move)
    requires s.gateway.Some?
    ensures EndResumeStep(s, op, succeeded, routeNow).0.gateway == Some(Apply(s.gateway.value, m))
  {
    m := if op in s.pending && s.pending[op].Resuming? && s.pending[op].resumedGateway && !succeeded
         then Shut else Stay;
  }

  lemma NoGatewayStays(s: System, e: Event)
    requires s.gateway.None?
    ensures Step(s, e).0.gateway.None?
  {
  }

  lemma WaitsForEvolves(a: Layer, b: Layer, drain: nat, generation: nat)
    requires Ok(a) && Ok(b) && Evolves(a, b) && WaitsFor(a, drain, generation)
    ensures WaitsFor(b, drain, generation)
  {
  }

  /** A drain suspended after a step was suspended before it, or is the step's own. */
  lemma FramesKept(s: System, e: Event, o: nat)
    requires o in Step(s, e).0.pending && Step(s, e).0.pending[o].Draining?
    ensures (o in s.pending && Step(s, e).0.pending[o] == s.pending[o])
            || (e.BeginDrain? && e.op == o && o !in s.pending)
  {
    match e
    case EndDrain(op) => EndMoves(s, e, op);
    case EndCheckpoint(op, _, _) => EndMoves(s, e, op);
    case EndDetach(op, _, _) => EndMoves(s, e, op);
    case EndResume(op, _, _) => EndMoves(s, e, op);
    case EndPromote(op, _, _) => EndMoves(s, e, op);
    case BeginDrain(op, _, _, _) => BeginMoves(s, e, op);
    case BeginCheckpoint(op, _, _, _, _) => BeginMoves(s, e, op);
    case BeginDetach(op, _, _, _, _, _) => BeginMoves(s, e, op);
    case BeginResume(op, _, _, _) => BeginMoves(s, e, op);
    case BeginPromote(op, _, _, _) => BeginMoves(s, e, op);
    case _ =>
  }

  /** Whether a step left the suspended operations alone or finished this one. */
  predicate Finishes(s: System, t: System, op: nat) {
    t.pending == s.pending || t.pending == s.pending - {op}
  }

  lemma EndDrainFrames(s: System, op: nat)
    ensures Finishes(s, EndDrainStep(s, op).0, op)
  {}

  lemma EndCheckpointFrames(s: System, op: nat, snapshot: Snapshot, id: string)
    ensures Finishes(s, EndCheckpointStep(s, op, snapshot, id).0, op)
  {}

  lemma EndDetachFrames(s: System, op: nat, succeeded: bool, routeNow: bool)
    ensures Finishes(s, EndDetachStep(s, op, succeeded, routeNow).0, op)
  {}

  lemma EndResumeFrames(s: System, op: nat, succeeded: bool, routeNow: bool)
    ensures Finishes(s, EndResumeStep(s, op, succeeded, routeNow).0, op)
  {}

  lemma EndPromoteFrames(s: System, op: nat, succeeded: bool, routeNow: bool)
    ensures Finishes(s, EndPromoteStep(s, op, succeeded, routeNow).0, op)
  {}

  lemma EndMoves(s: System, e: Event, op: nat)
    requires e.EndDrain? || e.EndCheckpoint? || e.EndDetach? || e.EndResume? || e.EndPromote?
    requires e.op == op
    ensures Finishes(s, Step(s, e).0, op)
  {
    match e
    case EndDrain(_) => EndDrainFrames(s, op);
    case EndCheckpoint(_, snapshot, id) => EndCheckpointFrames(s, op, snapshot, id);
    case EndDetach(_, succeeded, routeNow) => EndDetachFrames(s, op, succeeded, routeNow);
    case EndResume(_, succeeded, routeNow) => EndResumeFrames(s, op, succeeded, routeNow);
    case EndPromote(_, succeeded, routeNow) => EndPromoteFrames(s, op, succeeded, routeNow);
  }

  /** Whether a step left the suspended operations alone or suspended this new one. */
  predicate Suspends(s: System, t: System, op: nat, drain: bool) {
    || t.pending == s.pending
    || (op !in s.pending && op in t.pending && t.pending == s.pending[op := t.pending[op]]
        && (t.pending[op].Draining? ==> drain))
  }

  lemma BeginDrainFrames(s: System, op: nat, cg: int, gg: Option<int>, timeoutMs: int)
    requires op !in s.pending
    ensures Suspends(s, BeginDrainStep(s, op, cg, gg, timeoutMs).0, op, true)
  {}

  lemma BeginCheckpointFrames(s: System, op: nat, cg: int, gg: Option<int>, token: string, routeNow: bool)
    requires op !in s.pending
    ensures Suspends(s, BeginCheckpointStep(s, op, cg, gg, token, routeNow).0, op, false)
  {}

  lemma BeginDetachFrames(s: System, op: nat, cg: int, gg: Option<int>, id: string, token: string, routeNow: bool)
    requires op !in s.pending
    ensures Suspends(s, BeginDetachStep(s, op, cg, gg, id, token, routeNow).0, op, false)
  {}

  lemma BeginResumeFrames(s: System, op: nat, cg: int, gg: Option<int>, routeNow: bool)
    requires op !in s.pending
    ensures Suspends(s, BeginResumeStep(s, op, cg, gg, routeNow).0, op, false)
  {}

  lemma BeginPromoteFrames(s: System, op: nat, id: string, token: string, route: bool)
    requires op !in s.pending
    ensures Suspends(s, BeginPromoteStep(s, op, id, token, route).0, op, false)
  {}

  lemma BeginMoves(s: System, e: Event, op: nat)
    requires e.BeginDrain? || e.BeginCheckpoint? || e.BeginDetach? || e.BeginResume? || e.BeginPromote?
    requires e.op == op
    ensures Suspends(s, Step(s, e).0, op, e.BeginDrain?)
  {
    if op !in s.pending {
      match e
      case BeginDrain(_, cg, gg, timeoutMs) => BeginDrainFrames(s, op, cg, gg, timeoutMs);
      case BeginCheckpoint(_, cg, gg, token, routeNow) => BeginCheckpointFrames(s, op, cg, gg, token, routeNow);
      case BeginDetach(_, cg, gg, id, token, routeNow) => BeginDetachFrames(s, op, cg, gg, id, token, routeNow);
      case BeginResume(_, cg, gg, routeNow) => BeginResumeFrames(s, op, cg, gg, routeNow);
      case BeginPromote(_, id, token, route) => BeginPromoteFrames(s, op, id, token, route);
    }
  }

  lemma DrainFrameOk(s: System, e: Event)
    requires Inv(s) && e.BeginDrain? && e.op !in s.pending && e.op in Step(s, e).0.pending
    ensures var t := Step(s, e).0; FrameOk(t, t.pending[e.op])
  {
    WaitKeeps(s.control);
    if s.gateway.Some? { WaitKeeps(s.gateway.value); }
  }

  lemma StepKeeps(s: System, e: Event)
    requires Inv(s)
    ensures Inv(Step(s, e).0) && Advances(s, Step(s, e).0)
  {
    var t := Step(s, e).0;
    var m := ControlMoves(s, e);
    ApplyKeeps(s.control, m);
    if s.gateway.Some? {
      var g := GatewayMoves(s, e);
      ApplyKeeps(s.gateway.value, g);
    } else {
      NoGatewayStays(s, e);
    }
    forall op | op in t.pending && t.pending[op].Draining?
      ensures FrameOk(t, t.pending[op])
    {
      FramesKept(s, e, op);
      if op in s.pending && t.pending[op] == s.pending[op] {
        FrameEvolves(s, t, s.pending[op]);
      } else {
        DrainFrameOk(s, e);
      }
    }
  }

  lemma FrameEvolves(s: System, t: System, f: Frame)
    requires Ok(s.control) && Ok(t.control) && Advances(s, t) && FrameOk(s, f) && f.Draining?
    requires s.gateway.Some? ==> Ok(s.gateway.value) && Ok(t.gateway.value)
    ensures FrameOk(t, f)
  {
    WaitsForEvolves(s.control, t.control, f.control, f.controlGeneration);
    if f.gateway.Some? {
      WaitsForEvolves(s.gateway.value, t.gateway.value, f.gateway.value, f.gatewayGeneration.value);
    }
  }

  lemma {:induction false} RunKeeps(s: System, es: seq<Event>)
    requires Inv(s)
    ensures Inv(After(s, es)) && Advances(s, After(s, es))
  {
    if es == [] {
      EvolvesReflexive(s.control);
      if s.gateway.Some? { EvolvesReflexive(s.gateway.value); }
    } else {
      var last := |es| - 1;
      var mid := After(s, es[..last]);
      RunKeeps(s, es[..last]);
      StepKeeps(mid, es[last]);
      EvolvesTransitive(s.control, mid.control, After(s, es).control);
      if s.gateway.Some? {
        EvolvesTransitive(s.gateway.value, mid.gateway.value, After(s, es).gateway.value);
      }
    }
  }

  lemma AfterSplit(s: System, es: seq<Event>, i: nat)
    requires i <= |es|
    ensures After(s, es) == After(After(s, es[..i]), es[i..])
  {
    assert es == es[..i] + es[i..];
    AfterBoth(s, es[..i], es[i..]);
  }

  /** The run's invariant at any two of its points, and how the later relates to the earlier. */
  lemma Between(s: System, es: seq<Event>, i: nat, j: nat)
    requires Inv(s) && i <= j <= |es|
    ensures Inv(After(s, es[..i])) && Inv(After(s, es[..j]))
    ensures Advances(After(s, es[..i]), After(s, es[..j]))
  {
    RunKeeps(s, es[..i]);
    AfterSplit(s, es[..j], i);
    assert es[..j][..i] == es[..i];
    RunKeeps(After(s, es[..i]), es[..j][i..]);
  }

  /** How many control and counted Gateway requests have ever been admitted. */
  function AdmittedSoFar(s: System): (nat, nat) {
    (|s.control.permits|, if s.gateway.None? then 0 else |s.gateway.value.permits|)
  }

  /** The generations a caller would have to name now. */
  predicate Shows(s: System, c: nat, g: Option<nat>) {
    s.control.generation == c && s.gateway.Some? == g.Some? && (g.Some? ==> s.gateway.value.generation == g.value)
  }

  /** Event j reports as drained a drain that was started at generations (c, g). */
  predicate ReportsDrained(s: System, e: Event, op: nat, c: nat, g: Option<nat>) {
    && e == EndDrain(op) && op in s.pending && s.pending[op].Draining?
    && s.pending[op].controlGeneration == c && s.pending[op].gatewayGeneration == g
    && Step(s, e).1.Drained? && Step(s, e).1.report.drained
  }

  function Named(g: Option<nat>): Option<int> {
    if g.None? then None else Some(g.value)
  }

  /** Every control request is refused but those that are exempt, whatever its name, and nothing changes. */
  ghost predicate RefusesControl(t: System) {
    forall name: string :: !ExemptName(name) ==> Step(t, AdmitControl(name)) == (t, Failed(PolicyDenied))
  }

  /** Every Gateway request is refused, counted or not, and nothing changes. */
  predicate RefusesGateway(l: Layer) {
    && GatewayTraffic.AdmitRequest(l, true) == (l, GatewayTraffic.Rejected503)
    && GatewayTraffic.AdmitRequest(l, false) == (l, GatewayTraffic.Rejected503)
  }

  lemma ClosedControlRefuses(t: System)
    requires !t.control.open
    ensures RefusesControl(t)
  {}

  /**
   Both layers closed, idle and refusing at these generations, and nothing admitted since `from`; a control request
   answered here is refused unless its name is exempt.
   */
  ghost predicate Fenced(from: System, t: System, c: nat, g: Option<nat>) {
    && !t.control.open && Idle(t) && RefusesControl(t)
    && t.control.generation == c
    && (g.Some? ==> t.gateway.Some? && t.gateway.value.generation == g.value && RefusesGateway(t.gateway.value))
    && AdmittedSoFar(t) == AdmittedSoFar(from)
  }

  /** The names that pass while control is closed: the eight cutover requests and shutdown, none of them ordinary. */
  lemma ExemptNames(name: string)
    ensures |CUTOVER_METHODS| == 8 && forall m :: m in CUTOVER_METHODS ==> "cutover." <= m
    ensures ExemptName(name) ==> name !in PASSIVE_CANDIDATE_METHODS && ("cutover." <= name || name == "shutdown")
    ensures ExemptName("shutdown") && forall m :: m in CUTOVER_METHODS ==> ExemptName(m)
  {
    if name in PASSIVE_CANDIDATE_METHODS { assert name[0] != 'c' && name != "shutdown"; }
  }

  /**
   What admission answers, in every state.  A name that is exempt passes uncounted; any other is refused exactly while
   control is closed, or while the host is not promoted and the name is not a passive one; and what is left is admitted
   under a new permit, one more outstanding.  Only the last changes anything.
   */
  lemma AdmissionAnswers(t: System, name: string)
    ensures var (u, r) := Step(t, AdmitControl(name));
            && (r == Exempt <==> ExemptName(name))
            && (r == Failed(PolicyDenied)
                <==> !ExemptName(name)
                     && (!t.control.open || (!t.promoted && name !in PASSIVE_CANDIDATE_METHODS)))
            && (r == Exempt || r == Failed(PolicyDenied) ==> u == t)
            && (r != Exempt && r != Failed(PolicyDenied) ==>
                  && r == Admitted(|t.control.permits|)
                  && u == t.(control := u.control)
                  && u.control == t.control.(permits := t.control.permits + [false], active := t.control.active + 1)
                  && Outstanding(u.control.permits) == Outstanding(t.control.permits) + 1)
  {
    assert (t.control.permits + [false])[..|t.control.permits|] == t.control.permits;
  }

  /**
   The fence.  A drain started at generations (c, g) reports drained at event j, and the system still
   shows (c, g) before event k.  Then at every moment in between both layers were closed and idle, and
   no request was admitted.
   */
  lemma FenceHolds(s: System, es: seq<Event>, j: nat, k: nat, m: nat, op: nat, c: nat, g: Option<nat>)
    requires Inv(s) && j < k < |es| && j <= m <= k
    requires ReportsDrained(After(s, es[..j]), es[j], op, c, g) && Shows(After(s, es[..k]), c, g)
    ensures Fenced(After(s, es[..j]), After(s, es[..m]), c, g)
  {
    var a, t, b := After(s, es[..j]), After(s, es[..m]), After(s, es[..k]);
    Between(s, es, j, m);
    Between(s, es, m, k);
    DrainedAt(a, op);
    FenceBetween(a, t, b, a.pending[op], c, g);
  }

  lemma FenceBetween(a: System, t: System, b: System, f: Frame, c: nat, g: Option<nat>)
    requires Inv(a) && Inv(t) && Advances(a, t) && Advances(t, b) && Shows(b, c, g)
    requires f.Draining? && f.controlGeneration == c && f.gatewayGeneration == g && FrameOk(a, f)
    requires f.control in a.control.settled && a.control.settled[f.control].drained
    requires f.gateway.Some? ==>
               f.gateway.value in a.gateway.value.settled && a.gateway.value.settled[f.gateway.value].drained
    ensures Fenced(a, t, c, g)
  {
    ClosedControlRefuses(t);
    LayerFence(a.control, t.control, b.control, f.control, c);
    if g.Some? {
      LayerFence(a.gateway.value, t.gateway.value, b.gateway.value, f.gateway.value, g.value);
    }
  }

  /**
   Fence safety.  If a drain started at (c, g) reports drained at event j and event k is a checkpoint at
   the same (c, g) that passes its guards, everything was closed, idle and unadmitted in between.
   */
  lemma FenceSafety(s: System, es: seq<Event>, j: nat, k: nat, m: nat,
                    op: nat, c: nat, g: Option<nat>, cp: nat, token: string, routeNow: bool)
    requires Inv(s) && j < k < |es| && j <= m <= k
    requires ReportsDrained(After(s, es[..j]), es[j], op, c, g)
    requires es[k] == BeginCheckpoint(cp, c, Named(g), token, routeNow)
    requires Step(After(s, es[..k]), es[k]).1.Suspended?
    ensures Fenced(After(s, es[..j]), After(s, es[..m]), c, g)
  {
    CheckpointPasses(After(s, es[..k]), cp, c, Named(g), token, routeNow);
    FenceHolds(s, es, j, k, m, op, c, g);
  }

  /** The same fence, checked again by the detachment: it reaches from the drained report to there. */
  lemma FenceToDetach(s: System, es: seq<Event>, j: nat, k: nat, m: nat,
                      op: nat, c: nat, g: Option<nat>, d: nat, id: string, token: string, routeNow: bool)
    requires Inv(s) && j < k < |es| && j <= m <= k
    requires ReportsDrained(After(s, es[..j]), es[j], op, c, g)
    requires es[k] == BeginDetach(d, c, Named(g), id, token, routeNow)
    requires Step(After(s, es[..k]), es[k]).1.Suspended?
    ensures Fenced(After(s, es[..j]), After(s, es[..m]), c, g)
  {
    DetachPasses(After(s, es[..k]), d, c, Named(g), id, token, routeNow);
    FenceHolds(s, es, j, k, m, op, c, g);
  }

  /** From a passing checkpoint to a passing detachment at the same generations nothing was admitted either. */
  lemma FenceFromCheckpoint(s: System, es: seq<Event>, j: nat, k: nat, m: nat, c: nat, g: Option<nat>,
                            cp: nat, token: string, was: bool, d: nat, id: string, proof: string, now: bool)
    requires Inv(s) && j < k < |es| && j <= m <= k
    requires es[j] == BeginCheckpoint(cp, c, Named(g), token, was)
    requires Step(After(s, es[..j]), es[j]).1.Suspended?
    requires es[k] == BeginDetach(d, c, Named(g), id, proof, now)
    requires Step(After(s, es[..k]), es[k]).1.Suspended?
    ensures Fenced(After(s, es[..j]), After(s, es[..m]), c, g)
  {
    var a, t, b := After(s, es[..j]), After(s, es[..m]), After(s, es[..k]);
    Between(s, es, j, m);
    Between(s, es, m, k);
    CheckpointPasses(a, cp, c, Named(g), token, was);
    DetachPasses(b, d, c, Named(g), id, proof, now);
    Fence(a.control, t.control, b.control);
    ClosedControlRefuses(t);
    if g.Some? { Fence(a.gateway.value, t.gateway.value, b.gateway.value); }
  }

  lemma DrainedAt(s: System, op: nat)
    requires Inv(s) && Step(s, EndDrain(op)).1.Drained? && Step(s, EndDrain(op)).1.report.drained
    ensures var f := s.pending[op];
            && FrameOk(s, f) && f.control in s.control.settled && s.control.settled[f.control].drained
            && (f.gateway.Some? ==>
                  && f.gateway.value in s.gateway.value.settled
                  && s.gateway.value.settled[f.gateway.value].drained)
  {
  }

  lemma CheckpointPasses(s: System, op: nat, c: nat, g: Option<int>, token: string, routeNow: bool)
    requires Step(s, BeginCheckpoint(op, c, g, token, routeNow)).1.Suspended?
    ensures s.control.generation == c && s.gateway.Some? == g.Some?
    ensures g.Some? ==> s.gateway.value.generation == g.value
    ensures !s.control.open && Idle(s)
  {
  }

  lemma DetachPasses(s: System, op: nat, c: nat, g: Option<int>, id: string, token: string, routeNow: bool)
    requires Step(s, BeginDetach(op, c, g, id, token, routeNow)).1.Suspended?
    ensures s.control.generation == c && s.gateway.Some? == g.Some?
    ensures g.Some? ==> s.gateway.value.generation == g.value
    ensures !s.control.open && Idle(s)
  {
  }

  /** One layer's share of the fence: a drained promise at generation n holds as long as n does. */
  lemma LayerFence(a: Layer, t: Layer, b: Layer, drain: nat, n: nat)
    requires Ok(a) && Ok(t) && Evolves(a, t) && Evolves(t, b)
    requires WaitsFor(a, drain, n) && drain in a.settled && a.settled[drain].drained && b.generation == n
    ensures t.generation == n && !t.open && t.active == 0 && |t.permits| == |a.permits|
  {
    Fence(a, t, b);
  }

  /**
   No lost wake-up, on every run of either role: a registered drain is one whose layer is closed, busy
   and still at the expected generation; every drain ever begun is registered or settled, never both;
   a settled drain is exactly one of drained, timed out or interrupted and keeps its report for ever.
   */
  lemma NoLostWakeUp(role: Role, token: Option<string>, hasGateway: bool, routeNow: bool,
                     es: seq<Event>, i: nat, drain: nat)
    requires i <= |es|
    ensures var s := Initial(role, token, hasGateway, routeNow);
            WokenUp(After(s, es[..i]).control, After(s, es).control, drain)
    ensures var s := Initial(role, token, hasGateway, routeNow);
            hasGateway ==> && After(s, es[..i]).gateway.Some? && After(s, es).gateway.Some?
                           && WokenUp(After(s, es[..i]).gateway.value, After(s, es).gateway.value, drain)
  {
    var s := Initial(role, token, hasGateway, routeNow);
    InitialInv(role, token, hasGateway, routeNow);
    Between(s, es, i, |es|);
    Between(s, es, 0, |es|);
    assert es[..|es|] == es && es[..0] == [];
  }

  ghost predicate WokenUp(earlier: Layer, later: Layer, drain: nat) {
    && (drain < later.begun <==> drain in later.waiters || drain in later.settled)
    && !(drain in later.waiters && drain in later.settled)
    && (drain in later.waiters ==>
          !later.open && later.waiters[drain] == later.generation && Outstanding(later.permits) > 0)
    && (drain in later.settled ==> ExactlyOne(later.settled[drain]))
    && (drain in earlier.settled ==> drain in later.settled && later.settled[drain] == earlier.settled[drain])
  }

  /** The combined report has no unknown outcome exactly when both drains succeeded, and then nothing was active. */
  lemma DrainReportSound(s: System, es: seq<Event>, op: nat)
    requires Inv(s) && Step(After(s, es), EndDrain(op)).1.Drained?
    ensures var r := Step(After(s, es), EndDrain(op)).1.report;
            && (r.unknownOutcomeCount == 0 <==> r.drained)
            && (r.drained ==> r.activeControlRequestCount == 0 && r.activeGatewayRequestCount == 0
                              && !r.timedOut && !r.interrupted)
            && (!r.drained ==> r.timedOut || r.interrupted)
            && (r.drained ==> r.gatewayGeneration == After(s, es).pending[op].gatewayGeneration)
  {
    RunKeeps(s, es);
    var t := After(s, es);
    assert FrameOk(t, t.pending[op]);
  }

  /** While the control plane is quiesced its request count never rises, and admissions are refused. */
  lemma {:induction false} QuiescedNeverRises(s: System, es: seq<Event>)
    requires Inv(s)
    requires forall i {:trigger es[..i]} :: 0 <= i <= |es| ==> !After(s, es[..i]).control.open
    ensures After(s, es).control.active <= s.control.active
    ensures After(s, es).control.generation == s.control.generation
    ensures |After(s, es).control.permits| == |s.control.permits|
    ensures RefusesControl(After(s, es))
  {
    assert es[..|es|] == es;
    ClosedControlRefuses(After(s, es));
    if es != [] {
      var last := |es| - 1;
      assert es[..|es|] == es && !After(s, es[..|es|]).control.open;
      forall i {:trigger es[..last][..i]} | 0 <= i <= last
        ensures !After(s, es[..last][..i]).control.open
      {
        assert es[..last][..i] == es[..i];
      }
      QuiescedNeverRises(s, es[..last]);
      RunKeeps(s, es[..last]);
      var mid := After(s, es[..last]);
      assert !mid.control.open;
      StepKeeps(mid, es[last]);
      ClosedToClosed(mid, es[last]);
    }
  }

  lemma ClosedToClosed(s: System, e: Event)
    requires !s.control.open && !Step(s, e).0.control.open
    ensures Step(s, e).0.control.generation == s.control.generation
  {
    var m := ControlMoves(s, e);
    ApplyClosed(s.control, m);
  }

  /** Each counter is the number of admitted requests not yet released. */
  predicate CountersHold(t: System) {
    && t.control.active == Outstanding(t.control.permits)
    && (t.gateway.Some? ==> t.gateway.value.active == Outstanding(t.gateway.value.permits))
  }

  /** The end of a control request takes one off if the request was still running, and nothing when repeated. */
  predicate ReleasesOnce(t: System, permit: nat) {
    var released := Step(t, ReleaseControl(permit)).0;
    && released.control.active
       == t.control.active - (if permit < |t.control.permits| && !t.control.permits[permit] then 1 else 0)
    && Step(released, ReleaseControl(permit)).0 == released
  }

  /** So does the end of a counted Gateway request. */
  predicate RequestEndsOnce(t: System, permit: nat) {
    var ended := Step(t, AtGateway(GatewayTraffic.RequestEnds(permit))).0;
    && t.gateway.Some? && ended.gateway.Some?
    && ended.gateway.value.active
       == t.gateway.value.active
          - (if permit < |t.gateway.value.permits| && !t.gateway.value.permits[permit] then 1 else 0)
    && Step(ended, AtGateway(GatewayTraffic.RequestEnds(permit))).0 == ended
  }

  lemma ControlReleasesOnce(t: System, permit: nat)
    requires Ok(t.control)
    ensures ReleasesOnce(t, permit)
  {
    ReleaseKeeps(t.control, permit);
  }

  lemma GatewayReleasesOnce(t: System, permit: nat)
    requires t.gateway.Some? && Ok(t.gateway.value)
    ensures RequestEndsOnce(t, permit)
  {
    ReleaseKeeps(t.gateway.value, permit);
  }

  /** On every run the counters hold and every request counts once in both layers, so the clamp at zero never acts. */
  lemma PermitsConserved(role: Role, token: Option<string>, hasGateway: bool, routeNow: bool,
                         es: seq<Event>, permit: nat)
    ensures var t := After(Initial(role, token, hasGateway, routeNow), es);
            CountersHold(t) && ReleasesOnce(t, permit) && (hasGateway ==> RequestEndsOnce(t, permit))
  {
    var s := Initial(role, token, hasGateway, routeNow);
    InitialInv(role, token, hasGateway, routeNow);
    RunKeeps(s, es);
    ConservedAt(After(s, es), hasGateway, permit);
  }

  lemma ConservedAt(t: System, hasGateway: bool, permit: nat)
    requires Inv(t) && t.gateway.Some? == hasGateway
    ensures CountersHold(t) && ReleasesOnce(t, permit) && (hasGateway ==> RequestEndsOnce(t, permit))
  {
    ControlReleasesOnce(t, permit);
    if hasGateway { GatewayReleasesOnce(t, permit); }
  }
}

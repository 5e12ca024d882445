/**
 What holds of the cutover protocol when `cutover.*` requests are sent one at a time, as its
 supervisor sends them.  Ordinary admissions, releases, timers and Gateway closing still interleave
 with every await.  The last lemmas show two of these facts failing without that assumption.
 */
module CutoverSerial {
  import opened Results
  import opened Drains
  import GatewayTraffic
  import opened Cutover

  predicate IsRequest(e: Event) {
    e.ReadStatus? || e.BeginQuiesce? || e.BeginDrain? || e.BeginCheckpoint? || e.BeginDetach?
    || e.BeginResume? || e.BeginPromote?
  }

  /** A cutover request is sent only when none is suspended; only the cutover gate quiesces or resumes the Gateway. */
  predicate Serial(s: System, e: Event) {
    && (IsRequest(e) ==> s.pending == map[])
    && (e.AtGateway? ==> !e.event.DoQuiesce? && !e.event.DoResume? && !e.event.DoWait?)
  }

  ghost predicate SerialRun(s: System, es: seq<Event>) {
    forall i {:trigger es[i]} :: 0 <= i < |es| ==> Serial(After(s, es[..i]), es[i])
  }

  // --- the adapter's call trace ---

  /** The checkpoint the adapter last detached and has not restored. */
  function Held(calls: seq<AdapterCall>): Option<string> {
    if calls == [] then None
    else
      var last := calls[|calls| - 1];
      if last.Detached? then Some(last.id)
      else if last.Restored? then None
      else Held(calls[..|calls| - 1])
  }

  /** What the calls so far allow next. */
  predicate Lawful(before: seq<AdapterCall>, call: AdapterCall, captured: map<string, bool>) {
    match call
    case DetachTried(id) => Held(before) == None && id in captured
    case Detached(id) => Held(before) == None && id in captured
    case RestoreTried(id, route) => Held(before) == Some(id) && id in captured && captured[id] == route
    case Restored(id) => Held(before) == Some(id)
  }

  /** Detachments and restorations alternate; every restoration names what is held and carries the captured intent. */
  predicate WellTraced(calls: seq<AdapterCall>, captured: map<string, bool>) {
    calls != [] ==>
      && WellTraced(calls[..|calls| - 1], captured)
      && Lawful(calls[..|calls| - 1], calls[|calls| - 1], captured)
  }

  ghost predicate FrameOk(s: System, f: Frame) {
    match f
    case Draining(_, _, _, _) => !s.control.open
    case Checkpointing(_, route) => !s.control.open && !s.trafficDetached && s.externalRouteDesired == route
    case Detaching(id) => !s.control.open && !s.trafficDetached && s.checkpoint.Some? && s.checkpoint.value.id == id
    case Resuming(resumed, id, route) =>
      s.trafficDetached && resumed == s.gateway.Some? && s.checkpoint.Some? && s.checkpoint.value.id == id
    case Promoting(_, _) => !s.promoted
  }

  ghost predicate Inv(s: System) {
    && s.promoted == s.role.ActiveRole?
    && (forall o, p :: o in s.pending && p in s.pending ==> o == p)
    && (forall o :: o in s.pending ==> FrameOk(s, s.pending[o]))
    && (!s.control.open ==> s.promoted)
    && (s.checkpoint.Some? ==>
          && !s.control.open
          && s.checkpoint.value.id in s.captured
          && s.captured[s.checkpoint.value.id] == s.checkpoint.value.externalRouteDesired
          && s.checkpoint.value.state.externalRouteDesired == s.checkpoint.value.externalRouteDesired)
    && (s.trafficDetached ==> s.checkpoint.Some?)
    && ((!s.control.open && s.gateway.Some? && (forall o :: o in s.pending ==> !s.pending[o].Resuming?)) ==>
          !s.gateway.value.open)
    && WellTraced(s.calls, s.captured)
    && Held(s.calls) == (if s.trafficDetached then Some(s.checkpoint.value.id) else None)
  }

  lemma {:induction false} TraceKept(calls: seq<AdapterCall>, captured: map<string, bool>, id: string, route: bool)
    requires WellTraced(calls, captured) && id !in captured
    ensures WellTraced(calls, captured[id := route])
  {
    if calls != [] {
      TraceKept(calls[..|calls| - 1], captured, id, route);
    }
  }

  lemma Traced(calls: seq<AdapterCall>, captured: map<string, bool>, call: AdapterCall)
    requires WellTraced(calls, captured)
    requires Lawful(calls, call, captured)
    ensures WellTraced(calls + [call], captured)
    ensures Held(calls + [call])
            == if call.Detached? then Some(call.id) else if call.Restored? then None else Held(calls)
  {
    assert (calls + [call])[..|calls|] == calls;
  }

  lemma InitialInv(role: Role, token: Option<string>, hasGateway: bool, routeNow: bool)
    ensures Inv(Initial(role, token, hasGateway, routeNow))
  {
  }

  lemma QuiesceKeeps(s: System, routeNow: bool)
    requires Inv(s) && s.pending == map[]
    ensures Inv(QuiesceStep(s, routeNow).0)
  {
  }

  lemma BeginDrainKeeps(s: System, op: nat, cg: int, gg: Option<int>, timeoutMs: int)
    requires Inv(s) && s.pending == map[]
    ensures Inv(BeginDrainStep(s, op, cg, gg, timeoutMs).0)
  {
  }

  lemma BeginCheckpointKeeps(s: System, op: nat, cg: int, gg: Option<int>, token: string, routeNow: bool)
    requires Inv(s) && s.pending == map[]
    ensures Inv(BeginCheckpointStep(s, op, cg, gg, token, routeNow).0)
  {
  }

  lemma EndCheckpointKeeps(s: System, op: nat, snapshot: Snapshot, id: string)
    requires Inv(s)
    ensures Inv(EndCheckpointStep(s, op, snapshot, id).0)
  {
    if op in s.pending && id !in s.captured {
      assert s.pending - {op} == map[];
      TraceKept(s.calls, s.captured, id, s.externalRouteDesired);
    }
  }

  lemma BeginDetachKeeps(s: System, op: nat, cg: int, gg: Option<int>, id: string, token: string, routeNow: bool)
    requires Inv(s) && s.pending == map[]
    ensures Inv(BeginDetachStep(s, op, cg, gg, id, token, routeNow).0)
  {
    if s.checkpoint.Some? && !s.trafficDetached {
      Traced(s.calls, s.captured, DetachTried(s.checkpoint.value.id));
    }
  }

  lemma EndDetachKeeps(s: System, op: nat, succeeded: bool, routeNow: bool)
    requires Inv(s)
    ensures Inv(EndDetachStep(s, op, succeeded, routeNow).0)
  {
    if op in s.pending && s.pending[op].Detaching? {
      assert s.pending - {op} == map[];
      Traced(s.calls, s.captured, Detached(s.pending[op].checkpointId));
    }
  }

  lemma BeginResumeKeeps(s: System, op: nat, cg: int, gg: Option<int>, routeNow: bool)
    requires Inv(s) && s.pending == map[]
    ensures Inv(BeginResumeStep(s, op, cg, gg, routeNow).0)
  {
    if Guard(s, cg, true, gg).None? {
      var gate := if s.gateway.None? then None else Some(Resume(s.gateway.value));
      assert s.gateway.None? ==> s == s.(gateway := gate);
      if s.trafficDetached {
        RestorationStarts(s, op, gate);
      } else {
        ReopensAtOnce(s, gate, routeNow);
      }
    }
  }

  lemma RestorationStarts(s: System, op: nat, gate: Option<Layer>)
    requires Inv(s) && s.pending == map[] && s.trafficDetached && gate.Some? == s.gateway.Some?
    ensures var c := s.checkpoint.value;
            Inv(s.(gateway := gate, pending := s.pending[op := Resuming(gate.Some?, c.id, c.externalRouteDesired)],
                   calls := s.calls + [RestoreTried(c.id, c.externalRouteDesired)]))
  {
    var c := s.checkpoint.value;
    var started := s.pending[op := Resuming(gate.Some?, c.id, c.externalRouteDesired)];
    assert started.Keys == {op} && started[op].Resuming?;
    Traced(s.calls, s.captured, RestoreTried(c.id, c.externalRouteDesired));
  }

  lemma ReopensAtOnce(s: System, gate: Option<Layer>, routeNow: bool)
    requires Inv(s) && s.pending == map[] && !s.trafficDetached && gate.Some? == s.gateway.Some?
    ensures Inv(Resumed(s.(gateway := gate), routeNow).0)
  {
  }

  lemma EndResumeKeeps(s: System, op: nat, succeeded: bool, routeNow: bool)
    requires Inv(s)
    ensures Inv(EndResumeStep(s, op, succeeded, routeNow).0)
  {
    if op in s.pending && s.pending[op].Resuming? {
      assert s.pending - {op} == map[];
      Traced(s.calls, s.captured, Restored(s.pending[op].checkpointId));
    }
  }

  lemma EndDrainKeeps(s: System, op: nat)
    requires Inv(s)
    ensures Inv(EndDrainStep(s, op).0)
  {
    if op in s.pending { assert s.pending - {op} == map[]; }
  }

  lemma EndPromoteKeeps(s: System, op: nat, succeeded: bool, routeNow: bool)
    requires Inv(s)
    ensures Inv(EndPromoteStep(s, op, succeeded, routeNow).0)
  {
    if op in s.pending { assert s.pending - {op} == map[]; }
  }

  lemma BeginPromoteKeeps(s: System, op: nat, id: string, token: string, route: bool)
    requires Inv(s) && s.pending == map[]
    ensures Inv(BeginPromoteStep(s, op, id, token, route).0)
  {
  }

  lemma OrdinaryKeeps(s: System, e: Event)
    requires Inv(s) && Serial(s, e) && (e.AdmitControl? || e.ReleaseControl? || e.ControlTimer? || e.AtGateway?)
    ensures Inv(Step(s, e).0)
  {
    var t := Step(s, e).0;
    assert t.control.open == s.control.open && t.pending == s.pending;
  }

  lemma StepKeeps(s: System, e: Event)
    requires Inv(s) && Serial(s, e)
    ensures Inv(Step(s, e).0)
  {
    match e
    case ReadStatus(_) =>
    case BeginQuiesce(routeNow) => QuiesceKeeps(s, routeNow);
    case BeginDrain(op, cg, gg, timeoutMs) => BeginDrainKeeps(s, op, cg, gg, timeoutMs);
    case BeginCheckpoint(op, cg, gg, token, routeNow) => BeginCheckpointKeeps(s, op, cg, gg, token, routeNow);
    case EndCheckpoint(op, snapshot, id) => EndCheckpointKeeps(s, op, snapshot, id);
    case BeginDetach(op, cg, gg, id, token, routeNow) => BeginDetachKeeps(s, op, cg, gg, id, token, routeNow);
    case EndDetach(op, succeeded, routeNow) => EndDetachKeeps(s, op, succeeded, routeNow);
    case BeginResume(op, cg, gg, routeNow) => BeginResumeKeeps(s, op, cg, gg, routeNow);
    case EndResume(op, succeeded, routeNow) => EndResumeKeeps(s, op, succeeded, routeNow);
    case BeginPromote(op, id, token, route) => BeginPromoteKeeps(s, op, id, token, route);
    case EndDrain(op) => EndDrainKeeps(s, op);
    case EndPromote(op, succeeded, routeNow) => EndPromoteKeeps(s, op, succeeded, routeNow);
    case _ => OrdinaryKeeps(s, e);
  }

  lemma {:induction false} RunKeeps(s: System, es: seq<Event>)
    requires Inv(s) && SerialRun(s, es)
    ensures Inv(After(s, es))
  {
    if es != [] {
      var last := |es| - 1;
      assert Serial(After(s, es[..last]), es[last]);
      forall i {:trigger es[..last][i]} | 0 <= i < last
        ensures Serial(After(s, es[..last][..i]), es[..last][i])
      {
        assert es[..last][..i] == es[..i] && es[..last][i] == es[i];
      }
      RunKeeps(s, es[..last]);
      StepKeeps(After(s, es[..last]), es[last]);
    }
  }

  // --- the adapter's call trace over whole runs ---

  function Successes(calls: seq<AdapterCall>): seq<AdapterCall> {
    if calls == [] then []
    else
      var last := calls[|calls| - 1];
      Successes(calls[..|calls| - 1]) + if last.Detached? || last.Restored? then [last] else []
  }

  ghost predicate Alternates(calls: seq<AdapterCall>) {
    && (forall i :: 0 <= i < |calls| ==> (calls[i].Detached? <==> i % 2 == 0) && (calls[i].Restored? <==> i % 2 == 1))
    && (forall i :: 0 < i < |calls| && i % 2 == 1 ==> calls[i].id == calls[i - 1].id)
  }

  lemma {:induction false} TraceAlternates(calls: seq<AdapterCall>, captured: map<string, bool>)
    requires WellTraced(calls, captured)
    ensures Alternates(Successes(calls))
    ensures Held(calls)
            == (if |Successes(calls)| % 2 == 0 then None else Some(Successes(calls)[|Successes(calls)| - 1].id))
  {
    if calls != [] {
      TraceAlternates(calls[..|calls| - 1], captured);
      assert Lawful(calls[..|calls| - 1], calls[|calls| - 1], captured);
    }
  }

  lemma {:induction false} LawfulAt(calls: seq<AdapterCall>, captured: map<string, bool>, j: nat)
    requires WellTraced(calls, captured) && j < |calls|
    ensures Lawful(calls[..j], calls[j], captured)
  {
    if j < |calls| - 1 {
      LawfulAt(calls[..|calls| - 1], captured, j);
      assert calls[..|calls| - 1][..j] == calls[..j];
    }
  }

  /**
   Over every serial run, successful detachments and restorations strictly alternate, each restoration
   answering the detachment before it, and every attempted restoration names the checkpoint last
   detached and carries the route intent that checkpoint captured.
   */
  lemma AdapterTrace(role: Role, token: Option<string>, hasGateway: bool, routeNow: bool, es: seq<Event>, j: nat)
    requires SerialRun(Initial(role, token, hasGateway, routeNow), es)
    ensures var t := After(Initial(role, token, hasGateway, routeNow), es);
            && Alternates(Successes(t.calls))
            && (j < |t.calls| && t.calls[j].RestoreTried? ==>
                  && Held(t.calls[..j]) == Some(t.calls[j].id)
                  && t.calls[j].id in t.captured
                  && t.calls[j].externalRouteDesired == t.captured[t.calls[j].id])
  {
    var s := Initial(role, token, hasGateway, routeNow);
    InitialInv(role, token, hasGateway, routeNow);
    RunKeeps(s, es);
    var t := After(s, es);
    TraceAlternates(t.calls, t.captured);
    if j < |t.calls| {
      LawfulAt(t.calls, t.captured, j);
    }
  }

  /**
   On serial runs detached traffic always has its checkpoint, the stored digest and the stored intent
   agree, and nothing replaces the checkpoint while traffic stays detached; so a resume never finds its
   checkpoint missing.
   */
  lemma CheckpointPinned(role: Role, token: Option<string>, hasGateway: bool, routeNow: bool, es: seq<Event>,
                         t: System, e: Event)
    requires SerialRun(Initial(role, token, hasGateway, routeNow), es)
    requires t == After(Initial(role, token, hasGateway, routeNow), es) && Serial(t, e)
    ensures t.trafficDetached ==> t.checkpoint.Some? && !t.control.open
    ensures t.checkpoint.Some? ==>
              t.checkpoint.value.state.externalRouteDesired == t.checkpoint.value.externalRouteDesired
    ensures t.trafficDetached && Step(t, e).0.trafficDetached ==> Step(t, e).0.checkpoint == t.checkpoint
    ensures e.BeginResume? ==> Step(t, e).1 != Failed(ProcessFailed)
  {
    InitialInv(role, token, hasGateway, routeNow);
    RunKeeps(Initial(role, token, hasGateway, routeNow), es);
    PinnedStep(t, e);
  }

  lemma PinnedStep(t: System, e: Event)
    requires Inv(t) && Serial(t, e)
    ensures t.trafficDetached && Step(t, e).0.trafficDetached ==> Step(t, e).0.checkpoint == t.checkpoint
    ensures e.BeginResume? ==> Step(t, e).1 != Failed(ProcessFailed)
  {
    if e.BeginResume? { ResumeNeverMisses(t, e); }
    if t.trafficDetached && Step(t, e).0.trafficDetached { CheckpointKept(t, e); }
  }

  lemma ResumeNeverMisses(t: System, e: Event)
    requires Inv(t) && e.BeginResume?
    ensures Step(t, e).1 != Failed(ProcessFailed)
  {
  }

  lemma CheckpointKept(t: System, e: Event)
    requires Inv(t) && Serial(t, e) && t.trafficDetached && Step(t, e).0.trafficDetached
    ensures Step(t, e).0.checkpoint == t.checkpoint
  {
    if e.EndCheckpoint? && e.op in t.pending {
      assert FrameOk(t, t.pending[e.op]);
    }
  }

  // --- recovery from a failed restoration ---

  /** Between the two halves of a resume started in `s`: only ordinary traffic moves. */
  ghost predicate Amid(s: System, t: System, op: nat) {
    && t.pending.Keys == {op} && t.pending[op].Resuming?
    && t.pending[op].resumedGateway == s.gateway.Some?
    && t.checkpoint == s.checkpoint && t.trafficDetached && t.promoted == s.promoted && t.role == s.role
    && !t.control.open && t.control.generation == s.control.generation
    && t.gateway.Some? == s.gateway.Some?
    && (s.gateway.Some? ==>
          var was, now := s.gateway.value.generation, t.gateway.value;
          if now.open then now.generation == was + 1 else now.generation == was + 2)
  }

  lemma AmidStep(s: System, t: System, op: nat, e: Event)
    requires Amid(s, t, op) && Serial(t, e) && !(e.EndResume? && e.op == op)
    ensures Amid(s, Step(t, e).0, op)
  {
    assert op in t.pending;
  }

  lemma {:induction false} AmidRun(s: System, t: System, op: nat, es: seq<Event>)
    requires Amid(s, t, op) && SerialRun(t, es)
    requires forall e :: e in es ==> !(e.EndResume? && e.op == op)
    ensures Amid(s, After(t, es), op)
  {
    if es != [] {
      var last := |es| - 1;
      forall i {:trigger es[..last][i]} | 0 <= i < last
        ensures Serial(After(t, es[..last][..i]), es[..last][i])
      {
        assert es[..last][..i] == es[..i] && es[..last][i] == es[i];
      }
      AmidRun(s, t, op, es[..last]);
      assert es[last] in es;
      AmidStep(s, After(t, es[..last]), op, es[last]);
    }
  }

  /**
   A failed restoration is recoverable: whatever ordinary traffic ran during the await, control is
   still quiesced at the same generation, checkpoint and detachment are unchanged, the Gateway is closed
   again two generations on, and a status read tells the caller generations with which resume starts.
   */
  lemma FailedResumeRecovers(s: System, op: nat, cg: int, gg: Option<int>, r0: bool, begun: System,
                             es: seq<Event>, r1: bool, t: System, response: Response)
    requires Inv(s) && s.pending == map[]
    requires Step(s, BeginResume(op, cg, gg, r0)) == (begun, Suspended)
    requires SerialRun(begun, es) && forall e :: e in es ==> !(e.EndResume? && e.op == op)
    requires (t, response) == Step(After(begun, es), EndResume(op, false, r1))
    ensures response == AdapterThrew && t.pending == map[]
    ensures !t.control.open && t.control.generation == s.control.generation
    ensures t.checkpoint == s.checkpoint && s.trafficDetached && t.trafficDetached
    ensures t.gateway.Some? == s.gateway.Some?
    ensures s.gateway.Some? ==>
              !t.gateway.value.open && t.gateway.value.generation == s.gateway.value.generation + 2
    ensures (s.gateway.Some? ==> s.gateway.value.generation + 2 <= GatewayTraffic.MAX_SAFE_INTEGER) ==>
              RetryEnabled(t)
  {
    ResumeSuspends(s, op, cg, gg, r0);
    AmidRun(s, begun, op, es);
    FailureRequiesces(s, After(begun, es), op, r1);
    if s.gateway.Some? ==> s.gateway.value.generation + 2 <= GatewayTraffic.MAX_SAFE_INTEGER {
      RetryStarts(t);
    }
  }

  /** Reads the status, then asks to resume at the generations it reported. */
  function Retry(t: System, op: nat, now: bool, later: bool): Response {
    var (u, seen) := Step(t, ReadStatus(now));
    if seen.Observed?
    then Step(u, BeginResume(op, seen.status.controlGeneration, GatewayGeneration(seen.status), later)).1
    else Ignored
  }

  ghost predicate RetryEnabled(t: System) {
    forall op: nat, now: bool, later: bool :: Retry(t, op, now, later).Suspended?
  }

  function GatewayGeneration(status: Status): Option<int> {
    match status.gateway case None => None case Some(g) => Some(g.0)
  }

  lemma ResumeSuspends(s: System, op: nat, cg: int, gg: Option<int>, routeNow: bool)
    requires Inv(s) && s.pending == map[] && Step(s, BeginResume(op, cg, gg, routeNow)).1.Suspended?
    ensures Amid(s, Step(s, BeginResume(op, cg, gg, routeNow)).0, op)
    ensures s.trafficDetached && GatewayTraffic.IsGeneration(s.control.generation) && Authoritative(s)
  {
  }

  lemma FailureRequiesces(s: System, a: System, op: nat, routeNow: bool)
    requires Amid(s, a, op)
    ensures var (t, response) := Step(a, EndResume(op, false, routeNow));
            && response == AdapterThrew && t.pending == map[]
            && !t.control.open && t.control.generation == s.control.generation
            && t.checkpoint == s.checkpoint && t.trafficDetached && t.promoted == s.promoted && t.role == s.role
            && t.gateway.Some? == s.gateway.Some?
            && (s.gateway.Some? ==>
                  !t.gateway.value.open && t.gateway.value.generation == s.gateway.value.generation + 2)
  {
    assert a.pending - {op} == map[];
  }

  lemma RetryStarts(t: System)
    requires t.pending == map[] && !t.control.open && Authoritative(t) && t.trafficDetached && t.checkpoint.Some?
    requires GatewayTraffic.IsGeneration(t.control.generation)
    requires t.gateway.Some? ==> GatewayTraffic.IsGeneration(t.gateway.value.generation)
    ensures RetryEnabled(t)
  {
    forall op: nat, now: bool, later: bool
      ensures Retry(t, op, now, later).Suspended?
    {
      assert Step(t, ReadStatus(now)) == (t, Observed(StatusOf(t)));
    }
  }

  // --- why the requests must be serial ---

  function SomeToken(): (t: string)
    ensures IsToken(t)
  {
    seq(TOKEN_LENGTH, _ => 'a')
  }

  const STORED := StoredCheckpoint("c", TokenDigest(SomeToken()), StateDigest(true, 0), true)

  /** A quiesced, idle host without Gateway; and the same with checkpoint "c" taken while the route was wanted. */
  const QUIESCED_HOST := System(Layer(false, 1, 0, [], map[], map[], 0), None, ActiveRole, true, None, None,
                               true, false, None, map[], [], map[])
  const CHECKPOINTED_HOST := QUIESCED_HOST.(checkpoint := Some(STORED), captured := map["c" := true])

  const ACTIVE_HOST := Initial(ActiveRole, None, false, true)

  lemma QuiescedReached()
    ensures Step(ACTIVE_HOST, BeginQuiesce(true)).0 == QUIESCED_HOST
  {
    assert Quiesce(ACTIVE_HOST.control).waiters == map[] && Quiesce(ACTIVE_HOST.control).settled == map[];
  }

  lemma CheckpointReached()
    ensures var s := Step(QUIESCED_HOST, BeginCheckpoint(0, 1, None, SomeToken(), true)).0;
            Step(s, EndCheckpoint(0, Taken(0), "c")).0 == CHECKPOINTED_HOST
  {
    var s := Step(QUIESCED_HOST, BeginCheckpoint(0, 1, None, SomeToken(), true)).0;
    assert s.pending == map[0 := Checkpointing(SomeToken(), true)];
    assert s.pending - {0} == map[];
  }

  lemma AfterThree(s: System, p: Event, q: Event, r: Event)
    ensures After(s, [p, q, r]) == Step(Step(Step(s, p).0, q).0, r).0
  {
    assert [] + [p] == [p] && [p] + [q] == [p, q] && [p, q] + [r] == [p, q, r];
    AfterOneMore(s, [], p);
    AfterOneMore(s, [p], q);
    AfterOneMore(s, [p, q], r);
  }

  /** The host quiesces and takes checkpoint "c". */
  function CheckpointRun(): seq<Event> {
    [BeginQuiesce(true), BeginCheckpoint(0, 1, None, SomeToken(), true), EndCheckpoint(0, Taken(0), "c")]
  }

  lemma CheckpointedByRun()
    ensures After(ACTIVE_HOST, CheckpointRun()) == CHECKPOINTED_HOST
  {
    var es := CheckpointRun();
    AfterThree(ACTIVE_HOST, es[0], es[1], es[2]);
    QuiescedReached();
    CheckpointReached();
  }

  /** A resume overlaps a detach, and the detach finishes after it. */
  function OverlappingDetachRun(): seq<Event> {
    CheckpointRun()
    + [BeginDetach(1, 1, None, "c", SomeToken(), true), BeginResume(2, 1, None, true), EndDetach(1, true, true)]
  }

  /**
   After this run control accepts requests, no checkpoint is stored, yet traffic is detached, and after the
   next quiesce no resume can restore it.
   */
  lemma OverlappingDetachStrands()
    ensures var t := After(ACTIVE_HOST, OverlappingDetachRun());
            && t.trafficDetached && t.control.open && t.checkpoint == None && t.pending == map[]
            && Step(Step(t, BeginQuiesce(true)).0, BeginResume(3, 3, None, true)).1 == Failed(ProcessFailed)
  {
    var rest :=
      [BeginDetach(1, 1, None, "c", SomeToken(), true), BeginResume(2, 1, None, true), EndDetach(1, true, true)];
    AfterBoth(ACTIVE_HOST, CheckpointRun(), rest);
    CheckpointedByRun();
    AfterThree(CHECKPOINTED_HOST, rest[0], rest[1], rest[2]);
    DetachStrands();
  }

  lemma DetachStrands()
    ensures var begun := Step(CHECKPOINTED_HOST, BeginDetach(1, 1, None, "c", SomeToken(), true)).0;
            var t := Step(Step(begun, BeginResume(2, 1, None, true)).0, EndDetach(1, true, true)).0;
            && t.trafficDetached && t.control.open && t.checkpoint == None && t.pending == map[]
            && Step(Step(t, BeginQuiesce(true)).0, BeginResume(3, 3, None, true)).1 == Failed(ProcessFailed)
  {
    var begun := Step(CHECKPOINTED_HOST, BeginDetach(1, 1, None, "c", SomeToken(), true)).0;
    assert begun.pending == map[1 := Detaching("c")];
    var resumed := Step(begun, BeginResume(2, 1, None, true)).0;
    assert resumed.control.open && resumed.control.generation == 2 && resumed.pending == begun.pending;
    assert resumed.pending - {1} == map[];
  }

  /** A status read overlaps a checkpoint. */
  function OverlappingStatusRun(): seq<Event> {
    [BeginQuiesce(true), BeginCheckpoint(0, 1, None, SomeToken(), true), ReadStatus(false)]
  }

  /** When the checkpoint then answers, its digest and the stored route intent disagree. */
  lemma OverlappingStatusSplitsIntent()
    ensures var r := Step(After(ACTIVE_HOST, OverlappingStatusRun()), EndCheckpoint(0, Taken(0), "c")).1;
            r.Checkpointed? && r.checkpoint.state.externalRouteDesired && !r.checkpoint.externalRouteDesired
  {
    var es := OverlappingStatusRun();
    AfterThree(ACTIVE_HOST, es[0], es[1], es[2]);
    QuiescedReached();
    var begun := Step(QUIESCED_HOST, es[1]).0;
    assert begun.pending[0] == Checkpointing(SomeToken(), true);
  }
}

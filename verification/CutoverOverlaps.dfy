/**
 What overlapping cutover requests can break, and exactly when.  Nothing is assumed about how requests
 are sent: the conditions below are on single events of a run, each something its caller could look up
 in the status before the event.
 */
module CutoverOverlaps {
  import opened Results
  import opened Sequences
  import opened Drains
  import opened Cutover
  import Runs = CutoverRuns
  import Serial = CutoverSerial

  // --- what one event does to the checkpoint and to the external route ---

  datatype Effect =
    | Nothing
    | Captures(id: string)                   // a checkpoint is stored
    | Detaches(id: string)                   // a detachment succeeded
    | Reopens(restored: Option<string>)      // a resume reached its writes, after restoring this checkpoint

  function EffectOf(s: System, e: Event): Effect {
    var r := Step(s, e).1;
    match e
    case EndCheckpoint(_, _, id) => if r.Checkpointed? then Captures(id) else Nothing
    case EndDetach(op, _, _) =>
      if r.Observed? && op in s.pending && s.pending[op].Detaching? then Detaches(s.pending[op].checkpointId)
      else Nothing
    case BeginResume(_, _, _, _) => if r.Observed? then Reopens(None) else Nothing
    case EndResume(op, _, _) =>
      if r.Observed? && op in s.pending && s.pending[op].Resuming? then Reopens(Some(s.pending[op].checkpointId))
      else Nothing
    case _ => Nothing
  }

  function CheckpointId(s: System): Option<string> {
    if s.checkpoint.None? then None else Some(s.checkpoint.value.id)
  }

  /** The event's effect accounts for every change of checkpoint, detached flag, adapter trace and captured ids. */
  predicate Explains(s: System, t: System, effect: Effect) {
    match effect
    case Nothing =>
      && CheckpointId(t) == CheckpointId(s) && t.trafficDetached == s.trafficDetached && t.captured == s.captured
      && Serial.Successes(t.calls) == Serial.Successes(s.calls)
    case Captures(id) =>
      && CheckpointId(t) == Some(id) && id !in s.captured && t.captured.Keys == s.captured.Keys + {id}
      && t.trafficDetached == s.trafficDetached && Serial.Successes(t.calls) == Serial.Successes(s.calls)
    case Detaches(id) =>
      && t.trafficDetached && CheckpointId(t) == CheckpointId(s) && t.captured == s.captured
      && Serial.Successes(t.calls) == Serial.Successes(s.calls) + [Detached(id)]
    case Reopens(restored) =>
      && !t.trafficDetached && CheckpointId(t) == None && t.captured == s.captured
      && Serial.Successes(t.calls)
         == Serial.Successes(s.calls) + (if restored.Some? then [Restored(restored.value)] else [])
      && (restored.None? ==> !s.trafficDetached)
  }

  lemma SuccessesSnoc(calls: seq<AdapterCall>, call: AdapterCall)
    ensures Serial.Successes(calls + [call])
            == Serial.Successes(calls) + if call.Detached? || call.Restored? then [call] else []
  {
    assert (calls + [call])[..|calls|] == calls;
  }

  lemma NoMore(calls: seq<AdapterCall>)
    ensures Serial.Successes(calls) + [] == Serial.Successes(calls)
  {}

  lemma EndCheckpointExplained(s: System, op: nat, snapshot: Snapshot, id: string)
    ensures Explains(s, Step(s, EndCheckpoint(op, snapshot, id)).0, EffectOf(s, EndCheckpoint(op, snapshot, id)))
  {}

  lemma BeginDetachExplained(s: System, op: nat, cg: int, gg: Option<int>, id: string, token: string, routeNow: bool)
    ensures Explains(s, BeginDetachStep(s, op, cg, gg, id, token, routeNow).0, Nothing)
  {
    var (t, r) := BeginDetachStep(s, op, cg, gg, id, token, routeNow);
    if r.Suspended? {
      TriedExplained(s, s.pending[op := Detaching(id)], DetachTried(id));
    } else {
      RefreshExplained(s, routeNow);
      assert t == s || t == Refresh(s, routeNow);
    }
  }

  lemma TriedExplained(s: System, pending: map<nat, Frame>, call: AdapterCall)
    requires call.DetachTried? || call.RestoreTried?
    ensures Explains(s, s.(pending := pending, calls := s.calls + [call]), Nothing)
  {
    SuccessesSnoc(s.calls, call);
  }

  lemma RefreshExplained(s: System, routeNow: bool)
    ensures Explains(s, s, Nothing) && Explains(s, Refresh(s, routeNow), Nothing)
  {}

  lemma EndDetachExplained(s: System, op: nat, succeeded: bool, routeNow: bool)
    ensures Explains(s, Step(s, EndDetach(op, succeeded, routeNow)).0, EffectOf(s, EndDetach(op, succeeded, routeNow)))
  {
    if op in s.pending && s.pending[op].Detaching? { SuccessesSnoc(s.calls, Detached(s.pending[op].checkpointId)); }
  }

  lemma ResumeWritesExplained(s: System, restored: Option<string>, routeNow: bool)
    requires restored.None? ==> !s.trafficDetached
    ensures var added := if restored.Some? then [Restored(restored.value)] else [];
            Explains(s, Resumed(s.(calls := s.calls + added), routeNow).0, Reopens(restored))
  {
    if restored.Some? {
      SuccessesSnoc(s.calls, Restored(restored.value));
    } else {
      NoMore(s.calls);
      assert s.calls + [] == s.calls;
    }
  }

  lemma Unmoved(s: System, t: System, u: System, effect: Effect)
    requires Explains(t, u, effect)
    requires t.checkpoint == s.checkpoint && t.trafficDetached == s.trafficDetached
    requires t.captured == s.captured && t.calls == s.calls
    ensures Explains(s, u, effect)
  {}

  lemma BeginResumeExplained(s: System, op: nat, cg: int, gg: Option<int>, routeNow: bool)
    ensures var (t, r) := BeginResumeStep(s, op, cg, gg, routeNow);
            Explains(s, t, if r.Observed? then Reopens(None) else Nothing)
  {
    var started := if s.gateway.None? then s else s.(gateway := Some(Resume(s.gateway.value)));
    if Guard(s, cg, true, gg).None? {
      if !s.trafficDetached {
        ResumeWritesExplained(started, None, routeNow);
        assert started.calls + [] == started.calls;
        Unmoved(s, started, Resumed(started, routeNow).0, Reopens(None));
      } else if s.checkpoint.Some? {
        SuccessesSnoc(s.calls, RestoreTried(s.checkpoint.value.id, s.checkpoint.value.externalRouteDesired));
      }
    }
  }

  lemma EndResumeExplained(s: System, op: nat, succeeded: bool, routeNow: bool)
    ensures var (t, r) := EndResumeStep(s, op, succeeded, routeNow);
            Explains(s, t, if r.Observed? && op in s.pending && s.pending[op].Resuming?
                           then Reopens(Some(s.pending[op].checkpointId)) else Nothing)
  {
    if op in s.pending && s.pending[op].Resuming? && succeeded {
      var id, left := s.pending[op].checkpointId, s.(pending := s.pending - {op});
      ResumeWritesExplained(left, Some(id), routeNow);
      Unmoved(s, left, Resumed(left.(calls := s.calls + [Restored(id)]), routeNow).0, Reopens(Some(id)));
    }
  }

  lemma OrdinaryExplained(s: System, e: Event)
    requires e.AdmitControl? || e.ReleaseControl? || e.ControlTimer? || e.AtGateway? || e.ReadStatus?
    ensures Explains(s, Step(s, e).0, Nothing)
  {}

  lemma QuiesceExplained(s: System, routeNow: bool)
    ensures Explains(s, QuiesceStep(s, routeNow).0, Nothing)
  {
    var closed := QuiesceGateway(s.(control := Quiesce(s.control)));
    assert Explains(s, closed, Nothing) && Explains(s, Observe(closed, routeNow).0, Nothing);
  }

  lemma BeginDrainExplained(s: System, op: nat, cg: int, gg: Option<int>, timeoutMs: int)
    ensures Explains(s, BeginDrainStep(s, op, cg, gg, timeoutMs).0, Nothing)
  {}

  lemma BeginCheckpointExplained(s: System, op: nat, cg: int, gg: Option<int>, token: string, routeNow: bool)
    ensures Explains(s, BeginCheckpointStep(s, op, cg, gg, token, routeNow).0, Nothing)
  {}

  lemma DrainOrPromoteExplained(s: System, e: Event)
    requires e.EndDrain? || e.BeginPromote? || e.EndPromote?
    ensures Explains(s, Step(s, e).0, Nothing)
  {}

  lemma StepExplained(s: System, e: Event)
    ensures Explains(s, Step(s, e).0, EffectOf(s, e))
  {
    match e
    case EndCheckpoint(op, snapshot, id) => EndCheckpointExplained(s, op, snapshot, id);
    case BeginDetach(op, cg, gg, id, token, routeNow) =>
      if op !in s.pending { BeginDetachExplained(s, op, cg, gg, id, token, routeNow); }
    case EndDetach(op, succeeded, routeNow) => EndDetachExplained(s, op, succeeded, routeNow);
    case BeginResume(op, cg, gg, routeNow) => if op !in s.pending { BeginResumeExplained(s, op, cg, gg, routeNow); }
    case EndResume(op, succeeded, routeNow) => EndResumeExplained(s, op, succeeded, routeNow);
    case BeginQuiesce(routeNow) => QuiesceExplained(s, routeNow);
    case BeginDrain(op, cg, gg, t) => if op !in s.pending { BeginDrainExplained(s, op, cg, gg, t); }
    case BeginCheckpoint(op, cg, gg, token, routeNow) =>
      if op !in s.pending { BeginCheckpointExplained(s, op, cg, gg, token, routeNow); }
    case EndDrain(_) => DrainOrPromoteExplained(s, e);
    case BeginPromote(_, _, _, _) => DrainOrPromoteExplained(s, e);
    case EndPromote(_, _, _) => DrainOrPromoteExplained(s, e);
    case _ => OrdinaryExplained(s, e);
  }

  // --- what every run keeps, whatever overlaps ---

  /** The checkpoint the adapter last detached and has not restored, read off the successful calls. */
  function HeldOf(successes: seq<AdapterCall>): Option<string> {
    if successes != [] && successes[|successes| - 1].Detached? then Some(successes[|successes| - 1].id) else None
  }

  function HeldIn(s: System): Option<string> { Serial.Held(s.calls) }

  lemma {:induction false} HeldBySuccesses(calls: seq<AdapterCall>)
    ensures Serial.Held(calls) == HeldOf(Serial.Successes(calls))
  {
    if calls != [] { HeldBySuccesses(calls[..|calls| - 1]); }
  }

  predicate KnownFrame(f: Frame, captured: set<string>) {
    && (f.Detaching? ==> f.checkpointId in captured)
    && (f.Resuming? ==> f.checkpointId in captured)
  }

  /** Every checkpoint named anywhere was captured, and the adapter holds one exactly while traffic is detached. */
  ghost predicate Tied(s: System) {
    && (CheckpointId(s).Some? ==> CheckpointId(s).value in s.captured)
    && (HeldIn(s).Some? ==> HeldIn(s).value in s.captured)
    && (HeldIn(s).Some? <==> s.trafficDetached)
    && forall op :: op in s.pending ==> KnownFrame(s.pending[op], s.captured.Keys)
  }

  lemma InitialTied(role: Role, token: Option<string>, hasGateway: bool, routeNow: bool)
    ensures Tied(Initial(role, token, hasGateway, routeNow))
  {}

  /** The frame an operation may have suspended under this name. */
  predicate KnownAt(s: System, t: System, op: nat) {
    op in t.pending ==> KnownFrame(t.pending[op], s.captured.Keys)
  }

  lemma DetachFrameKnown(s: System, op: nat, cg: int, gg: Option<int>, id: string, token: string, routeNow: bool)
    requires Tied(s) && op !in s.pending
    ensures KnownAt(s, BeginDetachStep(s, op, cg, gg, id, token, routeNow).0, op)
  {}

  lemma ResumeFrameKnown(s: System, op: nat, cg: int, gg: Option<int>, routeNow: bool)
    requires Tied(s) && op !in s.pending
    ensures KnownAt(s, BeginResumeStep(s, op, cg, gg, routeNow).0, op)
  {}

  lemma OtherFrameKnown(s: System, e: Event)
    requires Tied(s) && (e.BeginDrain? || e.BeginCheckpoint? || e.BeginPromote?)
    ensures KnownAt(s, Step(s, e).0, e.op)
  {}

  lemma KnownAtBegin(s: System, e: Event)
    requires Tied(s)
    requires e.BeginDrain? || e.BeginCheckpoint? || e.BeginDetach? || e.BeginResume? || e.BeginPromote?
    ensures KnownAt(s, Step(s, e).0, e.op)
  {
    match e
    case BeginDetach(op, cg, gg, id, token, r) => if op !in s.pending { DetachFrameKnown(s, op, cg, gg, id, token, r); }
    case BeginResume(op, cg, gg, r) => if op !in s.pending { ResumeFrameKnown(s, op, cg, gg, r); }
    case _ => OtherFrameKnown(s, e);
  }

  lemma FramesKnown(s: System, e: Event, op: nat)
    requires Tied(s) && op in Step(s, e).0.pending
    ensures KnownFrame(Step(s, e).0.pending[op], s.captured.Keys)
  {
    if e.EndDrain? || e.EndCheckpoint? || e.EndDetach? || e.EndResume? || e.EndPromote? {
      Runs.EndMoves(s, e, e.op);
    } else if e.BeginDrain? || e.BeginCheckpoint? || e.BeginDetach? || e.BeginResume? || e.BeginPromote? {
      Runs.BeginMoves(s, e, e.op);
      if op == e.op { KnownAtBegin(s, e); }
    } else {
      OrdinaryFrames(s, e);
    }
  }

  lemma OrdinaryFrames(s: System, e: Event)
    requires e.AdmitControl? || e.ReleaseControl? || e.ControlTimer? || e.AtGateway? || e.ReadStatus? || e.BeginQuiesce?
    ensures Step(s, e).0.pending == s.pending
  {}

  /** What one effect does to the checkpoint named, held and captured. */
  lemma EffectTied(s: System, t: System, effect: Effect)
    requires Tied(s) && Explains(s, t, effect)
    requires effect.Detaches? ==> effect.id in s.captured
    ensures s.captured.Keys <= t.captured.Keys
    ensures CheckpointId(t).Some? ==> CheckpointId(t).value in t.captured
    ensures HeldIn(t).Some? ==> HeldIn(t).value in t.captured
    ensures HeldIn(t).Some? <==> t.trafficDetached
  {
    NoMore(s.calls);
    HeldBySuccesses(s.calls);
    HeldBySuccesses(t.calls);
  }

  lemma KnownGrows(f: Frame, captured: set<string>, more: set<string>)
    requires KnownFrame(f, captured) && captured <= more
    ensures KnownFrame(f, more)
  {}

  lemma StepTied(s: System, e: Event)
    requires Tied(s)
    ensures Tied(Step(s, e).0) && s.captured.Keys <= Step(s, e).0.captured.Keys
  {
    StepExplained(s, e);
    var t := Step(s, e).0;
    EffectTied(s, t, EffectOf(s, e));
    forall op | op in t.pending ensures KnownFrame(t.pending[op], t.captured.Keys) {
      FramesKnown(s, e, op);
      KnownGrows(t.pending[op], s.captured.Keys, t.captured.Keys);
    }
  }

  lemma {:induction false} RunTied(s: System, es: seq<Event>)
    requires Tied(s)
    ensures Tied(After(s, es)) && s.captured.Keys <= After(s, es).captured.Keys
  {
    if es != [] {
      RunTied(s, es[..|es| - 1]);
      StepTied(After(s, es[..|es| - 1]), es[|es| - 1]);
    }
  }

  // --- detached traffic and its checkpoint ---

  /** Traffic that is detached has its own checkpoint stored. */
  predicate Pinned(s: System) {
    s.trafficDetached ==> CheckpointId(s).Some? && HeldIn(s) == CheckpointId(s)
  }

  /** A checkpoint finishes while traffic is detached, or a detachment finishes after its checkpoint went. */
  predicate Unpins(s: System, e: Event) {
    match EffectOf(s, e)
    case Captures(_) => s.trafficDetached
    case Detaches(id) => CheckpointId(s) != Some(id)
    case _ => false
  }

  lemma UnpinnedExactly(s: System, e: Event)
    requires Tied(s) && Pinned(s)
    ensures Pinned(Step(s, e).0) <==> !Unpins(s, e)
  {
    StepExplained(s, e);
    HeldBySuccesses(s.calls);
    HeldBySuccesses(Step(s, e).0.calls);
  }

  function LeavesPinned(s: System): (seq<Event>, Event) -> bool {
    (before, e) => !Unpins(After(s, before), e)
  }

  /** Pinned at every moment of the run. */
  predicate PinnedThroughout(s: System, es: seq<Event>) {
    Pinned(After(s, es)) && (es != [] ==> PinnedThroughout(s, es[..|es| - 1]))
  }

  lemma {:induction false} PinnedAt(s: System, es: seq<Event>)
    ensures PinnedThroughout(s, es) <==> forall i :: 0 <= i <= |es| ==> Pinned(After(s, es[..i]))
  {
    assert es[..|es|] == es;
    if es != [] {
      var front := es[..|es| - 1];
      PinnedAt(s, front);
      assert forall i :: 0 <= i <= |front| ==> front[..i] == es[..i];
    }
  }

  lemma {:induction false} PinnedWhile(
    role: Role, token: Option<string>, hasGateway: bool, routeNow: bool, es: seq<Event>)
    ensures var s := Initial(role, token, hasGateway, routeNow);
            PinnedThroughout(s, es) <==> Everywhere(es, LeavesPinned(s))
  {
    var s := Initial(role, token, hasGateway, routeNow);
    if es != [] {
      var front := es[..|es| - 1];
      PinnedWhile(role, token, hasGateway, routeNow, front);
      InitialTied(role, token, hasGateway, routeNow);
      RunTied(s, front);
      EverywhereLast(es, LeavesPinned(s));
      if PinnedThroughout(s, front) { UnpinnedExactly(After(s, front), es[|es| - 1]); }
    }
  }

  /**
   Over every run, overlapping in any way: detached traffic has its own checkpoint stored at every moment if
   and only if no checkpoint ever finishes while traffic is detached and every detachment finishes while the
   checkpoint it names is still the stored one.
   */
  lemma PinnedExactly(role: Role, token: Option<string>, hasGateway: bool, routeNow: bool, es: seq<Event>)
    ensures var s := Initial(role, token, hasGateway, routeNow);
            (forall i :: 0 <= i <= |es| ==> Pinned(After(s, es[..i]))) <==> Everywhere(es, LeavesPinned(s))
  {
    PinnedWhile(role, token, hasGateway, routeNow, es);
    PinnedAt(Initial(role, token, hasGateway, routeNow), es);
  }

  // --- the adapter trace ---

  /** A route call succeeds out of turn: a second detachment, or a restoration of what is not held. */
  predicate OutOfTurn(s: System, e: Event) {
    match EffectOf(s, e)
    case Detaches(_) => s.trafficDetached
    case Reopens(Some(id)) => HeldIn(s) != Some(id)
    case _ => false
  }

  function NewSuccess(s: System, e: Event): seq<AdapterCall> {
    match EffectOf(s, e)
    case Detaches(id) => [Detached(id)]
    case Reopens(Some(id)) => [Restored(id)]
    case _ => []
  }

  predicate InTurn(before: seq<AdapterCall>, call: AdapterCall) {
    match call
    case Detached(_) => HeldOf(before) == None
    case Restored(id) => HeldOf(before) == Some(id)
    case _ => false
  }

  lemma AlternatesSnoc(before: seq<AdapterCall>, call: AdapterCall)
    requires call.Detached? || call.Restored?
    ensures Serial.Alternates(before + [call]) <==> Serial.Alternates(before) && InTurn(before, call)
  {
    var calls := before + [call];
    assert forall i :: 0 <= i < |before| ==> calls[i] == before[i];
    assert calls[|before|] == call;
    if Serial.Alternates(calls) {
      assert forall i :: 0 <= i < |before| ==>
               (before[i].Detached? <==> i % 2 == 0) && (before[i].Restored? <==> i % 2 == 1);
    }
  }

  lemma TraceGrows(s: System, e: Event)
    requires Tied(s)
    ensures Serial.Successes(Step(s, e).0.calls) == Serial.Successes(s.calls) + NewSuccess(s, e)
    ensures NewSuccess(s, e) != [] ==>
              |NewSuccess(s, e)| == 1 && (NewSuccess(s, e)[0].Detached? || NewSuccess(s, e)[0].Restored?)
              && (InTurn(Serial.Successes(s.calls), NewSuccess(s, e)[0]) <==> !OutOfTurn(s, e))
    ensures NewSuccess(s, e) == [] ==> !OutOfTurn(s, e)
  {
    StepExplained(s, e);
    NoMore(s.calls);
    HeldBySuccesses(s.calls);
  }

  /** The condition on a run from `s`, at one of its events. */
  function TakenInTurn(s: System): (seq<Event>, Event) -> bool {
    (before, e) => !OutOfTurn(After(s, before), e)
  }

  lemma StaysAlternating(s: System, e: Event)
    requires Tied(s)
    ensures Serial.Alternates(Serial.Successes(Step(s, e).0.calls))
            <==> Serial.Alternates(Serial.Successes(s.calls)) && !OutOfTurn(s, e)
  {
    TraceGrows(s, e);
    var before, added := Serial.Successes(s.calls), NewSuccess(s, e);
    if added == [] {
      assert before + added == before;
    } else {
      AlternatesSnoc(before, added[0]);
      assert added == [added[0]];
    }
  }

  /**
   Over every run, overlapping in any way: the successful route calls alternate, each restoration answering
   the detachment before it, if and only if no detachment finishes while traffic is detached already and no
   restoration finishes for a checkpoint other than the one detached last and not restored.
   */
  lemma {:induction false} AlternatesExactly(
    role: Role, token: Option<string>, hasGateway: bool, routeNow: bool, es: seq<Event>)
    ensures var s := Initial(role, token, hasGateway, routeNow);
            Serial.Alternates(Serial.Successes(After(s, es).calls)) <==> Everywhere(es, TakenInTurn(s))
  {
    var s := Initial(role, token, hasGateway, routeNow);
    if es != [] {
      var front := es[..|es| - 1];
      AlternatesExactly(role, token, hasGateway, routeNow, front);
      InitialTied(role, token, hasGateway, routeNow);
      RunTied(s, front);
      StaysAlternating(After(s, front), es[|es| - 1]);
      EverywhereLast(es, TakenInTurn(s));
    }
  }

  // --- while one operation is suspended ---

  /** The event that finishes this suspended operation. */
  predicate Ends(f: Frame, e: Event, op: nat) {
    || (f.Draining? && e == EndDrain(op))
    || (f.Checkpointing? && e.EndCheckpoint? && e.op == op)
    || (f.Detaching? && e.EndDetach? && e.op == op)
    || (f.Resuming? && e.EndResume? && e.op == op)
    || (f.Promoting? && e.EndPromote? && e.op == op)
  }

  lemma OtherEndIgnored(s: System, e: Event)
    requires e.EndDrain? || e.EndCheckpoint? || e.EndDetach? || e.EndResume? || e.EndPromote?
    requires e.op in s.pending && !Ends(s.pending[e.op], e, e.op)
    ensures Step(s, e) == (s, Ignored)
  {}

  lemma FrameStays(s: System, e: Event, op: nat)
    requires op in s.pending && !Ends(s.pending[op], e, op)
    ensures op in Step(s, e).0.pending && Step(s, e).0.pending[op] == s.pending[op]
  {
    if e.EndDrain? || e.EndCheckpoint? || e.EndDetach? || e.EndResume? || e.EndPromote? {
      Runs.EndMoves(s, e, e.op);
      if e.op == op { OtherEndIgnored(s, e); }
    } else if e.BeginDrain? || e.BeginCheckpoint? || e.BeginDetach? || e.BeginResume? || e.BeginPromote? {
      Runs.BeginMoves(s, e, e.op);
    } else {
      OrdinaryFrames(s, e);
    }
  }

  /** No event of the window finishes the operation. */
  predicate Waits(f: Frame, es: seq<Event>, op: nat) { forall e :: e in es ==> !Ends(f, e, op) }

  lemma {:induction false} FrameWaits(s: System, es: seq<Event>, op: nat)
    requires op in s.pending && Waits(s.pending[op], es, op)
    ensures op in After(s, es).pending && After(s, es).pending[op] == s.pending[op]
  {
    if es != [] {
      var front := es[..|es| - 1];
      assert forall e :: e in front ==> e in es;
      FrameWaits(s, front, op);
      assert es[|es| - 1] in es;
      FrameStays(After(s, front), es[|es| - 1], op);
    }
  }

  /** The last event of the window that stored or dropped the checkpoint, if any did. */
  function LastReplacement(s: System, es: seq<Event>): Effect {
    if es == [] then Nothing
    else
      var last := EffectOf(After(s, es[..|es| - 1]), es[|es| - 1]);
      if last.Captures? || last.Reopens? then last else LastReplacement(s, es[..|es| - 1])
  }

  predicate Replaces(s: System, e: Event) { EffectOf(s, e).Captures? || EffectOf(s, e).Reopens? }

  lemma {:induction false} ReplacementSince(s: System, es: seq<Event>)
    requires Tied(s)
    ensures CheckpointId(After(s, es)) == match LastReplacement(s, es)
                                          case Captures(id) => Some(id)
                                          case Reopens(_) => None
                                          case _ => CheckpointId(s)
    ensures LastReplacement(s, es).Captures? ==> LastReplacement(s, es).id !in s.captured
  {
    if es != [] {
      var front := es[..|es| - 1];
      ReplacementSince(s, front);
      RunTied(s, front);
      StepExplained(After(s, front), es[|es| - 1]);
    }
  }

  function Keeps(s: System): (seq<Event>, Event) -> bool {
    (before, e) => !Replaces(After(s, before), e)
  }

  /** No event of the window stores or drops the checkpoint. */
  predicate NoneReplaces(s: System, es: seq<Event>) { Everywhere(es, Keeps(s)) }

  lemma {:induction false} NoneReplaced(s: System, es: seq<Event>)
    ensures NoneReplaces(s, es) <==> LastReplacement(s, es) == Nothing
    ensures LastReplacement(s, es) == Nothing || LastReplacement(s, es).Captures? || LastReplacement(s, es).Reopens?
  {
    if es != [] {
      NoneReplaced(s, es[..|es| - 1]);
      EverywhereLast(es, Keeps(s));
    }
  }

  lemma DetachFinishes(s: System, op: nat, id: string, routeNow: bool)
    requires Tied(s) && op in s.pending && s.pending[op] == Detaching(id)
    ensures var t := Step(s, EndDetach(op, true, routeNow)).0;
            t.trafficDetached && HeldIn(t) == Some(id) && CheckpointId(t) == CheckpointId(s)
    ensures EffectOf(s, EndDetach(op, true, routeNow)) == Detaches(id)
  {
    StepExplained(s, EndDetach(op, true, routeNow));
    HeldBySuccesses(Step(s, EndDetach(op, true, routeNow)).0.calls);
  }

  /**
   A detachment of the stored checkpoint is suspended while a run goes on, and then succeeds.  The checkpoint
   it named is still the stored one if and only if no checkpoint finished and no resume reached its writes
   meanwhile; and none is stored at all, so that no resume can restore the traffic, if and only if the last
   such event was a resume.
   */
  lemma DetachKeepsCheckpoint(s: System, op: nat, id: string, es: seq<Event>, routeNow: bool)
    requires Tied(s) && op in s.pending && s.pending[op] == Detaching(id) && CheckpointId(s) == Some(id)
    requires Waits(Detaching(id), es, op)
    ensures var t := Step(After(s, es), EndDetach(op, true, routeNow)).0;
            && t.trafficDetached && HeldIn(t) == Some(id)
            && (CheckpointId(t) == Some(id) <==> NoneReplaces(s, es))
            && (CheckpointId(t) == None <==> LastReplacement(s, es).Reopens?)
  {
    FrameWaits(s, es, op);
    RunTied(s, es);
    ReplacementSince(s, es);
    NoneReplaced(s, es);
    DetachFinishes(After(s, es), op, id, routeNow);
  }

  /** The last event of the window that detached or restored the traffic, if any did. */
  function LastMove(s: System, es: seq<Event>): Effect {
    if es == [] then Nothing
    else
      var last := EffectOf(After(s, es[..|es| - 1]), es[|es| - 1]);
      if last.Detaches? || last.Reopens? then last else LastMove(s, es[..|es| - 1])
  }

  lemma {:induction false} MoveSince(s: System, es: seq<Event>)
    requires Tied(s)
    ensures After(s, es).trafficDetached == match LastMove(s, es)
                                            case Detaches(_) => true
                                            case Reopens(_) => false
                                            case _ => s.trafficDetached
  {
    if es != [] {
      MoveSince(s, es[..|es| - 1]);
      StepExplained(After(s, es[..|es| - 1]), es[|es| - 1]);
    }
  }

  /**
   A detachment is suspended with traffic attached while a run goes on, and then succeeds.  If the successful
   calls alternated until then, they still do if and only if the last detachment or resume to finish
   meanwhile was not a detachment.
   */
  lemma SecondDetach(s: System, op: nat, id: string, es: seq<Event>, routeNow: bool)
    requires Tied(s) && op in s.pending && s.pending[op] == Detaching(id) && !s.trafficDetached
    requires Waits(Detaching(id), es, op)
    requires Serial.Alternates(Serial.Successes(After(s, es).calls))
    ensures Serial.Alternates(Serial.Successes(Step(After(s, es), EndDetach(op, true, routeNow)).0.calls))
            <==> !LastMove(s, es).Detaches?
  {
    var mid, e := After(s, es), EndDetach(op, true, routeNow);
    FrameWaits(s, es, op);
    MoveSince(s, es);
    RunTied(s, es);
    DetachFinishes(mid, op, id, routeNow);
    TraceGrows(mid, e);
    AlternatesSnoc(Serial.Successes(mid.calls), Detached(id));
    assert NewSuccess(mid, e) == [Detached(id)];
  }

  // --- inputs on which the conditions fail ---

  /** Two detachments of the stored checkpoint are suspended together, and both finish. */
  function TwoDetachmentsRun(): seq<Event> {
    Serial.CheckpointRun()
    + ([BeginDetach(1, 1, None, "c", Serial.SomeToken(), true), BeginDetach(2, 1, None, "c", Serial.SomeToken(), true)]
       + [EndDetach(1, true, true), EndDetach(2, true, true)])
  }

  lemma AfterPairs(s: System, p: Event, q: Event, r: Event, t: Event)
    ensures After(s, [p, q] + [r, t]) == Step(Step(Step(Step(s, p).0, q).0, r).0, t).0
  {
    assert [p, q] + [r, t] == [p, q, r] + [t];
    AfterOneMore(s, [p, q, r], t);
    Serial.AfterThree(s, p, q, r);
  }

  lemma TwoDetachmentsSuspended()
    ensures var a := Step(Serial.CHECKPOINTED_HOST, BeginDetach(1, 1, None, "c", Serial.SomeToken(), true)).0;
            Step(a, BeginDetach(2, 1, None, "c", Serial.SomeToken(), true)).0
            == Serial.CHECKPOINTED_HOST.(pending := map[1 := Detaching("c"), 2 := Detaching("c")],
                                         calls := [DetachTried("c"), DetachTried("c")])
  {
    var a := Step(Serial.CHECKPOINTED_HOST, BeginDetach(1, 1, None, "c", Serial.SomeToken(), true)).0;
    assert a.pending == map[1 := Detaching("c")] && a.calls == [DetachTried("c")];
    assert a.calls + [DetachTried("c")] == [DetachTried("c"), DetachTried("c")];
    assert a.pending[2 := Detaching("c")] == map[1 := Detaching("c"), 2 := Detaching("c")];
  }

  /** After it the route calls that succeeded are two detachments in a row. */
  lemma TwoDetachments()
    ensures var t := After(Serial.ACTIVE_HOST, TwoDetachmentsRun());
            Serial.Successes(t.calls) == [Detached("c"), Detached("c")] && !Serial.Alternates(Serial.Successes(t.calls))
  {
    var token := Serial.SomeToken();
    var p, q := BeginDetach(1, 1, None, "c", token, true), BeginDetach(2, 1, None, "c", token, true);
    var first, second := EndDetach(1, true, true), EndDetach(2, true, true);
    AfterBoth(Serial.ACTIVE_HOST, Serial.CheckpointRun(), [p, q] + [first, second]);
    Serial.CheckpointedByRun();
    AfterPairs(Serial.CHECKPOINTED_HOST, p, q, first, second);
    TwoDetachmentsSuspended();
    BothDetach(Step(Step(Serial.CHECKPOINTED_HOST, p).0, q).0);
  }

  lemma BothDetach(s: System)
    requires s.pending == map[1 := Detaching("c"), 2 := Detaching("c")]
    requires s.calls == [DetachTried("c"), DetachTried("c")]
    ensures var t := Step(Step(s, EndDetach(1, true, true)).0, EndDetach(2, true, true)).0;
            Serial.Successes(t.calls) == [Detached("c"), Detached("c")] && !Serial.Alternates(Serial.Successes(t.calls))
  {
    var once := Step(s, EndDetach(1, true, true)).0;
    assert 2 in once.pending && once.pending[2] == Detaching("c");
    SuccessesSnoc([], DetachTried("c"));
    SuccessesSnoc([DetachTried("c")], DetachTried("c"));
    assert [] + [DetachTried("c")] == [DetachTried("c")];
    assert [DetachTried("c")] + [DetachTried("c")] == s.calls;
    assert Serial.Successes(s.calls) == [];
    SuccessesSnoc(s.calls, Detached("c"));
    SuccessesSnoc(once.calls, Detached("c"));
    var both := [Detached("c"), Detached("c")];
    assert both[1].Detached?;
  }

  /** A checkpoint is suspended while the stored one is detached, and then finishes. */
  function LateCheckpointRun(): seq<Event> {
    Serial.CheckpointRun()
    + ([BeginCheckpoint(1, 1, None, Serial.SomeToken(), true), BeginDetach(2, 1, None, "c", Serial.SomeToken(), true)]
       + [EndDetach(2, true, true), EndCheckpoint(1, Taken(0), "d")])
  }

  /** After it traffic is detached under checkpoint "c", and checkpoint "d" is the one stored. */
  lemma LateCheckpoint()
    ensures var t := After(Serial.ACTIVE_HOST, LateCheckpointRun());
            t.trafficDetached && HeldIn(t) == Some("c") && CheckpointId(t) == Some("d") && !Pinned(t)
  {
    var token := Serial.SomeToken();
    var p, q := BeginCheckpoint(1, 1, None, token, true), BeginDetach(2, 1, None, "c", token, true);
    var r, t := EndDetach(2, true, true), EndCheckpoint(1, Taken(0), "d");
    AfterBoth(Serial.ACTIVE_HOST, Serial.CheckpointRun(), [p, q] + [r, t]);
    Serial.CheckpointedByRun();
    AfterPairs(Serial.CHECKPOINTED_HOST, p, q, r, t);
    CheckpointAndDetachSuspended();
    CheckpointLast(Step(Step(Serial.CHECKPOINTED_HOST, p).0, q).0, token);
  }

  lemma CheckpointAndDetachSuspended()
    ensures var token := Serial.SomeToken();
            var a := Step(Serial.CHECKPOINTED_HOST, BeginCheckpoint(1, 1, None, token, true)).0;
            Step(a, BeginDetach(2, 1, None, "c", token, true)).0
            == Serial.CHECKPOINTED_HOST.(pending := map[1 := Checkpointing(token, true), 2 := Detaching("c")],
                                         calls := [DetachTried("c")])
  {
    var token := Serial.SomeToken();
    var a := Step(Serial.CHECKPOINTED_HOST, BeginCheckpoint(1, 1, None, token, true)).0;
    assert a.pending == map[1 := Checkpointing(token, true)];
    assert a.pending[2 := Detaching("c")] == map[1 := Checkpointing(token, true), 2 := Detaching("c")];
  }

  lemma CheckpointLast(s: System, token: string)
    requires s == Serial.CHECKPOINTED_HOST.(pending := map[1 := Checkpointing(token, true), 2 := Detaching("c")],
                                            calls := [DetachTried("c")])
    ensures var t := Step(Step(s, EndDetach(2, true, true)).0, EndCheckpoint(1, Taken(0), "d")).0;
            t.trafficDetached && HeldIn(t) == Some("c") && CheckpointId(t) == Some("d")
  {
    var once := Step(s, EndDetach(2, true, true)).0;
    assert 1 in once.pending && once.pending[1] == Checkpointing(token, true);
    assert once.calls == [DetachTried("c")] + [Detached("c")];
    SuccessesSnoc(s.calls, Detached("c"));
    HeldBySuccesses(once.calls);
  }

  // --- stranded traffic ---

  /** Detached without a checkpoint, and no suspended operation that could still store one or restore the traffic. */
  predicate Stranded(s: System) {
    && s.trafficDetached && s.checkpoint.None?
    && forall op :: op in s.pending ==> !s.pending[op].Checkpointing? && !s.pending[op].Resuming?
  }

  lemma BegunStranded(s: System, e: Event)
    requires Stranded(s)
    requires e.BeginDrain? || e.BeginCheckpoint? || e.BeginDetach? || e.BeginResume? || e.BeginPromote?
    ensures var t := Step(s, e).0;
            e.op in t.pending ==> !t.pending[e.op].Checkpointing? && !t.pending[e.op].Resuming?
    ensures e.BeginResume? ==> !Step(s, e).1.Observed?
  {}

  lemma StrandedStep(s: System, e: Event)
    requires Stranded(s)
    ensures Stranded(Step(s, e).0)
  {
    StepExplained(s, e);
    var t := Step(s, e).0;
    if e.EndDrain? || e.EndCheckpoint? || e.EndDetach? || e.EndResume? || e.EndPromote? {
      Runs.EndMoves(s, e, e.op);
    } else if e.BeginDrain? || e.BeginCheckpoint? || e.BeginDetach? || e.BeginResume? || e.BeginPromote? {
      Runs.BeginMoves(s, e, e.op);
      BegunStranded(s, e);
    } else {
      OrdinaryFrames(s, e);
    }
  }

  /** Stranded traffic stays stranded on every run: no sequence of requests restores it. */
  lemma {:induction false} StrandedForGood(s: System, es: seq<Event>)
    requires Stranded(s)
    ensures Stranded(After(s, es))
  {
    if es != [] {
      StrandedForGood(s, es[..|es| - 1]);
      StrandedStep(After(s, es[..|es| - 1]), es[|es| - 1]);
    }
  }

  /** So is the traffic after the overlapping detachment, whatever follows. */
  lemma OverlapStrandsForGood(es: seq<Event>)
    ensures Stranded(After(Serial.ACTIVE_HOST, Serial.OverlappingDetachRun() + es))
  {
    Serial.OverlappingDetachStrands();
    AfterBoth(Serial.ACTIVE_HOST, Serial.OverlappingDetachRun(), es);
    StrandedForGood(After(Serial.ACTIVE_HOST, Serial.OverlappingDetachRun()), es);
  }

  // --- the route intent of a checkpoint ---

  /** What an event writes to the route intent, if it writes it. */
  function Writes(s: System, e: Event): Option<bool> {
    var unpinned := s.promoted && !s.trafficDetached && s.checkpoint.None?;
    match e
    case ReadStatus(routeNow) => if unpinned then Some(routeNow) else None
    case BeginQuiesce(routeNow) => if Authoritative(s) && unpinned then Some(routeNow) else None
    case BeginCheckpoint(_, _, _, _, routeNow) => if Step(s, e).1.Suspended? then Some(routeNow) else None
    case BeginResume(_, _, _, routeNow) => if Step(s, e).1.Observed? then Some(routeNow) else None
    case EndResume(_, _, routeNow) => if Step(s, e).1.Observed? && s.promoted then Some(routeNow) else None
    case EndPromote(op, _, routeNow) =>
      if Step(s, e).1.Observed? && op in s.pending && s.pending[op].Promoting? then
        Some(if !s.trafficDetached && s.checkpoint.None? then routeNow else s.pending[op].externalRouteDesired)
      else None
    case _ => None
  }

  function LastWrite(s: System, es: seq<Event>): Option<bool> {
    if es == [] then None
    else
      var last := Writes(After(s, es[..|es| - 1]), es[|es| - 1]);
      if last.Some? then last else LastWrite(s, es[..|es| - 1])
  }

  lemma RequestWrites(s: System, e: Event)
    requires e.ReadStatus? || e.BeginQuiesce? || e.BeginCheckpoint? || e.EndCheckpoint?
    ensures Step(s, e).0.externalRouteDesired
            == (if Writes(s, e).Some? then Writes(s, e).value else s.externalRouteDesired)
  {}

  lemma RouteWrites(s: System, e: Event)
    requires e.BeginDetach? || e.EndDetach? || e.BeginPromote? || e.EndPromote?
    ensures Step(s, e).0.externalRouteDesired
            == (if Writes(s, e).Some? then Writes(s, e).value else s.externalRouteDesired)
  {}

  lemma BeginResumeWrites(s: System, op: nat, cg: int, gg: Option<int>, routeNow: bool)
    ensures var (t, r) := BeginResumeStep(s, op, cg, gg, routeNow);
            t.externalRouteDesired == if r.Observed? then routeNow else s.externalRouteDesired
  {}

  lemma EndResumeWrites(s: System, op: nat, succeeded: bool, routeNow: bool)
    ensures var (t, r) := EndResumeStep(s, op, succeeded, routeNow);
            t.externalRouteDesired == if r.Observed? && s.promoted then routeNow else s.externalRouteDesired
  {}

  lemma OtherWrites(s: System, e: Event)
    requires e.AdmitControl? || e.ReleaseControl? || e.ControlTimer? || e.AtGateway? || e.BeginDrain? || e.EndDrain?
    ensures Step(s, e).0.externalRouteDesired == s.externalRouteDesired
  {}

  lemma StepWrites(s: System, e: Event)
    ensures Step(s, e).0.externalRouteDesired
            == (if Writes(s, e).Some? then Writes(s, e).value else s.externalRouteDesired)
  {
    if e.ReadStatus? || e.BeginQuiesce? || e.BeginCheckpoint? || e.EndCheckpoint? {
      RequestWrites(s, e);
    } else if e.BeginDetach? || e.EndDetach? || e.BeginPromote? || e.EndPromote? {
      RouteWrites(s, e);
    } else if e.BeginResume? {
      BeginResumeWrites(s, e.op, e.controlGeneration, e.gatewayGeneration, e.routeNow);
    } else if e.EndResume? {
      EndResumeWrites(s, e.op, e.succeeded, e.routeNow);
    } else {
      OtherWrites(s, e);
    }
  }

  lemma {:induction false} IntentSince(s: System, es: seq<Event>)
    ensures After(s, es).externalRouteDesired
            == (if LastWrite(s, es).Some? then LastWrite(s, es).value else s.externalRouteDesired)
  {
    if es != [] {
      IntentSince(s, es[..|es| - 1]);
      StepWrites(After(s, es[..|es| - 1]), es[|es| - 1]);
    }
  }

  lemma CheckpointSuspends(s: System, op: nat, cg: int, gg: Option<int>, token: string, routeNow: bool)
    requires Step(s, BeginCheckpoint(op, cg, gg, token, routeNow)).1.Suspended?
    ensures var t := Step(s, BeginCheckpoint(op, cg, gg, token, routeNow)).0;
            op in t.pending && t.pending[op] == Checkpointing(token, routeNow) && t.externalRouteDesired == routeNow
  {}

  /**
   A checkpoint is suspended with the intent it read while a run goes on, and then answers.  Its digest vouches
   for the intent it stores if and only if the last event meanwhile that wrote the intent, if there was one,
   wrote what the checkpoint had read.
   */
  lemma IntentExactly(s: System, op: nat, cg: int, gg: Option<int>, token: string, routeNow: bool,
                      es: seq<Event>, snapshot: Snapshot, id: string)
    requires Step(s, BeginCheckpoint(op, cg, gg, token, routeNow)).1.Suspended?
    requires Waits(Checkpointing(token, routeNow), es, op)
    ensures var begun := Step(s, BeginCheckpoint(op, cg, gg, token, routeNow)).0;
            var r := Step(After(begun, es), EndCheckpoint(op, snapshot, id)).1;
            r.Checkpointed? ==>
              (r.checkpoint.state.externalRouteDesired == r.checkpoint.externalRouteDesired
               <==> LastWrite(begun, es).None? || LastWrite(begun, es).value == routeNow)
  {
    CheckpointSuspends(s, op, cg, gg, token, routeNow);
    var begun := Step(s, BeginCheckpoint(op, cg, gg, token, routeNow)).0;
    FrameWaits(begun, es, op);
    IntentSince(begun, es);
  }
}

/**
 Who may detach and who may promote (apps/runtime-host/src/cutover.ts), over whole runs: the holder of the token the
 stored checkpoint was asked for with, and the holder of the token the candidate was started with.
 */
module CutoverHolders {
  import opened Results
  import opened Drains
  import opened Cutover
  import opened CutoverAnswers
  import Runs = CutoverRuns
  import Serial = CutoverSerial
  import opened CutoverOverlaps

  /** The token a checkpoint suspended under this name was asked for with. */
  function TokenGiven(s: System, es: seq<Event>, op: nat): string {
    if es == [] then ""
    else
      var front, e := es[..|es| - 1], es[|es| - 1];
      if e.BeginCheckpoint? && e.op == op && Step(After(s, front), e).1.Suspended? then e.token
      else TokenGiven(s, front, op)
  }

  /** The checkpoint last stored and not dropped since: its id, and the token it was asked for with. */
  function LastStored(s: System, es: seq<Event>): Option<(string, string)> {
    if es == [] then None
    else
      var front, e := es[..|es| - 1], es[|es| - 1];
      match EffectOf(After(s, front), e)
      case Captures(id) => Some((id, TokenGiven(s, front, if e.EndCheckpoint? then e.op else 0)))
      case Reopens(_) => None
      case _ => LastStored(s, front)
  }

  /** The frames of checkpoints carry the tokens given, and what is stored is what was last stored. */
  ghost predicate Remembered(s: System, es: seq<Event>) {
    var t := After(s, es);
    && (forall op :: op in t.pending && t.pending[op].Checkpointing? ==>
          t.pending[op].token == TokenGiven(s, es, op) && IsToken(t.pending[op].token))
    && StoredAs(t, LastStored(s, es))
  }

  predicate StoredAs(t: System, stored: Option<(string, string)>) {
    match t.checkpoint
    case None => stored == None
    case Some(c) => stored == Some((c.id, c.token.token)) && IsIdentifier(c.id) && IsToken(c.token.token)
  }

  // --- frames ---

  /** The step leaves the checkpoint suspended under this name alone, if there is one. */
  lemma FrameKept(s: System, e: Event, op: nat)
    requires op in Step(s, e).0.pending && Step(s, e).0.pending[op].Checkpointing?
    requires !(e.BeginCheckpoint? && e.op == op && Step(s, e).1.Suspended?)
    ensures op in s.pending && s.pending[op] == Step(s, e).0.pending[op]
  {
    if e.EndDrain? || e.EndCheckpoint? || e.EndDetach? || e.EndResume? || e.EndPromote? {
      Runs.EndMoves(s, e, e.op);
    } else if e.BeginDrain? || e.BeginCheckpoint? || e.BeginDetach? || e.BeginResume? || e.BeginPromote? {
      Runs.BeginMoves(s, e, e.op);
      if e.op == op { BegunOther(s, e); }
    } else {
      OrdinaryFrames(s, e);
    }
  }

  lemma BegunOther(s: System, e: Event)
    requires e.BeginDrain? || e.BeginCheckpoint? || e.BeginDetach? || e.BeginResume? || e.BeginPromote?
    requires e.op in Step(s, e).0.pending && Step(s, e).0.pending[e.op].Checkpointing?
    ensures (e.op in s.pending && Step(s, e).0.pending == s.pending) || (e.BeginCheckpoint? && Step(s, e).1.Suspended?)
  {}

  lemma FrameGiven(s: System, es: seq<Event>, e: Event, op: nat)
    requires Remembered(s, es)
    requires var t := After(s, es + [e]); op in t.pending && t.pending[op].Checkpointing?
    ensures var t := After(s, es + [e]);
            t.pending[op].token == TokenGiven(s, es + [e], op) && IsToken(t.pending[op].token)
  {
    var m := After(s, es);
    AfterOneMore(s, es, e);
    GivenNext(s, es, e, op);
    if e.BeginCheckpoint? && e.op == op && Step(m, e).1.Suspended? {
      CheckpointAnswers(m, op, e.controlGeneration, e.gatewayGeneration, e.token, e.routeNow);
    } else {
      FrameKept(m, e, op);
    }
  }

  lemma GivenNext(s: System, es: seq<Event>, e: Event, op: nat)
    ensures TokenGiven(s, es + [e], op)
            == if e.BeginCheckpoint? && e.op == op && Step(After(s, es), e).1.Suspended? then e.token
               else TokenGiven(s, es, op)
  {
    assert (es + [e])[..|es|] == es;
  }

  // --- the stored checkpoint ---

  lemma StoredNext(s: System, es: seq<Event>, e: Event)
    ensures LastStored(s, es + [e])
            == match EffectOf(After(s, es), e)
               case Captures(id) => Some((id, TokenGiven(s, es, if e.EndCheckpoint? then e.op else 0)))
               case Reopens(_) => None
               case _ => LastStored(s, es)
  {
    assert (es + [e])[..|es|] == es;
  }

  /** Unless a checkpoint is stored or dropped, the stored one is untouched. */
  lemma CheckpointStays(s: System, e: Event)
    requires !EffectOf(s, e).Captures? && !EffectOf(s, e).Reopens?
    ensures Step(s, e).0.checkpoint == s.checkpoint
  {
    if e.EndCheckpoint? {
      CheckpointUnstored(s, e);
    } else if e.BeginResume? || e.EndResume? {
      ResumeUnreopened(s, e);
    } else {
      OthersKeepCheckpoint(s, e);
    }
  }

  lemma CheckpointUnstored(s: System, e: Event)
    requires e.EndCheckpoint? && !EffectOf(s, e).Captures?
    ensures Step(s, e).0.checkpoint == s.checkpoint
  {}

  lemma ResumeUnreopened(s: System, e: Event)
    requires (e.BeginResume? || e.EndResume?) && !EffectOf(s, e).Reopens?
    ensures Step(s, e).0.checkpoint == s.checkpoint
  {}

  lemma OthersKeepCheckpoint(s: System, e: Event)
    requires !e.EndCheckpoint? && !e.BeginResume? && !e.EndResume?
    ensures Step(s, e).0.checkpoint == s.checkpoint
  {}

  lemma CheckpointTaken(s: System, e: Event)
    requires EffectOf(s, e).Captures?
    ensures e.EndCheckpoint? && e.op in s.pending && s.pending[e.op].Checkpointing?
    ensures var t := Step(s, e).0;
            && IsIdentifier(e.freshId) && EffectOf(s, e) == Captures(e.freshId) && t.checkpoint.Some?
            && t.checkpoint.value.id == e.freshId && t.checkpoint.value.token.token == s.pending[e.op].token
  {}

  lemma RememberedNext(s: System, es: seq<Event>, e: Event)
    requires Remembered(s, es)
    ensures Remembered(s, es + [e])
  {
    var m, t := After(s, es), After(s, es + [e]);
    AfterOneMore(s, es, e);
    forall op | op in t.pending && t.pending[op].Checkpointing?
      ensures t.pending[op].token == TokenGiven(s, es + [e], op) && IsToken(t.pending[op].token)
    {
      FrameGiven(s, es, e, op);
    }
    StoredNext(s, es, e);
    StepExplained(m, e);
    if EffectOf(m, e).Captures? {
      CheckpointTaken(m, e);
    } else if !EffectOf(m, e).Reopens? {
      CheckpointStays(m, e);
    }
  }

  lemma {:induction false} RunRemembered(role: Role, token: Option<string>, hasGateway: bool, routeNow: bool,
                                         es: seq<Event>)
    ensures Remembered(Initial(role, token, hasGateway, routeNow), es)
  {
    if es != [] {
      var front := es[..|es| - 1];
      RunRemembered(role, token, hasGateway, routeNow, front);
      RememberedNext(Initial(role, token, hasGateway, routeNow), front, es[|es| - 1]);
      assert es == front + [es[|es| - 1]];
    }
  }

  /**
   Over every run, overlapping in any way: a detachment goes on past its guards if and only if it comes behind its
   fence, with both layers idle and traffic attached, and names the id of the checkpoint last stored together with the
   token that checkpoint was asked for with; under that id any other well-formed token is refused as unauthorised, and
   nothing changes.
   */
  lemma DetachByHolder(role: Role, hostToken: Option<string>, hasGateway: bool, was: bool, es: seq<Event>,
                       op: nat, c: int, g: Option<int>, id: string, token: string, routeNow: bool)
    requires op !in After(Initial(role, hostToken, hasGateway, was), es).pending
    ensures var s := Initial(role, hostToken, hasGateway, was);
            var t := After(s, es);
            var (u, r) := Step(t, BeginDetach(op, c, g, id, token, routeNow));
            var stored := LastStored(s, es);
            && (r == Suspended
                <==> FenceMet(t, c, g) && Quiet(t) && !t.trafficDetached && stored == Some((id, token)))
            && (FenceMet(t, c, g) && IsToken(token)
                && stored.Some? && stored.value.0 == id && stored.value.1 != token ==>
                  r == Failed(AuthInvalid) && u == t)
  {
    var s := Initial(role, hostToken, hasGateway, was);
    RunRemembered(role, hostToken, hasGateway, was, es);
    DetachAnswers(After(s, es), op, c, g, id, token, routeNow);
  }

  // --- promotion ---

  /** Somebody asked for the promotion with this token. */
  predicate Asked(es: seq<Event>, token: Option<string>) {
    exists i :: 0 <= i < |es| && es[i].BeginPromote? && token == Some(es[i].token)
  }

  predicate AskedOk(s: System, es: seq<Event>, token: Option<string>) {
    && s.promotionToken == token
    && (s.promoted ==> Asked(es, token))
    && forall op :: op in s.pending && s.pending[op].Promoting? ==> Asked(es, token)
  }

  lemma AskedGrows(es: seq<Event>, e: Event, token: Option<string>)
    requires Asked(es, token)
    ensures Asked(es + [e], token)
  {
    var i :| 0 <= i < |es| && es[i].BeginPromote? && token == Some(es[i].token);
    assert (es + [e])[i] == es[i];
  }

  lemma BeginsKeepToken(s: System, e: Event)
    requires e.BeginQuiesce? || e.BeginDrain? || e.BeginCheckpoint? || e.BeginDetach? || e.BeginPromote?
    ensures Step(s, e).0.promotionToken == s.promotionToken
  {}

  lemma ResumesKeepToken(s: System, e: Event)
    requires e.BeginResume? || e.EndResume?
    ensures Step(s, e).0.promotionToken == s.promotionToken
  {}

  lemma EndsKeepToken(s: System, e: Event)
    requires e.EndDrain? || e.EndCheckpoint? || e.EndDetach? || e.EndPromote?
    ensures Step(s, e).0.promotionToken == s.promotionToken
  {}

  lemma TokenFixed(s: System, e: Event)
    ensures Step(s, e).0.promotionToken == s.promotionToken
  {
    if e.BeginResume? || e.EndResume? {
      ResumesKeepToken(s, e);
    } else if e.EndDrain? || e.EndCheckpoint? || e.EndDetach? || e.EndPromote? {
      EndsKeepToken(s, e);
    } else if e.BeginQuiesce? || e.BeginDrain? || e.BeginCheckpoint? || e.BeginDetach? || e.BeginPromote? {
      BeginsKeepToken(s, e);
    }
  }

  lemma PromotionFrames(s: System, e: Event, op: nat)
    requires op in Step(s, e).0.pending && Step(s, e).0.pending[op].Promoting?
    ensures (op in s.pending && s.pending[op].Promoting?)
            || (e.BeginPromote? && s.promotionToken == Some(e.token))
  {
    if e.EndDrain? || e.EndCheckpoint? || e.EndDetach? || e.EndResume? || e.EndPromote? {
      Runs.EndMoves(s, e, e.op);
    } else if e.BeginDrain? || e.BeginCheckpoint? || e.BeginDetach? || e.BeginResume? || e.BeginPromote? {
      Runs.BeginMoves(s, e, e.op);
      if e.op == op { BegunPromotion(s, e); }
    } else {
      OrdinaryFrames(s, e);
    }
  }

  lemma BegunPromotion(s: System, e: Event)
    requires e.BeginDrain? || e.BeginCheckpoint? || e.BeginDetach? || e.BeginResume? || e.BeginPromote?
    requires e.op in Step(s, e).0.pending && Step(s, e).0.pending[e.op].Promoting?
    ensures (e.op in s.pending && s.pending[e.op].Promoting?) || (e.BeginPromote? && s.promotionToken == Some(e.token))
  {}

  lemma PromotedBy(s: System, e: Event)
    requires Step(s, e).0.promoted && !s.promoted
    ensures e.EndPromote? && e.op in s.pending && s.pending[e.op].Promoting?
  {}

  lemma AskedNext(s: System, es: seq<Event>, e: Event, token: Option<string>)
    requires AskedOk(s, es, token)
    ensures AskedOk(Step(s, e).0, es + [e], token)
  {
    var t := Step(s, e).0;
    TokenFixed(s, e);
    if Asked(es, token) { AskedGrows(es, e, token); }
    if t.promoted && !s.promoted { PromotedBy(s, e); }
    forall op | op in t.pending && t.pending[op].Promoting? ensures Asked(es + [e], token) {
      PromotionFrames(s, e, op);
      assert (es + [e])[|es|] == e;
    }
  }

  /** A candidate is promoted on no run in which nobody asked for it with the token it was started with. */
  lemma {:induction false} PromotedByHolder(token: Option<string>, hasGateway: bool, routeNow: bool, es: seq<Event>)
    ensures AskedOk(After(Initial(CandidateRole, token, hasGateway, routeNow), es), es, token)
  {
    if es != [] {
      var front := es[..|es| - 1];
      PromotedByHolder(token, hasGateway, routeNow, front);
      AskedNext(After(Initial(CandidateRole, token, hasGateway, routeNow), front), front, es[|es| - 1], token);
      assert es == front + [es[|es| - 1]];
    }
  }

  // --- what a status tells ---

  /**
   Over every run the status record tells the truth of the run: the requests outstanding in each layer, the checkpoint
   last stored and not dropped, and whether the route calls that succeeded left the traffic detached.
   */
  lemma StatusOfRun(role: Role, token: Option<string>, hasGateway: bool, was: bool, es: seq<Event>)
    ensures var s := Initial(role, token, hasGateway, was);
            var t := After(s, es);
            var r := StatusOf(t);
            && r.activeControlRequestCount == Outstanding(t.control.permits)
            && r.gateway.Some? == hasGateway
            && (hasGateway ==> t.gateway.Some? && r.gateway.value.2 == Outstanding(t.gateway.value.permits))
            && r.checkpointId == (if LastStored(s, es).Some? then Some(LastStored(s, es).value.0) else None)
            && (r.trafficDetached <==> Serial.Held(t.calls).Some?)
            && (r.controlQuiesced <==> !t.control.open) && r.controlGeneration == t.control.generation
  {
    var s := Initial(role, token, hasGateway, was);
    RunRemembered(role, token, hasGateway, was, es);
    InitialTied(role, token, hasGateway, was);
    RunTied(s, es);
    Runs.InitialInv(role, token, hasGateway, was);
    Runs.RunKeeps(s, es);
    StatusTells(After(s, es));
  }
}

/**
 The pending-call table of the host's protocol channel (apps/runtime-host/src/main.ts): a call settles
 through a response, its timeout, its abort signal or the channel closing, whichever comes first.
 */
module ShellCalls {
  import opened Results
  import opened ControlProtocol

  datatype Settlement =
    | Resolved(payload: Field)
    | RejectedByShell(payload: Field)
    | TimedOut | Aborted | AbortedBeforeDispatch | ChannelClosed

  datatype Calls = Calls(closed: bool, pending: set<string>, settled: map<string, Settlement>)

  const NO_CALLS := Calls(false, {}, map[])

  datatype Event =
    | Call(id: string, aborted: bool)
    | Reply(id: string, ok: bool, payload: Field)
    | TimerFires(id: string)
    | AbortFires(id: string)
    | Close

  /** The `finish` closure: only the first settlement of a pending call counts. */
  function Settle(s: Calls, id: string, how: Settlement): Calls {
    if id !in s.pending then s
    else s.(pending := s.pending - {id}, settled := s.settled[id := how])
  }

  function ReplyAs(ok: bool, payload: Field): Settlement {
    if ok then Resolved(payload) else RejectedByShell(payload)
  }

  function CloseCalls(s: Calls): Calls {
    if s.closed then s
    else Calls(true, {}, s.settled + map id | id in s.pending :: ChannelClosed)
  }

  /** Call identities are fresh: calling one again is not a step. */
  function Step(s: Calls, e: Event): Calls {
    match e
    case Call(id, aborted) =>
      if id in s.pending || id in s.settled then s
      else if s.closed then s.(settled := s.settled[id := ChannelClosed])
      else if aborted then s.(settled := s.settled[id := AbortedBeforeDispatch])
      else s.(pending := s.pending + {id})
    case Reply(id, ok, payload) => Settle(s, id, ReplyAs(ok, payload))
    case TimerFires(id) => Settle(s, id, TimedOut)
    case AbortFires(id) => Settle(s, id, Aborted)
    case Close => CloseCalls(s)
  }

  function After(s: Calls, es: seq<Event>): Calls
    decreases |es|
  {
    if es == [] then s else After(Step(s, es[0]), es[1..])
  }

  // --- the reference: what a single call's promise becomes, read off the run ---

  /** The first event after the call that ends it. */
  function FirstEnd(id: string, es: seq<Event>): Option<Settlement>
    decreases |es|
  {
    if es == [] then None
    else match es[0]
      case Reply(i, ok, payload) => if i == id then Some(ReplyAs(ok, payload)) else FirstEnd(id, es[1..])
      case TimerFires(i) => if i == id then Some(TimedOut) else FirstEnd(id, es[1..])
      case AbortFires(i) => if i == id then Some(Aborted) else FirstEnd(id, es[1..])
      case Close => Some(ChannelClosed)
      case Call(_, _) => FirstEnd(id, es[1..])
  }

  datatype Fate = NotCalled | Waiting | SettledAs(how: Settlement)

  function FateOf(id: string, es: seq<Event>, closed: bool): Fate
    decreases |es|
  {
    if es == [] then NotCalled
    else if es[0].Call? && es[0].id == id then
      if closed then SettledAs(ChannelClosed)
      else if es[0].aborted then SettledAs(AbortedBeforeDispatch)
      else match FirstEnd(id, es[1..])
        case None => Waiting
        case Some(how) => SettledAs(how)
    else FateOf(id, es[1..], closed || es[0].Close?)
  }

  function Seen(s: Calls, id: string): Fate {
    if id in s.settled then SettledAs(s.settled[id]) else if id in s.pending then Waiting else NotCalled
  }

  ghost predicate Ok(s: Calls) {
    && (forall id :: id in s.pending ==> id !in s.settled)
    && (s.closed ==> s.pending == {})
  }

  lemma StepOk(s: Calls, e: Event)
    requires Ok(s)
    ensures Ok(Step(s, e))
  {
  }

  lemma {:induction false} SettledForGood(s: Calls, es: seq<Event>, id: string)
    requires Ok(s) && id in s.settled
    ensures Seen(After(s, es), id) == SettledAs(s.settled[id])
    decreases |es|
  {
    if es != [] {
      StepOk(s, es[0]);
      SettledForGood(Step(s, es[0]), es[1..], id);
    }
  }

  lemma {:induction false} PendingEnds(s: Calls, es: seq<Event>, id: string)
    requires Ok(s) && id in s.pending
    ensures Seen(After(s, es), id) == match FirstEnd(id, es) case None => Waiting case Some(how) => SettledAs(how)
    decreases |es|
  {
    if es != [] {
      StepOk(s, es[0]);
      var t := Step(s, es[0]);
      if id in t.pending {
        PendingEnds(t, es[1..], id);
      } else {
        SettledForGood(t, es[1..], id);
      }
    }
  }

  lemma {:induction false} UnseenFate(s: Calls, es: seq<Event>, id: string)
    requires Ok(s) && id !in s.pending && id !in s.settled
    ensures Seen(After(s, es), id) == FateOf(id, es, s.closed)
    decreases |es|
  {
    if es != [] {
      StepOk(s, es[0]);
      var t := Step(s, es[0]);
      if id in t.pending {
        PendingEnds(t, es[1..], id);
      } else if id in t.settled {
        SettledForGood(t, es[1..], id);
      } else {
        UnseenFate(t, es[1..], id);
      }
    }
  }

  lemma {:induction false} StaysOk(s: Calls, es: seq<Event>)
    requires Ok(s)
    ensures Ok(After(s, es)) && (s.closed || Close in es <==> After(s, es).closed)
    decreases |es|
  {
    if es != [] {
      StepOk(s, es[0]);
      StaysOk(Step(s, es[0]), es[1..]);
      assert es == [es[0]] + es[1..];
    }
  }

  /**
   In every run each call is waiting, or settled by exactly the first of response, timeout, abort and
   close that followed it; later events change nothing, and no call waits once the channel closed.
   */
  lemma CallsSettleOnce(es: seq<Event>, id: string)
    ensures Seen(After(NO_CALLS, es), id) == FateOf(id, es, false)
    ensures !(id in After(NO_CALLS, es).pending && id in After(NO_CALLS, es).settled)
    ensures Close in es ==> After(NO_CALLS, es).pending == {}
  {
    UnseenFate(NO_CALLS, es, id);
    StaysOk(NO_CALLS, es);
  }

  /** Handling the messages of a drained buffer: only responses touch the table. */
  function HandleAll(s: Calls, ms: seq<Message>): Calls {
    if ms == [] then s
    else
      var before := HandleAll(s, ms[..|ms| - 1]);
      var last := ms[|ms| - 1];
      if last.Response? then Step(before, Reply(last.id, last.ok, last.payload)) else before
  }
}

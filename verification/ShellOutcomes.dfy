/** What a shell call comes to, read off where its first end stands in the run (apps/runtime-host/src/main.ts). */
module ShellOutcomes {
  import opened Results
  import opened Sequences
  import opened ControlProtocol
  import opened ShellCalls

  /** The event ends a call that is waiting under this identity. */
  predicate Ends(e: Event, id: string) {
    e.Close? || ((e.Reply? || e.TimerFires? || e.AbortFires?) && e.id == id)
  }

  predicate NoneEnds(es: seq<Event>, id: string) { forall e :: e in es ==> !Ends(e, id) }

  predicate NotYetCalled(es: seq<Event>, id: string) { forall e :: e in es ==> !(e.Call? && e.id == id) }

  /** What the end makes of the call: a shell's answer resolves it if it is ok and rejects it if not. */
  predicate Outcome(e: Event, how: Settlement) {
    match e
    case Reply(_, ok, payload) => (ok ==> how == Resolved(payload)) && (!ok ==> how == RejectedByShell(payload))
    case TimerFires(_) => how == TimedOut
    case AbortFires(_) => how == Aborted
    case Close => how == ChannelClosed
    case Call(_, _) => false
  }

  // --- runs in pieces ---

  lemma {:induction false} AfterBoth(s: Calls, a: seq<Event>, b: seq<Event>)
    ensures After(s, a + b) == After(After(s, a), b)
    decreases |a|
  {
    if a == [] {
      assert a + b == b;
    } else {
      assert (a + b)[1..] == a[1..] + b;
      AfterBoth(Step(s, a[0]), a[1..], b);
    }
  }

  lemma AfterOne(s: Calls, e: Event)
    ensures After(s, [e]) == Step(s, e)
  {
    assert [e][1..] == [];
  }

  lemma {:induction false} StaysUnseen(s: Calls, es: seq<Event>, id: string)
    requires id !in s.pending && id !in s.settled && NotYetCalled(es, id)
    ensures id !in After(s, es).pending && id !in After(s, es).settled
    decreases |es|
  {
    if es != [] {
      assert es[0] in es && forall e :: e in es[1..] ==> e in es;
      StaysUnseen(Step(s, es[0]), es[1..], id);
    }
  }

  lemma {:induction false} StaysWaiting(s: Calls, es: seq<Event>, id: string)
    requires id in s.pending && NoneEnds(es, id)
    ensures id in After(s, es).pending
    decreases |es|
  {
    if es != [] {
      assert es[0] in es && forall e :: e in es[1..] ==> e in es;
      StaysWaiting(Step(s, es[0]), es[1..], id);
    }
  }

  /** The table after a run in which this call was first made, on an open or a closed channel. */
  lemma CalledAfter(before: seq<Event>, id: string, aborted: bool)
    requires NotYetCalled(before, id)
    ensures var s := After(NO_CALLS, before + [Call(id, aborted)]);
            && Ok(s)
            && Seen(s, id) == if Close in before then SettledAs(ChannelClosed)
                              else if aborted then SettledAs(AbortedBeforeDispatch) else Waiting
  {
    var s := After(NO_CALLS, before);
    AfterBoth(NO_CALLS, before, [Call(id, aborted)]);
    AfterOne(s, Call(id, aborted));
    StaysUnseen(NO_CALLS, before, id);
    StaysOk(NO_CALLS, before);
    StepOk(s, Call(id, aborted));
  }

  /** A call that is never dispatched: the channel was closed, or its signal had been raised. */
  lemma NeverDispatched(before: seq<Event>, id: string, aborted: bool, later: seq<Event>)
    requires NotYetCalled(before, id) && (Close in before || aborted)
    ensures Seen(After(NO_CALLS, before + [Call(id, aborted)] + later), id)
            == SettledAs(if Close in before then ChannelClosed else AbortedBeforeDispatch)
  {
    var es := before + [Call(id, aborted)];
    CalledAfter(before, id, aborted);
    AfterBoth(NO_CALLS, es, later);
    SettledForGood(After(NO_CALLS, es), later, id);
  }

  /** A dispatched call waits as long as nothing ends it. */
  lemma WaitsUntilEnded(before: seq<Event>, id: string, middle: seq<Event>)
    requires NotYetCalled(before, id) && Close !in before && NoneEnds(middle, id)
    ensures Seen(After(NO_CALLS, before + [Call(id, false)] + middle), id) == Waiting
  {
    var es := before + [Call(id, false)];
    CalledAfter(before, id, false);
    AfterBoth(NO_CALLS, es, middle);
    StaysWaiting(After(NO_CALLS, es), middle, id);
    StaysOk(NO_CALLS, es + middle);
  }

  lemma EndSettles(s: Calls, id: string, end: Event)
    requires Ok(s) && id in s.pending && Ends(end, id)
    ensures Seen(Step(s, end), id).SettledAs? && Outcome(end, Seen(Step(s, end), id).how)
  {}

  /**
   The first event after the dispatch that ends the call decides it for good, whatever follows: an answer that is ok
   resolves it with its payload, one that is not rejects it, and a timeout, an abort and the channel closing each leave
   their own mark.
   */
  lemma FirstEndDecides(before: seq<Event>, id: string, middle: seq<Event>, end: Event, later: seq<Event>)
    requires NotYetCalled(before, id) && Close !in before && NoneEnds(middle, id) && Ends(end, id)
    ensures var fate := Seen(After(NO_CALLS, before + [Call(id, false)] + middle + [end] + later), id);
            fate.SettledAs? && Outcome(end, fate.how)
  {
    var called := before + [Call(id, false)] + middle;
    var s := After(NO_CALLS, called);
    WaitsUntilEnded(before, id, middle);
    StaysOk(NO_CALLS, called);
    EndSettles(s, id, end);
    StepOk(s, end);
    AfterBoth(NO_CALLS, called, [end]);
    AfterOne(s, end);
    AfterBoth(NO_CALLS, called + [end], later);
    SettledForGood(Step(s, end), later, id);
  }

  // --- the messages a buffer delivers ---

  predicate Answers(m: Message, id: string) { m.Response? && m.id == id }

  lemma HandleLast(s: Calls, ms: seq<Message>, m: Message)
    ensures HandleAll(s, ms + [m])
            == if m.Response? then Step(HandleAll(s, ms), Reply(m.id, m.ok, m.payload)) else HandleAll(s, ms)
  {
    assert (ms + [m])[..|ms|] == ms;
  }

  lemma {:induction false} Unanswered(s: Calls, ms: seq<Message>, id: string)
    requires forall m :: m in ms ==> !Answers(m, id)
    ensures Seen(HandleAll(s, ms), id) == Seen(s, id) && (id in HandleAll(s, ms).pending <==> id in s.pending)
  {
    if ms != [] {
      var front, last := ms[..|ms| - 1], ms[|ms| - 1];
      assert ms == front + [last] && last in ms;
      Unanswered(s, front, id);
      HandleLast(s, front, last);
    }
  }

  lemma {:induction false} Answered(s: Calls, ms: seq<Message>, id: string)
    requires id !in s.pending && id in s.settled
    ensures id !in HandleAll(s, ms).pending && Seen(HandleAll(s, ms), id) == Seen(s, id)
  {
    if ms != [] {
      var front, last := ms[..|ms| - 1], ms[|ms| - 1];
      assert ms == front + [last];
      Answered(s, front, id);
      HandleLast(s, front, last);
    }
  }

  lemma {:induction false} HandleBoth(s: Calls, a: seq<Message>, b: seq<Message>)
    ensures HandleAll(s, a + b) == HandleAll(HandleAll(s, a), b)
    decreases |b|
  {
    if b == [] {
      assert a + b == a;
    } else {
      var front, last := b[..|b| - 1], b[|b| - 1];
      assert b == front + [last] && a + b == (a + front) + [last];
      HandleBoth(s, a, front);
      HandleLast(s, a + front, last);
      HandleLast(HandleAll(s, a), front, last);
    }
  }

  /** Among the messages of a buffer, the first response to a waiting call decides it; without one it still waits. */
  lemma FirstResponseDecides(s: Calls, earlier: seq<Message>, id: string, ok: bool, payload: Field, later: seq<Message>)
    requires Ok(s) && id in s.pending && forall m :: m in earlier ==> !Answers(m, id)
    ensures Seen(HandleAll(s, earlier), id) == Waiting
    ensures Seen(HandleAll(s, earlier + [Response(id, ok, payload)] + later), id)
            == SettledAs(if ok then Resolved(payload) else RejectedByShell(payload))
  {
    var answer := Response(id, ok, payload);
    Unanswered(s, earlier, id);
    HandleLast(s, earlier, answer);
    HandleBoth(s, earlier + [answer], later);
    Answered(HandleAll(s, earlier + [answer]), later, id);
  }
}

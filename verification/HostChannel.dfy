/** `HostProtocolChannel`: line framing and message handling over the pending calls (apps/runtime-host/src/main.ts). */
module HostChannel {
  import opened Results
  import opened ControlProtocol
  import opened PipeFraming
  import opened ShellCalls

  class HostProtocolChannel {
    const codec: Codec
    const session: string
    var buffer: string
    var closed: bool
    var eventSequence: int
    var pendingShell: set<string>
    var settled: map<string, Settlement>
    var handled: seq<Message>            // history: messages delivered to handlers
    var written: seq<Message>            // history: messages written to the pipe

    ghost function Input(): Pipe
      reads this
    {
      Pipe(buffer, closed, handled)
    }

    ghost function Table(): Calls
      reads this
    {
      Calls(closed, pendingShell, settled)
    }

    constructor (codec: Codec, session: string)
      ensures Input() == FRESH_PIPE && Table() == NO_CALLS && eventSequence == 0 && written == []
      ensures this.codec == codec && this.session == session
    {
      this.codec, this.session := codec, session;
      buffer, closed, eventSequence := "", false, 0;
      pendingShell, settled, handled, written := {}, map[], [], [];
    }

    // --- calls to the shell ---

    method FinishCall(id: string, how: Settlement)
      modifies this`pendingShell, this`settled
      ensures Table() == Settle(old(Table()), id, how)
    {
      if id !in pendingShell { return; }
      pendingShell := pendingShell - {id};
      settled := settled[id := how];
    }

    /** Starts a call under a fresh identity; the request is written only if the call is dispatched. */
    method CallShell(id: string, name: string, payload: Field, aborted: bool)
      requires id !in pendingShell && id !in settled
      modifies this`pendingShell, this`settled, this`written
      ensures Table() == ShellCalls.Step(old(Table()), Call(id, aborted))
      ensures written == old(written) + if old(closed) || aborted then [] else [Request(id, name, payload)]
      ensures Numbered(old(written), old(eventSequence)) ==> Numbered(written, eventSequence)
    {
      if closed {
        settled := settled[id := ChannelClosed];
      } else if aborted {
        settled := settled[id := AbortedBeforeDispatch];
      } else {
        pendingShell := pendingShell + {id};
        written := written + [Request(id, name, payload)];
        assert written[..|written| - 1] == old(written);
      }
    }

    method OnTimer(id: string)
      modifies this`pendingShell, this`settled
      ensures Table() == ShellCalls.Step(old(Table()), TimerFires(id))
    {
      FinishCall(id, TimedOut);
    }

    /** The abort listener is removed with the call, so it runs only while the call is pending and the channel open. */
    method OnAbort(id: string)
      requires id in pendingShell ==> !closed
      modifies this`pendingShell, this`settled, this`written
      ensures Table() == ShellCalls.Step(old(Table()), AbortFires(id))
      ensures written == old(written) + if id in old(pendingShell) then [Cancel(id)] else []
      ensures Numbered(old(written), old(eventSequence)) ==> Numbered(written, eventSequence)
    {
      if id in pendingShell {
        written := written + [Cancel(id)];
        assert written[..|written| - 1] == old(written);
        FinishCall(id, Aborted);
      }
    }

    method CloseChannel()
      modifies this`closed, this`pendingShell, this`settled
      ensures Table() == CloseCalls(old(Table()))
    {
      if closed { return; }
      closed := true;
      ghost var before := settled;
      ghost var all := pendingShell;
      var todo := pendingShell;
      while todo != {}
        invariant todo == pendingShell <= all && closed
        invariant settled == before + map id | id in all - todo :: ChannelClosed
      {
        var id :| id in todo;
        FinishCall(id, ChannelClosed);
        todo := todo - {id};
      }
      assert all - todo == all;
    }

    // --- events ---

    /** The number is taken before the write, which throws once the channel is closed. */
    method EmitEvent(event: string, payload: Field) returns (r: Outcome<Code>)
      modifies this`eventSequence, this`written
      ensures eventSequence == old(eventSequence) + 1 && r.Fail? == closed
      ensures written == old(written) + if closed then [] else [EventMessage(eventSequence, event, payload)]
      ensures !closed && Numbered(old(written), old(eventSequence)) ==> Numbered(written, eventSequence)
    {
      eventSequence := eventSequence + 1;
      if closed { return Fail(ProcessFailed); }
      written := written + [EventMessage(eventSequence, event, payload)];
      assert written[..|written| - 1] == old(written);
      return Pass;
    }

    // --- input ---

    method HandleMessage(m: Message)
      modifies this`pendingShell, this`settled, this`handled
      ensures handled == old(handled) + [m]
      ensures Table() == if m.Response? then ShellCalls.Step(old(Table()), Reply(m.id, m.ok, m.payload))
                         else old(Table())
    {
      handled := handled + [m];
      if m.Response? {
        FinishCall(m.id, ReplyAs(m.ok, m.payload));
      }
    }

    method IndexOfNewline() returns (i: Option<nat>)
      ensures i == NewlineFrom(buffer, 0)
    {
      var k := 0;
      while k < |buffer|
        invariant k <= |buffer| && NewlineFrom(buffer, 0) == NewlineFrom(buffer, k)
      {
        if buffer[k] == '\n' { return Some(k); }
        k := k + 1;
      }
      i := None;
    }

    /** Skips an empty line, handles one that parses, and reports one that does not. */
    method HandleLine(line: string) returns (refused: bool)
      modifies this`pendingShell, this`settled, this`handled
      ensures var v := Classify(codec, session, line);
              && refused == v.Refused?
              && handled == old(handled) + Delivers(v) && Table() == HandleAll(old(Table()), Delivers(v))
    {
      if line == "" { return false; }
      var message := Parse(codec, session, line);
      if message.None? { return true; }
      HandleMessage(message.value);
      HandleOne(old(Table()), message.value);
      refused := false;
    }

    /** Takes the first complete line, if there is one, off the buffer and handles it. */
    method TakeLine() returns (found: bool, refused: bool)
      modifies this`buffer, this`pendingShell, this`settled, this`handled
      ensures found == NewlineFrom(old(buffer), 0).Some?
      ensures !found ==> !refused && buffer == old(buffer) && handled == old(handled) && Table() == old(Table())
      ensures found ==> var v := FirstVerdict(codec, session, old(buffer));
                        && buffer == AfterFirst(old(buffer)) && refused == v.Refused?
                        && handled == old(handled) + Delivers(v) && Table() == HandleAll(old(Table()), Delivers(v))
    {
      var newline := IndexOfNewline();
      if newline.None? { return false, false; }
      var line := Chomp(buffer[..newline.value]);
      buffer := buffer[newline.value + 1..];
      refused := HandleLine(line);
      found := true;
    }

    /** Handles every complete line of the buffer up to a refused one. */
    method DrainBuffer() returns (refused: bool)
      modifies this`buffer, this`pendingShell, this`settled, this`handled
      ensures var d := Drain(codec, session, old(buffer));
              && handled == old(handled) + d.delivered && buffer == d.rest && refused == d.refused
              && Table() == HandleAll(old(Table()), d.delivered)
    {
      ghost var start, had, whole := Table(), handled, Drain(codec, session, buffer);
      ghost var news: seq<Message> := [];
      assert had + [] == had && Following([], whole) == whole;
      while true
        invariant handled == had + news && Table() == HandleAll(start, news)
        invariant whole == Following(news, Drain(codec, session, buffer))
        decreases |buffer|
      {
        ghost var v := FirstVerdict(codec, session, buffer);
        DrainFirst(codec, session, news, buffer);
        HandleConcat(start, news, Delivers(v));
        var found;
        found, refused := TakeLine();
        if !found { return; }
        assert (had + news) + Delivers(v) == had + (news + Delivers(v));
        news := news + Delivers(v);
        if refused { return; }
      }
    }

    /**
     Appends a chunk, then handles every complete line; an over-full buffer or a refused line closes the
     channel, after the calls answered by earlier lines have settled.
     */
    method AcceptChunk(chunk: string)
      modifies this
      ensures Input() == Accept(codec, session, old(Input()), chunk)
      ensures old(handled) <= handled
      ensures var calls := HandleAll(old(Table()), handled[|old(handled)|..]);
              Table() == if closed && !old(closed) then CloseCalls(calls) else calls
      ensures eventSequence == old(eventSequence) && written == old(written)
    {
      if closed { return; }
      buffer := buffer + chunk;
      if ByteLength(buffer) > MAX_BUFFER_BYTES {
        CloseChannel();
        return;
      }
      var refused := DrainBuffer();
      if refused {
        CloseChannel();
      }
    }
  }

  /** What handling a classified line delivers. */
  function Delivers(v: Verdict): seq<Message> {
    if v.Good? then [v.message] else []
  }

  function Following(earlier: seq<Message>, d: Drained): Drained {
    Drained(earlier + d.delivered, d.rest, d.refused)
  }

  function FirstVerdict(c: Codec, session: string, text: string): Verdict {
    var newline := NewlineFrom(text, 0);
    if newline.None? then Blank else Classify(c, session, Chomp(text[..newline.value]))
  }

  function AfterFirst(text: string): (rest: string)
    ensures NewlineFrom(text, 0).Some? ==> |rest| < |text|
  {
    var newline := NewlineFrom(text, 0);
    if newline.None? then text else text[newline.value + 1..]
  }

  /** Draining takes the first line, and goes on with the rest unless the line was refused. */
  lemma DrainFirst(c: Codec, session: string, earlier: seq<Message>, text: string)
    ensures var v, rest := FirstVerdict(c, session, text), AfterFirst(text);
            Following(earlier, Drain(c, session, text)) ==
              if NewlineFrom(text, 0).None? then Drained(earlier, text, false)
              else if v.Refused? then Drained(earlier + Delivers(v), rest, true)
              else Following(earlier + Delivers(v), Drain(c, session, rest))
  {
    var v, d := FirstVerdict(c, session, text), Drain(c, session, AfterFirst(text));
    assert earlier + [] == earlier;
    if NewlineFrom(text, 0).Some? {
      assert Drain(c, session, text) == Prepend(v, AfterFirst(text), d);
    }
    if v.Good? {
      assert earlier + ([v.message] + d.delivered) == (earlier + [v.message]) + d.delivered;
    }
  }

  lemma HandleOne(s: Calls, m: Message)
    ensures HandleAll(s, [m]) == if m.Response? then ShellCalls.Step(s, Reply(m.id, m.ok, m.payload)) else s
  {
    assert [m][..0] == [];
  }

  lemma HandleConcat(s: Calls, a: seq<Message>, b: seq<Message>)
    requires |b| <= 1
    ensures HandleAll(s, a + b) == HandleAll(HandleAll(s, a), b)
  {
    if b == [] {
      assert a + b == a;
    } else {
      assert (a + b)[..|a|] == a && b == [b[0]];
      HandleOne(HandleAll(s, a), b[0]);
    }
  }

  // --- the desktop end's check on event numbers ---

  /** The desktop refuses an event number that does not exceed the last; `None` is that refusal. */
  function LastSequence(ms: seq<Message>, last: int): Option<int> {
    if ms == [] then Some(last)
    else match LastSequence(ms[..|ms| - 1], last)
      case None => None
      case Some(n) =>
        var m := ms[|ms| - 1];
        if !m.EventMessage? then Some(n) else if m.sequence <= n then None else Some(m.sequence)
  }

  /** The events among what a host writes are numbered 1, 2, 3, ... */
  predicate Numbered(ms: seq<Message>, count: int) {
    if ms == [] then count == 0
    else
      var m := ms[|ms| - 1];
      if m.EventMessage? then m.sequence == count && Numbered(ms[..|ms| - 1], count - 1)
      else Numbered(ms[..|ms| - 1], count)
  }

  /** Numbered from 1 without gaps, such events pass the desktop's check that each exceeds the one before. */
  lemma {:induction false} NumberedAccepted(ms: seq<Message>, count: int)
    requires Numbered(ms, count)
    ensures LastSequence(ms, 0) == Some(count)
  {
    if ms != [] {
      var m := ms[|ms| - 1];
      NumberedAccepted(ms[..|ms| - 1], if m.EventMessage? then count - 1 else count);
    }
  }
}

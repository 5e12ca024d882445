/** Both ends of the control pipe together: what a host writes is what the desktop takes. */
module PipeEnds {
  import opened Results
  import opened Sequences
  import opened ControlProtocol
  import opened PipeFraming
  import opened DesktopFraming
  import HostChannel

  /** Every event exceeds the last number before it. */
  predicate Rising(ms: seq<Message>, last: int) {
    ms == [] || ((ms[0].EventMessage? ==> ms[0].sequence > last) && Rising(ms[1..], LastOf(ms[0], last)))
  }

  function LastOf(m: Message, last: int): int { if m.EventMessage? then m.sequence else last }

  function LastEvent(ms: seq<Message>, last: int): int {
    if ms == [] then last else LastEvent(ms[1..], LastOf(ms[0], last))
  }

  lemma {:induction false} RisingSnoc(ms: seq<Message>, m: Message, last: int)
    ensures Rising(ms + [m], last) <==> Rising(ms, last) && (m.EventMessage? ==> m.sequence > LastEvent(ms, last))
    ensures LastEvent(ms + [m], last) == LastOf(m, LastEvent(ms, last))
  {
    if ms == [] {
      assert ms + [m] == [m] && [m][1..] == [];
    } else {
      assert (ms + [m])[1..] == ms[1..] + [m];
      RisingSnoc(ms[1..], m, LastOf(ms[0], last));
    }
  }

  /** A host that numbers its events without gaps numbers them in rising order. */
  lemma {:induction false} NumberedRises(ms: seq<Message>, count: int)
    requires HostChannel.Numbered(ms, count)
    ensures Rising(ms, 0) && LastEvent(ms, 0) == count
  {
    if ms != [] {
      var front, m := ms[..|ms| - 1], ms[|ms| - 1];
      NumberedRises(front, if m.EventMessage? then count - 1 else count);
      RisingSnoc(front, m, 0);
      assert front + [m] == ms;
    }
  }

  predicate AllValid(r: Reader, ms: seq<Message>) {
    forall i :: 0 <= i < |ms| ==> ms[i].EventMessage? ==> r.valid(ms[i])
  }

  predicate Written(r: Reader, ms: seq<Message>, last: int) {
    Sendable(r.codec, r.session, ms) && AllValid(r, ms) && Rising(ms, last)
  }

  /** The desktop takes the first message of a stream, and goes on. */
  lemma TakesFirst(r: Reader, c: Client, ms: seq<Message>, tail: string)
    requires Lawful(r.codec) && ms != [] && Written(r, ms, c.lastEventSequence)
    requires c.buffer == Line(r.codec, r.session, ms[0]) + "\n" + tail
    ensures DrainLines(r, c)
            == DrainLines(r, Client(tail, LastOf(ms[0], c.lastEventSequence), c.delivered + [ms[0]], c.failures))
  {
    var line := Line(r.codec, r.session, ms[0]);
    FirstLine(r.codec, r.session, ms[0], tail);
    RoundTrip(r.codec, r.session, ms[0]);
    NoNewlineInside(r.codec, r.session, ms[0]);
    Associates(line, "\n", tail);
    DrainFirst(r, c, line, tail);
  }

  lemma WrittenRest(r: Reader, ms: seq<Message>, last: int)
    requires ms != [] && Written(r, ms, last)
    ensures Written(r, ms[1..], LastOf(ms[0], last))
  {}

  /** From `c`, reaching `d` took nothing but messages of the list and left at most a line; the whole list, nothing. */
  predicate Took(c: Client, d: Client, ms: seq<Message>, whole: bool) {
    && d.failures == c.failures && ByteLength(d.buffer) <= MAX_LINE_BYTES
    && (whole ==> d == Client("", LastEvent(ms, c.lastEventSequence), c.delivered + ms, c.failures))
  }

  lemma TookOneMore(c: Client, next: Client, d: Client, m: Message, rest: seq<Message>, whole: bool)
    requires next == Client(next.buffer, LastOf(m, c.lastEventSequence), c.delivered + [m], c.failures)
    requires Took(next, d, rest, whole)
    ensures Took(c, d, [m] + rest, whole)
  {
    Associates(c.delivered, [m], rest);
    assert ([m] + rest)[1..] == rest;
  }

  lemma TakesWithin(r: Reader, c: Client, m: Message, after: string)
    requires Lawful(r.codec) && Serialize(r.codec, r.session, m).Some?
    requires c.buffer <= Line(r.codec, r.session, m) + "\n" + after && |c.buffer| <= |Line(r.codec, r.session, m)|
    ensures DrainLines(r, c) == c && ByteLength(c.buffer) <= MAX_LINE_BYTES
  {
    PrefixShort(r.codec, r.session, m, after, c.buffer);
  }

  lemma TakesPast(r: Reader, c: Client, ms: seq<Message>, after: string) returns (next: Client)
    requires Lawful(r.codec) && ms != [] && Written(r, ms, c.lastEventSequence)
    requires c.buffer <= Line(r.codec, r.session, ms[0]) + "\n" + after
    requires |c.buffer| > |Line(r.codec, r.session, ms[0])|
    ensures next == Client(next.buffer, LastOf(ms[0], c.lastEventSequence), c.delivered + [ms[0]], c.failures)
    ensures DrainLines(r, c) == DrainLines(r, next) && next.buffer <= after
    ensures c.buffer == Line(r.codec, r.session, ms[0]) + "\n" + after ==> next.buffer == after
  {
    var line := Line(r.codec, r.session, ms[0]);
    PrefixPast(c.buffer, line, '\n', after);
    next := Client(c.buffer[|line| + 1..], LastOf(ms[0], c.lastEventSequence), c.delivered + [ms[0]], c.failures);
    TakesFirst(r, c, ms, next.buffer);
  }

  /** Any prefix of what a host writes is drained without a failure and leaves at most one line. */
  lemma {:induction false} PrefixTaken(r: Reader, c: Client, ms: seq<Message>)
    requires Lawful(r.codec) && Written(r, ms, c.lastEventSequence) && c.buffer <= Stream(r.codec, r.session, ms)
    ensures Took(c, DrainLines(r, c), ms, c.buffer == Stream(r.codec, r.session, ms))
    decreases |ms|
  {
    if ms == [] {
      assert c.delivered + ms == c.delivered;
    } else {
      var line, after := Line(r.codec, r.session, ms[0]), Stream(r.codec, r.session, ms[1..]);
      if |c.buffer| <= |line| {
        TakesWithin(r, c, ms[0], after);
      } else {
        var next := TakesPast(r, c, ms, after);
        WrittenRest(r, ms, c.lastEventSequence);
        PrefixTaken(r, next, ms[1..]);
        TookOneMore(c, next, DrainLines(r, next), ms[0], ms[1..], next.buffer == after);
        assert ms == [ms[0]] + ms[1..];
      }
    }
  }

  lemma PrefixUnrefused(r: Reader, ms: seq<Message>, text: string)
    requires Lawful(r.codec) && Written(r, ms, 0) && text <= Stream(r.codec, r.session, ms)
    ensures !Refuses(r, Append(FRESH_CLIENT, text))
    ensures ByteLength(DrainLines(r, Append(FRESH_CLIENT, text)).buffer) <= MAX_LINE_BYTES
  {
    assert "" + text == text;
    PrefixTaken(r, Append(FRESH_CLIENT, text), ms);
  }

  lemma ConcatFront(chunks: seq<string>)
    requires chunks != []
    ensures Concat(chunks[..|chunks| - 1]) <= Concat(chunks)
  {}

  lemma {:induction false} ChunksTaken(r: Reader, ms: seq<Message>, chunks: seq<string>)
    requires Lawful(r.codec) && Written(r, ms, 0) && Concat(chunks) <= Stream(r.codec, r.session, ms)
    requires forall i :: 0 <= i < |chunks| ==> ByteLength(chunks[i]) <= MAX_LINE_BYTES
    ensures InBound(r, FRESH_CLIENT, chunks)
    ensures chunks != [] ==>
              AcceptChunks(r, FRESH_CLIENT, chunks) == DrainLines(r, Append(FRESH_CLIENT, Concat(chunks)))
    ensures ByteLength(AcceptChunks(r, FRESH_CLIENT, chunks).buffer) <= MAX_LINE_BYTES
  {
    PrefixUnrefused(r, ms, Concat(chunks));
    if chunks != [] {
      var init := chunks[..|chunks| - 1];
      ConcatFront(chunks);
      ChunksTaken(r, ms, init);
      ByteLengthConcat(AcceptChunks(r, FRESH_CLIENT, init).buffer, chunks[|chunks| - 1]);
      PrefixUnrefused(r, ms, Concat(init));
      AsOneChunk(r, FRESH_CLIENT, chunks);
    }
  }

  /**
   Everything a host writes, its events numbered without gaps and their payloads valid, cut into chunks of at most
   one line limit in any way, reaches the desktop intact and in order, without a failure and with nothing left over.
   */
  lemma HostReachesDesktop(r: Reader, ms: seq<Message>, count: int, chunks: seq<string>)
    requires Lawful(r.codec) && Sendable(r.codec, r.session, ms) && AllValid(r, ms) && HostChannel.Numbered(ms, count)
    requires Concat(chunks) == Stream(r.codec, r.session, ms)
    requires forall i :: 0 <= i < |chunks| ==> ByteLength(chunks[i]) <= MAX_LINE_BYTES
    ensures AcceptChunks(r, FRESH_CLIENT, chunks) == Client("", count, ms, 0)
  {
    NumberedRises(ms, count);
    ChunksTaken(r, ms, chunks);
    var text := Stream(r.codec, r.session, ms);
    assert "" + text == text && FRESH_CLIENT.delivered + ms == ms;
    PrefixTaken(r, Append(FRESH_CLIENT, text), ms);
    if chunks == [] { EmptyStream(r, ms); }
  }

  lemma EmptyStream(r: Reader, ms: seq<Message>)
    requires Stream(r.codec, r.session, ms) == ""
    ensures ms == []
  {}
}

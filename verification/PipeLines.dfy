/** What the host makes of any text it is sent, line by line (apps/runtime-host/src/main.ts). */
module PipeLines {
  import opened Results
  import opened CodeUnits
  import opened Sequences
  import opened ControlProtocol
  import opened PipeFraming

  // --- one line ---

  predicate NameSized(name: string) { 1 <= Utf16Length(name) <= 128 }

  /** A record says `m` to the holder of `session`, whatever members it has besides. */
  predicate Says(r: Record, session: string, m: Message) {
    && r.v == Whole(1)
    && r.session == Text(session)
    && match m
       case Request(id, name, payload) =>
         && r.kind == Text("request") && r.payload == payload
         && r.id == Text(id) && NameSized(id) && r.name == Text(name) && NameSized(name)
       case Response(id, ok, payload) =>
         r.kind == Text("response") && r.payload == payload && r.id == Text(id) && r.ok == Truth(ok)
       case EventMessage(sequence, event, payload) =>
         && r.kind == Text("event") && r.payload == payload
         && r.sequence == Whole(sequence) && sequence > 0 && r.event == Text(event)
       case Cancel(id) => r.kind == Text("cancel") && r.id == Text(id) && NameSized(id)
  }

  lemma RecordSays(r: Record, session: string, m: Message)
    ensures FromRecord(r, session) == Some(m) <==> Says(r, session, m)
  {}

  /** A line is taken for a message exactly if it has at most 1 MiB and is JSON of a record that says so. */
  lemma ParseAnswers(c: Codec, session: string, line: string, m: Message)
    ensures Parse(c, session, line) == Some(m)
            <==> ByteLength(line) <= 1048576 && exists r :: c.parse(line) == Some(JsonRecord(r)) && Says(r, session, m)
  {
    match c.parse(line)
    case Some(JsonRecord(r)) => RecordSays(r, session, m);
    case _ =>
  }

  /** One past the last scalar value that UTF-8 writes in one, two, three and four bytes (section 3 of RFC 3629). */
  const CODE_SPACE: seq<int> := [0x80, 0x800, 0x10000, 0x110000]

  /** Byte limits count each character at its shortest form. */
  lemma ShortestForm(c: char)
    ensures 1 <= CharBytes(c) <= 4 && c as int < CODE_SPACE[CharBytes(c) - 1]
    ensures CharBytes(c) > 1 ==> CODE_SPACE[CharBytes(c) - 2] <= c as int
  {}

  // --- many lines ---

  /** `body` is the line without the one carriage return that may end it. */
  predicate Holds(line: string, body: string) {
    || line == body + "\r"
    || (line == body && (body == "" || body[|body| - 1] != '\r'))
  }

  function Terminated(lines: seq<string>): string {
    if lines == [] then "" else lines[0] + (['\n'] + Terminated(lines[1..]))
  }

  predicate Readable(c: Codec, session: string, line: string, body: string) {
    && '\n' !in line
    && Holds(line, body)
    && (body == "" || Parse(c, session, body).Some?)
  }

  predicate AllReadable(c: Codec, session: string, lines: seq<string>, bodies: seq<string>) {
    && |lines| == |bodies|
    && forall i :: 0 <= i < |lines| ==> Readable(c, session, lines[i], bodies[i])
  }

  /** What the lines that are not blank say, in their order. */
  function Messages(c: Codec, session: string, bodies: seq<string>): seq<Message> {
    if bodies == [] then []
    else (match Parse(c, session, bodies[0])
          case Some(m) => if bodies[0] == "" then [] else [m]
          case None => [])
         + Messages(c, session, bodies[1..])
  }

  lemma Unfinished(c: Codec, session: string, text: string)
    requires '\n' !in text
    ensures Drain(c, session, text) == Drained([], text, false)
  {
    NoNewline(text);
  }

  lemma OneReadable(c: Codec, session: string, line: string, body: string, rest: string, d: Drained)
    requires Readable(c, session, line, body)
    ensures Prepend(Classify(c, session, Chomp(line)), rest, d)
            == Drained(Messages(c, session, [body]) + d.delivered, d.rest, d.refused)
  {
    assert Messages(c, session, [body][1..]) == [];
  }

  lemma MessagesFirst(c: Codec, session: string, bodies: seq<string>)
    requires bodies != []
    ensures Messages(c, session, bodies) == Messages(c, session, [bodies[0]]) + Messages(c, session, bodies[1..])
  {
    assert Messages(c, session, [bodies[0]][1..]) == [];
  }

  lemma {:induction false} DrainsLines(c: Codec, session: string, lines: seq<string>, bodies: seq<string>, tail: string)
    requires AllReadable(c, session, lines, bodies) && '\n' !in tail
    ensures Drain(c, session, Terminated(lines) + tail) == Drained(Messages(c, session, bodies), tail, false)
  {
    if lines == [] {
      assert Terminated(lines) + tail == tail;
      Unfinished(c, session, tail);
    } else {
      var rest := Terminated(lines[1..]) + tail;
      DrainsLines(c, session, lines[1..], bodies[1..], tail);
      Shifted(lines[0], Terminated(lines[1..]), tail);
      DrainLine(c, session, Terminated(lines) + tail, lines[0], rest);
      assert Readable(c, session, lines[0], bodies[0]);
      OneReadable(c, session, lines[0], bodies[0], rest, Drain(c, session, rest));
      MessagesFirst(c, session, bodies);
    }
  }

  /** A line that is neither blank nor a message for this session. */
  predicate Unreadable(c: Codec, session: string, line: string, body: string) {
    '\n' !in line && Holds(line, body) && body != "" && Parse(c, session, body).None?
  }

  lemma StopsThere(c: Codec, session: string, line: string, body: string, tail: string)
    requires Unreadable(c, session, line, body)
    ensures Drain(c, session, line + (['\n'] + tail)) == Drained([], tail, true)
  {
    DrainLine(c, session, line + (['\n'] + tail), line, tail);
  }

  lemma Stopped(x: Drained, y: Drained, xy: Drained)
    requires !x.refused && Continues(x, y, xy) && y.delivered == [] && y.refused
    ensures xy == Drained(x.delivered, y.rest, true)
  {}

  lemma DrainStops(c: Codec, session: string, lines: seq<string>, bodies: seq<string>, line: string, body: string,
                   tail: string)
    requires AllReadable(c, session, lines, bodies) && Unreadable(c, session, line, body)
    ensures Drain(c, session, Terminated(lines) + (line + (['\n'] + tail)))
            == Drained(Messages(c, session, bodies), tail, true)
  {
    var before, text := Terminated(lines), line + (['\n'] + tail);
    DrainsLines(c, session, lines, bodies, "");
    assert before + "" == before && "" + text == text;
    StopsThere(c, session, line, body, tail);
    DrainConcat(c, session, before, text);
    Stopped(Drain(c, session, before), Drain(c, session, text), Drain(c, session, before + text));
  }

  /**
   Sent lines it can read, however they are cut and whether they end in LF or CRLF, the host delivers what those that
   are not blank say, in their order, and keeps the unfinished line.
   */
  lemma HostReads(c: Codec, session: string, chunks: seq<string>, lines: seq<string>, bodies: seq<string>, tail: string)
    requires AllReadable(c, session, lines, bodies) && '\n' !in tail
    requires Concat(chunks) == Terminated(lines) + tail && !Overflows(c, session, chunks)
    ensures AcceptAll(c, session, FRESH_PIPE, chunks) == Pipe(tail, false, Messages(c, session, bodies))
  {
    DrainsLines(c, session, lines, bodies, tail);
    ChunksDrain(c, session, chunks);
  }

  /** At the first line it cannot read the host has delivered what stands before it, and fails for good. */
  lemma HostStops(c: Codec, session: string, chunks: seq<string>, lines: seq<string>, bodies: seq<string>, line: string,
                  body: string, tail: string)
    requires AllReadable(c, session, lines, bodies) && Unreadable(c, session, line, body)
    requires Concat(chunks) == Terminated(lines) + (line + (['\n'] + tail)) && !Overflows(c, session, chunks)
    ensures var p := AcceptAll(c, session, FRESH_PIPE, chunks);
            p.failed && p.delivered == Messages(c, session, bodies)
  {
    DrainStops(c, session, lines, bodies, line, body, tail);
    ChunksDrain(c, session, chunks);
  }

  /** A chunk that takes the buffer over 2 MiB ends the pipe unread; one that only lengthens a line does not. */
  lemma BoundAnswers(c: Codec, session: string, p: Pipe, chunk: string)
    requires !p.failed
    ensures var q := Accept(c, session, p, chunk);
            && (ByteLength(p.buffer + chunk) > 2097152 ==> q.failed && q.delivered == p.delivered)
            && (ByteLength(p.buffer + chunk) <= 2097152 && '\n' !in p.buffer + chunk ==>
                  q == p.(buffer := p.buffer + chunk))
  {
    if '\n' !in p.buffer + chunk { Unfinished(c, session, p.buffer + chunk); }
  }

  /** A pipe that failed takes nothing any more. */
  lemma {:induction false} FailedForGood(c: Codec, session: string, p: Pipe, chunks: seq<string>)
    requires p.failed
    ensures AcceptAll(c, session, p, chunks) == p
  {
    if chunks != [] { FailedForGood(c, session, p, chunks[..|chunks| - 1]); }
  }
}

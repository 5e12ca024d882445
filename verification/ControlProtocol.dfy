/**
 Messages of the control pipe and their lines (packages/control-plane-contract/src/protocol.ts).  JSON
 text is a printer and parser pair; the envelope and shape checks on the parsed record are explicit.
 */
module ControlProtocol {
  import opened CodeUnits
  import opened Results

  const MAX_LINE_BYTES: nat := 1048576
  const VERSION: int := 1
  const MAX_NAME_LENGTH: nat := 128

  /** Bytes of one Unicode scalar value in UTF-8. */
  function CharBytes(c: char): nat {
    if c as int < 0x80 then 1 else if c as int < 0x800 then 2 else if c as int < 0x10000 then 3 else 4
  }

  function ByteLength(s: string): nat {
    if s == "" then 0 else ByteLength(s[..|s| - 1]) + CharBytes(s[|s| - 1])
  }

  lemma {:induction false} ByteLengthConcat(a: string, b: string)
    ensures ByteLength(a + b) == ByteLength(a) + ByteLength(b)
  {
    if b == "" {
      assert a + b == a;
    } else {
      assert (a + b)[..|a + b| - 1] == a + b[..|b| - 1];
      ByteLengthConcat(a, b[..|b| - 1]);
    }
  }

  lemma ByteLengthPrefix(a: string, b: string)
    requires a <= b
    ensures ByteLength(a) <= ByteLength(b)
  {
    assert b == a + b[|a|..];
    ByteLengthConcat(a, b[|a|..]);
  }

  /** A member of a parsed record. */
  datatype Field = Absent | Text(text: string) | Whole(number: int) | Truth(flag: bool) | Other(tag: nat)

  datatype Record = Record(
    v: Field, session: Field, kind: Field, id: Field, name: Field, ok: Field, sequence: Field, event: Field,
    payload: Field)

  datatype Json = JsonRecord(record: Record) | JsonOther

  datatype Message =
    | Request(id: string, name: string, payload: Field)
    | Response(id: string, ok: bool, payload: Field)
    | EventMessage(sequence: int, event: string, payload: Field)
    | Cancel(id: string)

  /** JSON text: what the runtime's `JSON.stringify` and `JSON.parse` do to records. */
  datatype Codec = Codec(render: Record -> string, parse: string -> Option<Json>)

  /**
   Parsing undoes printing.  Printed text of an object ends in a brace, and no newline occurs in it, as
   section 7 of RFC 8259 requires control characters inside strings to be escaped.
   */
  ghost predicate Lawful(c: Codec) {
    forall r: Record ::
      && c.parse(c.render(r)) == Some(JsonRecord(r))
      && '\n' !in c.render(r)
      && c.render(r) != "" && c.render(r)[|c.render(r)| - 1] == '}'
  }

  function ToRecord(session: string, m: Message): Record {
    var envelope := Record(Whole(VERSION), Text(session), Absent, Absent, Absent, Absent, Absent, Absent, Absent);
    match m
    case Request(id, name, payload) =>
      envelope.(kind := Text("request"), id := Text(id), name := Text(name), payload := payload)
    case Response(id, ok, payload) =>
      envelope.(kind := Text("response"), id := Text(id), ok := Truth(ok), payload := payload)
    case EventMessage(sequence, event, payload) =>
      envelope.(kind := Text("event"), sequence := Whole(sequence), event := Text(event), payload := payload)
    case Cancel(id) => envelope.(kind := Text("cancel"), id := Text(id))
  }

  function Line(c: Codec, session: string, m: Message): string {
    c.render(ToRecord(session, m))
  }

  /** The line with its newline, unless it is over the limit. */
  function Serialize(c: Codec, session: string, m: Message): Option<string> {
    if ByteLength(Line(c, session, m)) > MAX_LINE_BYTES then None
    else Some(Line(c, session, m) + "\n")
  }

  predicate NameLength(name: string) { 1 <= Utf16Length(name) <= MAX_NAME_LENGTH }

  predicate IsName(f: Field) {
    f.Text? && NameLength(f.text)
  }

  function FromRecord(r: Record, session: string): Option<Message> {
    if r.v != Whole(VERSION) || r.session != Text(session) then None
    else if r.kind == Text("request") then
      if IsName(r.id) && IsName(r.name) then Some(Request(r.id.text, r.name.text, r.payload)) else None
    else if r.kind == Text("response") then
      if r.id.Text? && r.ok.Truth? then Some(Response(r.id.text, r.ok.flag, r.payload)) else None
    else if r.kind == Text("event") then
      if r.sequence.Whole? && r.sequence.number >= 1 && r.event.Text?
      then Some(EventMessage(r.sequence.number, r.event.text, r.payload)) else None
    else if r.kind == Text("cancel") then
      if IsName(r.id) then Some(Cancel(r.id.text)) else None
    else None
  }

  function Parse(c: Codec, session: string, line: string): Option<Message> {
    if ByteLength(line) > MAX_LINE_BYTES then None
    else match c.parse(line)
      case None => None
      case Some(JsonOther) => None
      case Some(JsonRecord(r)) => FromRecord(r, session)
  }

  /** The shape the receiver demands of a message. */
  predicate WellFormed(m: Message) {
    match m
    case Request(id, name, _) => NameLength(id) && NameLength(name)
    case Response(_, _, _) => true
    case EventMessage(sequence, _, _) => sequence >= 1
    case Cancel(id) => NameLength(id)
  }

  /** A message survives the pipe exactly when the serializer takes it and its shape is one the parser demands. */
  lemma RoundTrip(c: Codec, session: string, m: Message)
    requires Lawful(c)
    ensures Parse(c, session, Line(c, session, m)) ==
              if Serialize(c, session, m).Some? && WellFormed(m) then Some(m) else None
  {
    assert c.parse(c.render(ToRecord(session, m))) == Some(JsonRecord(ToRecord(session, m)));
  }

  /** A line of another session is refused whatever it holds. */
  lemma OtherSessionRefused(c: Codec, session: string, other: string, m: Message)
    requires Lawful(c) && session != other
    ensures Parse(c, other, Line(c, session, m)) == None
  {
    assert c.parse(c.render(ToRecord(session, m))) == Some(JsonRecord(ToRecord(session, m)));
  }
}

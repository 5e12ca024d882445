/** `RuntimeHostClient`: how the desktop reads the pipe, with its fields (apps/desktop/src/runtime-host-client.ts). */
module DesktopClient {
  import opened Results
  import opened ControlProtocol
  import opened PipeFraming
  import opened DesktopFraming

  class RuntimeHostClient {
    const reader: Reader
    var buffer: string
    var lastEventSequence: int
    var delivered: seq<Message>       // history: messages that reached their handler
    var failures: nat                 // history: calls of the failure handler

    ghost function State(): Client
      reads this
    {
      Client(buffer, lastEventSequence, delivered, failures)
    }

    constructor (reader: Reader)
      ensures this.reader == reader && State() == FRESH_CLIENT
    {
      this.reader := reader;
      buffer, lastEventSequence, delivered, failures := "", 0, [], 0;
    }

    method HandleChildFailure()
      modifies this`failures
      ensures State() == DesktopFraming.Fail(old(State()))
    {
      failures := failures + 1;
    }

    /** False stands for the error the source throws. */
    method HandleMessage(m: Message) returns (taken: bool)
      modifies this`lastEventSequence, this`delivered, this`failures
      ensures (State(), taken) == DesktopFraming.HandleMessage(reader, old(State()), m)
    {
      if m.EventMessage? {
        if m.sequence <= lastEventSequence {
          HandleChildFailure();
          return false;
        }
        lastEventSequence := m.sequence;
        if !reader.valid(m) {
          HandleChildFailure();
          return false;
        }
      }
      delivered := delivered + [m];
      return true;
    }

    method HandleLine(line: string) returns (taken: bool)
      modifies this`lastEventSequence, this`delivered, this`failures
      ensures (State(), taken) == DesktopFraming.HandleLine(reader, old(State()), line)
    {
      if line == "" { return true; }
      var message := Parse(reader.codec, reader.session, line);
      if message.None? {
        HandleChildFailure();
        return false;
      }
      taken := HandleMessage(message.value);
    }

    /** Appends the chunk and handles complete lines up to the first refused one. */
    method AcceptChunk(chunk: string)
      modifies this
      ensures State() == DesktopFraming.AcceptChunk(reader, old(State()), chunk)
    {
      buffer := buffer + chunk;
      if ByteLength(buffer) > MAX_BUFFER_BYTES {
        HandleChildFailure();
        return;
      }
      ghost var all := DrainLines(reader, State());
      while true
        invariant DrainLines(reader, State()) == all
        decreases |buffer|
      {
        var newline := NewlineFrom(buffer, 0);
        if newline.None? { return; }
        var line := Chomp(buffer[..newline.value]);
        buffer := buffer[newline.value + 1..];
        var taken := HandleLine(line);
        if !taken { return; }
      }
    }
  }
}

/** The ConPTY shell's input loop over its pending buffer, proved against ShellInput. */
module ConPtyShell {
  import opened CodeUnits
  import opened Sequences
  import opened ShellInput

  lemma {:induction false} LinesConcat(a: seq<Text>, b: seq<Text>)
    ensures Commands(a + b) == Commands(a) + Commands(b)
    ensures Outputs(a + b) == Outputs(a) + Outputs(b)
  {
    if a == [] {
      assert a + b == b;
    } else {
      var rest := a[1..];
      CutInFirst(a, b, 1);
      LinesConcat(rest, b);
      Associates(Commands([a[0]]), Commands(rest), Commands(b));
      Associates(Outputs([a[0]]), Outputs(rest), Outputs(b));
      OneLine(a[0]);
      assert Commands(a) == Commands([a[0]]) + Commands(rest);
      assert Outputs(a) == Outputs([a[0]]) + Outputs(rest);
    }
  }

  /** The shell's state after draining `pending` on top of what was queued and written before. */
  datatype Shell = Shell(keep: bool, pending: Text, queued: seq<Text>, output: seq<Output>)

  function After(drained: Drained, queued: seq<Text>, output: seq<Output>): Shell {
    Shell(drained.keep, drained.rest, queued + Commands(drained.handled), output + Outputs(drained.handled))
  }

  lemma BufferDone(pending: Text, queued: seq<Text>, output: seq<Output>)
    ensures After(Drained(true, [], pending), queued, output) == Shell(true, pending, queued, output)
  {
    assert queued + [] == queued && output + [] == output;
  }

  lemma ExitDone(pending: Text, queued: seq<Text>, output: seq<Output>)
    ensures After(Drained(false, [], pending), queued, output) == Shell(false, pending, queued, output)
  {
    assert queued + [] == queued && output + [] == output;
  }

  /** What handling one line appends to the commands and to the terminal. */
  lemma OneLine(command: Text)
    ensures Commands([command]) == if Blank(command) || Exits(command) then [] else [command]
    ensures Outputs([command]) == if Blank(command) then [Line(command), Prompt] else [Line(command)]
  {
    assert [command][1..] == [];
  }

  lemma LineDone(pending: Text, queued: seq<Text>, output: seq<Output>)
    requires FirstTerminator(pending) < |pending|
    ensures var t := FirstTerminator(pending);
            var command, rest := pending[..t], pending[t + TerminatorLength(pending, t)..];
            After(Drain(pending), queued, output)
            == After(if Exits(command) then Drained(false, [], rest) else Drain(rest),
                     queued + Commands([command]), output + Outputs([command]))
  {
    var t := FirstTerminator(pending);
    var command, rest := pending[..t], pending[t + TerminatorLength(pending, t)..];
    var later := if Exits(command) then Drained(false, [], rest) else Drain(rest);
    assert Drain(pending).handled == [command] + later.handled;
    HandledOnTop([command], later, queued, output);
  }

  lemma HandledOnTop(first: seq<Text>, later: Drained, queued: seq<Text>, output: seq<Output>)
    ensures After(Drained(later.keep, first + later.handled, later.rest), queued, output)
            == After(later, queued + Commands(first), output + Outputs(first))
  {
    LinesConcat(first, later.handled);
    var a, b := Commands(first), Commands(later.handled);
    assert queued + (a + b) == (queued + a) + b;
    var c, d := Outputs(first), Outputs(later.handled);
    assert output + (c + d) == (output + c) + d;
  }

  lemma PayloadDone(pending: Text, payloads: seq<Text>, queued: seq<Text>, output: seq<Output>)
    requires payloads != []
    ensures var first := Drain(pending + payloads[0]);
            After(Feed(pending, payloads), queued, output)
            == After(if first.keep then Feed(first.rest, payloads[1..]) else Drained(false, [], first.rest),
                     queued + Commands(first.handled), output + Outputs(first.handled))
  {
    var first := Drain(pending + payloads[0]);
    var later := if first.keep then Feed(first.rest, payloads[1..]) else Drained(false, [], first.rest);
    assert first.handled + [] == first.handled;
    assert Feed(pending, payloads).handled == first.handled + later.handled;
    HandledOnTop(first.handled, later, queued, output);
  }

  class ConPtyShell {
    /** The StringBuilder that keeps an unfinished line. */
    var pending: Text
    /** The commands written to PowerShell's standard input. */
    var queued: seq<Text>
    /** What was written to the terminal. */
    var output: seq<Output>

    /** How a payload is encoded on the command pipe. */
    const decode: Text -> Text

    constructor (decode: Text -> Text)
      ensures this.decode == decode && pending == [] && queued == [] && output == []
    {
      this.decode := decode;
      pending, queued, output := [], [], [];
    }

    method FindTerminator() returns (terminator: int)
      ensures terminator == if FirstTerminator(pending) < |pending| then FirstTerminator(pending) else -1
    {
      terminator := -1;
      var index := 0;
      while index < |pending|
        invariant 0 <= index <= |pending| && terminator == -1
        invariant forall i :: 0 <= i < index ==> !Terminator(pending[i])
      {
        if Terminator(pending[index]) {
          FirstIn(pending, index);
          return index;
        }
        index := index + 1;
      }
    }

    /** Removes the first line with its terminator, echoes it, and prompts, queues it, or finds that it exits. */
    method TakeLine(terminator: nat) returns (exits: bool)
      requires terminator == FirstTerminator(pending) < |pending|
      modifies this
      ensures var command := old(pending)[..terminator];
              && exits == Exits(command)
              && pending == old(pending)[terminator + TerminatorLength(old(pending), terminator)..]
              && queued == old(queued) + Commands([command])
              && output == old(output) + Outputs([command])
    {
      var terminatorLength := 1;
      if pending[terminator] == CR && terminator + 1 < |pending| && pending[terminator + 1] == LF {
        terminatorLength := 2;
      }
      var command := pending[..terminator];
      OneLine(command);
      pending := pending[terminator + terminatorLength..];
      output := output + [Line(command)];
      if Blank(command) {
        output := output + [Prompt];
        assert output == old(output) + [Line(command), Prompt] && queued == old(queued) + [];
        return false;
      }
      if Exits(command) {
        assert queued == old(queued) + [];
        return true;
      }
      queued := queued + [command];
      return false;
    }

    method DrainConPtyShellInput(payload: Text) returns (keep: bool)
      modifies this
      ensures var drained := Drain(old(pending) + payload);
              && keep == drained.keep && pending == drained.rest
              && queued == old(queued) + Commands(drained.handled)
              && output == old(output) + Outputs(drained.handled)
    {
      pending := pending + payload;
      ghost var all := After(Drain(pending), queued, output);
      while true
        invariant After(Drain(pending), queued, output) == all
        decreases |pending|
      {
        var terminator := FindTerminator();
        if terminator < 0 {
          BufferDone(pending, queued, output);
          return true;
        }
        LineDone(pending, queued, output);
        var exits := TakeLine(terminator);
        if exits {
          ExitDone(pending, queued, output);
          assert all == Shell(false, pending, queued, output);
          return false;
        }
      }
    }

    /** A line is the closing one, or typed text behind the tag and a tab, or skipped. */
    method ReadRecord(line: Text) returns (record: Record)
      ensures record == RecordOf(line, decode)
      ensures record.Closing? <==> line == CLOSE
      ensures record.Typed? <==> KEYS + [TAB] <= line
      ensures record.Typed? ==> record.payload == decode(line[2..])
    {
      RecordMeans(line, decode);
      if line == CLOSE { return Closing; }
      var tab := FirstTab(line);
      if tab == |line| || tab == 0 || line[..tab] != KEYS { return Other; }
      return Typed(decode(line[tab + 1..]));
    }

    /**
     Reads lines until one closes the shell, a payload exits it, or there are no more; the commands are those of
     the whole text typed.
     */
    method RunConPtyShell(lines: seq<Text>) returns (keepRunning: bool)
      requires pending == []
      modifies this
      ensures var payloads := Payloads(lines, decode);
              && keepRunning == Feed([], payloads).keep && pending == Feed([], payloads).rest
              && queued == old(queued) + Commands(Feed([], payloads).handled)
              && queued == old(queued) + Commands(UpToExit(Segments(Concat(payloads))))
              && output == old(output) + Outputs(Feed([], payloads).handled)
    {
      ghost var payloads := Payloads(lines, decode);
      SplitImmaterial(payloads);
      ghost var all := After(Feed([], payloads), queued, output);
      keepRunning := true;
      var i := 0;
      assert lines[0..] == lines;
      while keepRunning && i < |lines|
        invariant 0 <= i <= |lines|
        invariant After(if keepRunning then Feed(pending, Payloads(lines[i..], decode))
                        else Drained(false, [], pending),
                        queued, output) == all
      {
        NextRecord(lines, i, decode);
        var record := ReadRecord(lines[i]);
        if record.Closing? { break; }
        i := i + 1;
        if record.Other? { continue; }
        PayloadDone(pending, [record.payload] + Payloads(lines[i..], decode), queued, output);
        assert ([record.payload] + Payloads(lines[i..], decode))[1..] == Payloads(lines[i..], decode);
        keepRunning := DrainConPtyShellInput(record.payload);
      }
      assert Feed(pending, []) == Drained(true, [], pending);
      assert queued + [] == queued && output + [] == output;
    }
  }

  // --- the records of the command pipe ---

  const TAB: CodeUnit := 9

  /** The line that closes the shell, and the tag of typed text. */
  const CLOSE: Text := [67]
  const KEYS: Text := [75]

  function FirstTab(line: Text): (t: nat)
    ensures t <= |line|
  {
    if line == [] || line[0] == TAB then 0 else 1 + FirstTab(line[1..])
  }

  datatype Record = Closing | Typed(payload: Text) | Other

  function RecordOf(line: Text, decode: Text -> Text): Record {
    var tab := FirstTab(line);
    if line == CLOSE then Closing
    else if 0 < tab < |line| && line[..tab] == KEYS then Typed(decode(line[tab + 1..]))
    else Other
  }

  /** Only a tag before the first tab counts, so a typed line is one that begins with the tag and a tab. */
  lemma RecordMeans(line: Text, decode: Text -> Text)
    ensures RecordOf(line, decode).Closing? <==> line == CLOSE
    ensures RecordOf(line, decode).Typed? <==> KEYS + [TAB] <= line
    ensures RecordOf(line, decode).Typed? ==> RecordOf(line, decode).payload == decode(line[2..])
  {
    if KEYS + [TAB] <= line {
      assert line[0] == (KEYS + [TAB])[0] && line[1] == (KEYS + [TAB])[1];
      assert line[1..][0] == TAB && FirstTab(line[1..]) == 0 && FirstTab(line) == 1;
      assert line[..1] == KEYS;
    }
    var tab := FirstTab(line);
    if 0 < tab < |line| && line[..tab] == KEYS {
      TabAt(line);
      assert line[0] == line[..tab][0];
      assert line == KEYS + ([TAB] + line[2..]);
    }
  }

  lemma {:induction false} TabAt(line: Text)
    requires FirstTab(line) < |line|
    ensures line[FirstTab(line)] == TAB
  {
    if line[0] != TAB { TabAt(line[1..]); }
  }

  /** The texts typed in a run of lines, up to a closing line. */
  function Payloads(lines: seq<Text>, decode: Text -> Text): seq<Text>
    decreases |lines|
  {
    if lines == [] then []
    else match RecordOf(lines[0], decode)
      case Closing => []
      case Typed(payload) => [payload] + Payloads(lines[1..], decode)
      case Other => Payloads(lines[1..], decode)
  }

  lemma NextRecord(lines: seq<Text>, i: nat, decode: Text -> Text)
    requires i < |lines|
    ensures Payloads(lines[i..], decode) == match RecordOf(lines[i], decode)
                                            case Closing => []
                                            case Typed(payload) => [payload] + Payloads(lines[i + 1..], decode)
                                            case Other => Payloads(lines[i + 1..], decode)
  {
    assert lines[i..][0] == lines[i] && lines[i..][1..] == lines[i + 1..];
  }
}

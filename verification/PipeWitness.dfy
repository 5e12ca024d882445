/**
 A text form that keeps the promises asked of JSON text, and with it a stream on which the chunk limit is tight:
 so what is proved for every lawful text form is proved of something.
 */
module PipeWitness {
  import opened Results
  import opened Sequences
  import opened ControlProtocol
  import opened PipeFraming

  // --- strings, escaped and closed by a quote ---

  function Escape(c: char): string {
    if c == '\n' then "\\n" else if c == '"' then "\\q" else if c == '\\' then "\\\\" else [c]
  }

  function Unescape(c: char): char { if c == 'n' then '\n' else if c == 'q' then '"' else c }

  function Quoted(s: string): string {
    if s == "" then "\"" else Escape(s[0]) + Quoted(s[1..])
  }

  function ReadQuoted(s: string): Option<(string, string)> {
    if s == "" then None
    else if s[0] == '"' then Some(("", s[1..]))
    else if s[0] == '\\' then
      if |s| < 2 then None
      else match ReadQuoted(s[2..])
        case None => None
        case Some((t, rest)) => Some(([Unescape(s[1])] + t, rest))
    else match ReadQuoted(s[1..])
      case None => None
      case Some((t, rest)) => Some(([s[0]] + t, rest))
  }

  lemma {:induction false} QuotedReads(s: string, rest: string)
    ensures ReadQuoted(Quoted(s) + rest) == Some((s, rest))
  {
    if s == "" {
      assert ("\"" + rest)[1..] == rest;
    } else {
      QuotedReads(s[1..], rest);
      Associates(Escape(s[0]), Quoted(s[1..]), rest);
      FirstReads(s[0], Quoted(s[1..]) + rest, s[1..], rest);
      assert s == [s[0]] + s[1..];
    }
  }

  lemma FirstReads(c: char, tail: string, t: string, rest: string)
    requires ReadQuoted(tail) == Some((t, rest))
    ensures ReadQuoted(Escape(c) + tail) == Some(([c] + t, rest))
  {
    var e := Escape(c);
    assert (e + tail)[0] == e[0] && (e + tail)[|e|..] == tail;
    if |e| == 2 { assert (e + tail)[1] == e[1]; }
  }

  // --- numbers, in unary and closed by a semicolon ---

  function Ones(n: nat): string { if n == 0 then ";" else "1" + Ones(n - 1) }

  function ReadOnes(s: string): Option<(nat, string)> {
    if s == "" then None
    else if s[0] == ';' then Some((0, s[1..]))
    else match ReadOnes(s[1..])
      case None => None
      case Some((n, rest)) => Some((n + 1, rest))
  }

  lemma {:induction false} OnesRead(n: nat, rest: string)
    ensures ReadOnes(Ones(n) + rest) == Some((n, rest))
  {
    if n == 0 {
      assert (";" + rest)[1..] == rest;
    } else {
      OnesRead(n - 1, rest);
      assert ("1" + Ones(n - 1) + rest)[1..] == Ones(n - 1) + rest;
    }
  }

  // --- fields and records ---

  function FieldText(f: Field): string {
    match f
    case Absent => "-"
    case Text(t) => "s" + Quoted(t)
    case Whole(n) => if n >= 0 then "p" + Ones(n) else "m" + Ones(-n)
    case Truth(flag) => if flag then "t" else "f"
    case Other(tag) => "o" + Ones(tag)
  }

  function ReadField(s: string): Option<(Field, string)> {
    if s == "" then None
    else if s[0] == '-' then Some((Absent, s[1..]))
    else if s[0] == 't' then Some((Truth(true), s[1..]))
    else if s[0] == 'f' then Some((Truth(false), s[1..]))
    else if s[0] == 's' then
      match ReadQuoted(s[1..])
      case None => None
      case Some((t, rest)) => Some((Text(t), rest))
    else
      match ReadOnes(s[1..])
      case None => None
      case Some((n, rest)) =>
        var number: int := n;
        Some((if s[0] == 'p' then Whole(number) else if s[0] == 'm' then Whole(-number) else Other(n), rest))
  }

  lemma FirstOf(first: char, text: string, rest: string)
    ensures ([first] + text + rest)[0] == first && ([first] + text + rest)[1..] == text + rest
  {}

  lemma TextReads(t: string, rest: string)
    ensures ReadField("s" + Quoted(t) + rest) == Some((Text(t), rest))
  {
    FirstOf('s', Quoted(t), rest);
    QuotedReads(t, rest);
  }

  lemma NumberReads(tag: char, n: nat, rest: string)
    requires tag in "pmo"
    ensures ReadField([tag] + Ones(n) + rest)
            == Some((if tag == 'p' then Whole(n) else if tag == 'm' then Whole(-(n as int)) else Other(n), rest))
  {
    FirstOf(tag, Ones(n), rest);
    OnesRead(n, rest);
  }

  lemma FieldReads(f: Field, rest: string)
    ensures ReadField(FieldText(f) + rest) == Some((f, rest))
  {
    match f
    case Text(t) => TextReads(t, rest);
    case Whole(n) => if n >= 0 { NumberReads('p', n, rest); } else { NumberReads('m', -n, rest); }
    case Other(tag) => NumberReads('o', tag, rest);
    case Absent => assert ("-" + rest)[1..] == rest;
    case Truth(flag) => assert ("t" + rest)[1..] == rest && ("f" + rest)[1..] == rest;
  }

  function FieldsText(fs: seq<Field>): string { if fs == [] then "}" else FieldText(fs[0]) + FieldsText(fs[1..]) }

  function ReadFields(s: string, n: nat): Option<seq<Field>>
    decreases n
  {
    if n == 0 then (if s == "}" then Some([]) else None)
    else
      match ReadField(s)
      case None => None
      case Some((f, rest)) =>
        match ReadFields(rest, n - 1)
        case None => None
        case Some(fs) => Some([f] + fs)
  }

  lemma {:induction false} FieldsRead(fs: seq<Field>)
    ensures ReadFields(FieldsText(fs), |fs|) == Some(fs)
  {
    if fs != [] {
      FieldsRead(fs[1..]);
      FieldReads(fs[0], FieldsText(fs[1..]));
      assert fs == [fs[0]] + fs[1..];
    }
  }

  function FieldsOf(r: Record): seq<Field> {
    [r.v, r.session, r.kind, r.id, r.name, r.ok, r.sequence, r.event, r.payload]
  }

  function Render(r: Record): string { "{" + FieldsText(FieldsOf(r)) }

  function Read(s: string): Option<Json> {
    if s == "" then None
    else match ReadFields(s[1..], 9)
      case None => None
      case Some(fs) =>
        if |fs| != 9 then None
        else Some(JsonRecord(Record(fs[0], fs[1], fs[2], fs[3], fs[4], fs[5], fs[6], fs[7], fs[8])))
  }

  const WITNESS := Codec(Render, Read)

  // --- the characters of a record ---

  /** No newline; and nothing outside ASCII unless a text of the fields holds some. */
  predicate Clean(s: string, ascii: bool) {
    forall i :: 0 <= i < |s| ==> s[i] != '\n' && (ascii ==> s[i] as int < 0x80)
  }

  lemma {:induction false} QuotedClean(s: string, ascii: bool)
    requires ascii ==> forall i :: 0 <= i < |s| ==> s[i] as int < 0x80
    ensures Clean(Quoted(s), ascii)
  {
    if s != "" { QuotedClean(s[1..], ascii); }
  }

  lemma {:induction false} OnesClean(n: nat)
    ensures Clean(Ones(n), true)
  {
    if n > 0 { OnesClean(n - 1); }
  }

  lemma FieldClean(f: Field, ascii: bool)
    requires ascii && f.Text? ==> forall i :: 0 <= i < |f.text| ==> f.text[i] as int < 0x80
    ensures Clean(FieldText(f), ascii)
  {
    match f
    case Text(t) => QuotedClean(t, ascii);
    case Whole(n) => OnesClean(if n >= 0 then n else -n);
    case Other(tag) => OnesClean(tag);
    case _ =>
  }

  lemma {:induction false} FieldsClean(fs: seq<Field>, ascii: bool)
    requires ascii ==> forall f :: f in fs && f.Text? ==> forall i :: 0 <= i < |f.text| ==> f.text[i] as int < 0x80
    ensures Clean(FieldsText(fs), ascii)
    ensures FieldsText(fs) != "" && FieldsText(fs)[|FieldsText(fs)| - 1] == '}'
  {
    if fs != [] {
      FieldClean(fs[0], ascii);
      FieldsClean(fs[1..], ascii);
      CleanConcat(FieldText(fs[0]), FieldsText(fs[1..]), ascii);
    }
  }

  lemma CleanConcat(a: string, b: string, ascii: bool)
    requires Clean(a, ascii) && Clean(b, ascii)
    ensures Clean(a + b, ascii)
    ensures b != "" ==> (a + b)[|a + b| - 1] == b[|b| - 1]
  {}

  lemma WitnessLawful()
    ensures Lawful(WITNESS)
  {
    forall r: Record
      ensures WITNESS.parse(WITNESS.render(r)) == Some(JsonRecord(r))
      ensures '\n' !in WITNESS.render(r)
      ensures WITNESS.render(r) != "" && WITNESS.render(r)[|WITNESS.render(r)| - 1] == '}'
    {
      FieldsRead(FieldsOf(r));
      FieldsClean(FieldsOf(r), false);
      assert Render(r)[1..] == FieldsText(FieldsOf(r));
    }
  }

  // --- a line of exactly the limit ---

  function Letters(n: nat): string { seq(n, _ => 'a') }

  /** A response whose id is `n` letters long. */
  function Sized(n: nat): Message { Response(Letters(n), true, Absent) }

  lemma {:induction false} AsciiBytes(s: string)
    requires Clean(s, true)
    ensures ByteLength(s) == |s|
  {
    if s != "" { AsciiBytes(s[..|s| - 1]); }
  }

  lemma {:induction false} QuotedLength(s: string)
    requires forall i :: 0 <= i < |s| ==> 'a' <= s[i] <= 'z'
    ensures |Quoted(s)| == |s| + 1
  {
    if s != "" { QuotedLength(s[1..]); }
  }

  lemma LengthFrom(fs: seq<Field>, k: nat)
    requires k < |fs|
    ensures |FieldsText(fs[k..])| == |FieldText(fs[k])| + |FieldsText(fs[k + 1..])|
  {
    assert fs[k..][0] == fs[k] && fs[k..][1..] == fs[k + 1..];
  }

  lemma NineLengths(fs: seq<Field>)
    requires |fs| == 9
    ensures |FieldsText(fs)|
            == |FieldText(fs[0])| + |FieldText(fs[1])| + |FieldText(fs[2])| + |FieldText(fs[3])| + |FieldText(fs[4])|
               + |FieldText(fs[5])| + |FieldText(fs[6])| + |FieldText(fs[7])| + |FieldText(fs[8])| + 1
  {
    assert fs[0..] == fs && fs[9..] == [];
    LengthFrom(fs, 0);
    LengthFrom(fs, 1);
    LengthFrom(fs, 2);
    LengthFrom(fs, 3);
    LengthFrom(fs, 4);
    LengthFrom(fs, 5);
    LengthFrom(fs, 6);
    LengthFrom(fs, 7);
    LengthFrom(fs, 8);
  }

  function SizedFields(n: nat): seq<Field> {
    [Whole(VERSION), Text(""), Text("response"), Text(Letters(n)), Absent, Truth(true), Absent, Absent, Absent]
  }

  lemma SizedRenders(n: nat)
    ensures Line(WITNESS, "", Sized(n)) == "{" + FieldsText(SizedFields(n))
  {
    assert FieldsOf(ToRecord("", Sized(n))) == SizedFields(n);
  }

  lemma SizedLength(n: nat)
    ensures |FieldsText(SizedFields(n))| == n + 23
  {
    NineLengths(SizedFields(n));
    FlagLengths(n);
    TextLengths(n);
  }

  lemma FlagLengths(n: nat)
    ensures var fs := SizedFields(n);
            |FieldText(fs[0])| == 3 && |FieldText(fs[4])| == 1 && |FieldText(fs[5])| == 1 && |FieldText(fs[6])| == 1
            && |FieldText(fs[7])| == 1 && |FieldText(fs[8])| == 1
  {
    VersionLength();
  }

  lemma TextLengths(n: nat)
    ensures |FieldText(Text(""))| == 2 && |FieldText(Text("response"))| == 10 && |FieldText(Text(Letters(n)))| == n + 2
  {
    TextLength("");
    KindLength();
    TextLength(Letters(n));
  }

  lemma KindLength()
    ensures |FieldText(Text("response"))| == 10
  {
    TextLength("response");
  }

  lemma TextLength(t: string)
    requires forall i :: 0 <= i < |t| ==> 'a' <= t[i] <= 'z'
    ensures |FieldText(Text(t))| == |t| + 2
  {
    QuotedLength(t);
  }

  lemma VersionLength()
    ensures |FieldText(Whole(VERSION))| == 3
  {
    assert Ones(1) == "1" + Ones(0);
  }

  lemma SizedClean(n: nat)
    ensures Clean("{" + FieldsText(SizedFields(n)), true)
  {
    var fs := SizedFields(n);
    forall f | f in fs && f.Text? ensures forall i :: 0 <= i < |f.text| ==> f.text[i] as int < 0x80 {
      assert f.text == "" || f.text == "response" || f.text == Letters(n);
    }
    FieldsClean(fs, true);
    CleanConcat("{", FieldsText(fs), true);
  }

  lemma SizedBytes(n: nat)
    ensures ByteLength(Line(WITNESS, "", Sized(n))) == n + 24
  {
    SizedRenders(n);
    SizedClean(n);
    SizedLength(n);
    AsciiBytes("{" + FieldsText(SizedFields(n)));
  }

  lemma OneNewline()
    ensures ByteLength("\n") == 1
  {
    assert "\n"[..0] == "";
  }

  lemma StreamOfTwo(c: Codec, m: Message, line: string)
    requires line == Line(c, "", m)
    ensures Stream(c, "", [m, m]) == line + ("\n" + line) + "\n"
  {
    assert [m, m][1..] == [m] && [m][1..] == [];
    assert Stream(c, "", [m]) == line + "\n" + "";
    assert line + "\n" + (line + "\n" + "") == line + ("\n" + line) + "\n";
  }

  lemma TwoChunks(x: string, y: string)
    ensures Concat([x, y]) == x + y
  {
    assert [x, y][..1] == [x] && [x][..0] == [];
    assert Concat([x]) == Concat([]) + x == x;
  }

  lemma TightOn(c: Codec, m: Message, line: string)
    requires Lawful(c) && WellFormed(m) && line == Line(c, "", m) && ByteLength(line) == MAX_LINE_BYTES
    ensures Sendable(c, "", [m, m]) && AcceptAll(c, "", FRESH_PIPE, [line, "\n" + line]).failed
    ensures Concat([line, "\n" + line]) <= Stream(c, "", [m, m])
    ensures ByteLength("\n" + line) == MAX_LINE_BYTES + 1
  {
    OneNewline();
    ByteLengthConcat("\n", line);
    StreamOfTwo(c, m, line);
    TwoChunks(line, "\n" + line);
    ChunkLimitTight(c, "", [m, m], "\n" + line, "\n");
  }

  /**
   The chunk limit is attained: on the stream of two such responses, cut after a chunk of exactly the limit into one
   of a byte more, the pipe fails although every byte was written by the serializer.
   */
  lemma LimitAttained()
    ensures Lawful(WITNESS)
    ensures var m := Sized(MAX_LINE_BYTES - 24);
            var line := Line(WITNESS, "", m);
            && Sendable(WITNESS, "", [m, m]) && Concat([line, "\n" + line]) <= Stream(WITNESS, "", [m, m])
            && ByteLength(line) == MAX_LINE_BYTES && ByteLength("\n" + line) == MAX_LINE_BYTES + 1
            && AcceptAll(WITNESS, "", FRESH_PIPE, [line, "\n" + line]).failed
  {
    var n := MAX_LINE_BYTES - 24;
    WitnessLawful();
    SizedBytes(n);
    TightOn(WITNESS, Sized(n), Line(WITNESS, "", Sized(n)));
  }
}

/**
 * Tool-pack reload (apps/gateway/src/tool-pack-manager.ts): what one queued reload or configure call does to the
 * manager, what it would do without the digest and fingerprint short-cuts, and why the two cannot be told apart.
 *
 * SHA-256 is taken as injective, so a digest is represented by the text it was computed from. The reload queue runs
 * one operation at a time, so an operation is one step; the file it reads is an input of the step.
 */
module ToolPacks {
  import opened Results
  import opened Sorting
  import opened Canonical

  const MAX_ENABLED_PACKS: nat := 32
  const MAX_PACK_ID_LENGTH: nat := 64

  /** A tool definition: its name and the rest of its specification. */
  datatype Definition = Definition(name: Key, spec: nat)

  datatype Pack = Pack(id: Key, definitions: seq<Definition>)

  /** A catalog's contents and the digest of its manifest; `version` is its runtime version. */
  datatype Catalog = Catalog(version: nat, definitions: seq<Definition>, digest: nat)

  /**
   * The manager's fixed options. `parse` is JSON.parse, failing with its message, and `manifest` computes the digest
   * of a manifest from a runtime version and a list of definitions.
   */
  datatype Setup = Setup(
    base: seq<Definition>,
    packs: seq<Pack>,
    parse: Key -> Result<Json, string>,
    manifest: (nat, seq<Definition>) -> nat)

  /** The sanitised messages a reload can record. */
  datatype Problem =
    | Closed
    | Unwritable(reason: string)
    | Unreadable(reason: string)
    | Malformed(reason: string)
    | Schema(value: Json)
    | Unknown(ids: seq<Key>)
    | Duplicate(name: Key)
    | Diverged
    | WatcherFailed(reason: string)

  datatype Status = Status(
    enabled: seq<Key>, generation: nat, lastError: Option<Problem>, catalogs: seq<Catalog>)

  datatype Manager = Manager(
    lastAttempt: Option<Key>, lastReadError: Option<string>, status: Status, closed: bool)

  /** What reading the configuration file yields. */
  datatype File = Content(text: Key) | ReadError(reason: string)

  datatype Input =
    | Reload(file: File)
    | Configure(ids: seq<Key>, write: Outcome<string>, after: File)
    | Close
    | WatcherError(reason: string)

  // ----- configuration -----

  function Field(members: seq<Member>, key: Key): Option<Json> {
    if members == [] then None
    else if members[0].key == key then Some(members[0].value)
    else Field(members[1..], key)
  }

  /** The keys "schemaVersion" and "enabled" and the version literal "scr.tool-packs/v1", in code units. */
  const SCHEMA_VERSION_KEY: Key := [115, 99, 104, 101, 109, 97, 86, 101, 114, 115, 105, 111, 110]
  const ENABLED_KEY: Key := [101, 110, 97, 98, 108, 101, 100]
  const SCHEMA_VERSION: Key := [115, 99, 114, 46, 116, 111, 111, 108, 45, 112, 97, 99, 107, 115, 47, 118, 49]

  /** A lower-case letter, then at most 63 lower-case letters, digits and hyphens. */
  predicate PackId(id: Key) {
    && 1 <= |id| <= MAX_PACK_ID_LENGTH
    && 97 <= id[0] <= 122
    && forall i :: 0 < i < |id| ==> 97 <= id[i] <= 122 || Digit(id[i]) || id[i] == 45
  }

  predicate IdsAllowed(ids: seq<Key>) {
    && |ids| <= MAX_ENABLED_PACKS
    && (forall i :: 0 <= i < |ids| ==> PackId(ids[i]))
    && Distinct(ids)
  }

  /** The configuration a JSON value stands for, when the strict schema accepts it. */
  function Config(value: Json): Option<seq<Key>> {
    if value.Object? && |value.members| == 2 && Field(value.members, SCHEMA_VERSION_KEY) == Some(Text(SCHEMA_VERSION))
    then
      match Field(value.members, ENABLED_KEY)
      case Some(Array(items)) =>
        if forall i :: 0 <= i < |items| ==> items[i].Text? then
          var ids := seq(|items|, i requires 0 <= i < |items| => items[i].text);
          if IdsAllowed(ids) then Some(ids) else None
        else None
      case _ => None
    else None
  }

  /** The JSON value `configure` validates and writes for a list of ids. */
  function ConfigValue(ids: seq<Key>): Json {
    Object([Member(SCHEMA_VERSION_KEY, Text(SCHEMA_VERSION)),
            Member(ENABLED_KEY, Array(seq(|ids|, i requires 0 <= i < |ids| => Text(ids[i]))))])
  }

  function Find(packs: seq<Pack>, id: Key): Option<Pack> {
    if packs == [] then None else if packs[0].id == id then Some(packs[0]) else Find(packs[1..], id)
  }

  function Unlisted(packs: seq<Pack>, ids: seq<Key>): (r: seq<Key>) {
    if ids == [] then []
    else (if Find(packs, ids[0]).None? then [ids[0]] else []) + Unlisted(packs, ids[1..])
  }

  function ValidateConfig(packs: seq<Pack>, value: Json): Result<seq<Key>, Problem> {
    match Config(value)
    case None => Failure(Schema(value))
    case Some(ids) =>
      var enabled := Sort(ids, Less);
      var unknown := Unlisted(packs, enabled);
      if unknown != [] then Failure(Unknown(unknown)) else Success(enabled)
  }

  function Parse(setup: Setup, text: Key): Result<seq<Key>, Problem> {
    match setup.parse(text)
    case Failure(reason) => Failure(Malformed(reason))
    case Success(value) => ValidateConfig(setup.packs, value)
  }

  // ----- definitions -----

  /** The packs with these ids, in that order. */
  function Chosen(packs: seq<Pack>, ids: seq<Key>): seq<Pack> {
    if ids == [] then []
    else (match Find(packs, ids[0]) case Some(pack) => [pack] case None => []) + Chosen(packs, ids[1..])
  }

  function Flatten(packs: seq<Pack>): seq<Definition> {
    if packs == [] then [] else packs[0].definitions + Flatten(packs[1..])
  }

  function Definitions(setup: Setup, ids: seq<Key>): seq<Definition> {
    setup.base + Flatten(Chosen(setup.packs, ids))
  }

  function Names(definitions: seq<Definition>): set<Key> { set d | d in definitions :: d.name }

  predicate UniqueNames(definitions: seq<Definition>) {
    forall i, j :: 0 <= i < j < |definitions| ==> definitions[i].name != definitions[j].name
  }

  /** The first name that repeats an earlier one. */
  function FirstDuplicate(definitions: seq<Definition>): (r: Option<Key>)
    ensures r.None? <==> UniqueNames(definitions)
  {
    if definitions == [] then None
    else
      var front, last := definitions[..|definitions| - 1], definitions[|definitions| - 1];
      match FirstDuplicate(front)
      case Some(name) => Some(name)
      case None =>
        assert forall d :: d in front <==> exists i :: 0 <= i < |front| && definitions[i] == d;
        if last.name in Names(front) then Some(last.name) else None
  }

  // ----- catalogs -----

  function Replace(setup: Setup, catalog: Catalog, definitions: seq<Definition>): Catalog {
    catalog.(definitions := definitions, digest := setup.manifest(catalog.version, definitions))
  }

  function ReplaceAll(setup: Setup, catalogs: seq<Catalog>, definitions: seq<Definition>): (r: seq<Catalog>)
    ensures |r| == |catalogs|
  {
    seq(|catalogs|, i requires 0 <= i < |catalogs| => Replace(setup, catalogs[i], definitions))
  }

  predicate SameDigests(catalogs: seq<Catalog>) {
    forall i :: 0 <= i < |catalogs| ==> catalogs[i].digest == catalogs[0].digest
  }

  predicate Changed(before: seq<Catalog>, after: seq<Catalog>)
    requires |before| == |after|
  {
    exists i :: 0 <= i < |before| && before[i].digest != after[i].digest
  }

  // ----- one operation -----

  /** Apply a configuration text: what a reload does after its file was read and not found unchanged. */
  function Apply(setup: Setup, status: Status, text: Key): Status {
    match Parse(setup, text)
    case Failure(problem) => status.(lastError := Some(problem))
    case Success(enabled) =>
      var definitions := Definitions(setup, enabled);
      match FirstDuplicate(definitions)
      case Some(name) => status.(lastError := Some(Duplicate(name)))
      case None =>
        var catalogs := ReplaceAll(setup, status.catalogs, definitions);
        if !SameDigests(catalogs) then status.(catalogs := catalogs, lastError := Some(Diverged))
        else
          Status(
            enabled,
            if Changed(status.catalogs, catalogs) then status.generation + 1 else status.generation,
            None,
            catalogs)
  }

  function ReloadNow(setup: Setup, m: Manager, file: File): Manager {
    match file
    case Content(text) =>
      if m.lastAttempt == Some(text) && m.lastReadError.None? then m
      else Manager(Some(text), None, Apply(setup, m.status, text), m.closed)
    case ReadError(reason) =>
      if m.lastReadError == Some(reason) then m
      else m.(lastReadError := Some(reason), status := m.status.(lastError := Some(Unreadable(reason))))
  }

  function Step(setup: Setup, m: Manager, input: Input): (Manager, Result<Status, Problem>) {
    if input.Close? then (m.(closed := true), Success(m.status))
    else if input.WatcherError? then
      var status := m.status.(lastError := Some(WatcherFailed(input.reason)));
      (m.(status := status), Success(status))
    else if m.closed then (m, Failure(Closed))
    else
      match input
      case Reload(file) =>
        var next := ReloadNow(setup, m, file);
        (next, Success(next.status))
      case Configure(ids, write, after) =>
        match ValidateConfig(setup.packs, ConfigValue(ids))
        case Failure(problem) => (m, Failure(problem))
        case Success(_) =>
          if write.Fail? then (m, Failure(Unwritable(write.error)))
          else
            var next := ReloadNow(setup, m.(lastAttempt := None), after);
            (next, if next.status.lastError.Some? then Failure(next.status.lastError.value) else Success(next.status))
  }

  // ----- the reference: a manager that always reloads -----

  datatype Plain = Plain(status: Status, closed: bool)

  function Always(setup: Setup, status: Status, file: File): Status {
    match file
    case Content(text) => Apply(setup, status, text)
    case ReadError(reason) => status.(lastError := Some(Unreadable(reason)))
  }

  function PlainStep(setup: Setup, p: Plain, input: Input): (Plain, Result<Status, Problem>) {
    if input.Close? then (p.(closed := true), Success(p.status))
    else if input.WatcherError? then
      var status := p.status.(lastError := Some(WatcherFailed(input.reason)));
      (p.(status := status), Success(status))
    else if p.closed then (p, Failure(Closed))
    else
      match input
      case Reload(file) =>
        var next := Always(setup, p.status, file);
        (p.(status := next), Success(next))
      case Configure(ids, write, after) =>
        match ValidateConfig(setup.packs, ConfigValue(ids))
        case Failure(problem) => (p, Failure(problem))
        case Success(_) =>
          if write.Fail? then (p, Failure(Unwritable(write.error)))
          else
            var next := Always(setup, p.status, after);
            (p.(status := next), if next.lastError.Some? then Failure(next.lastError.value) else Success(next))
  }

  // ----- runs -----

  function Run(setup: Setup, m: Manager, inputs: seq<Input>): (Manager, seq<Result<Status, Problem>>)
    decreases |inputs|
  {
    if inputs == [] then (m, [])
    else
      var (next, response) := Step(setup, m, inputs[0]);
      var (last, responses) := Run(setup, next, inputs[1..]);
      (last, [response] + responses)
  }

  function PlainRun(setup: Setup, p: Plain, inputs: seq<Input>): (Plain, seq<Result<Status, Problem>>)
    decreases |inputs|
  {
    if inputs == [] then (p, [])
    else
      var (next, response) := PlainStep(setup, p, inputs[0]);
      var (last, responses) := PlainRun(setup, next, inputs[1..]);
      (last, [response] + responses)
  }

  function Created(catalogs: seq<Catalog>): Manager {
    Manager(None, None, Status([], 0, None, catalogs), false)
  }

  // ----- skipping refines always reloading -----

  /** What the two short-cuts rely on: the attempt they skip would leave the status as it is. */
  predicate Settled(setup: Setup, m: Manager) {
    && (m.lastReadError.Some? ==> m.status.lastError == Some(Unreadable(m.lastReadError.value)))
    && (m.lastReadError.None? && m.lastAttempt.Some? ==> Apply(setup, m.status, m.lastAttempt.value) == m.status)
  }

  lemma ApplyTwice(setup: Setup, status: Status, text: Key)
    ensures Apply(setup, Apply(setup, status, text), text) == Apply(setup, status, text)
  {
    var once := Apply(setup, status, text);
    if Parse(setup, text).Success? {
      var definitions := Definitions(setup, Parse(setup, text).value);
      if FirstDuplicate(definitions).None? {
        assert once.catalogs == ReplaceAll(setup, status.catalogs, definitions);
        assert ReplaceAll(setup, once.catalogs, definitions) == once.catalogs;
      }
    }
  }

  lemma ReloadRefines(setup: Setup, m: Manager, file: File)
    requires Settled(setup, m)
    ensures Settled(setup, ReloadNow(setup, m, file))
    ensures ReloadNow(setup, m, file).status == Always(setup, m.status, file)
  {
    if file.Content? { ApplyTwice(setup, m.status, file.text); }
  }

  lemma StepRefines(setup: Setup, m: Manager, input: Input)
    requires Settled(setup, m) && !input.WatcherError?
    ensures Settled(setup, Step(setup, m, input).0)
    ensures var (p, response) := PlainStep(setup, Plain(m.status, m.closed), input);
            Step(setup, m, input) == (Step(setup, m, input).0, response)
            && Plain(Step(setup, m, input).0.status, Step(setup, m, input).0.closed) == p
  {
    match input
    case Reload(file) => ReloadRefines(setup, m, file);
    case Configure(ids, write, after) => ReloadRefines(setup, m.(lastAttempt := None), after);
    case Close =>
  }

  /** The file watcher itself reports no error. */
  predicate Watched(inputs: seq<Input>) { forall i :: 0 <= i < |inputs| ==> !inputs[i].WatcherError? }

  lemma {:induction false} RunRefines(setup: Setup, m: Manager, inputs: seq<Input>)
    requires Settled(setup, m) && Watched(inputs)
    ensures Run(setup, m, inputs).1 == PlainRun(setup, Plain(m.status, m.closed), inputs).1
    ensures Run(setup, m, inputs).0.status == PlainRun(setup, Plain(m.status, m.closed), inputs).0.status
    decreases |inputs|
  {
    if inputs != [] {
      StepRefines(setup, m, inputs[0]);
      RunRefines(setup, Step(setup, m, inputs[0]).0, inputs[1..]);
    }
  }

  /**
   * Over every sequence of reloads and configure calls without a watcher error, whatever the file holds or however
   * reading it fails, a manager that skips unchanged digests answers as one that always reloads and ends with the same
   * enabled packs, catalogs, generation and last error.
   */
  lemma SkippingRefinesReloading(setup: Setup, catalogs: seq<Catalog>, inputs: seq<Input>)
    requires Watched(inputs)
    ensures Run(setup, Created(catalogs), inputs).1 == PlainRun(setup, Plain(Created(catalogs).status, false), inputs).1
    ensures Run(setup, Created(catalogs), inputs).0.status
            == PlainRun(setup, Plain(Created(catalogs).status, false), inputs).0.status
  {
    RunRefines(setup, Created(catalogs), inputs);
  }

  /** The reload takes neither short-cut. */
  predicate Attempted(m: Manager, file: File) {
    match file
    case Content(text) => m.lastReadError.Some? || m.lastAttempt != Some(text)
    case ReadError(reason) => m.lastReadError != Some(reason)
  }

  /**
   * A watcher error is the one thing the short-cuts lose sight of: the reload after it answers as a full reload would
   * exactly when the file is neither the text last attempted nor failing as it last failed.
   */
  lemma WatcherErrorSticks(setup: Setup, m: Manager, reason: string, file: File)
    requires Settled(setup, m) && !m.closed
    ensures var failed := Step(setup, m, WatcherError(reason)).0;
            (Step(setup, failed, Reload(file)).1 == PlainStep(setup, Plain(failed.status, false), Reload(file)).1)
            <==> Attempted(m, file)
  {}

  // ----- runs with watcher errors -----

  /** The call reads the file for a manager in this state. */
  function ReadBy(setup: Setup, m: Manager, input: Input): Option<(Manager, File)> {
    if m.closed then None
    else match input
      case Reload(file) => Some((m, file))
      case Configure(ids, write, after) =>
        if ValidateConfig(setup.packs, ConfigValue(ids)).Success? && write.Pass?
        then Some((m.(lastAttempt := None), after)) else None
      case _ => None
  }

  /** The call reads the file and takes neither short-cut. */
  predicate Attempts(setup: Setup, m: Manager, input: Input) {
    var read := ReadBy(setup, m, input);
    read.Some? && Attempted(read.value.0, read.value.1)
  }

  /** The call reads the file and takes a short-cut. */
  predicate Skips(setup: Setup, m: Manager, input: Input) {
    var read := ReadBy(setup, m, input);
    read.Some? && !Attempted(read.value.0, read.value.1)
  }

  /** The manager after these inputs. */
  function At(setup: Setup, m: Manager, inputs: seq<Input>): Manager { Run(setup, m, inputs).0 }

  function PlainAt(setup: Setup, p: Plain, inputs: seq<Input>): Plain { PlainRun(setup, p, inputs).0 }

  lemma RunFirst(setup: Setup, m: Manager, p: Plain, first: Input, rest: seq<Input>)
    ensures At(setup, m, [first] + rest) == At(setup, Step(setup, m, first).0, rest)
    ensures PlainAt(setup, p, [first] + rest) == PlainAt(setup, PlainStep(setup, p, first).0, rest)
  {
    assert ([first] + rest)[1..] == rest;
  }

  lemma RunNone(setup: Setup, m: Manager, p: Plain)
    ensures At(setup, m, []) == m && PlainAt(setup, p, []) == p
  {}

  lemma {:induction false} AtNext(setup: Setup, m: Manager, p: Plain, inputs: seq<Input>, input: Input)
    ensures At(setup, m, inputs + [input]) == Step(setup, At(setup, m, inputs), input).0
    ensures PlainAt(setup, p, inputs + [input]) == PlainStep(setup, PlainAt(setup, p, inputs), input).0
    decreases |inputs|
  {
    if inputs == [] {
      assert inputs + [input] == [input] + [];
      RunFirst(setup, m, p, input, []);
      RunNone(setup, m, p);
      RunNone(setup, Step(setup, m, input).0, PlainStep(setup, p, input).0);
    } else {
      var first, rest := inputs[0], inputs[1..];
      assert inputs == [first] + rest && inputs + [input] == [first] + (rest + [input]);
      RunFirst(setup, m, p, first, rest);
      RunFirst(setup, m, p, first, rest + [input]);
      AtNext(setup, Step(setup, m, first).0, PlainStep(setup, p, first).0, rest, input);
    }
  }

  /** A watcher error has come and the file has not been attempted since. */
  predicate Warned(setup: Setup, m: Manager, inputs: seq<Input>) {
    inputs != [] &&
    var front, last := inputs[..|inputs| - 1], inputs[|inputs| - 1];
    last.WatcherError? || (Warned(setup, m, front) && !Attempts(setup, At(setup, m, front), last))
  }

  /** The last watcher error came after the last attempt, and a short-cut was taken since. */
  predicate Concealed(setup: Setup, m: Manager, inputs: seq<Input>) {
    inputs != [] &&
    var front, last := inputs[..|inputs| - 1], inputs[|inputs| - 1];
    && Warned(setup, m, front)
    && !last.WatcherError? && !Attempts(setup, At(setup, m, front), last)
    && (Concealed(setup, m, front) || Skips(setup, At(setup, m, front), last))
  }

  /** The same but for the last error. */
  predicate SameButError(a: Status, b: Status) { a.(lastError := None) == b.(lastError := None) }

  lemma ApplyForgets(setup: Setup, a: Status, b: Status, text: Key)
    requires SameButError(a, b)
    ensures Apply(setup, a, text) == Apply(setup, b, text).(lastError := Apply(setup, a, text).lastError)
    ensures Apply(setup, a, text).lastError == Apply(setup, b, text).lastError
  {}

  lemma ApplyNotWatched(setup: Setup, status: Status, text: Key)
    ensures Apply(setup, status, text).lastError != None ==> !Apply(setup, status, text).lastError.value.WatcherFailed?
  {}

  predicate WatcherStands(status: Status) { status.lastError.Some? && status.lastError.value.WatcherFailed? }

  /** What the short-cuts rely on, but for the last error. */
  predicate SettledButError(setup: Setup, m: Manager) {
    m.lastReadError.None? && m.lastAttempt.Some? ==>
      SameButError(Apply(setup, m.status, m.lastAttempt.value), m.status)
  }

  /** How the two managers stand to one another. */
  predicate Related(setup: Setup, m: Manager, p: Plain, warned: bool, concealed: bool) {
    && m.closed == p.closed && SameButError(m.status, p.status) && SettledButError(setup, m)
    && (warned ==> WatcherStands(m.status))
    && (!warned ==> Settled(setup, m))
    && (concealed ==> warned && !WatcherStands(p.status))
    && (!concealed ==> m.status == p.status)
  }

  lemma AttemptRelates(setup: Setup, m: Manager, p: Plain, file: File)
    requires SameButError(m.status, p.status) && m.closed == p.closed && Attempted(m, file)
    ensures Related(setup, ReloadNow(setup, m, file), p.(status := Always(setup, p.status, file)), false, false)
  {
    if file.Content? {
      ApplyForgets(setup, m.status, p.status, file.text);
      ApplyTwice(setup, m.status, file.text);
    }
  }

  lemma SkipRelates(setup: Setup, m: Manager, p: Plain, file: File, warned: bool, concealed: bool)
    requires Related(setup, m, p, warned, concealed) && !Attempted(m, file)
    ensures Related(setup, ReloadNow(setup, m, file), p.(status := Always(setup, p.status, file)), warned, warned)
  {
    if file.Content? {
      ApplyForgets(setup, p.status, m.status, file.text);
      ApplyNotWatched(setup, p.status, file.text);
    }
  }

  /** One input, of any kind: what `Warned` and `Concealed` become. */
  lemma StepRelates(setup: Setup, m: Manager, p: Plain, input: Input, warned: bool, concealed: bool)
    requires Related(setup, m, p, warned, concealed)
    ensures var attempts, skips := Attempts(setup, m, input), Skips(setup, m, input);
            Related(setup, Step(setup, m, input).0, PlainStep(setup, p, input).0,
                    input.WatcherError? || (warned && !attempts),
                    warned && !input.WatcherError? && !attempts && (concealed || skips))
  {
    var read := ReadBy(setup, m, input);
    if read.Some? {
      var (from, file) := read.value;
      if Attempted(from, file) {
        AttemptRelates(setup, from, p, file);
      } else {
        SkipRelates(setup, from, p, file, warned, concealed);
      }
    } else if input.WatcherError? {
      WarnedRelates(setup, m, p, input.reason);
    }
  }

  lemma WarnedRelates(setup: Setup, m: Manager, p: Plain, reason: string)
    requires SameButError(m.status, p.status) && m.closed == p.closed && SettledButError(setup, m)
    ensures Related(setup, Step(setup, m, WatcherError(reason)).0, PlainStep(setup, p, WatcherError(reason)).0,
                    true, false)
  {
    if m.lastReadError.None? && m.lastAttempt.Some? {
      ApplyForgets(setup, m.status.(lastError := Some(WatcherFailed(reason))), m.status, m.lastAttempt.value);
    }
  }

  lemma {:induction false} RunRelates(setup: Setup, catalogs: seq<Catalog>, inputs: seq<Input>)
    ensures var m, p := Created(catalogs), Plain(Created(catalogs).status, false);
            Related(setup, At(setup, m, inputs), PlainAt(setup, p, inputs), Warned(setup, m, inputs),
                    Concealed(setup, m, inputs))
  {
    if inputs != [] {
      var m, p, front := Created(catalogs), Plain(Created(catalogs).status, false), inputs[..|inputs| - 1];
      assert inputs == front + [inputs[|inputs| - 1]];
      AtNext(setup, m, p, front, inputs[|inputs| - 1]);
      RunRelates(setup, catalogs, front);
      StepRelates(setup, At(setup, m, front), PlainAt(setup, p, front), inputs[|inputs| - 1],
                  Warned(setup, m, front), Concealed(setup, m, front));
    }
  }

  /**
   * Over every sequence of inputs, watcher errors anywhere: a manager that skips and one that always reloads have the
   * same enabled packs, catalogs and generation at every moment, and the same last error if and only if no short-cut
   * was taken since the last watcher error, or the file was attempted since that error.
   */
  lemma WatcherErrorsConceal(setup: Setup, catalogs: seq<Catalog>, inputs: seq<Input>)
    ensures var m, p := Created(catalogs), Plain(Created(catalogs).status, false);
            var skipping, reloading := At(setup, m, inputs).status, PlainAt(setup, p, inputs).status;
            && skipping.enabled == reloading.enabled && skipping.catalogs == reloading.catalogs
            && skipping.generation == reloading.generation
            && (skipping.lastError == reloading.lastError <==> !Concealed(setup, m, inputs))
  {
    RunRelates(setup, catalogs, inputs);
  }

  /** And a call that reads the file is answered alike under the same condition. */
  lemma AnswersConcealed(setup: Setup, catalogs: seq<Catalog>, inputs: seq<Input>, call: Input)
    ensures var m, p := Created(catalogs), Plain(Created(catalogs).status, false);
            ReadBy(setup, At(setup, m, inputs), call).Some? ==>
              (Step(setup, At(setup, m, inputs), call).1 == PlainStep(setup, PlainAt(setup, p, inputs), call).1
               <==> !Concealed(setup, m, inputs + [call]))
  {
    var m, p := Created(catalogs), Plain(Created(catalogs).status, false);
    AtNext(setup, m, p, inputs, call);
    RunRelates(setup, catalogs, inputs);
    RunRelates(setup, catalogs, inputs + [call]);
  }

  // ----- unique names -----

  /** The checks of the constructor. */
  predicate Constructible(setup: Setup, catalogs: seq<Catalog>) {
    && catalogs != []
    && (forall i :: 0 <= i < |catalogs| ==>
          catalogs[i].digest == catalogs[0].digest && catalogs[i].version == catalogs[0].version)
    && (forall i :: 0 <= i < |setup.packs| ==> PackId(setup.packs[i].id))
    && (forall i, j :: 0 <= i < j < |setup.packs| ==> setup.packs[i].id != setup.packs[j].id)
    && UniqueNames(setup.base + Flatten(setup.packs))
  }

  lemma UniqueJoin(a: seq<Definition>, b: seq<Definition>)
    ensures UniqueNames(a + b) <==> UniqueNames(a) && UniqueNames(b) && Names(a) !! Names(b)
    ensures Names(a + b) == Names(a) + Names(b)
  {
    var c := a + b;
    assert forall d :: d in c <==> d in a || d in b;
    if UniqueNames(c) {
      forall i, j | 0 <= i < j < |a| ensures a[i].name != a[j].name { assert c[i] == a[i] && c[j] == a[j]; }
      forall i, j | 0 <= i < j < |b| ensures b[i].name != b[j].name {
        assert c[|a| + i] == b[i] && c[|a| + j] == b[j];
      }
      forall d, e | d in a && e in b ensures d.name != e.name {
        var i :| 0 <= i < |a| && a[i] == d;
        var j :| 0 <= j < |b| && b[j] == e;
        assert c[i] == d && c[|a| + j] == e;
      }
    }
    if UniqueNames(a) && UniqueNames(b) && Names(a) !! Names(b) {
      forall i, j | 0 <= i < j < |c| ensures c[i].name != c[j].name {
        if i < |a| && j >= |a| {
          assert c[i] in a && c[j] in b;
          assert c[i].name in Names(a) && c[j].name in Names(b);
        }
      }
    }
  }

  /** A list of packs that brings no name twice, to the base or among themselves. */
  predicate Separate(base: seq<Definition>, packs: seq<Pack>) {
    && UniqueNames(base)
    && (forall i :: 0 <= i < |packs| ==>
          UniqueNames(packs[i].definitions) && Names(base) !! Names(packs[i].definitions))
    && (forall i, j :: 0 <= i < j < |packs| ==> Names(packs[i].definitions) !! Names(packs[j].definitions))
  }

  lemma {:induction false} FlatUnique(base: seq<Definition>, packs: seq<Pack>)
    ensures UniqueNames(base + Flatten(packs)) <==> Separate(base, packs)
    ensures forall n :: n in Names(Flatten(packs)) <==> exists i :: 0 <= i < |packs| && n in Names(packs[i].definitions)
    decreases |packs|
  {
    UniqueJoin(base, Flatten(packs));
    if packs == [] {
    } else {
      var head, rest := packs[0].definitions, packs[1..];
      FlatUnique(head, rest);
      UniqueJoin(head, Flatten(rest));
    }
  }

  lemma {:induction false} ChosenPacks(packs: seq<Pack>, ids: seq<Key>)
    requires Unlisted(packs, ids) == []
    ensures |Chosen(packs, ids)| == |ids|
    ensures forall i :: 0 <= i < |ids| ==> Chosen(packs, ids)[i].id == ids[i] && Chosen(packs, ids)[i] in packs
  {
    if ids != [] {
      Found(packs, ids[0]);
      ChosenPacks(packs, ids[1..]);
    }
  }

  lemma {:induction false} Found(packs: seq<Pack>, id: Key)
    ensures Find(packs, id).Some? ==> Find(packs, id).value.id == id && Find(packs, id).value in packs
  {
    if packs != [] { Found(packs[1..], id); }
  }

  lemma SortedIds(ids: seq<Key>)
    requires Distinct(ids)
    ensures Distinct(Sort(ids, Less)) && Sorted(Sort(ids, Less), Less)
  {
    var all := set id | id in ids;
    forall x, y | x in all && y in all && x != y ensures Less(x, y) || Less(y, x) { LessStrict(x, y); }
    forall x, y, z | x in all && y in all && z in all && Less(x, y) && Less(y, z) ensures Less(x, z) {
      LessTransitive(x, y, z);
    }
    SortSorts(ids, Less, all);
    var sorted := Sort(ids, Less);
    forall i, j | 0 <= i < j < |sorted| ensures sorted[i] != sorted[j] { LessStrict(sorted[i], sorted[j]); }
  }

  /** The schema takes the value written for a list of ids exactly when it allows the list, and reads the list back. */
  lemma ConfigRoundTrip(ids: seq<Key>)
    ensures Config(ConfigValue(ids)) == if IdsAllowed(ids) then Some(ids) else None
  {
    var value := ConfigValue(ids);
    var items := value.members[1].value.items;
    assert value.members[1..] == [value.members[1]];
    assert SCHEMA_VERSION_KEY[0] != ENABLED_KEY[0];
    assert Field(value.members, ENABLED_KEY) == Some(Array(items));
    assert seq(|items|, i requires 0 <= i < |items| => items[i].text) == ids;
  }

  /** What `configure` writes for the ids it accepts, a reload enables: those ids, sorted. */
  lemma ConfigureThenReload(setup: Setup, ids: seq<Key>, text: Key)
    requires ValidateConfig(setup.packs, ConfigValue(ids)).Success?
    requires setup.parse(text) == Success(ConfigValue(ValidateConfig(setup.packs, ConfigValue(ids)).value))
    ensures Parse(setup, text) == Success(Sort(ids, Less))
  {
    ConfigRoundTrip(ids);
    var sorted := Sort(ids, Less);
    SortedIds(ids);
    SortKeeps(ids, Less);
    forall i | 0 <= i < |sorted| ensures PackId(sorted[i]) {
      assert sorted[i] in ids;
    }
    ConfigRoundTrip(sorted);
    SortedIds(sorted);
    SortKeeps(sorted, Less);
    forall x, y | x in sorted && y in sorted ensures !(Less(x, y) && Less(y, x)) { LessStrict(x, y); }
    SortedUnique(sorted, Sort(sorted, Less), Less);
  }

  /** The packs an accepted configuration names bring no tool name twice, whatever it names and in whatever order. */
  lemma ReloadCannotDuplicate(setup: Setup, catalogs: seq<Catalog>, text: Key)
    requires Constructible(setup, catalogs) && Parse(setup, text).Success?
    ensures FirstDuplicate(Definitions(setup, Parse(setup, text).value)).None?
  {
    var ids := Parse(setup, text).value;
    AcceptedIds(setup, text);
    FlatUnique(setup.base, setup.packs);
    ChosenSeparate(setup.base, setup.packs, ids);
    FlatUnique(setup.base, Chosen(setup.packs, ids));
  }

  /** Packs chosen by distinct ids stay as separate as the whole list is. */
  lemma ChosenSeparate(base: seq<Definition>, packs: seq<Pack>, ids: seq<Key>)
    requires Separate(base, packs) && Distinct(ids) && Unlisted(packs, ids) == []
    ensures Separate(base, Chosen(packs, ids))
  {
    ChosenPacks(packs, ids);
    var chosen := Chosen(packs, ids);
    forall i | 0 <= i < |chosen| ensures exists k :: 0 <= k < |packs| && packs[k] == chosen[i] {
      assert chosen[i] in packs;
    }
    forall i, j | 0 <= i < j < |chosen| ensures Names(chosen[i].definitions) !! Names(chosen[j].definitions) {
      var k :| 0 <= k < |packs| && packs[k] == chosen[i];
      var l :| 0 <= l < |packs| && packs[l] == chosen[j];
      assert chosen[i].id != chosen[j].id;
    }
  }

  lemma AcceptedIds(setup: Setup, text: Key)
    requires Parse(setup, text).Success?
    ensures Distinct(Parse(setup, text).value) && Unlisted(setup.packs, Parse(setup, text).value) == []
    ensures Sorted(Parse(setup, text).value, Less)
  {
    SortedIds(Config(setup.parse(text).value).value);
  }

  // ----- catalogs follow the enabled packs -----

  /** Every catalog holds the base and the enabled packs, no tool name twice, under the digest of that manifest. */
  predicate Follows(setup: Setup, status: Status) {
    && UniqueNames(Definitions(setup, status.enabled))
    && forall i :: 0 <= i < |status.catalogs| ==>
         && status.catalogs[i].definitions == Definitions(setup, status.enabled)
         && status.catalogs[i].digest == setup.manifest(status.catalogs[i].version, status.catalogs[i].definitions)
  }

  predicate Aligned(catalogs: seq<Catalog>) {
    && catalogs != []
    && forall i :: 0 <= i < |catalogs| ==>
         catalogs[i].digest == catalogs[0].digest && catalogs[i].version == catalogs[0].version
  }

  /** Applying a text fails only where parsing it does, and then changes nothing but the recorded error. */
  lemma ApplyOutcome(setup: Setup, catalogs: seq<Catalog>, status: Status, text: Key)
    requires Constructible(setup, catalogs) && Aligned(status.catalogs)
    ensures var next := Apply(setup, status, text);
            && Aligned(next.catalogs)
            && match Parse(setup, text)
               case Failure(problem) => next == status.(lastError := Some(problem))
               case Success(enabled) =>
                 && next.enabled == enabled && next.lastError.None? && Follows(setup, next)
                 && next.generation
                    == status.generation + if next.catalogs[0].digest == status.catalogs[0].digest then 0 else 1
  {
    if Parse(setup, text).Success? {
      ReloadCannotDuplicate(setup, catalogs, text);
      var next := ReplaceAll(setup, status.catalogs, Definitions(setup, Parse(setup, text).value));
      assert SameDigests(next);
    }
  }

  predicate Inv(setup: Setup, m: Manager) {
    && Aligned(m.status.catalogs)
    && (m.lastReadError.Some? ==> m.status.lastError.Some?)
    && (m.lastAttempt.Some? && m.status.lastError.None? ==> Follows(setup, m.status))
  }

  /** The step answered a reload or a configure call with no error recorded. */
  predicate Loads(input: Input, response: Result<Status, Problem>) {
    (input.Reload? || input.Configure?) && response.Success? && response.value.lastError.None?
  }

  /** The manifest generation moves exactly with the digest, which all catalogs share. */
  predicate Counts(before: Status, after: Status)
    requires Aligned(before.catalogs) && Aligned(after.catalogs)
  {
    after.generation == before.generation + if after.catalogs[0].digest == before.catalogs[0].digest then 0 else 1
  }

  lemma ReloadKeeps(setup: Setup, catalogs: seq<Catalog>, m: Manager, file: File)
    requires Constructible(setup, catalogs) && Inv(setup, m)
    ensures Inv(setup, ReloadNow(setup, m, file))
    ensures Follows(setup, m.status) ==> Follows(setup, ReloadNow(setup, m, file).status)
    ensures ReloadNow(setup, m, file).status.lastError.None? ==> Follows(setup, ReloadNow(setup, m, file).status)
    ensures Counts(m.status, ReloadNow(setup, m, file).status)
  {
    if file.Content? { ApplyOutcome(setup, catalogs, m.status, file.text); }
  }

  lemma StepKeeps(setup: Setup, catalogs: seq<Catalog>, m: Manager, input: Input)
    requires Constructible(setup, catalogs) && Inv(setup, m)
    ensures Inv(setup, Step(setup, m, input).0)
    ensures Follows(setup, m.status) || Loads(input, Step(setup, m, input).1) ==>
              Follows(setup, Step(setup, m, input).0.status)
    ensures Counts(m.status, Step(setup, m, input).0.status)
  {
    match input
    case Configure(ids, write, after) => ConfigureKeeps(setup, catalogs, m, input);
    case Reload(file) => ReloadKeeps(setup, catalogs, m, file);
    case _ =>
  }

  lemma ConfigureKeeps(setup: Setup, catalogs: seq<Catalog>, m: Manager, input: Input)
    requires Constructible(setup, catalogs) && Inv(setup, m) && input.Configure?
    ensures Inv(setup, Step(setup, m, input).0)
    ensures Follows(setup, m.status) || Loads(input, Step(setup, m, input).1) ==>
              Follows(setup, Step(setup, m, input).0.status)
    ensures Counts(m.status, Step(setup, m, input).0.status)
  {
    ReloadKeeps(setup, catalogs, m.(lastAttempt := None), input.after);
  }

  lemma {:induction false} RunFollows(setup: Setup, catalogs: seq<Catalog>, m: Manager, inputs: seq<Input>)
    requires Constructible(setup, catalogs) && Inv(setup, m)
    ensures |Run(setup, m, inputs).1| == |inputs|
    ensures Inv(setup, Run(setup, m, inputs).0)
    ensures (Follows(setup, m.status) ||
             exists k :: 0 <= k < |inputs| && Loads(inputs[k], Run(setup, m, inputs).1[k])) ==>
              Follows(setup, Run(setup, m, inputs).0.status)
    decreases |inputs|
  {
    if inputs != [] {
      var next := Step(setup, m, inputs[0]);
      StepKeeps(setup, catalogs, m, inputs[0]);
      RunFollows(setup, catalogs, next.0, inputs[1..]);
      var rest := Run(setup, next.0, inputs[1..]);
      assert Run(setup, m, inputs) == (rest.0, [next.1] + rest.1);
      if k :| 0 < k < |inputs| && Loads(inputs[k], ([next.1] + rest.1)[k]) {
        assert Loads(inputs[1..][k - 1], rest.1[k - 1]);
      }
    }
  }

  /**
   * Once a reload or configure call has answered without an error, every catalog holds exactly the base and the
   * enabled packs, whatever calls, failures and watcher errors follow.
   */
  lemma CatalogsFollowEnabled(setup: Setup, catalogs: seq<Catalog>, inputs: seq<Input>, k: nat)
    requires Constructible(setup, catalogs) && k < |inputs|
    requires k < |Run(setup, Created(catalogs), inputs).1|
    requires Loads(inputs[k], Run(setup, Created(catalogs), inputs).1[k])
    ensures Follows(setup, Run(setup, Created(catalogs), inputs).0.status)
    ensures Aligned(Run(setup, Created(catalogs), inputs).0.status.catalogs)
  {
    RunFollows(setup, catalogs, Created(catalogs), inputs);
  }
}

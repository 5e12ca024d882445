/** What the tool-pack manager takes for a configuration and makes of it (apps/gateway/src/tool-pack-manager.ts). */
module ToolPackAnswers {
  import opened CodeUnits
  import opened Results
  import opened Sorting
  import opened Canonical
  import opened ToolPacks

  predicate LowerCase(unit: CodeUnit) { 'a' as int <= unit <= 'z' as int }

  predicate DigitUnit(unit: CodeUnit) { '0' as int <= unit <= '9' as int }

  /** An id is a lower-case letter and then up to 63 more of lower-case letters, digits and hyphens. */
  lemma IdMeans(id: Key)
    ensures PackId(id)
            <==> && 1 <= |id| <= 64 && LowerCase(id[0])
                 && forall i :: 0 < i < |id| ==> LowerCase(id[i]) || DigitUnit(id[i]) || id[i] == '-' as int
  {}

  /** A list is allowed if it holds at most 32 ids, none of them twice. */
  lemma AllowedMeans(ids: seq<Key>)
    ensures IdsAllowed(ids)
            <==> && |ids| <= 32
                 && (forall id :: id in ids ==> PackId(id))
                 && forall i, j :: 0 <= i < j < |ids| ==> ids[i] != ids[j]
  {}

  /** The ids of a configuration as the schema wants them. */
  predicate FormedIds(ids: seq<Key>) {
    && |ids| <= 32 && (forall i, j :: 0 <= i < j < |ids| ==> ids[i] != ids[j])
    && forall id :: id in ids ==>
         && 1 <= |id| <= 64 && LowerCase(id[0])
         && forall i :: 0 < i < |id| ==> LowerCase(id[i]) || DigitUnit(id[i]) || id[i] == '-' as int
  }

  lemma FormedMeans(ids: seq<Key>)
    ensures IdsAllowed(ids) <==> FormedIds(ids)
  {
    AllowedMeans(ids);
    forall id | id in ids
      ensures PackId(id)
              <==> && 1 <= |id| <= 64 && LowerCase(id[0])
                   && forall i :: 0 < i < |id| ==> LowerCase(id[i]) || DigitUnit(id[i]) || id[i] == '-' as int
    {
      IdMeans(id);
    }
  }

  function Backwards(value: Json): Json
    requires value.Object? && |value.members| == 2
  {
    Object([value.members[1], value.members[0]])
  }

  lemma FieldOfTwo(members: seq<Member>, key: Key)
    requires |members| == 2
    ensures Field(members, key) == if members[0].key == key then Some(members[0].value)
                                   else if members[1].key == key then Some(members[1].value) else None
  {
    var rest := members[1..];
    assert rest == [members[1]] && rest[1..] == [];
    assert Field([], key) == None;
    assert Field(rest, key) == if members[1].key == key then Some(members[1].value) else None;
  }

  lemma TextsOf(items: seq<Json>, ids: seq<Key>)
    requires |items| == |ids| && forall i :: 0 <= i < |ids| ==> items[i] == Text(ids[i])
    ensures items == seq(|ids|, i requires 0 <= i < |ids| => Text(ids[i]))
  {}

  /** The schema takes exactly the object configure writes for an allowed list, its two members in either order. */
  lemma ConfigMeans(value: Json, ids: seq<Key>)
    ensures Config(value) == Some(ids)
            <==> FormedIds(ids) && (value == ConfigValue(ids) || value == Backwards(ConfigValue(ids)))
  {
    FormedMeans(ids);
    assert SCHEMA_VERSION_KEY[0] != ENABLED_KEY[0];
    if IdsAllowed(ids) {
      ConfigRoundTrip(ids);
      BackwardsRead(ids);
    }
    if Config(value) == Some(ids) { ConfigTaken(value, ids); }
  }

  lemma BackwardsRead(ids: seq<Key>)
    requires IdsAllowed(ids)
    ensures Config(Backwards(ConfigValue(ids))) == Some(ids)
  {
    var value := Backwards(ConfigValue(ids));
    assert SCHEMA_VERSION_KEY[0] != ENABLED_KEY[0];
    FieldOfTwo(value.members, SCHEMA_VERSION_KEY);
    FieldOfTwo(value.members, ENABLED_KEY);
    var items := value.members[0].value.items;
    assert seq(|items|, i requires 0 <= i < |items| => items[i].text) == ids;
  }

  lemma ConfigTaken(value: Json, ids: seq<Key>)
    requires Config(value) == Some(ids)
    ensures IdsAllowed(ids) && (value == ConfigValue(ids) || value == Backwards(ConfigValue(ids)))
  {
    var m := value.members;
    FieldOfTwo(m, SCHEMA_VERSION_KEY);
    FieldOfTwo(m, ENABLED_KEY);
    assert SCHEMA_VERSION_KEY[0] != ENABLED_KEY[0];
    var items := Field(m, ENABLED_KEY).value.items;
    TextsOf(items, ids);
    if m[0].key == SCHEMA_VERSION_KEY {
      assert m == ConfigValue(ids).members;
    } else {
      assert m == Backwards(ConfigValue(ids)).members;
    }
  }

  // --- ids and packs ---

  lemma {:induction false} FindMeans(packs: seq<Pack>, id: Key)
    ensures Find(packs, id).None? <==> forall p :: p in packs ==> p.id != id
    ensures Find(packs, id).Some? ==> Find(packs, id).value in packs && Find(packs, id).value.id == id
  {
    if packs != [] {
      FindMeans(packs[1..], id);
      assert packs == [packs[0]] + packs[1..];
    }
  }

  /** The ids no pack has are exactly those reported, in their order. */
  lemma {:induction false} UnlistedMeans(packs: seq<Pack>, ids: seq<Key>, id: Key)
    ensures id in Unlisted(packs, ids) <==> id in ids && forall p :: p in packs ==> p.id != id
    ensures Unlisted(packs, ids) == [] <==> forall i :: 0 <= i < |ids| ==> Find(packs, ids[i]).Some?
  {
    if ids != [] {
      FindMeans(packs, ids[0]);
      UnlistedMeans(packs, ids[1..], id);
      assert ids == [ids[0]] + ids[1..];
      assert forall i :: 0 < i < |ids| ==> ids[i] == ids[1..][i - 1];
    }
  }

  /** Every id is that of a pack. */
  predicate AllKnown(packs: seq<Pack>, ids: seq<Key>) { forall i :: 0 <= i < |ids| ==> Find(packs, ids[i]).Some? }

  lemma KnownSorted(packs: seq<Pack>, ids: seq<Key>)
    ensures AllKnown(packs, Sort(ids, Less)) <==> AllKnown(packs, ids)
  {
    SortKeeps(ids, Less);
    var sorted := Sort(ids, Less);
    assert forall x :: x in sorted <==> x in ids;
    if AllKnown(packs, ids) {
      forall i | 0 <= i < |sorted| ensures Find(packs, sorted[i]).Some? { assert sorted[i] in ids; }
    }
    if AllKnown(packs, sorted) {
      forall i | 0 <= i < |ids| ensures Find(packs, ids[i]).Some? { assert ids[i] in sorted; }
    }
  }

  /**
   A configuration text is taken exactly if it is JSON that the schema takes and every id in it is a pack's; what it
   enables are those ids, sorted.  Otherwise the problem says which of the three it was.
   */
  lemma ParseAnswers(setup: Setup, text: Key)
    ensures match setup.parse(text)
            case Failure(reason) => Parse(setup, text) == Failure(Malformed(reason))
            case Success(value) =>
              match Config(value)
              case None => Parse(setup, text) == Failure(Schema(value))
              case Some(ids) =>
                if AllKnown(setup.packs, ids) then Parse(setup, text) == Success(Sort(ids, Less))
                else Parse(setup, text).Failure? && Parse(setup, text).error.Unknown?
                     && Parse(setup, text).error.ids != []
                     && forall id :: id in Parse(setup, text).error.ids ==> id in ids && Find(setup.packs, id).None?
  {
    if setup.parse(text).Success? && Config(setup.parse(text).value).Some? {
      var ids := Config(setup.parse(text).value).value;
      var sorted := Sort(ids, Less);
      KnownSorted(setup.packs, ids);
      SortKeeps(ids, Less);
      UnlistedMeans(setup.packs, sorted, []);
      forall id | id in Unlisted(setup.packs, sorted) ensures id in ids && Find(setup.packs, id).None? {
        UnlistedMeans(setup.packs, sorted, id);
        FindMeans(setup.packs, id);
        assert id in sorted;
      }
    }
  }

  // --- definitions ---

  lemma {:induction false} FlattenMeans(packs: seq<Pack>, d: Definition)
    ensures d in Flatten(packs) <==> exists p :: p in packs && d in p.definitions
  {
    if packs != [] {
      FlattenMeans(packs[1..], d);
      assert packs == [packs[0]] + packs[1..];
    }
  }

  lemma {:induction false} ChosenMeans(packs: seq<Pack>, ids: seq<Key>, p: Pack)
    ensures p in Chosen(packs, ids) <==> exists id :: id in ids && Find(packs, id) == Some(p)
  {
    if ids != [] {
      ChosenMeans(packs, ids[1..], p);
      assert ids == [ids[0]] + ids[1..];
    }
  }

  /** What a configuration puts into the catalogs: the base definitions first, and those of the packs it names. */
  lemma DefinitionsMean(setup: Setup, ids: seq<Key>, d: Definition)
    ensures setup.base <= Definitions(setup, ids)
    ensures d in Definitions(setup, ids)
            <==> d in setup.base || exists id, p :: id in ids && Find(setup.packs, id) == Some(p) && d in p.definitions
  {
    FlattenMeans(Chosen(setup.packs, ids), d);
    if d in Flatten(Chosen(setup.packs, ids)) {
      var p :| p in Chosen(setup.packs, ids) && d in p.definitions;
      ChosenMeans(setup.packs, ids, p);
    }
    if exists id, p :: id in ids && Find(setup.packs, id) == Some(p) && d in p.definitions {
      var id, p :| id in ids && Find(setup.packs, id) == Some(p) && d in p.definitions;
      ChosenMeans(setup.packs, ids, p);
      assert p in Chosen(setup.packs, ids);
    }
  }

  // --- one application ---

  /**
   What applying a text leaves, one catalog at a time: a text that is not taken, or that would repeat a tool name,
   leaves the catalogs; any other gives each of them the definitions named and the digest of that manifest.
   */
  lemma ApplyMeans(setup: Setup, status: Status, text: Key, k: nat)
    requires k < |status.catalogs|
    ensures var next := Apply(setup, status, text);
            var parsed := Parse(setup, text);
            && |next.catalogs| == |status.catalogs|
            && (parsed.Failure? ==> next == status.(lastError := Some(parsed.error)))
            && (parsed.Success? ==>
                  var definitions := Definitions(setup, parsed.value);
                  var c := status.catalogs[k];
                  if !UniqueNames(definitions) then next == status.(lastError := next.lastError) && next.lastError.Some?
                  else next.catalogs[k] == Catalog(c.version, definitions, setup.manifest(c.version, definitions)))
            && (next.lastError.None? ==>
                  parsed.Success? && next.enabled == parsed.value && SameDigests(next.catalogs))
            && (next.lastError.Some? ==> next.enabled == status.enabled && next.generation == status.generation)
  {}

  // --- the queue ---

  /** Whether the call reads the file: open, and for a configure call allowed, known and written. */
  predicate Reads(setup: Setup, m: Manager, input: Input) {
    && !m.closed
    && (input.Reload? || (input.Configure? && FormedIds(input.ids) && AllKnown(setup.packs, input.ids)
                          && input.write.Pass?))
  }

  lemma ReadsMeans(setup: Setup, m: Manager, input: Input)
    ensures ReadBy(setup, m, input).Some? <==> Reads(setup, m, input)
  {
    if input.Configure? { ConfigureChecks(setup, input.ids); }
  }

  /** What a call answers: the status it leaves, or why it could not begin or the file could not be applied. */
  lemma CallAnswers(setup: Setup, m: Manager, input: Input)
    ensures var (n, r) := Step(setup, m, input);
            match input
            case Reload(_) => r == if m.closed then Failure(Closed) else Success(n.status)
            case Configure(ids, write, _) =>
              if m.closed then r == Failure(Closed)
              else if !FormedIds(ids) then r == Failure(Schema(ConfigValue(ids)))
              else if !AllKnown(setup.packs, ids) then r.Failure? && r.error.Unknown?
              else if write.Fail? then r == Failure(Unwritable(write.error))
              else r == if n.status.lastError.Some? then Failure(n.status.lastError.value) else Success(n.status)
            case Close => r == Success(m.status) && n.closed
            case WatcherError(reason) => r == Success(n.status) && n.status.lastError == Some(WatcherFailed(reason))
  {
    if input.Configure? { ConfigureChecks(setup, input.ids); }
  }

  lemma ConfigureChecks(setup: Setup, ids: seq<Key>)
    ensures var checked := ValidateConfig(setup.packs, ConfigValue(ids));
            && (!FormedIds(ids) ==> checked == Failure(Schema(ConfigValue(ids))))
            && (FormedIds(ids) && !AllKnown(setup.packs, ids) ==> checked.Failure? && checked.error.Unknown?)
            && (FormedIds(ids) && AllKnown(setup.packs, ids) ==> checked.Success?)
  {
    FormedMeans(ids);
    ConfigRoundTrip(ids);
    KnownSorted(setup.packs, ids);
    UnlistedMeans(setup.packs, Sort(ids, Less), []);
  }

  /**
   What a call changes.  One that does not read the file leaves all but the closed flag and the last error; one that
   reads it and skips leaves the status; and one that attempts it leaves what applying its text leaves, or the failure.
   */
  lemma CallChanges(setup: Setup, m: Manager, input: Input)
    ensures var n := Step(setup, m, input).0;
            && (input.Close? ==> n == m.(closed := true))
            && (input.WatcherError? ==> n == m.(status := m.status.(lastError := n.status.lastError)))
            && (!input.Close? && !input.WatcherError? && !Reads(setup, m, input) ==> n == m)
            && (Reads(setup, m, input) ==>
                  var file := if input.Reload? then input.file else input.after;
                  && n.closed == m.closed
                  && (!Attempts(setup, m, input) ==> n.status == m.status)
                  && (Attempts(setup, m, input) && file.Content? ==> n.status == Apply(setup, m.status, file.text))
                  && (Attempts(setup, m, input) && file.ReadError? ==>
                        n.status == m.status.(lastError := Some(Unreadable(file.reason))))
                  && (Attempts(setup, m, input) && file.Content? ==> n.lastAttempt == Some(file.text))
                  && (Attempts(setup, m, input) && file.ReadError? ==> n.lastReadError == Some(file.reason))
                  && (input.Configure? && file.Content? ==> Attempts(setup, m, input)))
  {
    ReadsMeans(setup, m, input);
    if input.Configure? { ConfigureChecks(setup, input.ids); }
  }
}

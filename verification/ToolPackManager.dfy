/** The tool-pack manager as the object the source keeps, each call proved against its step in ToolPacks. */
module ToolPackManager {
  import opened Results
  import opened Canonical
  import opened ToolPacks

  datatype Refusal = NoCatalogs | MixedCatalogs | BadPackId(id: Key) | RepeatedPack(id: Key) | RepeatedTool(name: Key)

  /** Names the first definition that repeats an earlier name. */
  method ValidateDefinitionNames(definitions: seq<Definition>) returns (r: Outcome<Key>)
    ensures r == (match FirstDuplicate(definitions) case None => Pass case Some(name) => Fail(name))
    ensures r.Pass? <==> UniqueNames(definitions)
  {
    var names: set<Key> := {};
    var i := 0;
    while i < |definitions|
      invariant 0 <= i <= |definitions|
      invariant names == Names(definitions[..i])
      invariant FirstDuplicate(definitions[..i]).None?
    {
      var definition := definitions[i];
      NextName(definitions, i);
      if definition.name in names {
        DuplicateStays(definitions, i + 1);
        return Fail(definition.name);
      }
      names := names + {definition.name};
      i := i + 1;
    }
    assert definitions[..i] == definitions;
    return Pass;
  }

  lemma NextName(definitions: seq<Definition>, i: nat)
    requires i < |definitions| && FirstDuplicate(definitions[..i]).None?
    ensures FirstDuplicate(definitions[..i + 1])
            == if definitions[i].name in Names(definitions[..i]) then Some(definitions[i].name) else None
    ensures Names(definitions[..i + 1]) == Names(definitions[..i]) + {definitions[i].name}
  {
    var more := definitions[..i + 1];
    assert more[..i] == definitions[..i] && more[i] == definitions[i];
    assert more == definitions[..i] + [definitions[i]];
  }

  lemma {:induction false} DuplicateStays(definitions: seq<Definition>, n: nat)
    requires n <= |definitions| && FirstDuplicate(definitions[..n]).Some?
    ensures FirstDuplicate(definitions) == FirstDuplicate(definitions[..n])
  {
    if n == |definitions| {
      assert definitions[..n] == definitions;
    } else {
      var front := definitions[..|definitions| - 1];
      assert front[..n] == definitions[..n];
      DuplicateStays(front, n);
    }
  }

  /** Valid and unique pack ids, and no pack that repeats one of its own names. */
  predicate PacksValid(packs: seq<Pack>) {
    && (forall i :: 0 <= i < |packs| ==> PackId(packs[i].id))
    && (forall i, j :: 0 <= i < j < |packs| ==> packs[i].id != packs[j].id)
    && (forall i :: 0 <= i < |packs| ==> UniqueNames(packs[i].definitions))
  }

  lemma ConstructibleIff(setup: Setup, catalogs: seq<Catalog>)
    ensures Constructible(setup, catalogs) <==>
              Aligned(catalogs) && PacksValid(setup.packs) && UniqueNames(setup.base + Flatten(setup.packs))
  {
    FlatUnique(setup.base, setup.packs);
  }

  /** What the constructor's loop over the packs refuses first: per pack its id, its novelty, then its names. */
  function PackRefusal(packs: seq<Pack>): (r: Option<Refusal>)
    ensures r.None? <==> PacksValid(packs)
  {
    if packs == [] then None
    else
      var front, last := packs[..|packs| - 1], packs[|packs| - 1];
      assert forall i :: 0 <= i < |front| ==> packs[i] == front[i];
      match PackRefusal(front)
      case Some(refusal) => Some(refusal)
      case None =>
        if !PackId(last.id) then Some(BadPackId(last.id))
        else if exists k :: 0 <= k < |front| && front[k].id == last.id then Some(RepeatedPack(last.id))
        else match FirstDuplicate(last.definitions)
          case Some(name) => Some(RepeatedTool(name))
          case None => None
  }

  /** What the constructor refuses first. */
  function FirstRefusal(setup: Setup, catalogs: seq<Catalog>): Option<Refusal> {
    if catalogs == [] then Some(NoCatalogs)
    else if !Aligned(catalogs) then Some(MixedCatalogs)
    else match PackRefusal(setup.packs)
      case Some(refusal) => Some(refusal)
      case None =>
        match FirstDuplicate(setup.base + Flatten(setup.packs))
        case Some(name) => Some(RepeatedTool(name))
        case None => None
  }

  lemma {:induction false} RefusalStays(packs: seq<Pack>, n: nat)
    requires n <= |packs| && PackRefusal(packs[..n]).Some?
    ensures PackRefusal(packs) == PackRefusal(packs[..n])
  {
    if n == |packs| {
      assert packs[..n] == packs;
    } else {
      var front := packs[..|packs| - 1];
      assert front[..n] == packs[..n];
      RefusalStays(front, n);
    }
  }

  lemma RefusalOfNext(packs: seq<Pack>, i: nat)
    requires i < |packs| && PackRefusal(packs[..i]).None?
    ensures PackRefusal(packs[..i + 1])
            == if !PackId(packs[i].id) then Some(BadPackId(packs[i].id))
               else if exists k :: 0 <= k < i && packs[k].id == packs[i].id then Some(RepeatedPack(packs[i].id))
               else match FirstDuplicate(packs[i].definitions)
                 case Some(name) => Some(RepeatedTool(name))
                 case None => None
  {
    var longer := packs[..i + 1];
    assert longer[..i] == packs[..i] && longer[i] == packs[i];
    assert forall k :: 0 <= k < i ==> longer[..i][k] == packs[k];
  }

  lemma FlattenNext(base: seq<Definition>, packs: seq<Pack>, i: nat)
    requires i < |packs|
    ensures base + Flatten(packs[..i]) + packs[i].definitions == base + Flatten(packs[..i + 1])
  {
    FlattenSnoc(packs[..i], packs[i]);
    assert packs[..i + 1] == packs[..i] + [packs[i]];
  }

  lemma NoPacks(base: seq<Definition>, packs: seq<Pack>)
    ensures PackRefusal(packs[..0]).None? && base == base + Flatten(packs[..0])
  {
    assert packs[..0] == [];
  }

  /** One pack against those before it. */
  method CheckPack(packs: seq<Pack>, i: nat) returns (refusal: Option<Refusal>)
    requires i < |packs| && PackRefusal(packs[..i]).None?
    ensures refusal == PackRefusal(packs[..i + 1])
  {
    var pack := packs[i];
    RefusalOfNext(packs, i);
    if !PackId(pack.id) { return Some(BadPackId(pack.id)); }
    if exists k :: 0 <= k < i && packs[k].id == pack.id { return Some(RepeatedPack(pack.id)); }
    var own := ValidateDefinitionNames(pack.definitions);
    return if own.Fail? then Some(RepeatedTool(own.error)) else None;
  }

  /** All definitions the manager could ever install, when its packs are valid. */
  method CollectPacks(setup: Setup) returns (r: Result<seq<Definition>, Refusal>)
    ensures r == match PackRefusal(setup.packs)
                 case None => Success(setup.base + Flatten(setup.packs))
                 case Some(refusal) => Failure(refusal)
    ensures r.Success? <==> PacksValid(setup.packs)
  {
    var packs := setup.packs;
    var all := setup.base;
    var i := 0;
    NoPacks(all, packs);
    while i < |packs|
      invariant 0 <= i <= |packs|
      invariant PackRefusal(packs[..i]).None?
      invariant all == setup.base + Flatten(packs[..i])
    {
      var refusal := CheckPack(packs, i);
      if refusal.Some? {
        RefusalStays(packs, i + 1);
        return Failure(refusal.value);
      }
      FlattenNext(setup.base, packs, i);
      all := all + packs[i].definitions;
      i := i + 1;
    }
    assert packs[..i] == packs;
    return Success(all);
  }

  class ToolPackManager {
    const setup: Setup
    var lastAttemptDigest: Option<Key>
    var lastReadErrorFingerprint: Option<string>
    var enabled: seq<Key>
    var generation: nat
    var lastError: Option<Problem>
    var catalogs: seq<Catalog>
    var closed: bool

    function CurrentStatus(): Status
      reads this
    {
      Status(enabled, generation, lastError, catalogs)
    }

    function State(): Manager
      reads this
    {
      Manager(lastAttemptDigest, lastReadErrorFingerprint, CurrentStatus(), closed)
    }

    constructor (setup: Setup, catalogs: seq<Catalog>)
      ensures this.setup == setup && State() == Created(catalogs)
    {
      this.setup, this.catalogs := setup, catalogs;
      lastAttemptDigest, lastReadErrorFingerprint := None, None;
      enabled, generation, lastError, closed := [], 0, None, false;
    }

    /** The constructor's checks, in their order: it builds a manager exactly when the options are constructible. */
    static method Create(setup: Setup, catalogs: seq<Catalog>) returns (r: Result<ToolPackManager, Refusal>)
      ensures r.Success? <==> Constructible(setup, catalogs)
      ensures r.Failure? ==> FirstRefusal(setup, catalogs) == Some(r.error)
      ensures r.Success? ==> fresh(r.value) && r.value.setup == setup && r.value.State() == Created(catalogs)
    {
      ConstructibleIff(setup, catalogs);
      if catalogs == [] { return Failure(NoCatalogs); }
      if exists i :: 0 <= i < |catalogs| &&
           (catalogs[i].digest != catalogs[0].digest || catalogs[i].version != catalogs[0].version)
      {
        return Failure(MixedCatalogs);
      }
      var packs := CollectPacks(setup);
      if packs.Failure? { return Failure(packs.error); }
      var names := ValidateDefinitionNames(packs.value);
      if names.Fail? { return Failure(RepeatedTool(names.error)); }
      var manager := new ToolPackManager(setup, catalogs);
      return Success(manager);
    }

    method ReplaceDefinitions(definitions: seq<Definition>) returns (changed: bool)
      modifies `catalogs
      ensures catalogs == ReplaceAll(setup, old(catalogs), definitions)
      ensures changed == Changed(old(catalogs), catalogs)
    {
      var i := 0;
      changed := false;
      while i < |catalogs|
        invariant 0 <= i <= |catalogs| == |old(catalogs)|
        invariant forall k :: 0 <= k < i ==> catalogs[k] == Replace(setup, old(catalogs)[k], definitions)
        invariant forall k :: i <= k < |catalogs| ==> catalogs[k] == old(catalogs)[k]
        invariant changed <==> exists k :: 0 <= k < i && old(catalogs)[k].digest != catalogs[k].digest
      {
        var next := Replace(setup, catalogs[i], definitions);
        if next.digest != catalogs[i].digest { changed := true; }
        catalogs := catalogs[i := next];
        i := i + 1;
      }
    }

    method ReloadNow(file: File) returns (status: Status)
      modifies this
      ensures State() == ToolPacks.ReloadNow(setup, old(State()), file) && status == CurrentStatus()
    {
      match file {
      case ReadError(reason) =>
        if lastReadErrorFingerprint == Some(reason) { return CurrentStatus(); }
        lastReadErrorFingerprint := Some(reason);
        lastError := Some(Unreadable(reason));
      case Content(text) =>
        var recoveringFromReadError := lastReadErrorFingerprint.Some?;
        lastReadErrorFingerprint := None;
        if lastAttemptDigest == Some(text) && !recoveringFromReadError { return CurrentStatus(); }
        lastAttemptDigest := Some(text);
        ApplyText(text);
      }
      return CurrentStatus();
    }

    method ApplyText(text: Key)
      modifies `enabled, `generation, `lastError, `catalogs
      ensures CurrentStatus() == Apply(setup, old(CurrentStatus()), text)
    {
      var parsed := Parse(setup, text);
      if parsed.Failure? {
        lastError := Some(parsed.error);
        return;
      }
      var definitions := Definitions(setup, parsed.value);
      var names := ValidateDefinitionNames(definitions);
      if names.Fail? {
        lastError := Some(Duplicate(names.error));
        return;
      }
      var changed := ReplaceDefinitions(definitions);
      if !SameDigests(catalogs) {
        lastError := Some(Diverged);
        return;
      }
      enabled, lastError := parsed.value, None;
      if changed { generation := generation + 1; }
    }

    method Reload(file: File) returns (r: Result<Status, Problem>)
      modifies this
      ensures (State(), r) == Step(setup, old(State()), ToolPacks.Reload(file))
    {
      if closed { return Failure(Closed); }
      var status := ReloadNow(file);
      return Success(status);
    }

    method Configure(ids: seq<Key>, write: Outcome<string>, after: File) returns (r: Result<Status, Problem>)
      modifies this
      ensures (State(), r) == Step(setup, old(State()), ToolPacks.Configure(ids, write, after))
    {
      if closed { return Failure(Closed); }
      var config := ValidateConfig(setup.packs, ConfigValue(ids));
      if config.Failure? { return Failure(config.error); }
      if write.Fail? { return Failure(Unwritable(write.error)); }
      lastAttemptDigest := None;
      var status := ReloadNow(after);
      if status.lastError.Some? { return Failure(status.lastError.value); }
      return Success(status);
    }

    method Close() returns (r: Result<Status, Problem>)
      modifies `closed
      ensures (State(), r) == Step(setup, old(State()), ToolPacks.Close)
    {
      closed := true;
      return Success(CurrentStatus());
    }

    method OnWatcherError(reason: string) returns (r: Result<Status, Problem>)
      modifies `lastError
      ensures (State(), r) == Step(setup, old(State()), WatcherError(reason))
    {
      lastError := Some(WatcherFailed(reason));
      return Success(CurrentStatus());
    }
  }

  lemma {:induction false} FlattenSnoc(packs: seq<Pack>, pack: Pack)
    ensures Flatten(packs + [pack]) == Flatten(packs) + pack.definitions
  {
    if packs == [] {
      assert packs + [pack] == [pack];
      assert Flatten([pack][1..]) == [];
    } else {
      FlattenSnoc(packs[1..], pack);
      assert (packs + [pack])[1..] == packs[1..] + [pack];
    }
  }
}

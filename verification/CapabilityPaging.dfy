/**
 * Cursor paging of capability searches (apps/gateway/src/capability-directory.ts).
 *
 * A fingerprint is a collision-free hash of the manifest digest and the search, so it is represented by those. The
 * text form of a cursor is a parameter: base64url without padding (section 5 of RFC 4648) of a JSON object.
 */
module CapabilityPaging {
  import opened CodeUnits
  import opened Results
  import opened Sorting

  const CURSOR_SCHEMA_VERSION: string := "scr.capability-cursor/v1"
  const MAX_CURSOR_LENGTH: nat := 2048
  const MAX_QUERY_LENGTH: nat := 500
  const DEFAULT_LIMIT: real := 25.0
  const MAX_LIMIT: real := 100.0

  datatype Level = Observe | Workspace | Consequential

  /** A capability as listed; `category` and `haystack` are already in lower case. */
  datatype Entry = Entry(
    name: string, category: string, packId: Option<string>, level: Level, executable: bool, haystack: string)

  /** A search without its position: trimmed, in lower case, its categories sorted. */
  datatype Filter = Filter(
    query: string, categories: seq<string>, packId: string, level: Option<Level>, executableOnly: bool)

  datatype Fingerprint = Fingerprint(manifest: nat, filter: Filter)

  datatype Payload = Payload(schemaVersion: string, fingerprint: Fingerprint, offset: nat)

  /** The fields a cursor's JSON object may or may not carry, of the types that count. */
  datatype Fields = Fields(
    schemaVersion: Option<string>, fingerprint: Option<Fingerprint>, offset: Option<real>)

  /** Writing a payload as text, and reading the fields back from text that is the base64url of a JSON object. */
  datatype Codec = Codec(encode: Payload -> string, decode: string -> Option<Fields>)

  /** A bound directory: its tools as entries, the digest of its manifest, and the name order of the locale. */
  datatype Binding = Binding(
    entries: seq<Entry>, manifest: nat, before: (Entry, Entry) -> bool, codec: Codec)

  datatype Page = Page(totalMatched: nat, entries: seq<Entry>, nextCursor: Option<string>)

  predicate CursorUnit(c: char) {
    'A' <= c <= 'Z' || 'a' <= c <= 'z' || '0' <= c <= '9' || c == '_' || c == '-'
  }

  predicate CursorText(text: string) {
    1 <= |text| <= MAX_CURSOR_LENGTH && forall i :: 0 <= i < |text| ==> CursorUnit(text[i])
  }

  function CursorPayload(fingerprint: Fingerprint, offset: nat): Payload {
    Payload(CURSOR_SCHEMA_VERSION, fingerprint, offset)
  }

  /**
   What base64url and JSON promise of the cursors of one search, up to an offset: they have the cursor's alphabet, fit
   its length limit and read back as written.
   */
  ghost predicate Lawful(codec: Codec, own: Fingerprint, most: nat) {
    forall offset: nat :: offset <= most ==>
      && CursorText(codec.encode(CursorPayload(own, offset)))
      && codec.decode(codec.encode(CursorPayload(own, offset)))
         == Some(Fields(Some(CURSOR_SCHEMA_VERSION), Some(own), Some(offset as real)))
  }

  predicate Whole(x: real) { x.Floor as real == x }

  function DecodeCursor(codec: Codec, cursor: Option<string>, fingerprint: Fingerprint): Result<nat, Code> {
    match cursor
    case None => Success(0)
    case Some(text) =>
      if !CursorText(text) then Failure(InvalidInput)
      else
        match codec.decode(text)
        case None => Failure(InvalidInput)
        case Some(fields) =>
          if || fields.schemaVersion != Some(CURSOR_SCHEMA_VERSION)
             || fields.fingerprint != Some(fingerprint)
             || fields.offset.None?
             || !Whole(fields.offset.value)
             || fields.offset.value < 0.0
          then Failure(InvalidInput)
          else Success(fields.offset.value.Floor)
  }

  predicate Contains(text: string, part: string) {
    part <= text || (text != [] && Contains(text[1..], part))
  }

  predicate Matches(filter: Filter, entry: Entry) {
    && (filter.categories == [] || entry.category in filter.categories)
    && (filter.packId == "" || entry.packId == Some(filter.packId))
    && (filter.level.None? || entry.level == filter.level.value)
    && (filter.executableOnly ==> entry.executable)
    && (filter.query == "" || Contains(entry.haystack, filter.query))
  }

  function Selected(filter: Filter, entries: seq<Entry>): seq<Entry> {
    if entries == [] then []
    else (if Matches(filter, entries[0]) then [entries[0]] else []) + Selected(filter, entries[1..])
  }

  /** Everything a search finds, in name order. */
  function Found(binding: Binding, filter: Filter): seq<Entry> {
    Sort(Selected(filter, binding.entries), binding.before)
  }

  function Min(a: nat, b: nat): nat { if a < b then a else b }

  predicate QueryAllowed(filter: Filter) { Utf16Length(filter.query) <= MAX_QUERY_LENGTH }

  predicate LimitAllowed(limit: real) { Whole(limit) && 1.0 <= limit <= MAX_LIMIT }

  function Search(binding: Binding, filter: Filter, cursor: Option<string>, limit: Option<real>): Result<Page, Code> {
    var size := if limit.Some? then limit.value else DEFAULT_LIMIT;
    if !QueryAllowed(filter) then Failure(InvalidInput)
    else if !LimitAllowed(size) then Failure(InvalidInput)
    else
      var fingerprint := Fingerprint(binding.manifest, filter);
      match DecodeCursor(binding.codec, cursor, fingerprint)
      case Failure(code) => Failure(code)
      case Success(offset) =>
        var entries := Found(binding, filter);
        if offset > |entries| then Failure(InvalidInput)
        else
          var nextOffset := Min(offset + size.Floor, |entries|);
          Success(Page(
            |entries|,
            entries[offset..nextOffset],
            if nextOffset < |entries|
            then Some(binding.codec.encode(CursorPayload(fingerprint, nextOffset)))
            else None))
  }

  // ----- cursors -----

  /** The codec is lawful for every cursor this search can write. */
  ghost predicate LawfulFor(binding: Binding, filter: Filter) {
    Lawful(binding.codec, Fingerprint(binding.manifest, filter), |Found(binding, filter)|)
  }

  /** A cursor reads back under its own fingerprint and is refused under any other. */
  lemma CursorRoundTrip(codec: Codec, fingerprint: Fingerprint, offset: nat, other: Fingerprint)
    requires Lawful(codec, fingerprint, offset)
    ensures DecodeCursor(codec, Some(codec.encode(CursorPayload(fingerprint, offset))), other)
            == if other == fingerprint then Success(offset) else Failure(InvalidInput)
  {
    assert CursorText(codec.encode(CursorPayload(fingerprint, offset)));
    assert (offset as real).Floor == offset;
  }

  /** A page's cursor is refused by every search it does not come from: another manifest, or another filter. */
  lemma StaleCursorRefused(
    binding: Binding, filter: Filter, cursor: Option<string>, limit: Option<real>,
    later: Binding, other: Filter, next: Option<real>)
    requires LawfulFor(binding, filter) && later.codec == binding.codec
    requires Search(binding, filter, cursor, limit).Success?
    requires Search(binding, filter, cursor, limit).value.nextCursor.Some?
    requires later.manifest != binding.manifest || other != filter
    ensures Search(later, other, Search(binding, filter, cursor, limit).value.nextCursor, next) == Failure(InvalidInput)
  {
    var offset := DecodeCursor(binding.codec, cursor, Fingerprint(binding.manifest, filter)).value;
    var size := if limit.Some? then limit.value else DEFAULT_LIMIT;
    CursorRoundTrip(
      binding.codec, Fingerprint(binding.manifest, filter), Min(offset + size.Floor, |Found(binding, filter)|),
      Fingerprint(later.manifest, other));
  }

  // ----- following nextCursor -----

  /** The page that starts at an offset: the entries from there on, and a cursor to what is left unless nothing is. */
  predicate PageOf(binding: Binding, filter: Filter, offset: nat, page: Page) {
    var found := Found(binding, filter);
    var next := offset + |page.entries|;
    && page.totalMatched == |found|
    && next <= |found| && page.entries == found[offset..next]
    && (page.nextCursor.None? <==> next == |found|)
    && (page.nextCursor.Some? ==>
          page.entries != [] &&
          DecodeCursor(binding.codec, page.nextCursor, Fingerprint(binding.manifest, filter)) == Success(next))
  }

  /** Asked for at a valid offset with a valid limit, that page is served. */
  lemma PageAt(binding: Binding, filter: Filter, cursor: Option<string>, offset: nat, limit: Option<real>)
    returns (page: Page)
    requires DecodeCursor(binding.codec, cursor, Fingerprint(binding.manifest, filter)) == Success(offset)
    requires QueryAllowed(filter) && LimitAllowed(if limit.Some? then limit.value else DEFAULT_LIMIT)
    requires LawfulFor(binding, filter) && offset <= |Found(binding, filter)|
    ensures Search(binding, filter, cursor, limit) == Success(page) && PageOf(binding, filter, offset, page)
  {
    var size := if limit.Some? then limit.value else DEFAULT_LIMIT;
    var found, own := Found(binding, filter), Fingerprint(binding.manifest, filter);
    var next := Min(offset + size.Floor, |found|);
    FloorAllowed(size);
    CursorRoundTrip(binding.codec, own, next, own);
    SearchServes(binding, filter, cursor, offset, limit);
    page := Search(binding, filter, cursor, limit).value;
    assert |found[offset..next]| == next - offset;
  }

  lemma FloorAllowed(size: real)
    requires LimitAllowed(size)
    ensures size.Floor >= 1
  {}

  lemma SearchServes(binding: Binding, filter: Filter, cursor: Option<string>, offset: nat, limit: Option<real>)
    requires DecodeCursor(binding.codec, cursor, Fingerprint(binding.manifest, filter)) == Success(offset)
    requires QueryAllowed(filter) && LimitAllowed(if limit.Some? then limit.value else DEFAULT_LIMIT)
    requires offset <= |Found(binding, filter)|
    ensures var size := if limit.Some? then limit.value else DEFAULT_LIMIT;
            var found, own := Found(binding, filter), Fingerprint(binding.manifest, filter);
            var next := Min(offset + size.Floor, |found|);
            && offset <= next
            && Search(binding, filter, cursor, limit)
               == Success(Page(|found|, found[offset..next],
                               if next < |found|
                               then Some(binding.codec.encode(CursorPayload(own, next))) else None))
  {}

  lemma PageOfRest(binding: Binding, filter: Filter, offset: nat, page: Page)
    requires PageOf(binding, filter, offset, page)
    ensures offset <= |Found(binding, filter)|
    ensures var rest, next := Found(binding, filter)[offset..], offset + |page.entries|;
            if page.nextCursor.None? then page.entries == rest
            else
              && page.entries < rest && next < |Found(binding, filter)|
              && rest[|page.entries|..] == Found(binding, filter)[next..]
  {}

  /** The pages got by asking with these limits one after the other, until there is no next cursor. */
  function Follow(binding: Binding, filter: Filter, cursor: Option<string>, limits: seq<Option<real>>)
    : seq<Result<Page, Code>>
    decreases |limits|
  {
    if limits == [] then []
    else
      var response := Search(binding, filter, cursor, limits[0]);
      [response]
      + if response.Success? && response.value.nextCursor.Some?
        then Follow(binding, filter, response.value.nextCursor, limits[1..])
        else []
  }

  predicate LimitsAllowed(limits: seq<Option<real>>) {
    forall i :: 0 <= i < |limits| ==> LimitAllowed(if limits[i].Some? then limits[i].value else DEFAULT_LIMIT)
  }

  predicate AllServed(pages: seq<Result<Page, Code>>) {
    forall i :: 0 <= i < |pages| ==> pages[i].Success?
  }

  function Gathered(pages: seq<Result<Page, Code>>): seq<Entry>
    requires AllServed(pages)
  {
    if pages == [] then [] else pages[0].value.entries + Gathered(pages[1..])
  }

  predicate Ends(pages: seq<Result<Page, Code>>) {
    pages != [] && pages[|pages| - 1].Success? && pages[|pages| - 1].value.nextCursor.None?
  }

  /**
   * What asking for up to `n` pages of `rest` must yield: only pages, never an entry repeated or left out, all of
   * `rest` once there is no next cursor, no endless walk, and no empty page unless there is nothing to list.
   */
  predicate Walks(pages: seq<Result<Page, Code>>, rest: seq<Entry>, n: nat) {
    && AllServed(pages)
    && Gathered(pages) <= rest
    && (Ends(pages) ==> Gathered(pages) == rest)
    && (n > |rest| ==> Ends(pages))
    && (rest != [] ==> |pages| <= |Gathered(pages)|)
  }

  lemma LastPage(page: Page, rest: seq<Entry>, n: nat)
    requires page.entries == rest && page.nextCursor.None?
    ensures Walks([Success(page)], rest, n)
  {
    var pages: seq<Result<Page, Code>> := [Success(page)];
    assert pages[1..] == [];
    assert Gathered(pages) == rest + [];
  }

  lemma NextPage(page: Page, later: seq<Result<Page, Code>>, rest: seq<Entry>, n: nat)
    requires page.entries != [] && page.entries < rest && page.nextCursor.Some?
    requires Walks(later, rest[|page.entries|..], n)
    ensures Walks([Success(page)] + later, rest, n + 1)
  {
    var pages: seq<Result<Page, Code>> := [Success(page)] + later;
    assert pages[1..] == later;
    assert forall i :: 0 < i < |pages| ==> pages[i] == later[i - 1];
    assert Gathered(pages) == page.entries + Gathered(later);
    assert rest == page.entries + rest[|page.entries|..];
  }

  lemma {:induction false} FollowFrom(
    binding: Binding, filter: Filter, cursor: Option<string>, offset: nat, limits: seq<Option<real>>)
    requires LawfulFor(binding, filter) && QueryAllowed(filter) && LimitsAllowed(limits)
    requires DecodeCursor(binding.codec, cursor, Fingerprint(binding.manifest, filter)) == Success(offset)
    requires offset <= |Found(binding, filter)|
    requires limits == [] ==> offset < |Found(binding, filter)|
    ensures Walks(Follow(binding, filter, cursor, limits), Found(binding, filter)[offset..], |limits|)
    decreases |limits|
  {
    if limits != [] {
      var page := PageAt(binding, filter, cursor, offset, limits[0]);
      var later := FollowRest(binding, filter, page, limits);
      if page.nextCursor.Some? {
        PageOfRest(binding, filter, offset, page);
        FollowFrom(binding, filter, page.nextCursor, offset + |page.entries|, limits[1..]);
      }
      PageWalks(binding, filter, offset, page, later, |limits| - 1);
      FollowUnfolds(binding, filter, cursor, limits, page);
    }
  }

  /** What following goes on to after a page. */
  function FollowRest(binding: Binding, filter: Filter, page: Page, limits: seq<Option<real>>): seq<Result<Page, Code>>
    requires limits != []
  {
    if page.nextCursor.Some? then Follow(binding, filter, page.nextCursor, limits[1..]) else []
  }

  lemma FollowUnfolds(
    binding: Binding, filter: Filter, cursor: Option<string>, limits: seq<Option<real>>, page: Page)
    requires limits != [] && Search(binding, filter, cursor, limits[0]) == Success(page)
    ensures Follow(binding, filter, cursor, limits) == [Success(page)] + FollowRest(binding, filter, page, limits)
  {}

  lemma PageWalks(
    binding: Binding, filter: Filter, offset: nat, page: Page, later: seq<Result<Page, Code>>, n: nat)
    requires PageOf(binding, filter, offset, page) && offset + |page.entries| <= |Found(binding, filter)|
    requires if page.nextCursor.Some? then Walks(later, Found(binding, filter)[offset + |page.entries|..], n)
             else later == []
    ensures Walks([Success(page)] + later, Found(binding, filter)[offset..], n + 1)
  {
    PageOfRest(binding, filter, offset, page);
    var rest := Found(binding, filter)[offset..];
    if page.nextCursor.Some? {
      NextPage(page, later, rest, n);
    } else {
      LastPage(page, rest, n + 1);
      var pages: seq<Result<Page, Code>> := [Success(page)];
      assert pages + later == pages;
    }
  }

  /**
   * Starting without a cursor and following nextCursor with any limit from 1 to 100 chosen afresh for each page, the
   * walk over the sorted, filtered list is as `Walks` says: it ends, and has then gathered exactly that list.
   */
  lemma PagingGathersAll(binding: Binding, filter: Filter, limits: seq<Option<real>>)
    requires LawfulFor(binding, filter) && QueryAllowed(filter) && LimitsAllowed(limits) && limits != []
    ensures Walks(Follow(binding, filter, None, limits), Found(binding, filter), |limits|)
    ensures |limits| > |Found(binding, filter)| ==>
              AllServed(Follow(binding, filter, None, limits)) &&
              Gathered(Follow(binding, filter, None, limits)) == Found(binding, filter)
  {
    assert Found(binding, filter)[0..] == Found(binding, filter);
    FollowFrom(binding, filter, None, 0, limits);
  }

  // ----- what is found -----

  lemma {:induction false} SelectedExactly(filter: Filter, entries: seq<Entry>)
    ensures forall e :: e in Selected(filter, entries) <==> e in entries && Matches(filter, e)
  {
    if entries != [] {
      SelectedExactly(filter, entries[1..]);
      assert entries == [entries[0]] + entries[1..];
    }
  }

  /**
   Exactly the matching capabilities are found, each as often as it is listed, none behind one the locale puts after
   it; and those the locale does not tell apart stay in the order of the directory.
   */
  lemma FoundExactly(binding: Binding, filter: Filter, entry: Entry)
    requires WeakOrder(binding.before, set e | e in binding.entries) && entry in binding.entries
    ensures entry in Found(binding, filter) <==> Matches(filter, entry)
    ensures multiset(Found(binding, filter)) == multiset(Selected(filter, binding.entries))
    ensures OrderedAs(Found(binding, filter), Selected(filter, binding.entries), binding.before, entry)
  {
    SelectedExactly(filter, binding.entries);
    var selected := Selected(filter, binding.entries);
    SortOrders(selected, binding.before, (set e | e in binding.entries), entry);
    SortKeeps(selected, binding.before);
  }

  /** The directory object: bound once, and of no use before. */
  class CapabilityDirectory {
    var binding: Option<Binding>

    constructor ()
      ensures binding.None?
    {
      binding := None;
    }

    method Bind(next: Binding) returns (r: Outcome<Code>)
      modifies this
      ensures r == (if old(binding).None? then Pass else Fail(InternalError))
      ensures binding == (if old(binding).None? then Some(next) else old(binding))
    {
      if binding.Some? { return Fail(InternalError); }
      binding := Some(next);
      return Pass;
    }

    method Find(filter: Filter, cursor: Option<string>, limit: Option<real>) returns (r: Result<Page, Code>)
      ensures r == (if binding.None? then Failure(InternalError) else Search(binding.value, filter, cursor, limit))
    {
      if binding.None? { return Failure(InternalError); }
      return Search(binding.value, filter, cursor, limit);
    }
  }
}

/** What a capability search answers (apps/gateway/src/capability-directory.ts), read off its arguments. */
module PagingAnswers {
  import opened CodeUnits
  import opened Results
  import opened CapabilityPaging

  // --- what a search matches ---

  /** The part stands at this place in the text. */
  predicate StandsAt(text: string, part: string, i: nat) { i + |part| <= |text| && text[i..i + |part|] == part }

  ghost predicate StandsIn(text: string, part: string) { exists i: nat :: StandsAt(text, part, i) }

  lemma ShiftedPlace(text: string, part: string, i: nat)
    requires text != []
    ensures StandsAt(text[1..], part, i) <==> StandsAt(text, part, i + 1)
  {
    if i + 1 + |part| <= |text| { assert text[1..][i..i + |part|] == text[i + 1..i + 1 + |part|]; }
  }

  lemma {:induction false} ContainsMeans(text: string, part: string)
    ensures Contains(text, part) <==> StandsIn(text, part)
  {
    if part <= text {
      assert StandsAt(text, part, 0);
    } else if text == [] {
      assert forall i: nat :: !StandsAt(text, part, i);
    } else {
      ContainsMeans(text[1..], part);
      if StandsIn(text[1..], part) {
        var i: nat :| StandsAt(text[1..], part, i);
        ShiftedPlace(text, part, i);
      }
      if StandsIn(text, part) {
        var i: nat :| StandsAt(text, part, i);
        assert i > 0;
        ShiftedPlace(text, part, i - 1);
      }
    }
  }

  /** A filter leaves out exactly what some part of it that is set does not apply to. */
  lemma MatchMeans(filter: Filter, entry: Entry)
    ensures !Matches(filter, entry)
            <==> || (filter.categories != [] && entry.category !in filter.categories)
                 || (filter.packId != "" && (entry.packId.None? || entry.packId.value != filter.packId))
                 || (filter.level.Some? && filter.level.value != entry.level)
                 || (filter.executableOnly && !entry.executable)
                 || (filter.query != "" && !StandsIn(entry.haystack, filter.query))
  {
    ContainsMeans(entry.haystack, filter.query);
  }

  // --- cursors ---

  /** A cursor opens a search at an offset exactly if it is one of that search's, well formed and whole. */
  lemma CursorAnswers(codec: Codec, text: string, own: Fingerprint, offset: nat)
    ensures DecodeCursor(codec, Some(text), own) == Success(offset)
            <==> && 1 <= |text| <= 2048 && (forall i :: 0 <= i < |text| ==> CursorUnit(text[i]))
                 && codec.decode(text)
                    == Some(Fields(Some("scr.capability-cursor/v1"), Some(own), Some(offset as real)))
    ensures DecodeCursor(codec, Some(text), own).Failure? ==>
              DecodeCursor(codec, Some(text), own) == Failure(InvalidInput)
    ensures DecodeCursor(codec, None, own) == Success(0)
  {
    assert (offset as real).Floor == offset;
    var read := codec.decode(text);
    if read.Some? && read.value.offset.Some? && Whole(read.value.offset.value) && read.value.offset.value >= 0.0 {
      assert read.value.offset.value.Floor as real == read.value.offset.value;
    }
  }

  // --- the whole search ---

  /** How many entries a page may hold, if the limit is one the search allows: from 1 to 100, and 25 by default. */
  predicate PageSize(limit: Option<real>, size: nat) {
    1 <= size <= 100 && (match limit case None => size == 25 case Some(l) => l == size as real)
  }

  lemma LimitMeans(limit: Option<real>)
    ensures LimitAllowed(if limit.Some? then limit.value else DEFAULT_LIMIT)
            <==> exists size: nat :: PageSize(limit, size)
    ensures forall size: nat :: PageSize(limit, size) ==>
              (if limit.Some? then limit.value else DEFAULT_LIMIT).Floor == size
  {
    var l := if limit.Some? then limit.value else DEFAULT_LIMIT;
    if LimitAllowed(l) { assert PageSize(limit, l.Floor); }
  }

  /**
   A search is served exactly if its query has at most 500 UTF-16 units, its limit is allowed, and its cursor opens it
   at an offset within what is found; the page then runs from there for as long as the limit and the list allow.  All
   refusals say that the input is invalid.
   */
  lemma SearchAnswers(binding: Binding, filter: Filter, cursor: Option<string>, limit: Option<real>, size: nat)
    requires PageSize(limit, size)
    ensures var own, found := Fingerprint(binding.manifest, filter), Found(binding, filter);
            var start := DecodeCursor(binding.codec, cursor, own);
            var r := Search(binding, filter, cursor, limit);
            && (r.Success? <==> Utf16Length(filter.query) <= 500 && start.Success? && start.value <= |found|)
            && (r.Success? ==>
                  && r.value.totalMatched == |found|
                  && r.value.entries
                     == found[start.value..if start.value + size < |found| then start.value + size else |found|]
                  && (r.value.nextCursor.Some? <==> start.value + size < |found|))
  {
    LimitMeans(limit);
  }

  lemma SearchRefused(binding: Binding, filter: Filter, cursor: Option<string>, limit: Option<real>)
    ensures var r := Search(binding, filter, cursor, limit);
            && (r.Failure? ==> r.error == InvalidInput)
            && ((forall size: nat :: !PageSize(limit, size)) ==> r.Failure?)
  {
    LimitMeans(limit);
    if cursor.Some? { CursorAnswers(binding.codec, cursor.value, Fingerprint(binding.manifest, filter), 0); }
  }
}

/**
 * The digest input of a cutover checkpoint (apps/runtime-host/src/cutover.ts): object members are sorted by key at
 * every depth before the value is serialised and hashed.
 *
 * An object is the list of its own members in property order. Rebuilding one from a list of entries does not keep
 * the list's order: keys that are array indices come first, in numeric order, and only the others stay as listed.
 */
module Canonical {
  import opened Results
  import opened Sorting
  import opened CodeUnits

  const MAX_CHECKPOINT_STATE_BYTES: nat := 4 * 1024 * 1024

  /** Keys are compared by code unit. */
  type Key = seq<CodeUnit>

  datatype Member = Member(key: Key, value: Json)

  datatype Json =
    | Null
    | Bool(flag: bool)
    | Number(number: real)
    | Text(text: Key)
    | Array(items: seq<Json>)
    | Object(members: seq<Member>)

  predicate UniqueKeys(members: seq<Member>) {
    forall i, j :: 0 <= i < j < |members| ==> members[i].key != members[j].key
  }

  predicate WellFormed(value: Json) {
    match value
    case Array(items) => forall i :: 0 <= i < |items| ==> WellFormed(items[i])
    case Object(members) =>
      UniqueKeys(members) && forall i :: 0 <= i < |members| ==> WellFormed(members[i].value)
    case _ => true
  }

  // ----- key orders -----

  predicate Less(left: Key, right: Key) {
    right != [] && (left == [] || left[0] < right[0] || (left[0] == right[0] && Less(left[1..], right[1..])))
  }

  predicate Digit(unit: CodeUnit) { 48 <= unit <= 57 }

  function Numeral(key: Key): nat
    requires forall i :: 0 <= i < |key| ==> Digit(key[i])
  {
    if key == [] then 0
    else
      assert Digit(key[|key| - 1]);
      var last: int := key[|key| - 1];
      10 * Numeral(key[..|key| - 1]) + (last - 48)
  }

  /** An array index: a decimal without leading zeros below 2^32 - 1. */
  predicate Index(key: Key) {
    && key != []
    && (forall i :: 0 <= i < |key| ==> Digit(key[i]))
    && (|key| > 1 ==> key[0] != 48)
    && Numeral(key) < 0xFFFF_FFFF
  }

  /** The order in which an object lists two members added in code-unit order. */
  predicate Before(left: Key, right: Key) {
    if Index(left) && Index(right) then Numeral(left) < Numeral(right)
    else if Index(left) || Index(right) then Index(left)
    else Less(left, right)
  }

  // ----- canonicalize -----

  predicate ByKey(left: Member, right: Member) { Less(left.key, right.key) }

  predicate ByNumeral(left: Member, right: Member) {
    Index(left.key) && Index(right.key) && Numeral(left.key) < Numeral(right.key)
  }

  predicate PropertyOrder(left: Member, right: Member) { Before(left.key, right.key) }

  function Select(members: seq<Member>, index: bool): (r: seq<Member>)
    ensures forall x :: x in r <==> x in members && Index(x.key) == index
  {
    if members == [] then []
    else (if Index(members[0].key) == index then [members[0]] else []) + Select(members[1..], index)
  }

  /** The own members of an object built from `entries`, whose keys are unique. */
  function FromEntries(entries: seq<Member>): seq<Member> {
    Sort(Select(entries, true), ByNumeral) + Select(entries, false)
  }

  function Canonicalize(value: Json): Json {
    match value
    case Array(items) => Array(seq(|items|, i requires 0 <= i < |items| => Canonicalize(items[i])))
    case Object(members) =>
      var sorted := Sort(members, ByKey);
      assert forall i :: 0 <= i < |sorted| ==> sorted[i] in multiset(sorted);
      Object(FromEntries(seq(|sorted|, i requires 0 <= i < |sorted| =>
        assert sorted[i] in members;
        Member(sorted[i].key, Canonicalize(sorted[i].value)))))
    case _ => value
  }

  // ----- both key orders are strict and total -----

  lemma {:induction false} LessStrict(left: Key, right: Key)
    ensures !(Less(left, right) && Less(right, left))
    ensures left != right ==> Less(left, right) || Less(right, left)
  {
    if left != [] && right != [] && left[0] == right[0] {
      LessStrict(left[1..], right[1..]);
      assert left == [left[0]] + left[1..] && right == [right[0]] + right[1..];
    }
  }

  lemma {:induction false} LessTransitive(a: Key, b: Key, c: Key)
    requires Less(a, b) && Less(b, c)
    ensures Less(a, c)
  {
    if a != [] && a[0] == b[0] == c[0] {
      LessTransitive(a[1..], b[1..], c[1..]);
    }
  }

  predicate Decimal(key: Key) {
    key != [] && (forall i :: 0 <= i < |key| ==> Digit(key[i])) && (|key| > 1 ==> key[0] != 48)
  }

  lemma {:induction false} NumeralPositive(key: Key)
    requires Decimal(key) && key[0] != 48
    ensures Numeral(key) > 0
  {
    if |key| > 1 { NumeralPositive(key[..|key| - 1]); }
  }

  /** Decimals without leading zeros are equal when they denote the same number. */
  lemma {:induction false} NumeralInjective(left: Key, right: Key)
    requires Decimal(left) && Decimal(right) && Numeral(left) == Numeral(right)
    ensures left == right
    decreases |left| + |right|
  {
    var l, r := left[..|left| - 1], right[..|right| - 1];
    assert left == l + [left[|left| - 1]] && right == r + [right[|right| - 1]];
    assert left[|left| - 1] == right[|right| - 1] && Numeral(l) == Numeral(r);
    if l != [] && r != [] {
      NumeralInjective(l, r);
    } else if l != [] {
      NumeralPositive(l);
    } else if r != [] {
      NumeralPositive(r);
    }
  }

  /** How a number is written: without leading zeros. */
  function Written(n: nat): Key {
    if n < 10 then [48 + n] else Written(n / 10) + [48 + n % 10]
  }

  lemma {:induction false} WrittenReads(n: nat)
    ensures Decimal(Written(n)) && Numeral(Written(n)) == n
    ensures n > 0 ==> Written(n)[0] != 48
  {
    if n < 10 {
      assert Written(n)[..0] == [];
    } else {
      WrittenReads(n / 10);
      var front, last: CodeUnit := Written(n / 10), 48 + n % 10;
      assert (front + [last])[..|front|] == front;
    }
  }

  /** An array index is a number below 2^32 - 1 as it is written, and stands for that number. */
  lemma IndexMeans(key: Key)
    ensures Index(key) <==> exists n: nat :: n < 4294967295 && key == Written(n)
    ensures forall n: nat :: n < 4294967295 && key == Written(n) ==> Index(key) && Numeral(key) == n
  {
    if Index(key) {
      var n := Numeral(key);
      WrittenReads(n);
      NumeralInjective(key, Written(n));
    }
    forall n: nat | n < 4294967295 && key == Written(n) ensures Index(key) && Numeral(key) == n { WrittenReads(n); }
  }

  /** The keys agree up to `k`, where the left one ends or holds the smaller code unit. */
  predicate SmallerAt(left: Key, right: Key, k: nat) {
    && k <= |left| && k < |right| && left[..k] == right[..k]
    && (k == |left| || left[k] < right[k])
  }

  lemma {:induction false} LessAt(left: Key, right: Key, k: nat)
    requires SmallerAt(left, right, k)
    ensures Less(left, right)
  {
    if k > 0 {
      assert left[..k][0] == right[..k][0];
      assert left[1..][..k - 1] == left[..k][1..] && right[1..][..k - 1] == right[..k][1..];
      LessAt(left[1..], right[1..], k - 1);
    }
  }

  lemma {:induction false} LessWhere(left: Key, right: Key) returns (k: nat)
    requires Less(left, right)
    ensures SmallerAt(left, right, k)
  {
    if left == [] || left[0] < right[0] {
      k := 0;
    } else {
      var below := LessWhere(left[1..], right[1..]);
      k := below + 1;
      assert left[..k] == [left[0]] + left[1..][..below] && right[..k] == [right[0]] + right[1..][..below];
    }
  }

  /** The order of an object's keys: numbers first, by value, then the other keys by code unit. */
  lemma OrderMeans(left: Key, right: Key)
    ensures forall m: nat, n: nat :: m < 4294967295 && n < 4294967295 && left == Written(m) && right == Written(n) ==>
              (Before(left, right) <==> m < n)
    ensures Index(left) && !Index(right) ==> Before(left, right) && !Before(right, left)
    ensures !Index(left) && !Index(right) ==> (Before(left, right) <==> exists k :: SmallerAt(left, right, k))
  {
    IndexMeans(left);
    IndexMeans(right);
    if Less(left, right) { var k := LessWhere(left, right); }
    if k: nat :| SmallerAt(left, right, k) { LessAt(left, right, k); }
  }

  lemma BeforeStrict(left: Key, right: Key)
    ensures !(Before(left, right) && Before(right, left))
    ensures left != right ==> Before(left, right) || Before(right, left)
  {
    LessStrict(left, right);
    if Index(left) && Index(right) && Numeral(left) == Numeral(right) { NumeralInjective(left, right); }
  }

  // ----- rebuilding an object -----

  lemma {:induction false} SelectKeeps(members: seq<Member>, index: bool, less: (Member, Member) -> bool)
    requires Sorted(members, less)
    ensures Sorted(Select(members, index), less)
  {
    if members != [] {
      SelectKeeps(members[1..], index, less);
      var rest := Select(members[1..], index);
      forall j | 0 <= j < |rest| ensures less(members[0], rest[j]) {
        assert rest[j] in rest;
      }
    }
  }

  lemma {:induction false} SelectUnique(members: seq<Member>, index: bool)
    requires UniqueKeys(members)
    ensures UniqueKeys(Select(members, index))
  {
    if members != [] {
      SelectUnique(members[1..], index);
      var rest := Select(members[1..], index);
      forall j | 0 <= j < |rest| ensures members[0].key != rest[j].key {
        assert rest[j] in rest;
      }
    }
  }

  /** Rebuilding an object from entries in code-unit order lists exactly them, in property order. */
  lemma FromEntriesOrders(entries: seq<Member>)
    requires Sorted(entries, ByKey)
    ensures Sorted(FromEntries(entries), PropertyOrder)
    ensures forall x :: x in FromEntries(entries) <==> x in entries
  {
    forall i, j | 0 <= i < j < |entries| ensures entries[i].key != entries[j].key {
      LessStrict(entries[i].key, entries[j].key);
    }
    var indices, named := Select(entries, true), Select(entries, false);
    SelectUnique(entries, true);
    var all := set x | x in indices;
    forall x, y | x in all && y in all && x != y ensures ByNumeral(x, y) || ByNumeral(y, x) {
      assert x.key != y.key;
      BeforeStrict(x.key, y.key);
    }
    SortSorts(indices, ByNumeral, all);
    SortKeeps(indices, ByNumeral);
    SelectKeeps(entries, false, ByKey);
    JoinOrders(Sort(indices, ByNumeral), named);
  }

  lemma JoinOrders(indices: seq<Member>, named: seq<Member>)
    requires Sorted(indices, ByNumeral) && Sorted(named, ByKey)
    requires forall x :: x in indices ==> Index(x.key)
    requires forall x :: x in named ==> !Index(x.key)
    ensures Sorted(indices + named, PropertyOrder)
  {
    var own := indices + named;
    forall i, j | 0 <= i < j < |own| ensures PropertyOrder(own[i], own[j]) {
      if j >= |indices| {
        assert own[j] in named;
        if i < |indices| { assert own[i] in indices; } else { assert own[i] in named; }
      } else {
        assert own[i] == indices[i] && own[j] == indices[j];
      }
    }
  }

  // ----- canonical forms -----

  function Keys(members: seq<Member>): set<Key> { set i | 0 <= i < |members| :: members[i].key }

  /** Equality of JSON values up to the order of object members, at every depth. */
  predicate Same(left: Json, right: Json) {
    match left
    case Array(items) =>
      && right.Array?
      && |items| == |right.items|
      && forall i :: 0 <= i < |items| ==> Same(items[i], right.items[i])
    case Object(members) =>
      && right.Object?
      && Keys(members) == Keys(right.members)
      && forall i, j | 0 <= i < |members| && 0 <= j < |right.members| ::
           members[i].key == right.members[j].key ==> Same(members[i].value, right.members[j].value)
    case _ => left == right
  }

  function Canonical(member: Member): Member { Member(member.key, Canonicalize(member.value)) }

  /** The members in code-unit order, and nothing else. */
  lemma SortedMembers(members: seq<Member>)
    requires UniqueKeys(members)
    ensures Sorted(Sort(members, ByKey), ByKey)
    ensures forall x :: x in Sort(members, ByKey) <==> x in members
  {
    var all := set x | x in members;
    forall x, y | x in all && y in all && x != y ensures ByKey(x, y) || ByKey(y, x) {
      LessStrict(x.key, y.key);
    }
    forall x, y, z | x in all && y in all && z in all && ByKey(x, y) && ByKey(y, z) ensures ByKey(x, z) {
      LessTransitive(x.key, y.key, z.key);
    }
    SortSorts(members, ByKey, all);
    SortKeeps(members, ByKey);
  }

  function CanonicalEntries(sorted: seq<Member>): seq<Member> {
    seq(|sorted|, i requires 0 <= i < |sorted| => Canonical(sorted[i]))
  }

  lemma CanonicalRebuilds(members: seq<Member>)
    ensures Canonicalize(Object(members)) == Object(FromEntries(CanonicalEntries(Sort(members, ByKey))))
  {
    var sorted := Sort(members, ByKey);
    assert forall i :: 0 <= i < |sorted| ==> sorted[i] in multiset(sorted);
    var entries := seq(|sorted|, i requires 0 <= i < |sorted| =>
        assert sorted[i] in members;
        Member(sorted[i].key, Canonicalize(sorted[i].value)));
    assert entries == CanonicalEntries(sorted);
    assert Canonicalize(Object(members)) == Object(FromEntries(entries));
  }

  /** A canonical object holds exactly the canonicalised members, in property order. */
  lemma CanonicalMembers(members: seq<Member>)
    requires UniqueKeys(members)
    ensures Canonicalize(Object(members)).Object?
    ensures Sorted(Canonicalize(Object(members)).members, PropertyOrder)
    ensures forall x :: x in Canonicalize(Object(members)).members <==> exists y :: y in members && x == Canonical(y)
  {
    SortedMembers(members);
    CanonicalRebuilds(members);
    var sorted := Sort(members, ByKey);
    var entries := CanonicalEntries(sorted);
    FromEntriesOrders(entries);
    forall x ensures x in entries <==> exists y :: y in members && x == Canonical(y) {
      EntryOrigin(sorted, members, x);
    }
  }

  lemma EntryOrigin(sorted: seq<Member>, members: seq<Member>, x: Member)
    requires forall y :: y in sorted <==> y in members
    ensures x in CanonicalEntries(sorted) <==> exists y :: y in members && x == Canonical(y)
  {
    if y :| y in members && x == Canonical(y) {
      var i :| 0 <= i < |sorted| && sorted[i] == y;
      assert CanonicalEntries(sorted)[i] == x;
    }
  }

  /** Members of the two lists that share a key have values that are `Same` exactly when their forms are equal. */
  predicate Agree(left: seq<Member>, right: seq<Member>) {
    forall i, j | 0 <= i < |left| && 0 <= j < |right| && left[i].key == right[j].key ::
      Same(left[i].value, right[j].value) <==> Canonicalize(left[i].value) == Canonicalize(right[j].value)
  }

  lemma SameGivesForm(left: seq<Member>, right: seq<Member>, x: Member)
    requires UniqueKeys(left) && UniqueKeys(right) && Keys(left) == Keys(right)
    requires forall i, j | 0 <= i < |left| && 0 <= j < |right| && left[i].key == right[j].key ::
               Canonicalize(left[i].value) == Canonicalize(right[j].value)
    requires x in Canonicalize(Object(left)).members
    ensures x in Canonicalize(Object(right)).members
  {
    CanonicalMembers(left);
    CanonicalMembers(right);
    var y :| y in left && x == Canonical(y);
    var i :| 0 <= i < |left| && left[i] == y;
    assert left[i].key in Keys(right);
    var j :| 0 <= j < |right| && right[j].key == left[i].key;
    assert right[j] in right && Canonical(right[j]) == x;
  }

  lemma FormGivesSame(left: seq<Member>, right: seq<Member>)
    requires UniqueKeys(left) && UniqueKeys(right) && Agree(left, right)
    requires Canonicalize(Object(left)) == Canonicalize(Object(right))
    ensures Same(Object(left), Object(right))
  {
    FormGivesKeys(left, right);
    forall i, j | 0 <= i < |left| && 0 <= j < |right| && left[i].key == right[j].key
      ensures Same(left[i].value, right[j].value)
    {
      FormValues(left, right, i, j);
    }
  }

  lemma FormGivesKeys(left: seq<Member>, right: seq<Member>)
    requires UniqueKeys(left) && UniqueKeys(right)
    requires Canonicalize(Object(left)) == Canonicalize(Object(right))
    ensures Keys(left) == Keys(right)
  {
    forall i | 0 <= i < |left| ensures left[i].key in Keys(right) { FormKeys(left, right, i); }
    forall i | 0 <= i < |right| ensures right[i].key in Keys(left) { FormKeys(right, left, i); }
  }

  lemma FormValues(left: seq<Member>, right: seq<Member>, i: nat, j: nat)
    requires UniqueKeys(left) && UniqueKeys(right) && i < |left| && j < |right| && left[i].key == right[j].key
    requires Canonicalize(Object(left)) == Canonicalize(Object(right))
    ensures Canonicalize(left[i].value) == Canonicalize(right[j].value)
  {
    FormKeys(left, right, i);
    var k :| 0 <= k < |right| && Canonical(right[k]) == Canonical(left[i]);
    assert right[k].key == right[j].key;
    assert k == j;
  }

  lemma FormKeys(left: seq<Member>, right: seq<Member>, i: nat)
    requires UniqueKeys(left) && UniqueKeys(right) && i < |left|
    requires Canonicalize(Object(left)) == Canonicalize(Object(right))
    ensures exists k :: 0 <= k < |right| && Canonical(right[k]) == Canonical(left[i])
    ensures left[i].key in Keys(right)
  {
    CanonicalMembers(left);
    CanonicalMembers(right);
    assert left[i] in left;
    assert Canonical(left[i]) in Canonicalize(Object(left)).members;
    var y :| y in right && Canonical(left[i]) == Canonical(y);
    var k :| 0 <= k < |right| && right[k] == y;
    assert right[k].key == left[i].key;
  }

  /** Two values are equal up to key order at every depth if and only if their canonical forms are equal. */
  lemma {:induction false} CanonicalForm(left: Json, right: Json)
    requires WellFormed(left) && WellFormed(right)
    ensures Same(left, right) <==> Canonicalize(left) == Canonicalize(right)
    decreases left
  {
    if left.Array? && right.Array? && |left.items| == |right.items| {
      var n := |left.items|;
      forall i | 0 <= i < n
        ensures Same(left.items[i], right.items[i]) <==>
                Canonicalize(left).items[i] == Canonicalize(right).items[i]
      {
        CanonicalForm(left.items[i], right.items[i]);
      }
      if Same(left, right) { assert Canonicalize(left).items == Canonicalize(right).items; }
    } else if left.Object? && right.Object? {
      var m, n := left.members, right.members;
      forall i, j | 0 <= i < |m| && 0 <= j < |n| && m[i].key == n[j].key
        ensures Same(m[i].value, n[j].value) <==> Canonicalize(m[i].value) == Canonicalize(n[j].value)
      {
        CanonicalForm(m[i].value, n[j].value);
      }
      ObjectForms(m, n);
    } else if left.Array? && right.Array? {
      assert |Canonicalize(left).items| == |left.items| && |Canonicalize(right).items| == |right.items|;
    }
  }

  lemma ObjectForms(left: seq<Member>, right: seq<Member>)
    requires UniqueKeys(left) && UniqueKeys(right) && Agree(left, right)
    ensures Same(Object(left), Object(right)) <==> Canonicalize(Object(left)) == Canonicalize(Object(right))
  {
    if Same(Object(left), Object(right)) {
      CanonicalMembers(left);
      CanonicalMembers(right);
      var l, r := Canonicalize(Object(left)).members, Canonicalize(Object(right)).members;
      assert Keys(left) == Keys(right);
      forall x ensures x in l <==> x in r {
        if x in l { SameGivesForm(left, right, x); }
        if x in r { SameGivesForm(right, left, x); }
      }
      forall x, y | x in l && y in l ensures !(PropertyOrder(x, y) && PropertyOrder(y, x)) {
        BeforeStrict(x.key, y.key);
      }
      SortedUnique(l, r, PropertyOrder);
    }
    if Canonicalize(Object(left)) == Canonicalize(Object(right)) { FormGivesSame(left, right); }
  }

  lemma {:induction false} CanonicalSame(value: Json)
    requires WellFormed(value)
    ensures WellFormed(Canonicalize(value)) && Same(Canonicalize(value), value)
  {
    match value
    case Array(items) =>
      forall i | 0 <= i < |items|
        ensures WellFormed(Canonicalize(items[i])) && Same(Canonicalize(items[i]), items[i])
      {
        CanonicalSame(items[i]);
      }
    case Object(members) =>
      forall i | 0 <= i < |members|
        ensures WellFormed(Canonicalize(members[i].value)) && Same(Canonicalize(members[i].value), members[i].value)
      {
        CanonicalSame(members[i].value);
      }
      ObjectSame(members);
    case _ =>
  }

  lemma ObjectSame(members: seq<Member>)
    requires UniqueKeys(members)
    requires forall i | 0 <= i < |members| ::
               WellFormed(Canonicalize(members[i].value)) && Same(Canonicalize(members[i].value), members[i].value)
    ensures WellFormed(Canonicalize(Object(members))) && Same(Canonicalize(Object(members)), Object(members))
  {
    CanonicalMembers(members);
    var own := Canonicalize(Object(members)).members;
    forall i | 0 <= i < |own|
      ensures WellFormed(own[i].value)
      ensures exists j :: 0 <= j < |members| && own[i] == Canonical(members[j])
    {
      var j := CanonicalFrom(own, members, i);
    }
    forall i, j | 0 <= i < j < |own| ensures own[i].key != own[j].key { BeforeStrict(own[i].key, own[j].key); }
    CanonicalKeys(own, members);
    forall i, j | 0 <= i < |own| && 0 <= j < |members| && own[i].key == members[j].key
      ensures Same(own[i].value, members[j].value)
    {
      var k := CanonicalFrom(own, members, i);
      assert members[k].key == members[j].key;
    }
  }

  lemma CanonicalFrom(own: seq<Member>, members: seq<Member>, i: nat) returns (j: nat)
    requires forall x :: x in own <==> exists y :: y in members && x == Canonical(y)
    requires i < |own|
    ensures j < |members| && own[i] == Canonical(members[j])
  {
    assert own[i] in own;
    var y :| y in members && own[i] == Canonical(y);
    j :| 0 <= j < |members| && members[j] == y;
  }

  lemma CanonicalKeys(own: seq<Member>, members: seq<Member>)
    requires forall x :: x in own <==> exists y :: y in members && x == Canonical(y)
    ensures Keys(own) == Keys(members)
  {
    forall i | 0 <= i < |own| ensures own[i].key in Keys(members) {
      var j := CanonicalFrom(own, members, i);
      assert members[j].key == own[i].key;
    }
    forall j | 0 <= j < |members| ensures members[j].key in Keys(own) {
      assert members[j] in members && Canonical(members[j]) in own;
      var i :| 0 <= i < |own| && own[i] == Canonical(members[j]);
      assert own[i].key == members[j].key;
    }
  }

  /** Canonicalising again changes nothing. */
  lemma Idempotent(value: Json)
    requires WellFormed(value)
    ensures Canonicalize(Canonicalize(value)) == Canonicalize(value)
  {
    CanonicalSame(value);
    CanonicalForm(Canonicalize(value), value);
  }

  // ----- the checkpoint digest -----

  /** `stringify` is JSON.stringify, `bytes` the length of a text in UTF-8 and `sha256` the hash of a text. */
  function SnapshotSha256<Text, Digest>(
    value: Json, stringify: Json -> Text, bytes: Text -> nat, sha256: Text -> Digest): Result<Digest, Code>
  {
    var serialized := stringify(Canonicalize(value));
    if bytes(serialized) > MAX_CHECKPOINT_STATE_BYTES then Failure(FileTooLarge) else Success(sha256(serialized))
  }

  /** These two values do not collide. */
  predicate Apart<X(==), Y(==)>(f: X -> Y, x: X, y: X) { f(x) == f(y) ==> x == y }

  /** When two states collide neither in the printer nor in the hash, they share a digest exactly up to key order. */
  lemma DigestDecides<Text, Digest>(
    left: Json, right: Json, stringify: Json -> Text, bytes: Text -> nat, sha256: Text -> Digest)
    requires WellFormed(left) && WellFormed(right)
    requires Apart(stringify, Canonicalize(left), Canonicalize(right))
    requires Apart(sha256, stringify(Canonicalize(left)), stringify(Canonicalize(right)))
    requires SnapshotSha256(left, stringify, bytes, sha256).Success?
    ensures SnapshotSha256(left, stringify, bytes, sha256) == SnapshotSha256(right, stringify, bytes, sha256) <==>
              Same(left, right)
  {
    CanonicalForm(left, right);
  }

  /** Key order never decides whether a state can be digested, or what its digest is. */
  lemma KeyOrderIrrelevant<Text, Digest>(
    left: Json, right: Json, stringify: Json -> Text, bytes: Text -> nat, sha256: Text -> Digest)
    requires WellFormed(left) && WellFormed(right) && Same(left, right)
    ensures SnapshotSha256(left, stringify, bytes, sha256) == SnapshotSha256(right, stringify, bytes, sha256)
  {
    CanonicalForm(left, right);
  }

  /**
   A state is digested by the text of its canonical form `own`, the one value that is equal to it up to key order and
   canonical already; if that text has more than 4 MiB the state is refused as too large, and that is the only refusal.
   */
  lemma DigestAnswers<Text, Digest>(
    value: Json, own: Json, digest: Digest, stringify: Json -> Text, bytes: Text -> nat, sha256: Text -> Digest)
    requires WellFormed(value) && WellFormed(own) && Same(value, own) && Canonicalize(own) == own
    ensures SnapshotSha256(value, stringify, bytes, sha256) == Success(digest)
            <==> bytes(stringify(own)) <= 4194304 && sha256(stringify(own)) == digest
    ensures SnapshotSha256(value, stringify, bytes, sha256) == Failure(FileTooLarge)
            <==> bytes(stringify(own)) > 4194304
    ensures SnapshotSha256(value, stringify, bytes, sha256).Failure? ==> bytes(stringify(own)) > 4194304
  {
    CanonicalForm(value, own);
  }
}

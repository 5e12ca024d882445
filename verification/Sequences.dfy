/** Facts about cutting and joining sequences. */
module Sequences {

  /** Every element meets a condition on it and on what stands before it. */
  predicate Everywhere<T>(s: seq<T>, p: (seq<T>, T) -> bool) {
    forall i {:trigger s[i]} :: 0 <= i < |s| ==> p(s[..i], s[i])
  }

  lemma EverywhereLast<T>(s: seq<T>, p: (seq<T>, T) -> bool)
    requires s != []
    ensures Everywhere(s, p) <==> Everywhere(s[..|s| - 1], p) && p(s[..|s| - 1], s[|s| - 1])
  {
    var last := |s| - 1;
    var front := s[..last];
    if Everywhere(s, p) {
      assert p(s[..last], s[last]);
      forall i | 0 <= i < last ensures p(front[..i], front[i]) {
        assert front[..i] == s[..i] && front[i] == s[i];
        assert p(s[..i], s[i]);
      }
    }
    if Everywhere(front, p) && p(front, s[last]) {
      forall i | 0 <= i < |s| ensures p(s[..i], s[i]) {
        if i < last {
          assert front[..i] == s[..i] && front[i] == s[i];
          assert p(front[..i], front[i]);
        }
      }
    }
  }

  lemma CutInFirst<T>(a: seq<T>, b: seq<T>, n: nat)
    requires n <= |a|
    ensures (a + b)[..n] == a[..n] && (a + b)[n..] == a[n..] + b
  {}

  lemma Associates<T>(a: seq<T>, b: seq<T>, c: seq<T>)
    ensures (a + b) + c == a + (b + c)
  {}

  lemma CutAround<T>(s: seq<T>, n: nat)
    requires n < |s|
    ensures s == s[..n] + ([s[n]] + s[n + 1..])
  {}

  lemma PartsAround<T>(head: seq<T>, x: T, tail: seq<T>)
    ensures var s := head + ([x] + tail);
            |s| > |head| && s[..|head|] == head && s[|head|] == x && s[|head| + 1..] == tail
  {}

  lemma DropTwice<T>(s: seq<T>, n: nat, m: nat)
    requires n + m <= |s|
    ensures s[n..][m..] == s[n + m..]
  {}

  /** A prefix that reaches past an element ends in a prefix of what follows it. */
  lemma PrefixPast<T>(prefix: seq<T>, head: seq<T>, x: T, tail: seq<T>)
    requires prefix <= head + [x] + tail && |prefix| > |head|
    ensures prefix == head + [x] + prefix[|head| + 1..]
    ensures prefix[|head| + 1..] <= tail
    ensures prefix == head + [x] + tail ==> prefix[|head| + 1..] == tail
  {
    assert prefix == (head + [x] + tail)[..|prefix|];
  }

  lemma PrefixWithin<T>(prefix: seq<T>, head: seq<T>, tail: seq<T>)
    requires prefix <= head + tail && |prefix| <= |head|
    ensures prefix == head[..|prefix|]
  {
    assert prefix == (head + tail)[..|prefix|];
  }
}

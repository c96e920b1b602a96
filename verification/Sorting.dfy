/** The stable contract of std::sort, used wherever the program sorts node indices. */
module Sorting {
  import opened Text

  /** What the comparators look at: deeper paths first, then path text, then position. */
  datatype SortKey = SortKey(depth: nat, text: string, ordinal: nat)

  predicate KeyLess(a: SortKey, b: SortKey) {
    if a.depth != b.depth then a.depth > b.depth
    else if a.text != b.text then LexLess(a.text, b.text)
    else a.ordinal < b.ordinal
  }

  lemma KeyLessAsymmetric(a: SortKey, b: SortKey)
    requires KeyLess(a, b)
    ensures !KeyLess(b, a)
  {
    if a.depth == b.depth && a.text != b.text {
      LexAsymmetric(a.text, b.text);
    }
  }

  /** `not less` is transitive, so ties behave: KeyLess is a strict weak order. */
  lemma NotLessTransitive(a: SortKey, b: SortKey, c: SortKey)
    requires !KeyLess(b, a) && !KeyLess(c, b)
    ensures !KeyLess(c, a)
  {
    if KeyLess(c, a) && a.depth == b.depth == c.depth {
      LexTotal(a.text, b.text);
      LexTotal(b.text, c.text);
      if a.text != b.text && b.text != c.text {
        LexTransitive(a.text, b.text, c.text);
        LexAsymmetric(a.text, c.text);
      } else if a.text != b.text {
        LexAsymmetric(a.text, b.text);
      } else if b.text != c.text {
        LexAsymmetric(b.text, c.text);
      }
    }
  }

  predicate InRange(s: seq<nat>, n: nat) {
    forall i :: 0 <= i < |s| ==> s[i] < n
  }

  ghost predicate SortedBy(s: seq<nat>, keys: seq<SortKey>)
    requires InRange(s, |keys|)
  {
    forall i, j :: 0 <= i < j < |s| ==> !KeyLess(keys[s[j]], keys[s[i]])
  }

  predicate NoDuplicates(s: seq<nat>) {
    forall i, j :: 0 <= i < j < |s| ==> s[i] != s[j]
  }

  function Elems(s: seq<nat>): (r: set<nat>) {
    set x | x in s
  }

  lemma MultisetFacts(s: seq<nat>, t: seq<nat>)
    requires multiset(s) == multiset(t)
    ensures |s| == |t| && Elems(s) == Elems(t)
    ensures NoDuplicates(s) ==> NoDuplicates(t)
  {
    assert |multiset(s)| == |s| && |multiset(t)| == |t|;
    forall x ensures x in s <==> x in t {
      assert x in s <==> x in multiset(s);
      assert x in t <==> x in multiset(t);
    }
    if NoDuplicates(s) && !NoDuplicates(t) {
      var i, j :| 0 <= i < j < |t| && t[i] == t[j];
      CountTwo(t, i, j);
      CountOne(s, t[i]);
    }
  }

  lemma CountTwo(t: seq<nat>, i: nat, j: nat)
    requires i < j < |t| && t[i] == t[j]
    ensures multiset(t)[t[i]] >= 2
  {
    assert t == t[..j] + t[j..];
    assert t[..j][i] in multiset(t[..j]);
    assert t[j..][0] in multiset(t[j..]);
  }

  lemma {:induction false} CountOne(s: seq<nat>, x: nat)
    requires NoDuplicates(s)
    ensures multiset(s)[x] <= 1
  {
    if s != [] {
      assert s == [s[0]] + s[1..];
      assert forall i, j :: 0 <= i < j < |s[1..]| ==> s[1..][i] == s[i + 1] && s[1..][j] == s[j + 1];
      CountOne(s[1..], x);
      assert s[0] !in s[1..];
    }
  }

  /** Sorts node indices; equal keys may come out in any order, as with std::sort. */
  method SortByKey(s: seq<nat>, keys: seq<SortKey>) returns (r: seq<nat>)
    requires InRange(s, |keys|)
    ensures multiset(r) == multiset(s)
    ensures InRange(r, |keys|) && SortedBy(r, keys)
  {
    r := [];
    for i := 0 to |s|
      invariant InRange(r, |keys|) && SortedBy(r, keys)
      invariant multiset(r) == multiset(s[..i])
    {
      assert s[..i + 1] == s[..i] + [s[i]];
      r := Insert(r, s[i], keys);
    }
    assert s[..|s|] == s;
  }

  method Insert(s: seq<nat>, x: nat, keys: seq<SortKey>) returns (r: seq<nat>)
    requires InRange(s, |keys|) && SortedBy(s, keys) && x < |keys|
    ensures multiset(r) == multiset(s + [x])
    ensures InRange(r, |keys|) && SortedBy(r, keys)
  {
    var p := |s|;
    while p > 0 && KeyLess(keys[x], keys[s[p - 1]])
      invariant 0 <= p <= |s|
      invariant forall i :: p <= i < |s| ==> KeyLess(keys[x], keys[s[i]])
    {
      p := p - 1;
    }
    r := s[..p] + [x] + s[p..];
    InsertedElements(s, x, p);
    InsertedSorted(s, x, p, keys);
  }

  lemma InsertedElements(s: seq<nat>, x: nat, p: nat)
    requires p <= |s|
    ensures multiset(s[..p] + [x] + s[p..]) == multiset(s + [x])
    ensures forall n: nat :: InRange(s, n) && x < n ==> InRange(s[..p] + [x] + s[p..], n)
  {
    assert s == s[..p] + s[p..];
    calc {
      multiset(s[..p] + [x] + s[p..]);
      multiset(s[..p]) + multiset([x]) + multiset(s[p..]);
      multiset(s[..p] + s[p..]) + multiset([x]);
    }
  }

  lemma InsertedSorted(s: seq<nat>, x: nat, p: nat, keys: seq<SortKey>)
    requires InRange(s, |keys|) && SortedBy(s, keys) && x < |keys| && p <= |s|
    requires p > 0 ==> !KeyLess(keys[x], keys[s[p - 1]])
    requires forall k :: p <= k < |s| ==> KeyLess(keys[x], keys[s[k]])
    ensures var r := s[..p] + [x] + s[p..]; InRange(r, |keys|) && SortedBy(r, keys)
  {
    var r := s[..p] + [x] + s[p..];
    InsertedElements(s, x, p);
    forall i, j | 0 <= i < j < |r| ensures !KeyLess(keys[r[j]], keys[r[i]]) {
      InsertedOrder(s, x, p, keys, i, j);
    }
  }

  lemma InsertedOrder(s: seq<nat>, x: nat, p: nat, keys: seq<SortKey>, i: nat, j: nat)
    requires InRange(s, |keys|) && SortedBy(s, keys) && x < |keys| && p <= |s|
    requires p > 0 ==> !KeyLess(keys[x], keys[s[p - 1]])
    requires forall k :: p <= k < |s| ==> KeyLess(keys[x], keys[s[k]])
    requires i < j <= |s|
    ensures var r := s[..p] + [x] + s[p..]; !KeyLess(keys[r[j]], keys[r[i]])
  {
    if j == p && i < p - 1 {
      NotLessTransitive(keys[s[i]], keys[s[p - 1]], keys[x]);
    } else if i == p {
      KeyLessAsymmetric(keys[x], keys[s[j - 1]]);
    }
  }
}

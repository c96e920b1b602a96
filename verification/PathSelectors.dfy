/**
 Normalising a list of path selectors: sorted, and refused when two neighbours
 overlap. Which overlaps that catches is characterised without the sort.
 */
module PathSelectors {
  import opened Common
  import opened Text

  // ---------------------------------------------------------------- sorting

  ghost predicate SortedTexts(s: seq<string>) {
    forall i, j :: 0 <= i < j < |s| ==> !LexLess(s[j], s[i])
  }

  ghost predicate StrictlySorted(s: seq<string>) {
    forall i, j :: 0 <= i < j < |s| ==> LexLess(s[i], s[j])
  }

  lemma NotLessIsTransitive(a: string, b: string, c: string)
    requires !LexLess(b, a) && !LexLess(c, b)
    ensures !LexLess(c, a)
  {
    LexTotal(a, b);
    LexTotal(b, c);
    if LexLess(c, a) {
      if a != b {
        LexTransitive(c, a, b);
        if b != c {
          LexAsymmetric(b, c);
        } else {
          LexAsymmetric(a, b);
        }
      }
    }
  }

  /** std::sort on strings. */
  method SortTexts(s: seq<string>) returns (r: seq<string>)
    ensures SortedTexts(r) && multiset(r) == multiset(s)
  {
    r := [];
    for i := 0 to |s|
      invariant SortedTexts(r) && multiset(r) == multiset(s[..i])
    {
      assert s[..i + 1] == s[..i] + [s[i]];
      r := InsertText(r, s[i]);
    }
    assert s[..|s|] == s;
  }

  method InsertText(s: seq<string>, x: string) returns (r: seq<string>)
    requires SortedTexts(s)
    ensures SortedTexts(r) && multiset(r) == multiset(s + [x])
  {
    var p: nat := |s|;
    while p > 0 && LexLess(x, s[p - 1])
      invariant p <= |s| && forall k :: p <= k < |s| ==> LexLess(x, s[k])
    {
      p := p - 1;
    }
    r := s[..p] + [x] + s[p..];
    assert s == s[..p] + s[p..];
    forall i, j | 0 <= i < j < |r| ensures !LexLess(r[j], r[i]) {
      InsertedInOrder(s, x, p, i, j);
    }
  }

  lemma InsertedInOrder(s: seq<string>, x: string, p: nat, i: nat, j: nat)
    requires SortedTexts(s) && p <= |s| && i < j <= |s|
    requires (forall k :: p <= k < |s| ==> LexLess(x, s[k])) && (p > 0 ==> !LexLess(x, s[p - 1]))
    ensures var r := s[..p] + [x] + s[p..]; !LexLess(r[j], r[i])
  {
    if i < p && j == p {
      if i < p - 1 {
        NotLessIsTransitive(s[i], s[p - 1], x);
      }
    } else if i == p && j > p {
      LexAsymmetric(x, s[j - 1]);
    }
  }

  // ---------------------------------------------------------------- overlapping neighbours

  /** `x` continues `p` with a character that sorts before the slash. */
  predicate ContinuesBeforeSlash(p: string, x: string) {
    p < x && x[|p|] < '/'
  }

  predicate Duplicate(s: seq<string>) {
    exists i, j :: 0 <= i < j < |s| && s[i] == s[j]
  }

  /** Some selector has another below it, with nothing sorted between the two. */
  ghost predicate ExposedOverlap(s: seq<string>) {
    exists p, c :: p in s && c in s && IsBelow(p, c) && forall x :: x in s ==> !ContinuesBeforeSlash(p, x)
  }

  /** The overlap test made on each selector and its predecessor. */
  predicate NeighboursOverlap(previous: string, next: string) {
    next == previous || previous + "/" <= next
  }

  lemma {:induction false} BetweenPrefixAndExtension(p: string, x: string, c: string)
    requires p < c && LexLess(p, x) && LexLess(x, c)
    ensures p < x && x[|p|] <= c[|p|]
  {
    if p != [] {
      assert p[1..] < c[1..];
      BetweenPrefixAndExtension(p[1..], x[1..], c[1..]);
      assert x == [x[0]] + x[1..] && p == [p[0]] + p[1..];
      assert x[1..][|p| - 1] == x[|p|] && c[1..][|p| - 1] == c[|p|];
    }
  }

  lemma {:induction false} SlashAfterEarlierCharacter(p: string, x: string, c: string)
    requires p < x && p < c && x[|p|] < c[|p|]
    ensures LexLess(x, c)
  {
    if p != [] {
      assert x[1..][|p| - 1] == x[|p|] && c[1..][|p| - 1] == c[|p|];
      assert p[1..] < x[1..] && p[1..] < c[1..];
      SlashAfterEarlierCharacter(p[1..], x[1..], c[1..]);
    }
  }

  lemma NeighbourBelow(p: string, c: string)
    requires p != []
    ensures NeighboursOverlap(p, c) <==> c == p || IsBelow(p, c)
  {
    if p + "/" <= c {
      assert c != p;
    }
  }

  /** A sorted list has overlapping neighbours exactly when it has a duplicate or an exposed overlap. */
  lemma AdjacentTestCatches(s: seq<string>)
    requires SortedTexts(s) && forall p :: p in s ==> p != []
    ensures (exists i :: 0 < i < |s| && NeighboursOverlap(s[i - 1], s[i])) <==> Duplicate(s) || ExposedOverlap(s)
  {
    if i :| 0 < i < |s| && NeighboursOverlap(s[i - 1], s[i]) {
      NeighbourIsDuplicateOrExposed(s, i);
    }
    if i, j :| 0 <= i < j < |s| && s[i] == s[j] {
      DuplicateIsNeighbour(s, i, j);
    } else if p, c :| p in s && c in s && IsBelow(p, c) && forall x :: x in s ==> !ContinuesBeforeSlash(p, x) {
      var i :| 0 <= i < |s| && s[i] == p;
      var j :| 0 <= j < |s| && s[j] == c;
      ExposedIsNeighbour(s, i, j);
    }
  }

  lemma NeighbourIsDuplicateOrExposed(s: seq<string>, i: nat)
    requires SortedTexts(s) && (forall p :: p in s ==> p != [])
    requires 0 < i < |s| && NeighboursOverlap(s[i - 1], s[i])
    ensures Duplicate(s) || ExposedOverlap(s)
  {
    var p, c := s[i - 1], s[i];
    assert p in s;
    NeighbourBelow(p, c);
    if c != p {
      BelowIsLonger(p, c);
      assert c[|p|] == (p + "/")[|p|] == '/';
      forall x | x in s ensures !ContinuesBeforeSlash(p, x) {
        if ContinuesBeforeSlash(p, x) {
          LexPrefix(p, x);
          SlashAfterEarlierCharacter(p, x, c);
          var k :| 0 <= k < |s| && s[k] == x;
          NothingBetween(s, i, k);
        }
      }
      assert IsBelow(p, c);
    }
  }

  lemma NothingBetween(s: seq<string>, i: nat, k: nat)
    requires SortedTexts(s) && 0 < i < |s| && k < |s|
    ensures !(LexLess(s[i - 1], s[k]) && LexLess(s[k], s[i]))
  {
    if k < i - 1 {
      assert !LexLess(s[i - 1], s[k]);
    } else if k > i {
      assert !LexLess(s[k], s[i]);
    } else {
      if LexLess(s[i - 1], s[k]) && LexLess(s[k], s[i]) {
        LexAsymmetric(s[i - 1], s[k]);
        LexAsymmetric(s[k], s[i]);
      }
    }
  }

  lemma DuplicateIsNeighbour(s: seq<string>, i: nat, j: nat)
    requires SortedTexts(s) && i < j < |s| && s[i] == s[j]
    ensures NeighboursOverlap(s[i], s[i + 1])
  {
    LexTotal(s[i], s[i + 1]);
    if i + 1 < j {
      LexTotal(s[i + 1], s[j]);
    }
  }

  lemma ExposedIsNeighbour(s: seq<string>, i: nat, j: nat)
    requires SortedTexts(s) && i < |s| && j < |s| && s[i] != [] && IsBelow(s[i], s[j]) && !Duplicate(s)
    requires forall x :: x in s ==> !ContinuesBeforeSlash(s[i], x)
    ensures i + 1 < |s| && NeighboursOverlap(s[i], s[i + 1])
  {
    var p, c := s[i], s[j];
    BelowIsLonger(p, c);
    LexPrefix(p, c);
    LexAsymmetric(p, c);
    assert i < j;
    var x := s[i + 1];
    NeighbourBelow(p, x);
    if i + 1 < j {
      assert x in s && x != p && x != c;
      LexTotal(p, x);
      LexTotal(x, c);
      BetweenPrefixAndExtension(p, x, c);
      assert c[|p|] == (p + "/")[|p|] == '/';
      assert x[..|p| + 1] == p + "/";
    }
  }

  // ---------------------------------------------------------------- the normalised selectors

  /**
   The order and overlap part of normalisation: the selectors sorted, or nothing when
   two neighbours overlap.
   */
  method SortSelectors(selectors: seq<string>) returns (r: Option<seq<string>>)
    requires forall p :: p in selectors ==> p != []
    ensures r.None? <==> Duplicate(selectors) || ExposedOverlap(selectors)
    ensures r.Some? ==> multiset(r.value) == multiset(selectors) && StrictlySorted(r.value)
  {
    var s := SortTexts(selectors);
    SameSelectors(selectors, s);
    AdjacentTestCatches(s);
    for i := 0 to |s|
      invariant forall k :: 0 < k < i ==> !NeighboursOverlap(s[k - 1], s[k])
    {
      if i > 0 && NeighboursOverlap(s[i - 1], s[i]) {
        return None;
      }
    }
    forall i, j | 0 <= i < j < |s| ensures LexLess(s[i], s[j]) {
      LexTotal(s[i], s[j]);
    }
    return Some(s);
  }

  lemma SameSelectors(s: seq<string>, t: seq<string>)
    requires multiset(s) == multiset(t)
    ensures forall x :: x in s <==> x in t
    ensures Duplicate(s) <==> Duplicate(t)
    ensures ExposedOverlap(s) <==> ExposedOverlap(t)
  {
    forall x ensures x in s <==> x in t {
      assert x in multiset(s) <==> x in multiset(t);
    }
    DuplicateByCount(s);
    DuplicateByCount(t);
  }

  lemma {:induction false} DuplicateByCount(s: seq<string>)
    ensures Duplicate(s) <==> exists x :: multiset(s)[x] >= 2
  {
    if s != [] {
      var n := |s| - 1;
      var rest := s[..n];
      assert s == rest + [s[n]];
      DuplicateByCount(rest);
      if i, j :| 0 <= i < j < |s| && s[i] == s[j] {
        if j < n {
          assert rest[i] == rest[j];
          var x :| multiset(rest)[x] >= 2;
          assert multiset(s)[x] >= 2;
        } else {
          assert rest[i] in multiset(rest);
          assert multiset(s)[s[n]] >= 2;
        }
      }
      if x :| multiset(s)[x] >= 2 {
        if multiset(rest)[x] >= 2 {
          var i, j :| 0 <= i < j < |rest| && rest[i] == rest[j];
          assert s[i] == s[j];
        } else {
          assert x == s[n] && x in multiset(rest);
          var i :| 0 <= i < |rest| && rest[i] == x;
          assert s[i] == s[n];
        }
      }
    }
  }

  /** Accepted selectors are not always disjoint: `a-b` sorts between `a` and `a/c` and hides the overlap. */
  lemma OverlapSlipsThrough()
    ensures var s := ["a", "a-b", "a/c"];
      IsBelow("a", "a/c") && !Duplicate(s) && !ExposedOverlap(s)
  {
    var s := ["a", "a-b", "a/c"];
    assert "a" + "/" == "a/" == "a/c"[..2];
    forall p, c | p in s && c in s && IsBelow(p, c) ensures exists x :: x in s && ContinuesBeforeSlash(p, x) {
      BelowIsLonger(p, c);
      if p == "a" {
        assert "a" == "a-b"[..1];
        assert ContinuesBeforeSlash(p, "a-b");
      }
    }
  }
}

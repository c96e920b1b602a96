/** Byte strings as the C++ code compares them: lexicographic order and path prefixes. */
module Text {

  /** `a < b` on std::string. */
  predicate LexLess(a: string, b: string) {
    b != [] && (a == [] || a[0] < b[0] || (a[0] == b[0] && LexLess(a[1..], b[1..])))
  }

  lemma {:induction false} LexTotal(a: string, b: string)
    ensures LexLess(a, b) || a == b || LexLess(b, a)
  {
    if a != [] && b != [] && a[0] == b[0] {
      LexTotal(a[1..], b[1..]);
      assert a == [a[0]] + a[1..] && b == [b[0]] + b[1..];
    }
  }

  lemma {:induction false} LexAsymmetric(a: string, b: string)
    requires LexLess(a, b)
    ensures a != b && !LexLess(b, a)
  {
    if a != [] && a[0] == b[0] {
      LexAsymmetric(a[1..], b[1..]);
    }
  }

  lemma {:induction false} LexTransitive(a: string, b: string, c: string)
    requires LexLess(a, b) && LexLess(b, c)
    ensures LexLess(a, c)
  {
    if a != [] && a[0] == b[0] == c[0] {
      LexTransitive(a[1..], b[1..], c[1..]);
    }
  }

  /** A proper prefix comes first. */
  lemma {:induction false} LexPrefix(a: string, b: string)
    requires a < b
    ensures LexLess(a, b)
  {
    if a != [] {
      assert a[1..] < b[1..];
      LexPrefix(a[1..], b[1..]);
    }
  }

  /** `child` names something strictly below the directory `parent`. */
  predicate IsBelow(parent: string, child: string) {
    parent != [] && child != [] && parent != child && parent + "/" <= child
  }

  lemma BelowIsLonger(parent: string, child: string)
    requires IsBelow(parent, child)
    ensures |parent| < |child| && parent < child
  {
    assert |parent + "/"| <= |child|;
    assert child[..|parent|] == (parent + "/")[..|parent|] == parent;
  }

  lemma BelowTransitive(a: string, b: string, c: string)
    requires IsBelow(a, b) && IsBelow(b, c)
    ensures IsBelow(a, c)
  {
    BelowIsLonger(a, b);
    BelowIsLonger(b, c);
    assert c[..|a + "/"|] == b[..|a + "/"|] == a + "/";
  }
}

/** The edit-distance table behind command suggestions, against optimal-string-alignment scripts. */
module EditDistance {

  /** Steps that rewrite a string from its front and never edit the same place twice. */
  datatype Step = Keep | Replace | Delete | Insert | Swap

  function Front(s: string): string
    requires s != []
  {
    s[..|s| - 1]
  }

  function Last(s: string): char
    requires s != []
  {
    s[|s| - 1]
  }

  /** The step can come last: it accounts for the ends of both strings. */
  predicate Fits(step: Step, a: string, b: string) {
    match step
    case Keep => a != [] && b != [] && Last(a) == Last(b)
    case Replace => a != [] && b != []
    case Delete => a != []
    case Insert => b != []
    case Swap => |a| >= 2 && |b| >= 2 && Last(a) == Last(Front(b)) && Last(Front(a)) == Last(b)
  }

  /** How many characters of either string the step accounts for. */
  function Uses(step: Step): (nat, nat) {
    match step
    case Keep => (1, 1)
    case Replace => (1, 1)
    case Delete => (1, 0)
    case Insert => (0, 1)
    case Swap => (2, 2)
  }

  /** `script` turns `a` into `b`; its last step deals with the ends of both. */
  predicate Turns(script: seq<Step>, a: string, b: string)
    decreases |script|
  {
    if script == [] then a == [] && b == []
    else
      var step := script[|script| - 1];
      && Fits(step, a, b)
      && Turns(script[..|script| - 1], a[..|a| - Uses(step).0], b[..|b| - Uses(step).1])
  }

  /** Every step but keeping costs one. */
  function Cost(script: seq<Step>): nat {
    if script == [] then 0
    else Cost(script[..|script| - 1]) + (if script[|script| - 1].Keep? then 0 else 1)
  }

  function Min(x: nat, y: nat): nat {
    if x <= y then x else y
  }

  /** The table entry for the first `i` characters of `a` and the first `j` of `b`. */
  function Entry(a: string, b: string, i: nat, j: nat): nat
    requires i <= |a| && j <= |b|
  {
    if i == 0 then j
    else if j == 0 then i
    else
      var cost := if a[i - 1] == b[j - 1] then 0 else 1;
      var straight := Min(Min(Entry(a, b, i - 1, j) + 1, Entry(a, b, i, j - 1) + 1), Entry(a, b, i - 1, j - 1) + cost);
      if i > 1 && j > 1 && a[i - 1] == b[j - 2] && a[i - 2] == b[j - 1]
      then Min(straight, Entry(a, b, i - 2, j - 2) + cost)
      else straight
  }

  /** Entries of row `row` up to column `columns`. */
  ghost predicate RowHolds(dp: array2<nat>, a: string, b: string, row: nat, columns: nat)
    requires row <= |a| < dp.Length0 && columns <= |b| + 1 <= dp.Length1
    reads dp
  {
    forall l :: 0 <= l < columns ==> dp[row, l] == Entry(a, b, row, l)
  }

  /** Row `i` of the table, from the two rows above it. */
  method FillRow(dp: array2<nat>, a: string, b: string, i: nat)
    requires dp.Length0 == |a| + 1 && dp.Length1 == |b| + 1 && 1 <= i <= |a|
    requires RowHolds(dp, a, b, i - 1, |b| + 1) && (i > 1 ==> RowHolds(dp, a, b, i - 2, |b| + 1)) && dp[i, 0] == i
    modifies dp
    ensures RowHolds(dp, a, b, i, |b| + 1)
    ensures forall k, l :: 0 <= k <= |a| && 0 <= l <= |b| && k != i ==> dp[k, l] == old(dp[k, l])
  {
    for j := 1 to |b| + 1
      invariant RowHolds(dp, a, b, i, j)
      invariant forall k, l :: 0 <= k <= |a| && 0 <= l <= |b| && k != i ==> dp[k, l] == old(dp[k, l])
    {
      var cost := if a[i - 1] == b[j - 1] then 0 else 1;
      dp[i, j] := Min(Min(dp[i - 1, j] + 1, dp[i, j - 1] + 1), dp[i - 1, j - 1] + cost);
      if i > 1 && j > 1 && a[i - 1] == b[j - 2] && a[i - 2] == b[j - 1] {
        dp[i, j] := Min(dp[i, j], dp[i - 2, j - 2] + cost);
      }
      assert dp[i, j] == Entry(a, b, i, j);
    }
  }

  method ComputeEditDistance(a: string, b: string) returns (distance: nat)
    ensures distance == Distance(a, b)
  {
    var n, m := |a|, |b|;
    ghost var width := m + 1;
    var dp := new nat[n + 1, m + 1]((_, _) => 0);
    for i := 0 to n + 1
      invariant forall k :: 0 <= k < i ==> dp[k, 0] == k
    {
      dp[i, 0] := i;
    }
    for j := 0 to m + 1
      invariant forall k :: 0 <= k <= n ==> dp[k, 0] == k
      invariant forall k :: 0 <= k < j ==> dp[0, k] == k
    {
      dp[0, j] := j;
    }
    for i := 1 to n + 1
      invariant forall k :: 0 <= k <= n ==> dp[k, 0] == k
      invariant forall k :: 0 <= k < i ==> RowHolds(dp, a, b, k, width)
    {
      assert RowHolds(dp, a, b, i - 1, width) && (i > 1 ==> RowHolds(dp, a, b, i - 2, width));
      label above:
      FillRow(dp, a, b, i);
      forall k | 0 <= k < i ensures RowHolds(dp, a, b, k, width) {
        assert old@above(RowHolds(dp, a, b, k, width));
      }
    }
    assert RowHolds(dp, a, b, n, width);
    return dp[n, m];
  }

  function Distance(a: string, b: string): nat {
    Entry(a, b, |a|, |b|)
  }

  // ---------------------------------------------------------------- the table holds the minimum

  lemma FitsPrefixes(step: Step, a: string, b: string, i: nat, j: nat)
    requires i <= |a| && j <= |b|
    ensures Fits(step, a[..i], b[..j]) <==>
      match step
      case Keep => i > 0 && j > 0 && a[i - 1] == b[j - 1]
      case Replace => i > 0 && j > 0
      case Delete => i > 0
      case Insert => j > 0
      case Swap => i > 1 && j > 1 && a[i - 1] == b[j - 2] && a[i - 2] == b[j - 1]
  {
  }

  /** A script and one more step, which fits. */
  lemma AddStep(script: seq<Step>, step: Step, a: string, b: string, i: nat, j: nat)
    requires i <= |a| && j <= |b| && Fits(step, a[..i], b[..j])
    requires Turns(script, a[..i - Uses(step).0], b[..j - Uses(step).1])
    ensures Turns(script + [step], a[..i], b[..j])
    ensures Cost(script + [step]) == Cost(script) + (if step.Keep? then 0 else 1)
  {
    assert (script + [step])[..|script|] == script;
    assert a[..i][..i - Uses(step).0] == a[..i - Uses(step).0];
    assert b[..j][..j - Uses(step).1] == b[..j - Uses(step).1];
  }

  /** No script does it for less. */
  lemma {:induction false} NoScriptIsCheaper(script: seq<Step>, a: string, b: string, i: nat, j: nat)
    requires i <= |a| && j <= |b| && Turns(script, a[..i], b[..j])
    ensures Cost(script) >= Entry(a, b, i, j)
    decreases |script|
  {
    if script != [] {
      var step := script[|script| - 1];
      var (x, y) := Uses(step);
      FitsPrefixes(step, a, b, i, j);
      assert a[..i][..i - x] == a[..i - x] && b[..j][..j - y] == b[..j - y];
      NoScriptIsCheaper(script[..|script| - 1], a, b, i - x, j - y);
      StepPays(step, a, b, i, j);
    }
  }

  /** The entry grows along a step by no more than the step costs. */
  lemma StepPays(step: Step, a: string, b: string, i: nat, j: nat)
    requires i <= |a| && j <= |b| && Fits(step, a[..i], b[..j])
    ensures Entry(a, b, i, j) <= Entry(a, b, i - Uses(step).0, j - Uses(step).1) + if step.Keep? then 0 else 1
  {
    FitsPrefixes(step, a, b, i, j);
    OneMore(a, b, i, j);
  }

  /** Dropping a character changes the entry by at most one. */
  lemma OneMore(a: string, b: string, i: nat, j: nat)
    requires i <= |a| && j <= |b|
    ensures i > 0 ==> Entry(a, b, i, j) <= Entry(a, b, i - 1, j) + 1
    ensures j > 0 ==> Entry(a, b, i, j) <= Entry(a, b, i, j - 1) + 1
  {
  }

  /** The step can come last, and the entry is the earlier one plus the cost of the step. */
  predicate Explains(step: Step, a: string, b: string, i: nat, j: nat)
    requires i <= |a| && j <= |b|
  {
    && Fits(step, a[..i], b[..j])
    && Entry(a, b, i, j) == Entry(a, b, i - Uses(step).0, j - Uses(step).1) + if step.Keep? then 0 else 1
  }

  lemma BorderExplained(a: string, b: string, i: nat, j: nat)
    requires i <= |a| && j <= |b| && i + j > 0 && (i == 0 || j == 0)
    ensures if i == 0 then Explains(Insert, a, b, i, j) else Explains(Delete, a, b, i, j)
  {
  }

  lemma StraightExplained(a: string, b: string, i: nat, j: nat)
    requires 0 < i <= |a| && 0 < j <= |b|
    ensures Entry(a, b, i, j) == Entry(a, b, i, j - 1) + 1 ==> Explains(Insert, a, b, i, j)
    ensures Entry(a, b, i, j) == Entry(a, b, i - 1, j) + 1 ==> Explains(Delete, a, b, i, j)
    ensures a[i - 1] == b[j - 1] && Entry(a, b, i, j) == Entry(a, b, i - 1, j - 1) ==> Explains(Keep, a, b, i, j)
    ensures a[i - 1] != b[j - 1] && Entry(a, b, i, j) == Entry(a, b, i - 1, j - 1) + 1 ==> Explains(Replace, a, b, i, j)
  {
  }

  /** An entry that no shorter step explains comes from a swap of two different characters. */
  lemma OnlySwapLeft(a: string, b: string, i: nat, j: nat)
    requires 0 < i <= |a| && 0 < j <= |b|
    requires Entry(a, b, i, j) != Entry(a, b, i, j - 1) + 1 && Entry(a, b, i, j) != Entry(a, b, i - 1, j) + 1
    requires Entry(a, b, i, j) != Entry(a, b, i - 1, j - 1) + if a[i - 1] == b[j - 1] then 0 else 1
    ensures Explains(Swap, a, b, i, j)
  {
    FitsPrefixes(Swap, a, b, i, j);
  }

  lemma SomeStepExplains(a: string, b: string, i: nat, j: nat)
    requires i <= |a| && j <= |b| && i + j > 0
    ensures exists step :: Explains(step, a, b, i, j)
  {
    if i == 0 || j == 0 {
      BorderExplained(a, b, i, j);
    } else {
      StraightExplained(a, b, i, j);
      if !Explains(Insert, a, b, i, j) && !Explains(Delete, a, b, i, j)
         && !Explains(Keep, a, b, i, j) && !Explains(Replace, a, b, i, j) {
        OnlySwapLeft(a, b, i, j);
      }
    }
  }

  lemma AddExplainedStep(rest: seq<Step>, step: Step, a: string, b: string, i: nat, j: nat)
    requires i <= |a| && j <= |b| && Explains(step, a, b, i, j)
    requires Turns(rest, a[..i - Uses(step).0], b[..j - Uses(step).1])
    requires Cost(rest) == Entry(a, b, i - Uses(step).0, j - Uses(step).1)
    ensures Turns(rest + [step], a[..i], b[..j]) && Cost(rest + [step]) == Entry(a, b, i, j)
  {
    AddStep(rest, step, a, b, i, j);
  }

  /** Some script costs exactly the entry. */
  lemma {:induction false} SomeScriptAchieves(a: string, b: string, i: nat, j: nat) returns (script: seq<Step>)
    requires i <= |a| && j <= |b|
    ensures Turns(script, a[..i], b[..j]) && Cost(script) == Entry(a, b, i, j)
    decreases i + j
  {
    script := [];
    if i + j > 0 {
      SomeStepExplains(a, b, i, j);
      var step :| Explains(step, a, b, i, j);
      var rest := SomeScriptAchieves(a, b, i - Uses(step).0, j - Uses(step).1);
      AddExplainedStep(rest, step, a, b, i, j);
      script := rest + [step];
    }
  }

  /** The distance is the least cost of a script, and some script reaches it. */
  lemma DistanceIsMinimumCost(a: string, b: string)
    ensures exists script :: Turns(script, a, b) && Cost(script) == Distance(a, b)
    ensures forall script :: Turns(script, a, b) ==> Cost(script) >= Distance(a, b)
  {
    assert a[..|a|] == a && b[..|b|] == b;
    var best := SomeScriptAchieves(a, b, |a|, |b|);
    assert Turns(best, a, b);
    forall script | Turns(script, a, b) ensures Cost(script) >= Distance(a, b) {
      NoScriptIsCheaper(script, a, b, |a|, |b|);
    }
  }

  // ---------------------------------------------------------------- consequences

  function Mirrored(step: Step): Step {
    if step.Delete? then Insert else if step.Insert? then Delete else step
  }

  function Reversed(script: seq<Step>): seq<Step> {
    if script == [] then [] else Reversed(script[..|script| - 1]) + [Mirrored(script[|script| - 1])]
  }

  lemma MirroredFits(step: Step, a: string, b: string)
    requires Fits(step, a, b)
    ensures Fits(Mirrored(step), b, a) && Uses(Mirrored(step)) == (Uses(step).1, Uses(step).0)
    ensures Uses(step).0 <= |a| && Uses(step).1 <= |b|
  {
  }

  lemma {:induction false} ReversedTurnsBack(script: seq<Step>, a: string, b: string)
    requires Turns(script, a, b)
    ensures Turns(Reversed(script), b, a) && Cost(Reversed(script)) == Cost(script)
    decreases |script|
  {
    if script != [] {
      var step := script[|script| - 1];
      MirroredFits(step, a, b);
      var (x, y) := Uses(step);
      var rest := Reversed(script[..|script| - 1]);
      ReversedTurnsBack(script[..|script| - 1], a[..|a| - x], b[..|b| - y]);
      assert a[..|a|] == a && b[..|b|] == b;
      AddStep(rest, Mirrored(step), b, a, |b|, |a|);
      assert Reversed(script) == rest + [Mirrored(step)];
    }
  }

  lemma DistanceIsSymmetric(a: string, b: string)
    ensures Distance(a, b) == Distance(b, a)
  {
    DistanceIsMinimumCost(a, b);
    DistanceIsMinimumCost(b, a);
    var there :| Turns(there, a, b) && Cost(there) == Distance(a, b);
    var back :| Turns(back, b, a) && Cost(back) == Distance(b, a);
    ReversedTurnsBack(there, a, b);
    ReversedTurnsBack(back, b, a);
  }

  /** A script changes the length by at most its cost, and a free one changes nothing. */
  lemma {:induction false} CostBounds(script: seq<Step>, a: string, b: string)
    requires Turns(script, a, b)
    ensures |a| <= |b| + Cost(script) && |b| <= |a| + Cost(script)
    ensures Cost(script) == 0 ==> a == b
    decreases |script|
  {
    if script != [] {
      var step := script[|script| - 1];
      var (x, y) := Uses(step);
      CostBounds(script[..|script| - 1], a[..|a| - x], b[..|b| - y]);
      if step.Keep? {
        assert a == Front(a) + [Last(a)] && b == Front(b) + [Last(b)];
      }
    }
  }

  lemma {:induction false} EntryAtMostLonger(a: string, b: string, i: nat, j: nat)
    requires i <= |a| && j <= |b|
    ensures Entry(a, b, i, j) <= if i >= j then i else j
  {
    if i > 0 && j > 0 {
      EntryAtMostLonger(a, b, i - 1, j - 1);
      DiagonalStep(a, b, i, j);
    }
  }

  lemma DiagonalStep(a: string, b: string, i: nat, j: nat)
    requires 0 < i <= |a| && 0 < j <= |b|
    ensures Entry(a, b, i, j) <= Entry(a, b, i - 1, j - 1) + 1
  {
  }

  lemma {:induction false} EntryOfSelf(a: string, i: nat)
    requires i <= |a|
    ensures Entry(a, a, i, i) == 0
  {
    if i > 0 {
      EntryOfSelf(a, i - 1);
    }
  }

  lemma DistanceBounds(a: string, b: string)
    ensures |a| - |b| <= Distance(a, b) && |b| - |a| <= Distance(a, b)
    ensures Distance(a, b) <= if |a| >= |b| then |a| else |b|
    ensures Distance(a, b) == 0 <==> a == b
  {
    DistanceIsMinimumCost(a, b);
    var script :| Turns(script, a, b) && Cost(script) == Distance(a, b);
    CostBounds(script, a, b);
    EntryAtMostLonger(a, b, |a|, |b|);
    if a == b {
      EntryOfSelf(a, |a|);
    }
  }

  // ---------------------------------------------------------------- going through a third string

  predicate NoSwap(script: seq<Step>) {
    forall i :: 0 <= i < |script| ==> !script[i].Swap?
  }

  /** One step for two that meet in the same character of the middle string. */
  function Fused(first: Step, second: Step): Step {
    if first.Insert? then Insert
    else if second.Delete? then Delete
    else if first.Keep? && second.Keep? then Keep
    else Replace
  }

  /** The step deals with the ends of both strings and leaves the rest of them. */
  predicate Leaves(step: Step, a: string, b: string, aRest: string, bRest: string) {
    && Fits(step, a, b) && !step.Swap?
    && aRest == a[..|a| - Uses(step).0] && bRest == b[..|b| - Uses(step).1]
  }

  /** A deletion on the first leg, an insertion on the second, or both meeting in the middle. */
  lemma OneSided(first: Step, second: Step, a: string, b: string, c: string,
                 aRest: string, b1: string, b2: string, cRest: string)
    requires Leaves(first, a, b, aRest, b1) && Leaves(second, b, c, b2, cRest)
    ensures first.Delete? ==> b1 == b && Leaves(Delete, a, c, aRest, c)
    ensures second.Insert? ==> b2 == b && Leaves(Insert, a, c, a, cRest)
    ensures first.Insert? && second.Delete? ==> b1 == b2 && aRest == a && cRest == c
  {
    assert a[..|a|] == a && b[..|b|] == b && c[..|c|] == c;
  }

  lemma FusedFits(first: Step, second: Step, a: string, b: string, c: string,
                  aRest: string, b1: string, b2: string, cRest: string)
    requires Leaves(first, a, b, aRest, b1) && Leaves(second, b, c, b2, cRest)
    requires !first.Delete? && !second.Insert? && !(first.Insert? && second.Delete?)
    ensures b1 == b2 && Leaves(Fused(first, second), a, c, aRest, cRest)
    ensures Fused(first, second).Keep? <==> first.Keep? && second.Keep?
  {
  }

  lemma {:induction false} CostAppended(script: seq<Step>, step: Step)
    ensures Cost(script + [step]) == Cost(script) + (if step.Keep? then 0 else 1)
  {
    assert (script + [step])[..|script|] == script;
  }

  lemma {:induction false} TurnsAppended(script: seq<Step>, step: Step, a: string, b: string, aRest: string, bRest: string)
    requires Leaves(step, a, b, aRest, bRest) && Turns(script, aRest, bRest)
    ensures Turns(script + [step], a, b)
  {
    assert (script + [step])[..|script|] == script;
  }

  /** Adding one step to a whole script. */
  lemma {:induction false} Appended(script: seq<Step>, step: Step, a: string, b: string, aRest: string, bRest: string)
      returns (longer: seq<Step>)
    requires Leaves(step, a, b, aRest, bRest) && Turns(script, aRest, bRest) && NoSwap(script)
    ensures Turns(longer, a, b) && NoSwap(longer) && Cost(longer) == Cost(script) + (if step.Keep? then 0 else 1)
  {
    longer := script + [step];
    TurnsAppended(script, step, a, b, aRest, bRest);
    CostAppended(script, step);
  }

  /** A script is its last step after the rest of it. */
  lemma {:induction false} LastStep(script: seq<Step>, a: string, b: string)
      returns (front: seq<Step>, step: Step, aRest: string, bRest: string)
    requires Turns(script, a, b) && NoSwap(script) && script != []
    ensures |front| == |script| - 1 && NoSwap(front)
    ensures Leaves(step, a, b, aRest, bRest) && Turns(front, aRest, bRest)
    ensures Cost(script) == Cost(front) + (if step.Keep? then 0 else 1)
  {
    front, step := script[..|script| - 1], script[|script| - 1];
    aRest, bRest := a[..|a| - Uses(step).0], b[..|b| - Uses(step).1];
  }

  /** Two scripts without swaps, one after the other, are one script that costs no more. */
  lemma {:induction false} ScriptsCompose(first: seq<Step>, second: seq<Step>, a: string, b: string, c: string)
      returns (script: seq<Step>)
    requires Turns(first, a, b) && Turns(second, b, c) && NoSwap(first) && NoSwap(second)
    ensures Turns(script, a, c) && NoSwap(script) && Cost(script) <= Cost(first) + Cost(second)
    decreases |first| + |second|
  {
    if first == [] || second == [] {
      return if first == [] then second else first;
    }
    var front, x, aRest, b1 := LastStep(first, a, b);
    var back, y, b2, cRest := LastStep(second, b, c);
    OneSided(x, y, a, b, c, aRest, b1, b2, cRest);
    if x.Delete? {
      var rest := ScriptsCompose(front, second, aRest, b, c);
      script := Appended(rest, Delete, a, c, aRest, c);
    } else if y.Insert? {
      var rest := ScriptsCompose(first, back, a, b, cRest);
      script := Appended(rest, Insert, a, c, a, cRest);
    } else if x.Insert? && y.Delete? {
      script := ScriptsCompose(front, back, a, b1, c);
    } else {
      FusedFits(x, y, a, b, c, aRest, b1, b2, cRest);
      var rest := ScriptsCompose(front, back, aRest, b1, cRest);
      script := Appended(rest, Fused(x, y), a, c, aRest, cRest);
    }
  }

  /** The triangle inequality holds whenever each leg has a cheapest script without a swap. */
  lemma {:induction false} TriangleWithoutSwaps(a: string, b: string, c: string, first: seq<Step>, second: seq<Step>)
    requires Turns(first, a, b) && Cost(first) == Distance(a, b) && NoSwap(first)
    requires Turns(second, b, c) && Cost(second) == Distance(b, c) && NoSwap(second)
    ensures Distance(a, c) <= Distance(a, b) + Distance(b, c)
  {
    var script := ScriptsCompose(first, second, a, b, c);
    DistanceIsMinimumCost(a, c);
  }

  /** It can fail when a leg needs one: going through "ac" is cheaper than going straight. */
  lemma TriangleFails()
    ensures Distance("ca", "ac") + Distance("ac", "abc") < Distance("ca", "abc")
  {
    assert Distance("ca", "ac") == 1;
    var a, b := "ac", "abc";
    assert Entry(a, b, 1, 1) == 0 && Entry(a, b, 1, 2) == 1 && Entry(a, b, 1, 3) == 2;
    assert Entry(a, b, 2, 2) == 1;
    a := "ca";
    assert Entry(a, b, 1, 1) == 1 && Entry(a, b, 1, 2) == 2 && Entry(a, b, 1, 3) == 2;
    assert Entry(a, b, 2, 1) == 1 && Entry(a, b, 2, 2) == 2;
  }
}

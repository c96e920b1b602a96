/** Deciding on the text alone whether a decimal number lies in 1..2147483647. */
module DecimalRange {
  import opened Text

  const INT32_MAX := "2147483647"

  predicate IsDigit(c: char) {
    '0' <= c <= '9'
  }

  predicate AllDigits(s: string) {
    forall i :: 0 <= i < |s| ==> IsDigit(s[i])
  }

  function Digit(c: char): nat
    requires IsDigit(c)
  {
    c as int - '0' as int
  }

  function Power10(n: nat): (p: nat)
    ensures p > 0
  {
    if n == 0 then 1 else 10 * Power10(n - 1)
  }

  /** The number a string of digits denotes. */
  function Value(s: string): nat
    requires AllDigits(s)
  {
    if s == [] then 0 else Digit(s[0]) * Power10(|s| - 1) + Value(s[1..])
  }

  lemma TimesMonotone(a: nat, b: nat, p: nat)
    requires a < b
    ensures a * p + p <= b * p
  {
    assert (a + 1) * p <= b * p;
  }

  lemma {:induction false} ValueBelowPower(s: string)
    requires AllDigits(s)
    ensures Value(s) < Power10(|s|)
  {
    if s != [] {
      ValueBelowPower(s[1..]);
      TimesMonotone(Digit(s[0]), 10, Power10(|s| - 1));
    }
  }

  /** Equally long digit strings compare like the numbers they denote. */
  lemma {:induction false} LexicographicIsNumeric(s: string, t: string)
    requires AllDigits(s) && AllDigits(t) && |s| == |t|
    ensures LexLess(s, t) <==> Value(s) < Value(t)
  {
    if s != [] {
      var p := Power10(|s| - 1);
      ValueBelowPower(s[1..]);
      ValueBelowPower(t[1..]);
      if s[0] < t[0] {
        TimesMonotone(Digit(s[0]), Digit(t[0]), p);
      } else if t[0] < s[0] {
        TimesMonotone(Digit(t[0]), Digit(s[0]), p);
      } else {
        LexicographicIsNumeric(s[1..], t[1..]);
      }
    }
  }

  lemma {:induction false} PowerMonotone(m: nat, n: nat)
    requires m <= n
    ensures Power10(m) <= Power10(n)
  {
    if m < n {
      PowerMonotone(m, n - 1);
    }
  }

  /** Without leading zeros, fewer digits mean a smaller number. */
  lemma ShorterIsSmaller(s: string, t: string)
    requires AllDigits(s) && AllDigits(t) && |s| < |t| && t[0] != '0'
    ensures Value(s) < Value(t)
  {
    ValueBelowPower(s);
    PowerMonotone(|s|, |t| - 1);
    TimesMonotone(0, Digit(t[0]), Power10(|t| - 1));
  }

  lemma {:induction false} PowersMultiply(m: nat, n: nat)
    ensures Power10(m + n) == Power10(m) * Power10(n)
  {
    if m > 0 {
      PowersMultiply(m - 1, n);
    }
  }

  lemma Regroup(d: nat, p: nat, v: nat, q: nat)
    ensures (d * p + v) * q == d * (p * q) + v * q
  {
    assert (d * p) * q == d * (p * q);
  }

  /** The number of two strings of digits one after the other. */
  lemma {:induction false} ValueAppend(s: string, t: string)
    requires AllDigits(s) && AllDigits(t)
    ensures AllDigits(s + t) && Value(s + t) == Value(s) * Power10(|t|) + Value(t)
  {
    if s == [] {
      assert s + t == t;
    } else {
      ValueAppend(s[1..], t);
      PowersMultiply(|s| - 1, |t|);
      Regroup(Digit(s[0]), Power10(|s| - 1), Value(s[1..]), Power10(|t|));
      assert (s + t)[1..] == s[1..] + t;
    }
  }

  lemma {:induction false} UpperHalf()
    ensures AllDigits("21474") && Value("21474") == 21474
  {
    var s := "21474";
    assert Value(s[3..]) == 74 by { assert s[3..][1..] == s[4..]; }
    assert Value(s[1..]) == 1474 by { assert s[1..][1..] == s[2..] && s[2..][1..] == s[3..]; }
  }

  lemma {:induction false} LowerHalf()
    ensures AllDigits("83647") && Value("83647") == 83647
  {
    var s := "83647";
    assert Value(s[3..]) == 47 by { assert s[3..][1..] == s[4..]; }
    assert Value(s[1..]) == 3647 by { assert s[1..][1..] == s[2..] && s[2..][1..] == s[3..]; }
  }

  lemma {:induction false} Int32MaxValue()
    ensures AllDigits(INT32_MAX) && Value(INT32_MAX) == 2147483647
  {
    UpperHalf();
    LowerHalf();
    ValueAppend("21474", "83647");
    assert "21474" + "83647" == INT32_MAX;
    assert Power10(5) == 100000;
  }

  lemma ZeroStripped(s: string)
    requires AllDigits(s) && |s| > 1 && s[0] == '0'
    ensures AllDigits(s[1..]) && Value(s[1..]) == Value(s)
  {
  }

  /** The comparison made on the digits left after stripping zeros. */
  lemma StrippedInRange(s: string)
    requires s != [] && AllDigits(s) && (|s| > 1 ==> s[0] != '0')
    ensures 1 <= Value(s) <= 2147483647 <==>
      s != "0" && (|s| < |INT32_MAX| || (|s| == |INT32_MAX| && !LexLess(INT32_MAX, s)))
  {
    Int32MaxValue();
    PositiveUnlessZero(s);
    AgainstLimit(INT32_MAX, s);
  }

  lemma PositiveUnlessZero(s: string)
    requires s != [] && AllDigits(s) && (|s| > 1 ==> s[0] != '0')
    ensures 1 <= Value(s) <==> s != "0"
  {
    if |s| == 1 {
      assert s[1..] == [];
    } else {
      ShorterIsSmaller("", s);
    }
  }

  lemma AgainstLimit(limit: string, s: string)
    requires AllDigits(limit) && AllDigits(s) && s != [] && limit != []
    requires (|s| > 1 ==> s[0] != '0') && limit[0] != '0'
    ensures Value(s) <= Value(limit) <==> |s| < |limit| || (|s| == |limit| && !LexLess(limit, s))
  {
    if |s| < |limit| {
      ShorterIsSmaller(s, limit);
    } else if |s| > |limit| {
      ShorterIsSmaller(limit, s);
    } else {
      LexicographicIsNumeric(limit, s);
    }
  }

  method IsPositiveInt32(value: string) returns (ok: bool)
    ensures ok <==> value != [] && AllDigits(value) && 1 <= Value(value) <= 2147483647
  {
    if value == [] {
      return false;
    }
    for i := 0 to |value|
      invariant forall k :: 0 <= k < i ==> IsDigit(value[k])
    {
      if !IsDigit(value[i]) {
        return false;
      }
    }
    var normalized := value;
    while |normalized| > 1 && normalized[0] == '0'
      invariant normalized != [] && AllDigits(normalized) && Value(normalized) == Value(value)
    {
      ZeroStripped(normalized);
      normalized := normalized[1..];
    }
    StrippedInRange(normalized);
    if normalized == "0" {
      return false;
    }
    if |normalized| < |INT32_MAX| {
      return true;
    }
    if |normalized| > |INT32_MAX| {
      return false;
    }
    return !LexLess(INT32_MAX, normalized);
  }
}

/**
 Strings written with the escapes of section 7 of RFC 8259 and read back by the
 plan parser's permissive unescaping.
 */
module JsonEscapes {
  import opened Common
  import opened Scanners
  import opened JsonText
  import opened JsonScanning

  function HexDigit(n: nat): char
    requires n < 16
  {
    "0123456789abcdef"[n]
  }

  /** The mandatory escapes: quotation mark, reverse solidus and control characters. */
  function EscapeChar(c: char): seq<Unit> {
    var code := c as int;
    if c == '"' || c == '\\' then [Escape(c)]
    else if c == '\n' then [Escape('n')]
    else if c == '\r' then [Escape('r')]
    else if c == '\t' then [Escape('t')]
    else if code == 8 then [Escape('b')]
    else if code == 12 then [Escape('f')]
    else if code < 32 then
      [Escape('u'), Plain('0'), Plain('0'), Plain(HexDigit(code / 16)), Plain(HexDigit(code % 16))]
    else [Plain(c)]
  }

  function EscapeText(s: string): seq<Unit> {
    if s == [] then [] else EscapeChar(s[0]) + EscapeText(s[1..])
  }

  /** Control characters the unescaper knows no single-letter form of. */
  predicate Survives(c: char) {
    c as int >= 32 || c == '\n' || c == '\r' || c == '\t'
  }

  predicate AllSurvive(s: string) {
    forall i :: 0 <= i < |s| ==> Survives(s[i])
  }

  lemma {:induction false} DecodeConcat(a: seq<Unit>, b: seq<Unit>)
    ensures Decode(a + b) == Decode(a) + Decode(b)
  {
    if a == [] {
      assert a + b == b;
    } else {
      assert (a + b)[1..] == a[1..] + b;
      DecodeConcat(a[1..], b);
    }
  }

  lemma {:induction false} DecodePlain(units: seq<Unit>)
    requires forall i :: 0 <= i < |units| ==> units[i].Plain?
    ensures |Decode(units)| == |units|
  {
    if units != [] {
      DecodePlain(units[1..]);
    }
  }

  lemma DecodeEscapedChar(c: char)
    ensures Survives(c) ==> Decode(EscapeChar(c)) == [c]
    ensures !Survives(c) ==> |Decode(EscapeChar(c))| > 1
    ensures WellFormedUnits(EscapeChar(c))
  {
    var units := EscapeChar(c);
    if |units| == 1 {
      assert units[1..] == [];
    } else {
      DecodePlain(units[1..]);
    }
  }

  lemma {:induction false} EscapedNeverShrinks(s: string)
    ensures |Decode(EscapeText(s))| >= |s|
    ensures !AllSurvive(s) ==> |Decode(EscapeText(s))| > |s|
    ensures AllSurvive(s) ==> Decode(EscapeText(s)) == s
    ensures WellFormedUnits(EscapeText(s))
  {
    if s != [] {
      EscapedNeverShrinks(s[1..]);
      DecodeEscapedChar(s[0]);
      DecodeConcat(EscapeChar(s[0]), EscapeText(s[1..]));
      assert s == [s[0]] + s[1..];
    }
  }

  /** A string survives being written and parsed exactly when it has no other control character. */
  lemma WrittenAndReadBack(s: string)
    ensures StringAt(Quoted(EscapeText(s)), 0).Some?
    ensures StringAt(Quoted(EscapeText(s)), 0).value.0 == s <==> AllSurvive(s)
  {
    EscapedNeverShrinks(s);
    assert Stands(Quoted(EscapeText(s)), 0, Quoted(EscapeText(s)));
    StringReadBack(Quoted(EscapeText(s)), 0, EscapeText(s));
  }
}

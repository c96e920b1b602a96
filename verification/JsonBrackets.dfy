/** Bracket matching and object splitting on printed JSON. */
module JsonBrackets {
  import opened Common
  import opened Scanners
  import opened JsonText
  import opened JsonScanning

  /**
   Reading `text` from `pos` to `end` takes the scanner from this state back outside
   strings at `after`, without starting or ending an outermost bracket.
   */
  predicate Quiet(text: string, pos: nat, end: nat, kind: Bracket, depth: int, mode: Mode, after: int)
    decreases end - pos
  {
    if pos >= end then pos == end && depth == after && mode == Outside
    else
      && pos < |text|
      && (mode == Outside && text[pos] == Shut(kind) ==> depth >= 2)
      && (mode == Outside && text[pos] == Open(kind) ==> depth >= 1)
      && Quiet(text, pos + 1, end, kind, NextDepth(kind, depth, mode, text[pos]), NextMode(mode, text[pos]), after)
  }

  lemma {:induction false} QuietConcat(text: string, pos: nat, mid: nat, end: nat, kind: Bracket,
                                       depth: int, mode: Mode, between: int, after: int)
    requires Quiet(text, pos, mid, kind, depth, mode, between) && Quiet(text, mid, end, kind, between, Outside, after)
    ensures Quiet(text, pos, end, kind, depth, mode, after)
    decreases mid - pos
  {
    if pos < mid {
      QuietEnd(text, mid, end, kind, between, Outside, after);
      QuietConcat(text, pos + 1, mid, end, kind,
                  NextDepth(kind, depth, mode, text[pos]), NextMode(mode, text[pos]), between, after);
    }
  }

  lemma QuietEnd(text: string, pos: nat, end: nat, kind: Bracket, depth: int, mode: Mode, after: int)
    requires Quiet(text, pos, end, kind, depth, mode, after)
    ensures pos <= end
  {
  }

  /** The bracket search passes over a quiet stretch. */
  lemma {:induction false} QuietClosing(text: string, pos: nat, end: nat, kind: Bracket, depth: int, mode: Mode, after: int)
    requires Quiet(text, pos, end, kind, depth, mode, after)
    ensures Closing(text, pos, kind, depth, mode) == Closing(text, end, kind, after, Outside)
    decreases end - pos
  {
    if pos < end {
      QuietClosing(text, pos + 1, end, kind, NextDepth(kind, depth, mode, text[pos]), NextMode(mode, text[pos]), after);
    }
  }

  /** So does the splitter. */
  lemma {:induction false} QuietSplit(text: string, pos: nat, end: nat, depth: int, mode: Mode, after: int, start: Option<nat>)
    requires Quiet(text, pos, end, Curly, depth, mode, after)
    requires start.Some? ==> start.value <= pos
    ensures pos <= end
    ensures TopObjects(text, pos, depth, mode, start) == TopObjects(text, end, after, Outside, start)
    decreases end - pos
  {
    if pos < end {
      QuietSplit(text, pos + 1, end, NextDepth(Curly, depth, mode, text[pos]), NextMode(mode, text[pos]), after, start);
    }
  }

  predicate Bare(part: string, kind: Bracket) {
    forall i :: 0 <= i < |part| ==> part[i] != '"' && part[i] != Open(kind) && part[i] != Shut(kind)
  }

  lemma {:induction false} QuietBare(text: string, pos: nat, part: string, kind: Bracket, depth: int)
    requires Stands(text, pos, part) && Bare(part, kind)
    ensures Quiet(text, pos, pos + |part|, kind, depth, Outside, depth)
    decreases |part|
  {
    if part != [] {
      StandsChar(text, pos, part, 0);
      assert part == part[..1] + part[1..];
      StandsConcat(text, pos, part[..1], part[1..]);
      QuietBare(text, pos + 1, part[1..], kind, depth);
    }
  }

  lemma {:induction false} QuietRaw(text: string, pos: nat, units: seq<Unit>, kind: Bracket, depth: int)
    requires WellFormedUnits(units) && Stands(text, pos, RawText(units))
    requires pos + |RawText(units)| < |text| && text[pos + |RawText(units)|] == '"'
    ensures Quiet(text, pos, pos + |RawText(units)| + 1, kind, depth, InString, depth)
    decreases |units|
  {
    if units != [] {
      UnitAt(text, pos, units);
      QuietRaw(text, pos + |UnitText(units[0])|, units[1..], kind, depth);
    }
  }

  /** Brackets and quotes inside a string literal do not count. */
  lemma {:induction false} QuietQuoted(text: string, pos: nat, units: seq<Unit>, kind: Bracket, depth: int)
    requires WellFormedUnits(units) && Stands(text, pos, Quoted(units))
    ensures Quiet(text, pos, pos + |Quoted(units)|, kind, depth, Outside, depth)
  {
    QuotedParts(text, pos, units);
    QuietRaw(text, pos + 1, units, kind, depth);
  }

  /** A printed value inside at least one bracket is quiet. */
  lemma {:induction false} QuietValue(text: string, pos: nat, j: Json, kind: Bracket, depth: int)
    requires WellFormed(j) && Stands(text, pos, Print(j)) && depth >= 1
    ensures Quiet(text, pos, pos + |Print(j)|, kind, depth, Outside, depth)
    decreases j, 3
  {
    match j
    case Scalar(s) => QuietBare(text, pos, s, kind, depth);
    case Text(units) => QuietQuoted(text, pos, units, kind, depth);
    case Array(pad, items) =>
      var body := ArrayBody(pad, items);
      EnclosedParts(text, pos, '[', body, ']');
      var inner := if kind.Square? then depth + 1 else depth;
      QuietArrayBody(text, pos + 1, pad, items, kind, inner);
      QuietEnclosed(text, pos, body, kind, depth, inner);
    case Object(pad, members) =>
      var body := ObjectBody(pad, members);
      EnclosedParts(text, pos, '{', body, '}');
      var inner := if kind.Curly? then depth + 1 else depth;
      QuietObjectBody(text, pos + 1, pad, members, kind, inner);
      QuietEnclosed(text, pos, body, kind, depth, inner);
  }

  lemma {:induction false} QuietEnclosed(text: string, pos: nat, body: string, kind: Bracket, depth: int, inner: int)
    requires depth >= 1 && pos + 1 + |body| < |text|
    requires (text[pos] == '[' && text[pos + 1 + |body|] == ']') || (text[pos] == '{' && text[pos + 1 + |body|] == '}')
    requires inner == if text[pos] == Open(kind) then depth + 1 else depth
    requires Quiet(text, pos + 1, pos + 1 + |body|, kind, inner, Outside, inner)
    ensures Quiet(text, pos, pos + 2 + |body|, kind, depth, Outside, depth)
  {
    var end := pos + 1 + |body|;
    assert Quiet(text, end + 1, end + 1, kind, depth, Outside, depth);
    assert Quiet(text, end, end + 1, kind, inner, Outside, depth);
    QuietConcat(text, pos + 1, end, end + 1, kind, inner, Outside, inner, depth);
  }

  lemma {:induction false} QuietArrayBody(text: string, pos: nat, pad: string, items: Items, kind: Bracket, depth: int)
    requires IsBlank(pad) && WellFormedItems(items) && Stands(text, pos, ArrayBody(pad, items)) && depth >= 1
    ensures Quiet(text, pos, pos + |ArrayBody(pad, items)|, kind, depth, Outside, depth)
    decreases items, 2
  {
    if items == NoItems {
      QuietBare(text, pos, pad, kind, depth);
    } else {
      QuietItems(text, pos, items, true, kind, depth);
    }
  }

  lemma {:induction false} QuietObjectBody(text: string, pos: nat, pad: string, members: Members, kind: Bracket, depth: int)
    requires IsBlank(pad) && WellFormedMembers(members) && Stands(text, pos, ObjectBody(pad, members)) && depth >= 1
    ensures Quiet(text, pos, pos + |ObjectBody(pad, members)|, kind, depth, Outside, depth)
    decreases members, 2
  {
    if members == NoMembers {
      QuietBare(text, pos, pad, kind, depth);
    } else {
      QuietMembers(text, pos, members, true, kind, depth);
    }
  }

  /** White space, a value, white space. */
  lemma {:induction false} QuietPadded(text: string, pos: nat, lead: string, j: Json, trail: string, kind: Bracket, depth: int)
    requires IsBlank(lead) && WellFormed(j) && IsBlank(trail) && depth >= 1
    requires Stands(text, pos, lead) && Stands(text, pos + |lead|, Print(j))
    requires Stands(text, pos + |lead| + |Print(j)|, trail)
    ensures Quiet(text, pos, pos + |lead| + |Print(j)| + |trail|, kind, depth, Outside, depth)
    decreases j, 4
  {
    var at := pos + |lead|;
    var end := at + |Print(j)|;
    QuietBare(text, pos, lead, kind, depth);
    QuietValue(text, at, j, kind, depth);
    QuietBare(text, end, trail, kind, depth);
    QuietConcat(text, pos, at, end, kind, depth, Outside, depth, depth);
    QuietConcat(text, pos, end, end + |trail|, kind, depth, Outside, depth, depth);
  }

  lemma {:induction false} QuietItems(text: string, pos: nat, items: Items, first: bool, kind: Bracket, depth: int)
    requires WellFormedItems(items) && Stands(text, pos, PrintItems(items, first)) && depth >= 1
    ensures Quiet(text, pos, pos + |PrintItems(items, first)|, kind, depth, Outside, depth)
    decreases items, 1
  {
    if items.Item? {
      var at, next := ItemParts(text, pos, items, first);
      var start := pos + |Comma(first)|;
      QuietBare(text, pos, Comma(first), kind, depth);
      QuietPadded(text, start, items.lead, items.value, items.trail, kind, depth);
      QuietItems(text, next, items.rest, false, kind, depth);
      var end := pos + |PrintItems(items, first)|;
      QuietConcat(text, pos, start, next, kind, depth, Outside, depth, depth);
      QuietConcat(text, pos, next, end, kind, depth, Outside, depth, depth);
    }
  }

  /** From the comma to the first character of the value. */
  lemma {:induction false} QuietKeyText(text: string, pos: nat, comma: string, lead: string, key: seq<Unit>, before: string,
                     after: string, kind: Bracket, depth: int)
    requires Bare(comma, kind) && IsBlank(lead) && WellFormedUnits(key) && IsBlank(before) && IsBlank(after)
    requires Stands(text, pos, comma) && Stands(text, pos + |comma|, lead)
    requires Stands(text, pos + |comma| + |lead|, Quoted(key))
    requires Stands(text, pos + |comma| + |lead| + |Quoted(key)|, before)
    requires Stands(text, pos + |comma| + |lead| + |Quoted(key)| + |before|, ":")
    requires Stands(text, pos + |comma| + |lead| + |Quoted(key)| + |before| + 1, after)
    ensures Quiet(text, pos, pos + |comma| + |lead| + |Quoted(key)| + |before| + 1 + |after|, kind, depth, Outside, depth)
  {
    var quote := pos + |comma| + |lead|;
    var close := quote + |Quoted(key)|;
    QuietBare(text, pos, comma, kind, depth);
    ThenBare(text, pos, pos + |comma|, lead, kind, depth);
    QuietQuoted(text, quote, key, kind, depth);
    QuietConcat(text, pos, quote, close, kind, depth, Outside, depth, depth);
    ThenBare(text, pos, close, before, kind, depth);
    ThenBare(text, pos, close + |before|, ":", kind, depth);
    ThenBare(text, pos, close + |before| + 1, after, kind, depth);
  }

  lemma {:induction false} QuietMemberKey(text: string, pos: nat, m: Members, first: bool, kind: Bracket, depth: int) returns (at: nat, next: nat)
    requires m.Member? && WellFormedMembers(m) && Stands(text, pos, PrintMembers(m, first))
    ensures at == ValueAt(m, first, pos) && next == at + |Print(m.value)| + |m.trail|
    ensures Quiet(text, pos, at, kind, depth, Outside, depth)
    ensures Stands(text, at, Print(m.value)) && Stands(text, at + |Print(m.value)|, m.trail)
    ensures Stands(text, next, PrintMembers(m.rest, false))
    ensures next + |PrintMembers(m.rest, false)| == pos + |PrintMembers(m, first)|
  {
    var quote, colon;
    quote, colon, at, next := MemberParts(text, pos, m, first);
    QuietKeyText(text, pos, Comma(first), m.lead, m.key, m.beforeColon, m.afterColon, kind, depth);
  }

  lemma {:induction false} ThenBare(text: string, pos: nat, mid: nat, part: string, kind: Bracket, depth: int)
    requires Quiet(text, pos, mid, kind, depth, Outside, depth) && Stands(text, mid, part) && Bare(part, kind)
    ensures Quiet(text, pos, mid + |part|, kind, depth, Outside, depth)
  {
    QuietBare(text, mid, part, kind, depth);
    QuietConcat(text, pos, mid, mid + |part|, kind, depth, Outside, depth, depth);
  }

  lemma {:induction false} QuietMembers(text: string, pos: nat, m: Members, first: bool, kind: Bracket, depth: int)
    requires WellFormedMembers(m) && Stands(text, pos, PrintMembers(m, first)) && depth >= 1
    ensures Quiet(text, pos, pos + |PrintMembers(m, first)|, kind, depth, Outside, depth)
    decreases m, 1
  {
    if m.Member? {
      var next := QuietMember(text, pos, m, first, kind, depth);
      QuietMembers(text, next, m.rest, false, kind, depth);
      QuietConcat(text, pos, next, pos + |PrintMembers(m, first)|, kind, depth, Outside, depth, depth);
    }
  }

  /** The first member. */
  lemma {:induction false} QuietMember(text: string, pos: nat, m: Members, first: bool, kind: Bracket, depth: int)
      returns (next: nat)
    requires m.Member? && WellFormedMembers(m) && Stands(text, pos, PrintMembers(m, first)) && depth >= 1
    ensures pos <= next && Quiet(text, pos, next, kind, depth, Outside, depth)
    ensures Stands(text, next, PrintMembers(m.rest, false))
    ensures next + |PrintMembers(m.rest, false)| == pos + |PrintMembers(m, first)|
    decreases m.value, 5
  {
    var at;
    at, next := QuietMemberKey(text, pos, m, first, kind, depth);
    assert Stands(text, at, "");
    QuietPadded(text, at, "", m.value, m.trail, kind, depth);
    QuietConcat(text, pos, at, next, kind, depth, Outside, depth, depth);
  }

  // ---------------------------------------------------------------- bracket bodies

  lemma StandsIsSlice(text: string, pos: nat, part: string)
    requires Stands(text, pos, part)
    ensures text[pos..pos + |part|] == part
  {
  }

  /** The text between the braces of a printed object comes back exactly. */
  lemma {:induction false} ObjectBodyReadBack(text: string, pos: nat, pad: string, members: Members)
    requires WellFormed(Object(pad, members)) && Stands(text, pos, Print(Object(pad, members)))
    ensures BracketBody(text, pos, Curly) == Some(ObjectBody(pad, members))
  {
    var body := ObjectBody(pad, members);
    EnclosedParts(text, pos, '{', body, '}');
    QuietObjectBody(text, pos + 1, pad, members, Curly, 1);
    QuietClosing(text, pos + 1, pos + 1 + |body|, Curly, 1, Outside, 1);
    StandsIsSlice(text, pos + 1, body);
  }

  /** The text between the brackets of a printed array comes back exactly. */
  lemma {:induction false} ArrayBodyReadBack(text: string, pos: nat, pad: string, items: Items)
    requires WellFormed(Array(pad, items)) && Stands(text, pos, Print(Array(pad, items)))
    ensures BracketBody(text, pos, Square) == Some(ArrayBody(pad, items))
  {
    var body := ArrayBody(pad, items);
    EnclosedParts(text, pos, '[', body, ']');
    QuietArrayBody(text, pos + 1, pad, items, Square, 1);
    QuietClosing(text, pos + 1, pos + 1 + |body|, Square, 1, Outside, 1);
    StandsIsSlice(text, pos + 1, body);
  }

  // ---------------------------------------------------------------- object splitting

  /** At the top level, a printed value contributes its objects and leaves the splitter as it was. */
  lemma {:induction false} SplitValue(text: string, pos: nat, j: Json)
    requires WellFormed(j) && Stands(text, pos, Print(j))
    ensures TopObjects(text, pos, 0, Outside, None) ==
      ObjectTexts(j) + TopObjects(text, pos + |Print(j)|, 0, Outside, None)
    decreases j, 1
  {
    match j
    case Scalar(s) =>
      QuietBare(text, pos, s, Curly, 0);
      QuietSplit(text, pos, pos + |s|, 0, Outside, 0, None);
    case Text(units) =>
      QuietQuoted(text, pos, units, Curly, 0);
      QuietSplit(text, pos, pos + |Quoted(units)|, 0, Outside, 0, None);
    case Array(pad, items) => SplitArray(text, pos, pad, items);
    case Object(pad, members) => SplitObject(text, pos, pad, members);
  }

  lemma {:induction false} SplitObject(text: string, pos: nat, pad: string, members: Members)
    requires WellFormed(Object(pad, members)) && Stands(text, pos, Print(Object(pad, members)))
    ensures TopObjects(text, pos, 0, Outside, None) ==
      [Print(Object(pad, members))] + TopObjects(text, pos + 2 + |ObjectBody(pad, members)|, 0, Outside, None)
  {
    var body := ObjectBody(pad, members);
    EnclosedParts(text, pos, '{', body, '}');
    QuietObjectBody(text, pos + 1, pad, members, Curly, 1);
    QuietSplit(text, pos + 1, pos + 1 + |body|, 1, Outside, 1, Some(pos));
    StandsIsSlice(text, pos, Print(Object(pad, members)));
  }

  lemma {:induction false} SplitArray(text: string, pos: nat, pad: string, items: Items)
    requires WellFormed(Array(pad, items)) && Stands(text, pos, Print(Array(pad, items)))
    ensures TopObjects(text, pos, 0, Outside, None) ==
      ItemObjectTexts(items) + TopObjects(text, pos + 2 + |ArrayBody(pad, items)|, 0, Outside, None)
    decreases items, 2
  {
    var body := ArrayBody(pad, items);
    EnclosedParts(text, pos, '[', body, ']');
    SplitArrayBody(text, pos + 1, pad, items);
  }

  lemma {:induction false} SplitArrayBody(text: string, pos: nat, pad: string, items: Items)
    requires IsBlank(pad) && WellFormedItems(items) && Stands(text, pos, ArrayBody(pad, items))
    ensures TopObjects(text, pos, 0, Outside, None) ==
      ItemObjectTexts(items) + TopObjects(text, pos + |ArrayBody(pad, items)|, 0, Outside, None)
    decreases items, 1
  {
    if items == NoItems {
      SplitBare(text, pos, pad);
    } else {
      SplitItems(text, pos, items, true, pos + |ArrayBody(pad, items)|);
    }
  }

  lemma {:induction false} SplitBare(text: string, pos: nat, part: string)
    requires Stands(text, pos, part) && Bare(part, Curly)
    ensures TopObjects(text, pos, 0, Outside, None) == TopObjects(text, pos + |part|, 0, Outside, None)
  {
    QuietBare(text, pos, part, Curly, 0);
    QuietSplit(text, pos, pos + |part|, 0, Outside, 0, None);
  }

  lemma {:induction false} SplitItems(text: string, pos: nat, items: Items, first: bool, end: nat)
    requires WellFormedItems(items) && Stands(text, pos, PrintItems(items, first)) && end == pos + |PrintItems(items, first)|
    ensures TopObjects(text, pos, 0, Outside, None) == ItemObjectTexts(items) + TopObjects(text, end, 0, Outside, None)
    decreases items, 0
  {
    if items.Item? {
      var next := SplitItem(text, pos, items, first);
      SplitItems(text, next, items.rest, false, end);
      ConcatAssociates(ObjectTexts(items.value), ItemObjectTexts(items.rest), TopObjects(text, end, 0, Outside, None));
    }
  }

  /** The first element: its objects, and where the splitting goes on. */
  lemma {:induction false} SplitItem(text: string, pos: nat, items: Items, first: bool) returns (next: nat)
    requires items.Item? && WellFormedItems(items) && Stands(text, pos, PrintItems(items, first))
    ensures TopObjects(text, pos, 0, Outside, None) == ObjectTexts(items.value) + TopObjects(text, next, 0, Outside, None)
    ensures Stands(text, next, PrintItems(items.rest, false))
    ensures next + |PrintItems(items.rest, false)| == pos + |PrintItems(items, first)|
    decreases items.value, 2
  {
    var at;
    at, next := ItemParts(text, pos, items, first);
    SplitBare(text, pos, Comma(first));
    SplitBare(text, pos + |Comma(first)|, items.lead);
    SplitValue(text, at, items.value);
    SplitBare(text, at + |Print(items.value)|, items.trail);
  }

  /** Splitting the body of a printed array returns its objects, printed, in order. */
  lemma {:induction false} SplitsIntoObjects(pad: string, items: Items)
    requires IsBlank(pad) && WellFormedItems(items)
    ensures TopObjects(ArrayBody(pad, items), 0, 0, Outside, None) == ItemObjectTexts(items)
  {
    SplitArrayBody(ArrayBody(pad, items), 0, pad, items);
  }

  predicate AllObjects(items: Items) {
    items.Item? ==> items.value.Object? && AllObjects(items.rest)
  }

  function PrintedItems(items: Items): seq<string> {
    if items == NoItems then [] else [Print(items.value)] + PrintedItems(items.rest)
  }

  /** For an array of objects, these are all its elements. */
  lemma {:induction false} ArrayOfObjects(items: Items)
    requires AllObjects(items)
    ensures ItemObjectTexts(items) == PrintedItems(items)
  {
    if items.Item? {
      ArrayOfObjects(items.rest);
    }
  }
}

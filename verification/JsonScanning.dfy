/** What the scanners return on every JSON document, whatever its strings contain. */
module JsonScanning {
  import opened Common
  import opened Scanners
  import opened JsonText

  /** `part` is what stands in `text` at `pos`. */
  predicate Stands(text: string, pos: nat, part: string) {
    pos + |part| <= |text| && forall i :: 0 <= i < |part| ==> text[pos + i] == part[i]
  }

  lemma {:induction false} StandsConcat(text: string, pos: nat, a: string, b: string)
    requires Stands(text, pos, a + b)
    ensures Stands(text, pos, a) && Stands(text, pos + |a|, b)
  {
    forall i | 0 <= i < |b| ensures text[pos + |a| + i] == b[i] {
      assert text[pos + (|a| + i)] == (a + b)[|a| + i];
    }
    forall i | 0 <= i < |a| ensures text[pos + i] == a[i] {
      assert (a + b)[i] == a[i];
    }
  }

  lemma {:induction false} StandsParts(text: string, pos: nat, a: string, b: string, c: string, rest: string)
    requires Stands(text, pos, a + (b + (c + rest)))
    ensures Stands(text, pos, a) && Stands(text, pos + |a|, b) && Stands(text, pos + |a| + |b|, c)
    ensures Stands(text, pos + |a| + |b| + |c|, rest)
  {
    StandsConcat(text, pos, a, b + (c + rest));
    StandsConcat(text, pos + |a|, b, c + rest);
    StandsConcat(text, pos + |a| + |b|, c, rest);
  }

  lemma StandsChar(text: string, pos: nat, part: string, i: nat)
    requires Stands(text, pos, part) && i < |part|
    ensures text[pos + i] == part[i]
  {
  }

  // ---------------------------------------------------------------- strings

  lemma {:induction false} UnitAt(text: string, pos: nat, units: seq<Unit>)
    requires units != [] && WellFormedUnits(units) && Stands(text, pos, RawText(units))
    ensures text[pos] == if units[0].Plain? then units[0].c else '\\'
    ensures units[0].Plain? ==> text[pos] != '"' && text[pos] != '\\'
    ensures units[0].Escape? ==> pos + 1 < |text| && text[pos + 1] == units[0].c
    ensures Stands(text, pos + |UnitText(units[0])|, RawText(units[1..]))
  {
    StandsConcat(text, pos, UnitText(units[0]), RawText(units[1..]));
    StandsChar(text, pos, UnitText(units[0]), 0);
    if units[0].Escape? {
      StandsChar(text, pos, UnitText(units[0]), 1);
    }
  }

  lemma PairMeaning(c: char)
    ensures UnescapePair(c) == EscapeMeaning(c)
  {
  }

  /** Decoding the raw text of a literal gives the string it stands for. */
  lemma {:induction false} DecodesFrom(raw: string, pos: nat, units: seq<Unit>)
    requires WellFormedUnits(units) && Stands(raw, pos, RawText(units)) && pos + |RawText(units)| == |raw|
    ensures UnescapeFrom(raw, pos) == Decode(units)
    decreases |units|
  {
    if units != [] {
      UnitAt(raw, pos, units);
      PairMeaning(units[0].c);
      DecodesFrom(raw, pos + |UnitText(units[0])|, units[1..]);
    }
  }

  lemma {:induction false} ClosesAfter(text: string, pos: nat, units: seq<Unit>)
    requires WellFormedUnits(units) && Stands(text, pos, RawText(units))
    ensures ClosingQuote(text, pos) == ClosingQuote(text, pos + |RawText(units)|)
    decreases |units|
  {
    if units != [] {
      UnitAt(text, pos, units);
      ClosesAfter(text, pos + |UnitText(units[0])|, units[1..]);
    }
  }

  lemma {:induction false} QuotedParts(text: string, pos: nat, units: seq<Unit>)
    requires Stands(text, pos, Quoted(units))
    ensures text[pos] == '"' && Stands(text, pos + 1, RawText(units))
    ensures pos + 1 + |RawText(units)| < |text| && text[pos + 1 + |RawText(units)|] == '"'
  {
    var raw := RawText(units);
    assert Quoted(units) == "\"" + (raw + "\"");
    StandsChar(text, pos, Quoted(units), 0);
    StandsConcat(text, pos, "\"", raw + "\"");
    StandsConcat(text, pos + 1, raw, "\"");
    StandsChar(text, pos + 1 + |raw|, "\"", 0);
  }

  /** A printed literal is read back exactly, whatever it contains. */
  lemma {:induction false} StringReadBack(text: string, pos: nat, units: seq<Unit>)
    requires WellFormedUnits(units) && Stands(text, pos, Quoted(units))
    ensures StringAt(text, pos) == Some((Decode(units), pos + |Quoted(units)|))
  {
    QuotedParts(text, pos, units);
    ClosesAfter(text, pos + 1, units);
    var end := pos + 1 + |RawText(units)|;
    assert ClosingQuote(text, end) == Some(end);
    assert text[pos + 1..end] == RawText(units);
    UnescapesRaw(units);
  }

  lemma {:induction false} UnescapesRaw(units: seq<Unit>)
    requires WellFormedUnits(units)
    ensures Unescape(RawText(units)) == Decode(units)
  {
    DecodesFrom(RawText(units), 0, units);
  }

  // ---------------------------------------------------------------- white space

  lemma {:induction false} SkipsBlank(text: string, pos: nat, blank: string)
    requires IsBlank(blank) && Stands(text, pos, blank)
    ensures SkipSpaces(text, pos) == SkipSpaces(text, pos + |blank|)
    decreases |blank|
  {
    if blank != [] {
      StandsChar(text, pos, blank, 0);
      assert blank == blank[..1] + blank[1..];
      StandsConcat(text, pos, blank[..1], blank[1..]);
      SkipsBlank(text, pos + 1, blank[1..]);
    }
  }

  lemma {:induction false} NoQuoteNoKey(text: string, key: string, pos: nat, part: string)
    requires Stands(text, pos, part) && forall i :: 0 <= i < |part| ==> part[i] != '"'
    ensures KeyValue(text, key, pos) == KeyValue(text, key, pos + |part|)
    decreases |part|
  {
    if part != [] {
      StandsChar(text, pos, part, 0);
      assert part == part[..1] + part[1..];
      StandsConcat(text, pos, part[..1], part[1..]);
      NoQuoteNoKey(text, key, pos + 1, part[1..]);
    }
  }

  lemma BlankNoKey(text: string, key: string, pos: nat, blank: string)
    requires IsBlank(blank) && Stands(text, pos, blank)
    ensures KeyValue(text, key, pos) == KeyValue(text, key, pos + |blank|)
  {
    NoQuoteNoKey(text, key, pos, blank);
  }

  lemma ScalarNoKey(text: string, key: string, pos: nat, s: string)
    requires IsScalarText(s) && Stands(text, pos, s)
    ensures KeyValue(text, key, pos) == KeyValue(text, key, pos + |s|)
  {
    NoQuoteNoKey(text, key, pos, s);
  }

  lemma CommaNoKey(text: string, key: string, pos: nat, first: bool)
    requires Stands(text, pos, Comma(first))
    ensures KeyValue(text, key, pos) == KeyValue(text, key, pos + |Comma(first)|)
  {
    NoQuoteNoKey(text, key, pos, Comma(first));
  }

  lemma {:induction false} SkippedSpacesNoKey(text: string, key: string, pos: nat)
    ensures KeyValue(text, key, SkipSpaces(text, pos)) == KeyValue(text, key, pos)
    decreases |text| - pos
  {
    if pos < |text| && IsSpace(text[pos]) {
      SkippedSpacesNoKey(text, key, pos + 1);
    }
  }

  /** No colon follows, so the preceding string literal is not a key. */
  predicate NoColonAt(text: string, pos: nat) {
    var after := SkipSpaces(text, pos);
    !(after < |text| && text[after] == ':')
  }

  lemma {:induction false} BlankThenNoColon(text: string, pos: nat, blank: string)
    requires IsBlank(blank) && Stands(text, pos, blank) && NoColonAt(text, pos + |blank|)
    ensures NoColonAt(text, pos)
  {
    SkipsBlank(text, pos, blank);
  }

  // ---------------------------------------------------------------- keys

  /** The search result after reading `entries`: their first match, or the search behind them. */
  function Found(entries: seq<Entry>, key: string, behind: Option<nat>): Option<nat> {
    match FirstEntry(entries, key)
    case Some(e) => Some(e.at)
    case None => behind
  }

  lemma {:induction false} FoundConcat(a: seq<Entry>, b: seq<Entry>, key: string, behind: Option<nat>)
    ensures Found(a + b, key, behind) == Found(a, key, Found(b, key, behind))
  {
    if a == [] {
      assert a + b == b;
    } else {
      assert (a + b)[1..] == a[1..] + b;
      FoundConcat(a[1..], b, key, behind);
    }
  }

  /** A string value is passed over even when it equals the key. */
  lemma {:induction false} StringValueIsNoKey(text: string, key: string, pos: nat, units: seq<Unit>)
    requires WellFormedUnits(units) && Stands(text, pos, Quoted(units))
    requires NoColonAt(text, pos + |Quoted(units)|)
    ensures KeyValue(text, key, pos) == KeyValue(text, key, pos + |Quoted(units)|)
  {
    StringReadBack(text, pos, units);
    LiteralIsNoKey(text, key, pos, Decode(units), pos + |Quoted(units)|);
  }

  lemma LiteralIsNoKey(text: string, key: string, pos: nat, s: string, end: nat)
    requires StringAt(text, pos) == Some((s, end)) && NoColonAt(text, end)
    ensures KeyValue(text, key, pos) == KeyValue(text, key, end)
  {
    SkippedSpacesNoKey(text, key, end);
  }

  /** Searching across a printed value finds its entries in order, then goes on behind it. */
  lemma {:induction false} SearchValue(text: string, key: string, pos: nat, j: Json)
    requires WellFormed(j) && Stands(text, pos, Print(j)) && NoColonAt(text, pos + |Print(j)|)
    ensures KeyValue(text, key, pos) == Found(Entries(j, pos), key, KeyValue(text, key, pos + |Print(j)|))
    decreases j, 3
  {
    match j
    case Scalar(s) => ScalarNoKey(text, key, pos, s);
    case Text(units) => StringValueIsNoKey(text, key, pos, units);
    case Array(pad, items) => SearchArray(text, key, pos, pad, items);
    case Object(pad, members) => SearchObject(text, key, pos, pad, members);
  }

  lemma {:induction false} SearchArray(text: string, key: string, pos: nat, pad: string, items: Items)
    requires IsBlank(pad) && WellFormedItems(items) && Stands(text, pos, "[" + ArrayBody(pad, items) + "]")
    ensures KeyValue(text, key, pos) ==
      Found(ItemEntries(items, true, pos + 1), key, KeyValue(text, key, pos + 2 + |ArrayBody(pad, items)|))
    decreases items, 2
  {
    var body := ArrayBody(pad, items);
    EnclosedParts(text, pos, '[', body, ']');
    NoQuoteNoKey(text, key, pos, "[");
    NoQuoteNoKey(text, key, pos + 1 + |body|, "]");
    if items == NoItems {
      BlankNoKey(text, key, pos + 1, pad);
    } else {
      SearchItems(text, key, pos + 1, items, true, pos + 1 + |body|);
    }
  }

  lemma {:induction false} SearchObject(text: string, key: string, pos: nat, pad: string, members: Members)
    requires IsBlank(pad) && WellFormedMembers(members) && Stands(text, pos, "{" + ObjectBody(pad, members) + "}")
    ensures KeyValue(text, key, pos) ==
      Found(MemberEntries(members, true, pos + 1), key, KeyValue(text, key, pos + 2 + |ObjectBody(pad, members)|))
    decreases members, 2
  {
    var body := ObjectBody(pad, members);
    EnclosedParts(text, pos, '{', body, '}');
    NoQuoteNoKey(text, key, pos, "{");
    NoQuoteNoKey(text, key, pos + 1 + |body|, "}");
    if members == NoMembers {
      BlankNoKey(text, key, pos + 1, pad);
    } else {
      SearchMembers(text, key, pos + 1, members, true, pos + 1 + |body|);
    }
  }

  lemma {:induction false} EnclosedParts(text: string, pos: nat, open: char, body: string, shut: char)
    requires Stands(text, pos, [open] + body + [shut])
    ensures Stands(text, pos, [open]) && Stands(text, pos + 1, body) && Stands(text, pos + 1 + |body|, [shut])
    ensures text[pos] == open && pos + 1 + |body| < |text| && text[pos + 1 + |body|] == shut
  {
    assert [open] + body + [shut] == [open] + (body + [shut]);
    StandsConcat(text, pos, [open], body + [shut]);
    StandsConcat(text, pos + 1, body, [shut]);
    StandsChar(text, pos, [open], 0);
    StandsChar(text, pos + 1 + |body|, [shut], 0);
  }

  /** What follows an element or member: nothing, or no colon and no space. */
  predicate SafeTail(text: string, pos: nat) {
    pos <= |text| && (pos < |text| ==> text[pos] != ':' && !IsSpace(text[pos]))
  }

  lemma {:induction false} ItemParts(text: string, pos: nat, items: Items, first: bool) returns (at: nat, next: nat)
    requires items.Item? && Stands(text, pos, PrintItems(items, first))
    ensures at == pos + |Comma(first)| + |items.lead|
    ensures next == at + |Print(items.value)| + |items.trail|
    ensures next + |PrintItems(items.rest, false)| == pos + |PrintItems(items, first)|
    ensures Stands(text, pos, Comma(first)) && Stands(text, pos + |Comma(first)|, items.lead)
    ensures Stands(text, at, Print(items.value)) && Stands(text, at + |Print(items.value)|, items.trail)
    ensures Stands(text, next, PrintItems(items.rest, false))
  {
    var tail := PrintItems(items.rest, false);
    StandsParts(text, pos, Comma(first), items.lead, Print(items.value), items.trail + tail);
    at := pos + |Comma(first)| + |items.lead|;
    StandsConcat(text, at + |Print(items.value)|, items.trail, tail);
    next := at + |Print(items.value)| + |items.trail|;
  }

  lemma {:induction false} ItemsTail(text: string, pos: nat, items: Items)
    requires WellFormedItems(items) && Stands(text, pos, PrintItems(items, false))
    requires SafeTail(text, pos + |PrintItems(items, false)|)
    ensures SafeTail(text, pos)
  {
    if items.Item? {
      StandsChar(text, pos, PrintItems(items, false), 0);
    }
  }

  /** Blank, value, blank, ...: what one element contributes, given the search behind it. */
  lemma {:induction false} SearchPadded(text: string, key: string, pos: nat, lead: string, j: Json, trail: string)
    requires IsBlank(lead) && WellFormed(j) && IsBlank(trail)
    requires Stands(text, pos, lead) && Stands(text, pos + |lead|, Print(j))
    requires Stands(text, pos + |lead| + |Print(j)|, trail)
    requires SafeTail(text, pos + |lead| + |Print(j)| + |trail|)
    ensures KeyValue(text, key, pos) == Found(Entries(j, pos + |lead|), key,
      KeyValue(text, key, pos + |lead| + |Print(j)| + |trail|))
    decreases j, 4
  {
    BlankNoKey(text, key, pos, lead);
    BlankThenNoColon(text, pos + |lead| + |Print(j)|, trail);
    SearchValue(text, key, pos + |lead|, j);
    BlankNoKey(text, key, pos + |lead| + |Print(j)|, trail);
  }

  lemma {:induction false} SearchItems(text: string, key: string, pos: nat, items: Items, first: bool, end: nat)
    requires WellFormedItems(items) && Stands(text, pos, PrintItems(items, first))
    requires end == pos + |PrintItems(items, first)| && SafeTail(text, end)
    ensures KeyValue(text, key, pos) == Found(ItemEntries(items, first, pos), key, KeyValue(text, key, end))
    decreases items, 1
  {
    if items.Item? {
      var next := SearchItem(text, key, pos, items, first);
      SearchItems(text, key, next, items.rest, false, end);
      ItemFound(items, first, pos, key, KeyValue(text, key, pos), KeyValue(text, key, next), KeyValue(text, key, end));
    }
  }

  /** The first element: its entries, and where the search goes on. */
  lemma {:induction false} SearchItem(text: string, key: string, pos: nat, items: Items, first: bool) returns (next: nat)
    requires items.Item? && WellFormedItems(items) && Stands(text, pos, PrintItems(items, first))
    requires SafeTail(text, pos + |PrintItems(items, first)|)
    ensures var at := pos + |Comma(first)| + |items.lead|;
      && next == at + |Print(items.value)| + |items.trail|
      && KeyValue(text, key, pos) == Found(Entries(items.value, at), key, KeyValue(text, key, next))
    ensures next + |PrintItems(items.rest, false)| == pos + |PrintItems(items, first)|
    ensures Stands(text, next, PrintItems(items.rest, false))
    decreases items, 0
  {
    var at;
    at, next := ItemParts(text, pos, items, first);
    CommaNoKey(text, key, pos, first);
    ItemsTail(text, next, items.rest);
    SearchPadded(text, key, pos + |Comma(first)|, items.lead, items.value, items.trail);
  }

  lemma {:induction false} ItemFound(items: Items, first: bool, pos: nat, key: string,
                  here: Option<nat>, after: Option<nat>, behind: Option<nat>)
    requires items.Item?
    requires here == Found(Entries(items.value, pos + |Comma(first)| + |items.lead|), key, after)
    requires after == Found(ItemEntries(items.rest, false,
      pos + |Comma(first)| + |items.lead| + |Print(items.value)| + |items.trail|), key, behind)
    ensures here == Found(ItemEntries(items, first, pos), key, behind)
  {
    var at := pos + |Comma(first)| + |items.lead|;
    var rest := ItemEntries(items.rest, false, at + |Print(items.value)| + |items.trail|);
    assert ItemEntries(items, first, pos) == Entries(items.value, at) + rest;
    FoundConcat(Entries(items.value, at), rest, key, behind);
  }

  lemma {:induction false} StandsMember(text: string, pos: nat, a: string, b: string, key: string, c: string,
                     d: string, value: string, f: string, tail: string)
    requires Stands(text, pos, a + (b + (key + (c + (":" + (d + (value + (f + tail))))))))
    ensures Stands(text, pos, a) && Stands(text, pos + |a|, b)
    ensures var quote := pos + |a| + |b|;
      && Stands(text, quote, key) && Stands(text, quote + |key|, c) && Stands(text, quote + |key| + |c|, ":")
    ensures var colon := pos + |a| + |b| + |key| + |c|;
      && Stands(text, colon + 1, d) && Stands(text, colon + 1 + |d|, value)
      && Stands(text, colon + 1 + |d| + |value|, f) && Stands(text, colon + 1 + |d| + |value| + |f|, tail)
  {
    var behind := d + (value + (f + tail));
    StandsParts(text, pos, a, b, key, c + (":" + behind));
    var colon := pos + |a| + |b| + |key| + |c|;
    StandsConcat(text, colon - |c|, c, ":" + behind);
    StandsConcat(text, colon, ":", behind);
    StandsParts(text, colon + 1, d, value, f, tail);
  }

  /** The positions of the parts of the first member. */
  lemma {:induction false} MemberParts(text: string, pos: nat, m: Members, first: bool) returns (quote: nat, colon: nat, at: nat, next: nat)
    requires m.Member? && Stands(text, pos, PrintMembers(m, first))
    ensures quote == pos + |Comma(first)| + |m.lead|
    ensures colon == quote + |Quoted(m.key)| + |m.beforeColon|
    ensures at == colon + 1 + |m.afterColon| == ValueAt(m, first, pos)
    ensures next == at + |Print(m.value)| + |m.trail|
    ensures next + |PrintMembers(m.rest, false)| == pos + |PrintMembers(m, first)|
    ensures Stands(text, pos, Comma(first)) && Stands(text, pos + |Comma(first)|, m.lead)
    ensures Stands(text, quote, Quoted(m.key)) && Stands(text, quote + |Quoted(m.key)|, m.beforeColon)
    ensures Stands(text, colon, ":") && Stands(text, colon + 1, m.afterColon)
    ensures Stands(text, at, Print(m.value)) && Stands(text, at + |Print(m.value)|, m.trail)
    ensures Stands(text, next, PrintMembers(m.rest, false))
  {
    StandsMember(text, pos, Comma(first), m.lead, Quoted(m.key), m.beforeColon,
                 m.afterColon, Print(m.value), m.trail, PrintMembers(m.rest, false));
    quote := pos + |Comma(first)| + |m.lead|;
    colon := quote + |Quoted(m.key)| + |m.beforeColon|;
    at := colon + 1 + |m.afterColon|;
    next := at + |Print(m.value)| + |m.trail|;
  }

  lemma {:induction false} MembersTail(text: string, pos: nat, members: Members)
    requires WellFormedMembers(members) && Stands(text, pos, PrintMembers(members, false))
    requires SafeTail(text, pos + |PrintMembers(members, false)|)
    ensures SafeTail(text, pos)
  {
    if members.Member? {
      StandsChar(text, pos, PrintMembers(members, false), 0);
    }
  }

  lemma {:induction false} ValueStart(text: string, pos: nat, j: Json)
    requires WellFormed(j) && Stands(text, pos, Print(j))
    ensures pos < |text| && !IsSpace(text[pos]) && |Print(j)| > 0
  {
    match j
    case Scalar(s) => StandsChar(text, pos, s, 0);
    case Text(units) => StandsChar(text, pos, Quoted(units), 0);
    case Array(pad, items) => StandsChar(text, pos, Print(j), 0);
    case Object(pad, members) => StandsChar(text, pos, Print(j), 0);
  }

  /** A printed key followed by its colon: found when it decodes to the key, passed over otherwise. */
  lemma LiteralIsKey(text: string, key: string, pos: nat, s: string, end: nat, colon: nat)
    requires StringAt(text, pos) == Some((s, end)) && SkipSpaces(text, end) == colon < |text| && text[colon] == ':'
    ensures KeyValue(text, key, pos) == if s == key then Some(SkipSpaces(text, colon + 1)) else KeyValue(text, key, colon)
  {
  }

  lemma {:induction false} SearchKey(text: string, key: string, quote: nat, units: seq<Unit>, blank: string, colon: nat, after: string, j: Json)
    requires WellFormedUnits(units) && Stands(text, quote, Quoted(units))
    requires IsBlank(blank) && Stands(text, quote + |Quoted(units)|, blank)
    requires colon == quote + |Quoted(units)| + |blank| && Stands(text, colon, ":")
    requires IsBlank(after) && Stands(text, colon + 1, after)
    requires WellFormed(j) && Stands(text, colon + 1 + |after|, Print(j))
    ensures KeyValue(text, key, quote) ==
      if Decode(units) == key then Some(colon + 1 + |after|) else KeyValue(text, key, colon + 1 + |after|)
  {
    StringReadBack(text, quote, units);
    KeyIsFollowedByColon(text, quote + |Quoted(units)|, blank, colon, after, j);
    LiteralIsKey(text, key, quote, Decode(units), quote + |Quoted(units)|, colon);
    NoQuoteNoKey(text, key, colon, ":");
    BlankNoKey(text, key, colon + 1, after);
  }

  lemma {:induction false} KeyIsFollowedByColon(text: string, pos: nat, blank: string, colon: nat, after: string, j: Json)
    requires IsBlank(blank) && Stands(text, pos, blank)
    requires colon == pos + |blank| && Stands(text, colon, ":")
    requires IsBlank(after) && Stands(text, colon + 1, after)
    requires WellFormed(j) && Stands(text, colon + 1 + |after|, Print(j))
    ensures SkipSpaces(text, pos) == colon && colon < |text| && text[colon] == ':'
    ensures SkipSpaces(text, colon + 1) == colon + 1 + |after|
  {
    SkipsBlank(text, pos, blank);
    StandsChar(text, colon, ":", 0);
    SkipsBlank(text, colon + 1, after);
    ValueStart(text, colon + 1 + |after|, j);
  }

  lemma {:induction false} SearchMemberKey(text: string, key: string, pos: nat, m: Members, first: bool) returns (at: nat, next: nat)
    requires m.Member? && WellFormedMembers(m) && Stands(text, pos, PrintMembers(m, first))
    ensures at == ValueAt(m, first, pos) && next == at + |Print(m.value)| + |m.trail|
    ensures KeyValue(text, key, pos) == if Decode(m.key) == key then Some(at) else KeyValue(text, key, at)
    ensures Stands(text, at, Print(m.value)) && Stands(text, at + |Print(m.value)|, m.trail)
    ensures Stands(text, next, PrintMembers(m.rest, false))
    ensures next + |PrintMembers(m.rest, false)| == pos + |PrintMembers(m, first)|
  {
    var quote, colon;
    quote, colon, at, next := MemberParts(text, pos, m, first);
    CommaNoKey(text, key, pos, first);
    BlankNoKey(text, key, pos + |Comma(first)|, m.lead);
    SearchKey(text, key, quote, m.key, m.beforeColon, colon, m.afterColon, m.value);
  }

  /** The first member's value: its entries, and where the search goes on. */
  lemma {:induction false} SearchMemberValue(text: string, key: string, at: nat, m: Members, end: nat)
    requires m.Member? && WellFormedMembers(m)
    requires Stands(text, at, Print(m.value)) && Stands(text, at + |Print(m.value)|, m.trail)
    requires Stands(text, at + |Print(m.value)| + |m.trail|, PrintMembers(m.rest, false))
    requires end == at + |Print(m.value)| + |m.trail| + |PrintMembers(m.rest, false)| && SafeTail(text, end)
    ensures KeyValue(text, key, at) ==
      Found(Entries(m.value, at), key, KeyValue(text, key, at + |Print(m.value)| + |m.trail|))
    decreases m, 0
  {
    MembersTail(text, at + |Print(m.value)| + |m.trail|, m.rest);
    assert Stands(text, at, "");
    SearchPadded(text, key, at, "", m.value, m.trail);
  }

  lemma {:induction false} SearchMembers(text: string, key: string, pos: nat, m: Members, first: bool, end: nat)
    requires WellFormedMembers(m) && Stands(text, pos, PrintMembers(m, first))
    requires end == pos + |PrintMembers(m, first)| && SafeTail(text, end)
    ensures KeyValue(text, key, pos) == Found(MemberEntries(m, first, pos), key, KeyValue(text, key, end))
    decreases m, 1
  {
    if m.Member? {
      var at, next := SearchMemberKey(text, key, pos, m, first);
      SearchMemberValue(text, key, at, m, end);
      SearchMembers(text, key, next, m.rest, false, end);
      MemberFound(m, first, pos, key, KeyValue(text, key, pos), KeyValue(text, key, at), KeyValue(text, key, next),
                  KeyValue(text, key, end));
    }
  }

  lemma {:induction false} FoundCons(e: Entry, inner: seq<Entry>, rest: seq<Entry>, key: string, behind: Option<nat>)
    ensures Found([e] + inner + rest, key, behind) ==
      if e.key == key then Some(e.at) else Found(inner, key, Found(rest, key, behind))
  {
    assert [e] + inner + rest == [e] + (inner + rest);
    assert ([e] + (inner + rest))[1..] == inner + rest;
    FoundConcat(inner, rest, key, behind);
  }

  lemma {:induction false} MemberFound(m: Members, first: bool, pos: nat, key: string,
                    here: Option<nat>, value: Option<nat>, after: Option<nat>, behind: Option<nat>)
    requires m.Member?
    requires here == if Decode(m.key) == key then Some(ValueAt(m, first, pos)) else value
    requires value == Found(Entries(m.value, ValueAt(m, first, pos)), key, after)
    requires after == Found(MemberEntries(m.rest, false,
      ValueAt(m, first, pos) + |Print(m.value)| + |m.trail|), key, behind)
    ensures here == Found(MemberEntries(m, first, pos), key, behind)
  {
    var at := ValueAt(m, first, pos);
    var rest := MemberEntries(m.rest, false, at + |Print(m.value)| + |m.trail|);
    assert MemberEntries(m, first, pos) == [Entry(Decode(m.key), at, m.value)] + Entries(m.value, at) + rest;
    FoundCons(Entry(Decode(m.key), at, m.value), Entries(m.value, at), rest, key, behind);
  }
}

/**
 Field extraction from plan documents: key search, bracket bodies and string
 literals put together, and what the combination returns on every JSON document.
 */
module PlanFields {
  import opened Common
  import opened Scanners
  import opened JsonText
  import opened JsonScanning
  import opened JsonBrackets

  // ---------------------------------------------------------------- the extractors

  function ObjectBodyFor(text: string, key: string): Option<string> {
    match KeyValue(text, key, 0)
    case None => None
    case Some(at) => BracketBody(text, at, Curly)
  }

  function ArrayBodyFor(text: string, key: string): Option<string> {
    match KeyValue(text, key, 0)
    case None => None
    case Some(at) => BracketBody(text, at, Square)
  }

  function StringField(text: string, key: string): Option<string> {
    match KeyValue(text, key, 0)
    case None => None
    case Some(at) => match StringAt(text, at)
      case None => None
      case Some(literal) => Some(literal.0)
  }

  method ExtractObjectBodyForKey(text: string, key: string) returns (r: Option<string>)
    ensures r == ObjectBodyFor(text, key)
  {
    var valuePos := FindJsonKeyValueStart(text, key, 0);
    if valuePos == None {
      return None;
    }
    r := ExtractBracketBody(text, valuePos.value, Curly);
  }

  method ExtractArrayBodyForKey(text: string, key: string) returns (r: Option<string>)
    ensures r == ArrayBodyFor(text, key)
  {
    var valuePos := FindJsonKeyValueStart(text, key, 0);
    if valuePos == None {
      return None;
    }
    r := ExtractBracketBody(text, valuePos.value, Square);
  }

  method ExtractStringField(text: string, key: string) returns (r: Option<string>)
    ensures r == StringField(text, key)
  {
    var valuePos := FindJsonKeyValueStart(text, key, 0);
    if valuePos == None {
      return None;
    }
    var parsed := ParseJsonStringAt(text, valuePos.value);
    r := if parsed == None then None else Some(parsed.value.0);
  }

  // ---------------------------------------------------------------- documents

  /** A JSON text: a value with white space around it. */
  function Document(lead: string, j: Json, trail: string): string {
    lead + (Print(j) + trail)
  }

  lemma ThreeParts(text: string, a: string, b: string, c: string)
    requires text == a + (b + c)
    ensures |text| == |a| + |b| + |c| && Stands(text, 0, a) && Stands(text, |a|, b) && Stands(text, |a| + |b|, c)
  {
    assert Stands(text, 0, text);
    StandsConcat(text, 0, a, b + c);
    StandsConcat(text, |a|, b, c);
  }

  lemma {:induction false} DocumentParts(lead: string, j: Json, trail: string)
    ensures var text := Document(lead, j, trail);
      && |text| == |lead| + |Print(j)| + |trail| && Stands(text, 0, lead)
      && Stands(text, |lead|, Print(j)) && Stands(text, |lead| + |Print(j)|, trail)
  {
    ThreeParts(Document(lead, j, trail), lead, Print(j), trail);
  }

  lemma {:induction false} NothingBehind(text: string, key: string, end: nat, trail: string)
    requires IsBlank(trail) && Stands(text, end, trail) && end + |trail| == |text|
    ensures NoColonAt(text, end) && KeyValue(text, key, end) == None
  {
    SkipsBlank(text, end, trail);
    BlankNoKey(text, key, end, trail);
  }

  lemma {:induction false} SearchDocument(text: string, key: string, lead: string, j: Json, trail: string)
    requires IsBlank(lead) && WellFormed(j) && IsBlank(trail) && |lead| + |Print(j)| + |trail| == |text|
    requires Stands(text, 0, lead) && Stands(text, |lead|, Print(j)) && Stands(text, |lead| + |Print(j)|, trail)
    ensures KeyValue(text, key, 0) == Found(Entries(j, |lead|), key, None)
  {
    BlankNoKey(text, key, 0, lead);
    NothingBehind(text, key, |lead| + |Print(j)|, trail);
    SearchValue(text, key, |lead|, j);
  }

  /** The key search returns the first keyed value in document order, at any depth. */
  lemma {:induction false} FindsFirstInDocumentOrder(lead: string, j: Json, trail: string, key: string)
    requires IsBlank(lead) && WellFormed(j) && IsBlank(trail)
    ensures KeyValue(Document(lead, j, trail), key, 0) == Found(Entries(j, |lead|), key, None)
  {
    DocumentParts(lead, j, trail);
    SearchDocument(Document(lead, j, trail), key, lead, j, trail);
  }

  /** Every entry stands where it says, inside the value it was listed for. */
  ghost predicate EntriesStand(text: string, entries: seq<Entry>, from: nat, to: nat) {
    forall i :: 0 <= i < |entries| ==>
      && from <= entries[i].at && entries[i].at + |Print(entries[i].value)| <= to
      && Stands(text, entries[i].at, Print(entries[i].value)) && WellFormed(entries[i].value)
  }

  lemma EntriesConcat(text: string, a: seq<Entry>, b: seq<Entry>, from: nat, aFrom: nat, aTo: nat,
                      bFrom: nat, bTo: nat, to: nat)
    requires EntriesStand(text, a, aFrom, aTo) && EntriesStand(text, b, bFrom, bTo)
    requires from <= aFrom && from <= bFrom && aTo <= to && bTo <= to
    ensures EntriesStand(text, a + b, from, to)
  {
  }

  lemma {:induction false} ValueEntriesStand(text: string, pos: nat, j: Json)
    requires WellFormed(j) && Stands(text, pos, Print(j))
    ensures EntriesStand(text, Entries(j, pos), pos, pos + |Print(j)|)
    decreases j, 1
  {
    match j
    case Scalar(_) =>
    case Text(_) =>
    case Array(pad, items) =>
      EnclosedParts(text, pos, '[', ArrayBody(pad, items), ']');
      if items.Item? {
        ItemEntriesStand(text, pos + 1, items, true);
      }
    case Object(pad, members) =>
      EnclosedParts(text, pos, '{', ObjectBody(pad, members), '}');
      if members.Member? {
        MemberEntriesStand(text, pos + 1, members, true);
      }
  }

  lemma {:induction false} ItemEntriesStand(text: string, pos: nat, items: Items, first: bool)
    requires WellFormedItems(items) && Stands(text, pos, PrintItems(items, first))
    ensures EntriesStand(text, ItemEntries(items, first, pos), pos, pos + |PrintItems(items, first)|)
    decreases items, 0
  {
    if items.Item? {
      var at, next := ItemParts(text, pos, items, first);
      ValueEntriesStand(text, at, items.value);
      ItemEntriesStand(text, next, items.rest, false);
    }
  }

  lemma {:induction false} MemberEntriesStand(text: string, pos: nat, m: Members, first: bool)
    requires WellFormedMembers(m) && Stands(text, pos, PrintMembers(m, first))
    ensures EntriesStand(text, MemberEntries(m, first, pos), pos, pos + |PrintMembers(m, first)|)
    decreases m, 0
  {
    if m.Member? {
      var quote, colon, at, next := MemberParts(text, pos, m, first);
      ValueEntriesStand(text, at, m.value);
      MemberEntriesStand(text, next, m.rest, false);
      var end := pos + |PrintMembers(m, first)|;
      var own := [Entry(Decode(m.key), at, m.value)];
      assert EntriesStand(text, own, at, next);
      EntriesConcat(text, own, Entries(m.value, at), pos, at, next, at, next, end);
      EntriesConcat(text, own + Entries(m.value, at), MemberEntries(m.rest, false, next), pos, pos, end, next, end, end);
    }
  }

  /** What each extractor returns for the value it was pointed at. */
  lemma {:induction false} ExtractorsReadValue(text: string, at: nat, j: Json)
    requires WellFormed(j) && Stands(text, at, Print(j))
    ensures BracketBody(text, at, Curly) == if j.Object? then Some(ObjectBody(j.pad, j.members)) else None
    ensures BracketBody(text, at, Square) == if j.Array? then Some(ArrayBody(j.pad, j.items)) else None
    ensures StringAt(text, at) == if j.Text? then Some((Decode(j.units), at + |Print(j)|)) else None
  {
    match j
    case Scalar(s) =>
      StandsChar(text, at, s, 0);
    case Text(units) =>
      StringReadBack(text, at, units);
      QuotedParts(text, at, units);
    case Array(pad, items) =>
      EnclosedParts(text, at, '[', ArrayBody(pad, items), ']');
      ArrayBodyReadBack(text, at, pad, items);
    case Object(pad, members) =>
      EnclosedParts(text, at, '{', ObjectBody(pad, members), '}');
      ObjectBodyReadBack(text, at, pad, members);
  }

  /** The first keyed value of a document, wherever it is nested. */
  function FirstValue(j: Json, key: string): Option<Json> {
    match FirstEntry(Entries(j, 0), key)
    case None => None
    case Some(e) => Some(e.value)
  }

  /** Extraction by key reads exactly the first keyed value, for every kind of value. */
  lemma {:induction false} ExtractorsReadDocument(j: Json, trail: string, key: string)
    requires WellFormed(j) && IsBlank(trail)
    ensures var text, first := Document("", j, trail), FirstValue(j, key);
      && ObjectBodyFor(text, key) ==
        (if first.Some? && first.value.Object? then Some(ObjectBody(first.value.pad, first.value.members)) else None)
      && ArrayBodyFor(text, key) ==
        (if first.Some? && first.value.Array? then Some(ArrayBody(first.value.pad, first.value.items)) else None)
      && StringField(text, key) ==
        (if first.Some? && first.value.Text? then Some(Decode(first.value.units)) else None)
  {
    var text := Document("", j, trail);
    DocumentParts("", j, trail);
    FindsFirstInDocumentOrder("", j, trail, key);
    var entries := Entries(j, 0);
    ValueEntriesStand(text, 0, j);
    match FirstEntry(entries, key)
    case None =>
    case Some(e) =>
      var i := FirstEntryIsFirst(entries, key);
      ExtractorsReadValue(text, e.at, e.value);
  }

  /** The stage arrays of a plan: the objects listed under a key, printed, in order. */
  lemma {:induction false} StageObjects(j: Json, trail: string, key: string, pad: string, items: Items)
    requires WellFormed(j) && IsBlank(trail) && FirstValue(j, key) == Some(Array(pad, items)) && AllObjects(items)
    ensures ArrayBodyFor(Document("", j, trail), key) == Some(ArrayBody(pad, items))
    ensures TopObjects(ArrayBody(pad, items), 0, 0, Outside, None) == PrintedItems(items)
  {
    ExtractorsReadDocument(j, trail, key);
    FirstValueWellFormed(j, key);
    SplitsIntoObjects(pad, items);
    ArrayOfObjects(items);
  }

  lemma {:induction false} FirstValueWellFormed(j: Json, key: string)
    requires WellFormed(j) && FirstValue(j, key).Some?
    ensures WellFormed(FirstValue(j, key).value)
  {
    assert Stands(Print(j), 0, Print(j));
    ValueEntriesStand(Print(j), 0, j);
    var i := FirstEntryIsFirst(Entries(j, 0), key);
  }

  // ---------------------------------------------------------------- own members and nested ones

  predicate HasKey(j: Json, key: string) {
    match j
    case Scalar(_) => false
    case Text(_) => false
    case Array(_, items) => ItemsHaveKey(items, key)
    case Object(_, members) => MembersHaveKey(members, key)
  }

  predicate ItemsHaveKey(items: Items, key: string) {
    items.Item? && (HasKey(items.value, key) || ItemsHaveKey(items.rest, key))
  }

  predicate MembersHaveKey(m: Members, key: string) {
    m.Member? && (Decode(m.key) == key || HasKey(m.value, key) || MembersHaveKey(m.rest, key))
  }

  /** Where the object's own member with this key has its value. */
  function OwnValueAt(m: Members, first: bool, base: nat, key: string): Option<nat> {
    match m
    case NoMembers => None
    case Member(_, k, _, _, value, trail, rest) =>
      var at := ValueAt(m, first, base);
      if Decode(k) == key then Some(at) else OwnValueAt(rest, false, at + |Print(value)| + |trail|, key)
  }

  /** A value listed before the object's own member contains the key too. */
  predicate Shadowed(m: Members, key: string) {
    m.Member? && Decode(m.key) != key && (HasKey(m.value, key) || Shadowed(m.rest, key))
  }

  lemma {:induction false} FoundAcross(a: seq<Entry>, b: seq<Entry>, key: string)
    ensures FirstEntry(a + b, key) == if FirstEntry(a, key).Some? then FirstEntry(a, key) else FirstEntry(b, key)
  {
    if a == [] {
      assert a + b == b;
    } else {
      assert (a + b)[1..] == a[1..] + b;
      FoundAcross(a[1..], b, key);
    }
  }

  lemma {:induction false} HasKeyIffEntry(j: Json, base: nat, key: string)
    ensures HasKey(j, key) <==> FirstEntry(Entries(j, base), key).Some?
    decreases j, 1
  {
    match j
    case Scalar(_) =>
    case Text(_) =>
    case Array(_, items) => ItemsHaveKeyIffEntry(items, true, base + 1, key);
    case Object(_, members) => MembersHaveKeyIffEntry(members, true, base + 1, key);
  }

  lemma {:induction false} ItemFirstEntry(items: Items, first: bool, base: nat, key: string)
    requires items.Item?
    ensures var at := base + |Comma(first)| + |items.lead|;
      FirstEntry(ItemEntries(items, first, base), key) ==
        if FirstEntry(Entries(items.value, at), key).Some? then FirstEntry(Entries(items.value, at), key)
        else FirstEntry(ItemEntries(items.rest, false, at + |Print(items.value)| + |items.trail|), key)
  {
    var at := base + |Comma(first)| + |items.lead|;
    var rest := ItemEntries(items.rest, false, at + |Print(items.value)| + |items.trail|);
    assert ItemEntries(items, first, base) == Entries(items.value, at) + rest;
    FoundAcross(Entries(items.value, at), rest, key);
  }

  lemma {:induction false} ItemsHaveKeyIffEntry(items: Items, first: bool, base: nat, key: string)
    ensures ItemsHaveKey(items, key) <==> FirstEntry(ItemEntries(items, first, base), key).Some?
    decreases items, 0
  {
    if items.Item? {
      var at := base + |Comma(first)| + |items.lead|;
      ItemFirstEntry(items, first, base, key);
      HasKeyIffEntry(items.value, at, key);
      ItemsHaveKeyIffEntry(items.rest, false, at + |Print(items.value)| + |items.trail|, key);
    }
  }

  lemma {:induction false} MemberFirstEntry(m: Members, first: bool, base: nat, key: string)
    requires m.Member?
    ensures var at := ValueAt(m, first, base);
      FirstEntry(MemberEntries(m, first, base), key) ==
        if Decode(m.key) == key then Some(Entry(Decode(m.key), at, m.value))
        else if FirstEntry(Entries(m.value, at), key).Some? then FirstEntry(Entries(m.value, at), key)
        else FirstEntry(MemberEntries(m.rest, false, at + |Print(m.value)| + |m.trail|), key)
  {
    var at := ValueAt(m, first, base);
    var own := [Entry(Decode(m.key), at, m.value)];
    var rest := MemberEntries(m.rest, false, at + |Print(m.value)| + |m.trail|);
    assert MemberEntries(m, first, base) == own + Entries(m.value, at) + rest;
    FoundAcross(own + Entries(m.value, at), rest, key);
    FoundAcross(own, Entries(m.value, at), key);
  }

  lemma {:induction false} MembersHaveKeyIffEntry(m: Members, first: bool, base: nat, key: string)
    ensures MembersHaveKey(m, key) <==> FirstEntry(MemberEntries(m, first, base), key).Some?
    decreases m, 0
  {
    if m.Member? {
      var at := ValueAt(m, first, base);
      HasKeyIffEntry(m.value, at, key);
      MembersHaveKeyIffEntry(m.rest, false, at + |Print(m.value)| + |m.trail|, key);
      MemberFirstEntry(m, first, base, key);
    }
  }

  /** Either way the search stops at or behind `pos`. */
  predicate AtOrBehind(at: Option<nat>, pos: nat) {
    at.Some? ==> pos <= at.value
  }

  lemma {:induction false} OwnNotBefore(m: Members, first: bool, base: nat, key: string)
    ensures AtOrBehind(OwnValueAt(m, first, base, key), base)
    decreases m
  {
    if m.Member? {
      OwnNotBefore(m.rest, false, ValueAt(m, first, base) + |Print(m.value)| + |m.trail|, key);
    }
  }

  lemma {:induction false} OwnUnlessShadowed(text: string, pos: nat, m: Members, first: bool, key: string)
    requires WellFormedMembers(m) && Stands(text, pos, PrintMembers(m, first))
    ensures Found(MemberEntries(m, first, pos), key, None) == OwnValueAt(m, first, pos, key) <==> !Shadowed(m, key)
    decreases m
  {
    if m.Member? {
      var _, _, at, next := MemberParts(text, pos, m, first);
      OwnUnlessShadowed(text, next, m.rest, false, key);
      OwnNotBefore(m.rest, false, next, key);
      OwnStepAt(text, pos, m, first, key, at, next);
    }
  }

  lemma {:induction false} OwnStepAt(text: string, pos: nat, m: Members, first: bool, key: string, at: nat, next: nat)
    requires m.Member? && WellFormed(m.value) && Stands(text, at, Print(m.value))
    requires at == ValueAt(m, first, pos) && next == at + |Print(m.value)| + |m.trail|
    requires AtOrBehind(OwnValueAt(m.rest, false, next, key), next)
    requires Found(MemberEntries(m.rest, false, next), key, None) == OwnValueAt(m.rest, false, next, key)
      <==> !Shadowed(m.rest, key)
    ensures Found(MemberEntries(m, first, pos), key, None) == OwnValueAt(m, first, pos, key) <==> !Shadowed(m, key)
  {
    HasKeyIffEntry(m.value, at, key);
    MemberFirstEntry(m, first, pos, key);
    NestedBeforeNext(text, at, m.value, key);
    OwnStep(m, key, at, next, FirstEntry(MemberEntries(m, first, pos), key), FirstEntry(Entries(m.value, at), key),
            FirstEntry(MemberEntries(m.rest, false, next), key), OwnValueAt(m.rest, false, next, key),
            OwnValueAt(m, first, pos, key));
  }

  function Position(e: Option<Entry>): Option<nat> {
    match e
    case None => None
    case Some(entry) => Some(entry.at)
  }

  lemma OwnStep(m: Members, key: string, at: nat, next: nat, here: Option<Entry>, nested: Option<Entry>,
                rest: Option<Entry>, ownRest: Option<nat>, own: Option<nat>)
    requires m.Member? && at < next
    requires here == if Decode(m.key) == key then Some(Entry(key, at, m.value)) else if nested.Some? then nested else rest
    requires HasKey(m.value, key) <==> nested.Some?
    requires nested.Some? ==> nested.value.at < next
    requires AtOrBehind(ownRest, next)
    requires own == if Decode(m.key) == key then Some(at) else ownRest
    requires Position(rest) == ownRest <==> !Shadowed(m.rest, key)
    ensures Position(here) == own <==> !Shadowed(m, key)
  {
  }

  lemma {:induction false} NestedBeforeNext(text: string, at: nat, j: Json, key: string)
    requires WellFormed(j) && Stands(text, at, Print(j))
    ensures FirstEntry(Entries(j, at), key).Some? ==> FirstEntry(Entries(j, at), key).value.at < at + |Print(j)|
    ensures |Print(j)| > 0
  {
    ValueStart(text, at, j);
    ValueEntriesStand(text, at, j);
    var entries := Entries(j, at);
    match FirstEntry(entries, key)
    case None =>
    case Some(e) =>
      var i := FirstEntryIsFirst(entries, key);
      ValueStart(text, e.at, e.value);
  }

  /**
   A field lookup on an object reads the object's own member if and only if no value
   listed before it contains the same key.
   */
  lemma {:induction false} LookupReadsOwnMember(pad: string, m: Members, trail: string, key: string)
    requires WellFormed(Object(pad, m)) && IsBlank(trail)
    ensures KeyValue(Document("", Object(pad, m), trail), key, 0) == OwnValueAt(m, true, 1, key) <==> !Shadowed(m, key)
  {
    var j := Object(pad, m);
    var text := Document("", j, trail);
    DocumentParts("", j, trail);
    FindsFirstInDocumentOrder("", j, trail, key);
    EnclosedParts(text, 0, '{', ObjectBody(pad, m), '}');
    if m.Member? {
      OwnUnlessShadowed(text, 1, m, true, key);
    }
  }

  /**
   An object whose first value has a member of its own under the key: the lookup returns
   the string of that inner member, whatever the object's own one is.
   */
  lemma {:induction false} NestedFieldWins(first: seq<Unit>, key: seq<Unit>, inner: seq<Unit>, own: seq<Unit>)
    requires WellFormedUnits(first) && WellFormedUnits(key) && WellFormedUnits(inner) && WellFormedUnits(own)
    requires Decode(first) != Decode(key)
    ensures var nested := Object("", Member("", key, "", "", Text(inner), "", NoMembers));
      var entry := Object("", Member("", first, "", "", nested, "",
                              Member("", key, "", "", Text(own), "", NoMembers)));
      WellFormed(entry) && StringField(Print(entry), Decode(key)) == Some(Decode(inner))
  {
    var nestedMembers := Member("", key, "", "", Text(inner), "", NoMembers);
    var nested := Object("", nestedMembers);
    var members := Member("", first, "", "", nested, "", Member("", key, "", "", Text(own), "", NoMembers));
    var entry := Object("", members);
    assert WellFormedMembers(NoMembers);
    assert WellFormedMembers(members.rest) && WellFormed(nested);
    var at := ValueAt(members, true, 1);
    MemberFirstEntry(members, true, 1, Decode(key));
    MemberFirstEntry(nestedMembers, true, at + 1, Decode(key));
    ExtractorsReadDocument(entry, "", Decode(key));
    assert Document("", entry, "") == Print(entry);
  }
}

/** JSON documents as text, with arbitrary white space and escapes (RFC 8259 sections 2 to 7). */
module JsonText {
  import opened Common
  import opened Scanners

  /** One character of a string literal: as is, or after a backslash. */
  datatype Unit = Plain(c: char) | Escape(c: char)

  datatype Json =
    | Scalar(text: string)
    | Text(units: seq<Unit>)
    | Array(pad: string, items: Items)
    | Object(pad: string, members: Members)

  /** Array elements, each with the white space around it. */
  datatype Items = NoItems | Item(lead: string, value: Json, trail: string, rest: Items)

  /** Object members, with the white space around key, colon and value. */
  datatype Members =
    | NoMembers
    | Member(lead: string, key: seq<Unit>, beforeColon: string, afterColon: string,
             value: Json, trail: string, rest: Members)

  // ---------------------------------------------------------------- printing

  function UnitText(u: Unit): string {
    match u
    case Plain(c) => [c]
    case Escape(c) => ['\\', c]
  }

  function RawText(units: seq<Unit>): string {
    if units == [] then [] else UnitText(units[0]) + RawText(units[1..])
  }

  function Quoted(units: seq<Unit>): string {
    "\"" + RawText(units) + "\""
  }

  function Print(j: Json): string
    decreases j, 0
  {
    match j
    case Scalar(text) => text
    case Text(units) => Quoted(units)
    case Array(pad, items) => "[" + ArrayBody(pad, items) + "]"
    case Object(pad, members) => "{" + ObjectBody(pad, members) + "}"
  }

  function ArrayBody(pad: string, items: Items): string
    decreases items, 1
  {
    if items == NoItems then pad else PrintItems(items, true)
  }

  function ObjectBody(pad: string, members: Members): string
    decreases members, 1
  {
    if members == NoMembers then pad else PrintMembers(members, true)
  }

  function Comma(first: bool): string {
    if first then "" else ","
  }

  function PrintItems(items: Items, first: bool): string
    decreases items, 0
  {
    match items
    case NoItems => ""
    case Item(lead, value, trail, rest) =>
      Comma(first) + (lead + (Print(value) + (trail + PrintItems(rest, false))))
  }

  function PrintMembers(members: Members, first: bool): string
    decreases members, 0
  {
    match members
    case NoMembers => ""
    case Member(lead, key, beforeColon, afterColon, value, trail, rest) =>
      Comma(first) + (lead + (Quoted(key) + (beforeColon + (":" + (afterColon + (Print(value)
        + (trail + PrintMembers(rest, false))))))))
  }

  // ---------------------------------------------------------------- well-formedness

  /** The four characters of white space: space, horizontal tab, line feed, carriage return. */
  predicate IsWhiteSpace(c: char) {
    c as int == 0x20 || c as int == 0x09 || c as int == 0x0A || c as int == 0x0D
  }

  predicate IsBlank(s: string) {
    forall i :: 0 <= i < |s| ==> IsWhiteSpace(s[i])
  }

  predicate IsStructural(c: char) {
    c == '"' || c == '{' || c == '}' || c == '[' || c == ']' || c == ':' || c == ','
  }

  /** Numbers and literal names: no structural character, no white space. */
  predicate IsScalarText(s: string) {
    s != [] && forall i :: 0 <= i < |s| ==> !IsStructural(s[i]) && !IsWhiteSpace(s[i])
  }

  predicate WellFormedUnits(units: seq<Unit>) {
    forall i :: 0 <= i < |units| ==> units[i].Plain? ==> units[i].c != '"' && units[i].c != '\\'
  }

  predicate WellFormed(j: Json) {
    match j
    case Scalar(text) => IsScalarText(text)
    case Text(units) => WellFormedUnits(units)
    case Array(pad, items) => IsBlank(pad) && WellFormedItems(items)
    case Object(pad, members) => IsBlank(pad) && WellFormedMembers(members)
  }

  predicate WellFormedItems(items: Items) {
    match items
    case NoItems => true
    case Item(lead, value, trail, rest) =>
      IsBlank(lead) && WellFormed(value) && IsBlank(trail) && WellFormedItems(rest)
  }

  predicate WellFormedMembers(members: Members) {
    match members
    case NoMembers => true
    case Member(lead, key, beforeColon, afterColon, value, trail, rest) =>
      && IsBlank(lead) && WellFormedUnits(key) && IsBlank(beforeColon) && IsBlank(afterColon)
      && WellFormed(value) && IsBlank(trail) && WellFormedMembers(rest)
  }

  // ---------------------------------------------------------------- what the text means

  /**
   What a backslash and a character stand for: quotation mark, reverse solidus and
   solidus themselves; n, r and t their control characters; the parser leaves all
   others as they are written.
   */
  function EscapeMeaning(c: char): string {
    match c as int
    case 0x22 => [c]
    case 0x5C => [c]
    case 0x2F => [c]
    case 0x6E => [0x0A as char]
    case 0x72 => [0x0D as char]
    case 0x74 => [0x09 as char]
    case _ => [0x5C as char, c]
  }

  /** The string a literal stands for, with the parser's permissive escapes. */
  function Decode(units: seq<Unit>): string {
    if units == [] then []
    else (match units[0] case Plain(c) => [c] case Escape(c) => EscapeMeaning(c)) + Decode(units[1..])
  }

  /** A key with the position and the value that belong to it. */
  datatype Entry = Entry(key: string, at: nat, value: Json)

  /** All keyed values of a document printed at `base`, in document (preorder) order. */
  function Entries(j: Json, base: nat): seq<Entry> {
    match j
    case Scalar(_) => []
    case Text(_) => []
    case Array(_, items) => ItemEntries(items, true, base + 1)
    case Object(_, members) => MemberEntries(members, true, base + 1)
  }

  function ItemEntries(items: Items, first: bool, base: nat): seq<Entry> {
    match items
    case NoItems => []
    case Item(lead, value, trail, rest) =>
      var at := base + |Comma(first)| + |lead|;
      Entries(value, at) + ItemEntries(rest, false, at + |Print(value)| + |trail|)
  }

  /** Where the value of the first member starts when the members are printed at `base`. */
  function ValueAt(members: Members, first: bool, base: nat): nat
    requires members.Member?
  {
    base + |Comma(first)| + |members.lead| + |Quoted(members.key)| + |members.beforeColon| + 1 + |members.afterColon|
  }

  function MemberEntries(members: Members, first: bool, base: nat): seq<Entry> {
    match members
    case NoMembers => []
    case Member(_, key, _, _, value, trail, rest) =>
      var at := ValueAt(members, first, base);
      [Entry(Decode(key), at, value)] + Entries(value, at)
        + MemberEntries(rest, false, at + |Print(value)| + |trail|)
  }

  /** The first keyed value with this key. */
  function FirstEntry(entries: seq<Entry>, key: string): Option<Entry> {
    if entries == [] then None
    else if entries[0].key == key then Some(entries[0])
    else FirstEntry(entries[1..], key)
  }

  /** It is the first: nothing before it has the key, and nothing at all if there is none. */
  lemma {:induction false} FirstEntryIsFirst(entries: seq<Entry>, key: string) returns (i: nat)
    ensures i <= |entries| && forall k :: 0 <= k < i ==> entries[k].key != key
    ensures if i < |entries| then FirstEntry(entries, key) == Some(entries[i]) && entries[i].key == key
            else FirstEntry(entries, key) == None
  {
    if entries == [] || entries[0].key == key {
      i := 0;
    } else {
      var k := FirstEntryIsFirst(entries[1..], key);
      i := k + 1;
    }
  }

  /** The top-level objects of an array body: objects reached through arrays only, printed. */
  function ObjectTexts(j: Json): seq<string> {
    match j
    case Scalar(_) => []
    case Text(_) => []
    case Array(_, items) => ItemObjectTexts(items)
    case Object(_, _) => [Print(j)]
  }

  function ItemObjectTexts(items: Items): seq<string> {
    match items
    case NoItems => []
    case Item(_, value, _, rest) => ObjectTexts(value) + ItemObjectTexts(rest)
  }
}

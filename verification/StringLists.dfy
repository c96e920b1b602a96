/** The include and exclude lists of a plan: the strings at the front of an array. */
module StringLists {
  import opened Common
  import opened Scanners
  import opened JsonText
  import opened JsonScanning
  import opened PlanFields

  /** A token after trimming and slash repair; an empty one is dropped. */
  function Kept(token: string): seq<string> {
    if token == [] then [] else [token]
  }

  /** The reading of an array body from `pos`: commas are passed over, anything but a string ends it. */
  function StringsFrom(body: string, pos: nat, normalize: string -> string): seq<string>
    decreases |body| - pos
  {
    var p := SkipSpaces(body, pos);
    if p >= |body| then []
    else if body[p] == ',' then StringsFrom(body, p + 1, normalize)
    else match StringAt(body, p)
      case None => []
      case Some(literal) => Kept(normalize(literal.0)) + StringsFrom(body, literal.1, normalize)
  }

  function StringArrayFor(text: string, key: string, normalize: string -> string): seq<string> {
    match ArrayBodyFor(text, key)
    case None => []
    case Some(body) => StringsFrom(body, 0, normalize)
  }

  /** What has been read so far and what is read from here on make up the whole reading. */
  predicate ReadTo(body: string, pos: nat, out: seq<string>, normalize: string -> string) {
    out + StringsFrom(body, pos, normalize) == StringsFrom(body, 0, normalize)
  }

  lemma {:induction false} PastComma(body: string, pos: nat, here: nat, out: seq<string>, normalize: string -> string)
    requires ReadTo(body, pos, out, normalize) && SkipSpaces(body, pos) == here < |body| && body[here] == ','
    ensures ReadTo(body, here + 1, out, normalize)
  {
    assert StringsFrom(body, pos, normalize) == StringsFrom(body, here + 1, normalize);
  }

  lemma {:induction false} PastString(body: string, pos: nat, here: nat, out: seq<string>, literal: (string, nat),
                                      normalize: string -> string)
    requires ReadTo(body, pos, out, normalize) && SkipSpaces(body, pos) == here < |body| && body[here] != ','
    requires StringAt(body, here) == Some(literal)
    ensures ReadTo(body, literal.1, out + Kept(normalize(literal.0)), normalize)
  {
    var kept, rest := Kept(normalize(literal.0)), StringsFrom(body, literal.1, normalize);
    assert StringsFrom(body, pos, normalize) == kept + rest;
    ConcatAssociates(out, kept, rest);
  }

  lemma {:induction false} NothingLeft(body: string, pos: nat, here: nat, out: seq<string>, normalize: string -> string)
    requires ReadTo(body, pos, out, normalize) && SkipSpaces(body, pos) == here
    requires here >= |body| || (body[here] != ',' && StringAt(body, here) == None)
    ensures out == StringsFrom(body, 0, normalize)
  {
    assert StringsFrom(body, pos, normalize) == [];
  }

  method ExtractStringArrayForKey(text: string, key: string, normalize: string -> string) returns (out: seq<string>)
    ensures out == StringArrayFor(text, key, normalize)
  {
    out := [];
    var extracted := ExtractArrayBodyForKey(text, key);
    if extracted == None {
      return;
    }
    out := ReadStrings(extracted.value, normalize);
  }

  method ReadStrings(body: string, normalize: string -> string) returns (out: seq<string>)
    ensures out == StringsFrom(body, 0, normalize)
  {
    out := [];
    var pos := 0;
    while pos < |body|
      invariant ReadTo(body, pos, out, normalize)
      decreases |body| - pos
    {
      var here := SkipJsonWhitespace(body, pos);
      if here >= |body| {
        NothingLeft(body, pos, here, out, normalize);
        return;
      }
      if body[here] == ',' {
        PastComma(body, pos, here, out, normalize);
        pos := here + 1;
      } else {
        var parsed := ParseJsonStringAt(body, here);
        if parsed == None {
          NothingLeft(body, pos, here, out, normalize);
          return;
        }
        PastString(body, pos, here, out, parsed.value, normalize);
        out := out + Kept(normalize(parsed.value.0));
        pos := parsed.value.1;
      }
    }
    NothingLeft(body, pos, SkipSpaces(body, pos), out, normalize);
  }

  // ---------------------------------------------------------------- on printed arrays

  /** The decoded strings at the front of an array, up to the first element of another kind. */
  function LeadingStrings(items: Items, normalize: string -> string): seq<string> {
    match items
    case NoItems => []
    case Item(_, value, _, rest) =>
      if !value.Text? then []
      else
        var token, others := normalize(Decode(value.units)), LeadingStrings(rest, normalize);
        if token == "" then others else [token] + others
  }

  predicate AllStrings(items: Items) {
    items.Item? ==> items.value.Text? && AllStrings(items.rest)
  }

  function AllDecoded(items: Items): seq<string>
    requires AllStrings(items)
  {
    if items.NoItems? then [] else [Decode(items.value.units)] + AllDecoded(items.rest)
  }

  lemma SameAfterSpaces(body: string, p: nat, q: nat, normalize: string -> string)
    requires SkipSpaces(body, p) == SkipSpaces(body, q)
    ensures StringsFrom(body, p, normalize) == StringsFrom(body, q, normalize)
  {
  }

  /** Nothing but a string literal reads as a string. */
  lemma {:induction false} OnlyTextIsString(text: string, at: nat, j: Json)
    requires WellFormed(j) && Stands(text, at, Print(j)) && !j.Text?
    ensures at < |text| && !IsSpace(text[at]) && text[at] != ',' && StringAt(text, at) == None
  {
    ValueStart(text, at, j);
    StandsChar(text, at, Print(j), 0);
  }

  lemma ReadsLiteral(text: string, at: nat, literal: (string, nat), normalize: string -> string)
    requires at < |text| && !IsSpace(text[at]) && text[at] != ',' && StringAt(text, at) == Some(literal)
    ensures StringsFrom(text, at, normalize) == Kept(normalize(literal.0)) + StringsFrom(text, literal.1, normalize)
  {
  }

  lemma {:induction false} ReadsText(text: string, at: nat, units: seq<Unit>, trail: string, next: nat, normalize: string -> string)
    requires WellFormedUnits(units) && Stands(text, at, Quoted(units)) && IsBlank(trail)
    requires Stands(text, at + |Quoted(units)|, trail) && next == at + |Quoted(units)| + |trail|
    ensures StringsFrom(text, at, normalize) == Kept(normalize(Decode(units))) + StringsFrom(text, next, normalize)
  {
    var end := at + |Quoted(units)|;
    StringReadBack(text, at, units);
    QuotedParts(text, at, units);
    ReadsLiteral(text, at, (Decode(units), end), normalize);
    SkipsBlank(text, end, trail);
    SameAfterSpaces(text, end, next, normalize);
  }

  /** The element's text is reached past the comma and the white space before it. */
  lemma {:induction false} ReachesElement(text: string, pos: nat, lead: string, first: bool, normalize: string -> string)
    requires IsBlank(lead) && Stands(text, pos, Comma(first)) && Stands(text, pos + |Comma(first)|, lead)
    ensures StringsFrom(text, pos, normalize) == StringsFrom(text, pos + |Comma(first)| + |lead|, normalize)
  {
    SkipsBlank(text, pos + |Comma(first)|, lead);
    SameAfterSpaces(text, pos + |Comma(first)|, pos + |Comma(first)| + |lead|, normalize);
    if !first {
      StandsChar(text, pos, ",", 0);
    }
  }

  lemma {:induction false} ReadsValue(text: string, at: nat, j: Json, trail: string, next: nat, normalize: string -> string)
    requires WellFormed(j) && Stands(text, at, Print(j)) && IsBlank(trail)
    requires Stands(text, at + |Print(j)|, trail) && next == at + |Print(j)| + |trail|
    ensures StringsFrom(text, at, normalize) ==
      if j.Text? then Kept(normalize(Decode(j.units))) + StringsFrom(text, next, normalize) else []
  {
    if j.Text? {
      ReadsText(text, at, j.units, trail, next, normalize);
    } else {
      OnlyTextIsString(text, at, j);
    }
  }

  /** One element: its string and what is read behind it, or the end of the list. */
  lemma {:induction false} ReadsElement(text: string, pos: nat, lead: string, j: Json, trail: string, first: bool,
                     at: nat, next: nat, normalize: string -> string)
    requires IsBlank(lead) && WellFormed(j) && IsBlank(trail)
    requires Stands(text, pos, Comma(first)) && Stands(text, pos + |Comma(first)|, lead)
    requires at == pos + |Comma(first)| + |lead| && Stands(text, at, Print(j))
    requires Stands(text, at + |Print(j)|, trail) && next == at + |Print(j)| + |trail|
    ensures StringsFrom(text, pos, normalize) ==
      if j.Text? then Kept(normalize(Decode(j.units))) + StringsFrom(text, next, normalize) else []
  {
    ReachesElement(text, pos, lead, first, normalize);
    ReadsValue(text, at, j, trail, next, normalize);
  }

  lemma {:induction false} ReadsLeadingStrings(text: string, pos: nat, items: Items, first: bool, normalize: string -> string)
    requires WellFormedItems(items) && Stands(text, pos, PrintItems(items, first))
    requires pos + |PrintItems(items, first)| == |text|
    ensures StringsFrom(text, pos, normalize) == LeadingStrings(items, normalize)
    decreases items
  {
    if items.Item? {
      var at, next := ItemParts(text, pos, items, first);
      ReadsElement(text, pos, items.lead, items.value, items.trail, first, at, next, normalize);
      ReadsLeadingStrings(text, next, items.rest, false, normalize);
    }
  }

  /** On every document: the list is the normalised strings at the front of the first array under the key. */
  lemma {:induction false} ListReadsDocument(j: Json, trail: string, key: string, pad: string, items: Items, normalize: string -> string)
    requires WellFormed(j) && IsBlank(trail) && FirstValue(j, key) == Some(Array(pad, items))
    ensures StringArrayFor(Document("", j, trail), key, normalize) == LeadingStrings(items, normalize)
  {
    ExtractorsReadDocument(j, trail, key);
    FirstValueWellFormed(j, key);
    var body := ArrayBody(pad, items);
    if items == NoItems {
      SkipsBlank(body, 0, body);
    } else {
      ReadsLeadingStrings(body, 0, items, true, normalize);
    }
  }

  /** A list that holds only strings, none empty or in need of repair, is read back exactly. */
  lemma {:induction false} OnlyStringsReadBack(items: Items, normalize: string -> string)
    requires AllStrings(items)
    requires forall i :: 0 <= i < |AllDecoded(items)| ==>
      AllDecoded(items)[i] != [] && normalize(AllDecoded(items)[i]) == AllDecoded(items)[i]
    ensures LeadingStrings(items, normalize) == AllDecoded(items)
  {
    if items.Item? {
      assert AllDecoded(items)[0] == Decode(items.value.units);
      assert AllDecoded(items)[1..] == AllDecoded(items.rest);
      OnlyStringsReadBack(items.rest, normalize);
    }
  }
}

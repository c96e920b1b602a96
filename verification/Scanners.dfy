/** The hand-written JSON scanners of the plan parser, each loop against a recursive reading of the text. */
module Scanners {
  import opened Common

  predicate IsSpace(c: char) {
    c == ' ' || c == '\t' || c == '\n' || c == '\r'
  }

  // ---------------------------------------------------------------- reference readings

  /** What an escaped character stands for; unknown escapes keep their backslash. */
  function UnescapePair(c: char): string {
    if c == '\\' || c == '"' || c == '/' then [c]
    else if c == 'n' then "\n"
    else if c == 'r' then "\r"
    else if c == 't' then "\t"
    else ['\\', c]
  }

  function UnescapeFrom(raw: string, pos: nat): string
    decreases |raw| - pos
  {
    if pos >= |raw| then []
    else if raw[pos] != '\\' || pos + 1 == |raw| then [raw[pos]] + UnescapeFrom(raw, pos + 1)
    else UnescapePair(raw[pos + 1]) + UnescapeFrom(raw, pos + 2)
  }

  function Unescape(raw: string): string {
    UnescapeFrom(raw, 0)
  }

  /** The first position at or after `pos` that is not white space. */
  function SkipSpaces(text: string, pos: nat): (r: nat)
    ensures pos <= r && (pos <= |text| ==> r <= |text|)
    decreases |text| - pos
  {
    if pos < |text| && IsSpace(text[pos]) then SkipSpaces(text, pos + 1) else pos
  }

  /** The position of the quote that closes a string whose contents start at `pos`. */
  function ClosingQuote(text: string, pos: nat): (r: Option<nat>)
    ensures r.Some? ==> pos <= r.value < |text|
    decreases |text| - pos
  {
    if pos >= |text| then None
    else if text[pos] == '"' then Some(pos)
    else if text[pos] != '\\' then ClosingQuote(text, pos + 1)
    else if pos + 1 == |text| then None
    else ClosingQuote(text, pos + 2)
  }

  /** The decoded string literal at `pos`, and the position after it. */
  function StringAt(text: string, pos: nat): (r: Option<(string, nat)>)
    ensures r.Some? ==> pos < r.value.1 <= |text|
  {
    if pos >= |text| || text[pos] != '"' then None
    else match ClosingQuote(text, pos + 1)
      case None => None
      case Some(end) => Some((Unescape(text[pos + 1..end]), end + 1))
  }

  /** Where the value of the first key from `pos` on that decodes to `key` starts. */
  function KeyValue(text: string, key: string, pos: nat): Option<nat>
    decreases |text| - pos
  {
    if pos >= |text| then None
    else if text[pos] != '"' then KeyValue(text, key, pos + 1)
    else match StringAt(text, pos)
      case None => None
      case Some(literal) =>
        var after := SkipSpaces(text, literal.1);
        if literal.0 == key && after < |text| && text[after] == ':' then Some(SkipSpaces(text, after + 1))
        else KeyValue(text, key, after)
  }

  datatype Mode = Outside | InString | Escaped

  function NextMode(mode: Mode, c: char): Mode {
    match mode
    case Outside => if c == '"' then InString else Outside
    case InString => if c == '\\' then Escaped else if c == '"' then Outside else InString
    case Escaped => InString
  }

  /** The two bracket pairs the scanner is called with. */
  datatype Bracket = Curly | Square

  function Open(kind: Bracket): char {
    if kind.Curly? then '{' else '['
  }

  function Shut(kind: Bracket): char {
    if kind.Curly? then '}' else ']'
  }

  function NextDepth(kind: Bracket, depth: int, mode: Mode, c: char): int {
    if mode != Outside then depth
    else if c == Open(kind) then depth + 1
    else if c == Shut(kind) then depth - 1
    else depth
  }

  /** The position of the bracket that closes the last of `depth` open ones. */
  function Closing(text: string, pos: nat, kind: Bracket, depth: int, mode: Mode): (r: Option<nat>)
    ensures r.Some? ==> pos <= r.value < |text|
    decreases |text| - pos
  {
    if pos >= |text| then None
    else if mode == Outside && text[pos] == Shut(kind) && depth == 1 then Some(pos)
    else Closing(text, pos + 1, kind, NextDepth(kind, depth, mode, text[pos]), NextMode(mode, text[pos]))
  }

  function BracketBody(text: string, start: nat, kind: Bracket): Option<string> {
    if start >= |text| || text[start] != Open(kind) then None
    else match Closing(text, start + 1, kind, 1, Outside)
      case None => None
      case Some(end) => Some(text[start + 1..end])
  }

  predicate ObjectStarts(depth: int, mode: Mode, c: char) {
    mode == Outside && c == '{' && depth == 0
  }

  predicate ObjectEnds(depth: int, mode: Mode, c: char) {
    mode == Outside && c == '}' && depth == 1
  }

  /** The objects completed from `pos` on; `start` is where an open one began. */
  function TopObjects(text: string, pos: nat, depth: int, mode: Mode, start: Option<nat>): seq<string>
    requires start.Some? ==> start.value <= pos
    decreases |text| - pos
  {
    if pos >= |text| then []
    else
      var c := text[pos];
      var nextDepth, nextMode := NextDepth(Curly, depth, mode, c), NextMode(mode, c);
      if ObjectEnds(depth, mode, c) && start.Some? then
        [text[start.value..pos + 1]] + TopObjects(text, pos + 1, nextDepth, nextMode, None)
      else
        TopObjects(text, pos + 1, nextDepth, nextMode, if ObjectStarts(depth, mode, c) then Some(pos) else start)
  }

  // ---------------------------------------------------------------- the loops

  method UnescapeJsonString(raw: string) returns (out: string)
    ensures out == Unescape(raw)
  {
    out := [];
    var i := 0;
    while i < |raw|
      invariant out + UnescapeFrom(raw, i) == Unescape(raw)
    {
      var ch := raw[i];
      if ch != '\\' || i + 1 >= |raw| {
        ConcatAssociates(out, [ch], UnescapeFrom(raw, i + 1));
        out := out + [ch];
        i := i + 1;
      } else {
        var pair := UnescapePair(raw[i + 1]);
        ConcatAssociates(out, pair, UnescapeFrom(raw, i + 2));
        out := out + pair;
        i := i + 2;
      }
    }
  }

  method SkipJsonWhitespace(text: string, from: nat) returns (pos: nat)
    ensures pos == SkipSpaces(text, from)
  {
    pos := from;
    while pos < |text|
      invariant SkipSpaces(text, pos) == SkipSpaces(text, from)
    {
      if !IsSpace(text[pos]) {
        break;
      }
      pos := pos + 1;
    }
  }

  method ParseJsonStringAt(text: string, from: nat) returns (r: Option<(string, nat)>)
    ensures r == StringAt(text, from)
  {
    if from >= |text| || text[from] != '"' {
      return None;
    }
    var raw := [];
    var pos := from + 1;
    while pos < |text|
      invariant from + 1 <= pos <= |text| && raw == text[from + 1..pos]
      invariant ClosingQuote(text, pos) == ClosingQuote(text, from + 1)
    {
      var ch := text[pos];
      if ch == '\\' {
        if pos + 1 >= |text| {
          return None;
        }
        raw := raw + [ch] + [text[pos + 1]];
        pos := pos + 2;
      } else if ch == '"' {
        var decoded := UnescapeJsonString(raw);
        return Some((decoded, pos + 1));
      } else {
        raw := raw + [ch];
        pos := pos + 1;
      }
    }
    return None;
  }

  /** std::string::find for a quote; nothing before it can be a key. */
  method FindQuote(text: string, from: nat, ghost key: string) returns (pos: nat)
    requires from <= |text|
    ensures from <= pos <= |text| && (pos < |text| ==> text[pos] == '"')
    ensures KeyValue(text, key, from) == KeyValue(text, key, pos)
  {
    pos := from;
    while pos < |text| && text[pos] != '"'
      invariant from <= pos <= |text|
      invariant KeyValue(text, key, from) == KeyValue(text, key, pos)
    {
      pos := pos + 1;
    }
  }

  method FindJsonKeyValueStart(text: string, key: string, from: nat) returns (r: Option<nat>)
    ensures r == KeyValue(text, key, from)
  {
    var pos := from;
    while pos < |text|
      invariant pos <= |text| || pos == from
      invariant KeyValue(text, key, from) == KeyValue(text, key, pos)
      decreases |text| - pos
    {
      var quote := FindQuote(text, pos, key);
      if quote == |text| {
        return None;
      }
      var parsed := ParseJsonStringAt(text, quote);
      if parsed == None {
        return None;
      }
      var Some((found, next)) := parsed;
      pos := SkipJsonWhitespace(text, next);
      if found == key && pos < |text| && text[pos] == ':' {
        var at := SkipJsonWhitespace(text, pos + 1);
        return Some(at);
      }
    }
    return None;
  }

  function ModeOf(inString: bool, escaped: bool): Mode {
    if !inString then Outside else if escaped then Escaped else InString
  }

  method ExtractBracketBody(text: string, start: nat, kind: Bracket) returns (r: Option<string>)
    ensures r == BracketBody(text, start, kind)
  {
    if start >= |text| || text[start] != Open(kind) {
      return None;
    }
    var inString, escaped, depth := false, false, 0;
    for pos := start to |text|
      invariant escaped ==> inString
      invariant pos == start ==> depth == 0 && !inString
      invariant pos > start ==>
        Closing(text, pos, kind, depth, ModeOf(inString, escaped)) == Closing(text, start + 1, kind, 1, Outside)
    {
      var ch := text[pos];
      if inString {
        if escaped {
          escaped := false;
        } else if ch == '\\' {
          escaped := true;
        } else if ch == '"' {
          inString := false;
        }
      } else if ch == '"' {
        inString := true;
      } else if ch == Open(kind) {
        depth := depth + 1;
      } else if ch == Shut(kind) {
        depth := depth - 1;
        if depth == 0 {
          return Some(text[start + 1..pos]);
        }
      }
    }
    return None;
  }

  method SplitTopLevelObjects(body: string) returns (objects: seq<string>)
    ensures objects == TopObjects(body, 0, 0, Outside, None)
  {
    objects := [];
    var inString, escaped, depth := false, false, 0;
    var objectStart: Option<nat> := None;
    for pos := 0 to |body|
      invariant escaped ==> inString
      invariant objectStart.Some? ==> objectStart.value <= pos
      invariant objects + TopObjects(body, pos, depth, ModeOf(inString, escaped), objectStart)
        == TopObjects(body, 0, 0, Outside, None)
    {
      var ch := body[pos];
      if inString {
        if escaped {
          escaped := false;
        } else if ch == '\\' {
          escaped := true;
        } else if ch == '"' {
          inString := false;
        }
      } else if ch == '"' {
        inString := true;
      } else if ch == '{' {
        if depth == 0 {
          objectStart := Some(pos);
        }
        depth := depth + 1;
      } else if ch == '}' {
        depth := depth - 1;
        if depth == 0 && objectStart != None {
          objects := objects + [body[objectStart.value..pos + 1]];
          objectStart := None;
        }
      }
    }
  }
}

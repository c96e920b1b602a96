/** The command-line form of an admission: selectors as text, parsed before the queue lock is taken. */
module AdmissionArguments {
  import opened Common
  import opened Text
  import opened DecimalRange
  import opened QueueBatch
  import opened AgentQueue
  import opened PathSelectors
  import opened QueueMeaning

  // ---------------------------------------------------------------- numbers

  const INT64_LIMIT := 0x8000_0000_0000_0000

  predicate IsBlankChar(c: char) {
    c == ' ' || '\t' <= c <= '\r'
  }

  /** The digits a text starts with. */
  function LeadingDigits(s: string): (d: string)
    ensures AllDigits(d) && d <= s
  {
    if s == [] || !IsDigit(s[0]) then [] else [s[0]] + LeadingDigits(s[1..])
  }

  function WithoutBlanks(s: string): string {
    if s == [] || !IsBlankChar(s[0]) then s else WithoutBlanks(s[1..])
  }

  /** std::stoll: blanks, a sign, then as many digits as there are; what follows them is ignored. */
  function ToInteger(s: string): Option<int> {
    var t := WithoutBlanks(s);
    var signed := t != [] && (t[0] == '-' || t[0] == '+');
    var digits := LeadingDigits(if signed then t[1..] else t);
    var value: int := if signed && t[0] == '-' then -(Value(digits) as int) else Value(digits);
    if digits != [] && -INT64_LIMIT <= value < INT64_LIMIT then Some(value) else None
  }

  // ---------------------------------------------------------------- selectors

  function LastColon(s: string): Option<nat> {
    if s == [] then None
    else if s[|s| - 1] == ':' then Some(|s| - 1)
    else LastColon(s[..|s| - 1])
  }

  /** Where `c` first stands at `from` or behind it. */
  function FirstFrom(s: string, c: char, from: nat): (r: Option<nat>)
    ensures r.Some? ==> from <= r.value < |s| && s[r.value] == c
    decreases |s| - from
  {
    if from >= |s| then None else if s[from] == c then Some(from) else FirstFrom(s, c, from + 1)
  }

  lemma {:induction false} LastColonIn(s: string)
    ensures LastColon(s).Some? ==> LastColon(s).value < |s|
  {
    if s != [] && s[|s| - 1] != ':' {
      LastColonIn(s[..|s| - 1]);
    }
  }

  /** `path:start-end`, split at the last colon, when its numbers are read by `number`. */
  function SplitChunk(s: string, number: string -> Option<int>): Option<(string, Chunk)> {
    var found := LastColon(s);
    if found.None? || found.value == 0 || found.value + 1 >= |s| then None
    else
      var colon := found.value;
      match FirstFrom(s, '-', colon + 1)
      case None => None
      case Some(dash) =>
        if dash == colon + 1 || dash + 1 >= |s| then None
        else RangeOf(s[..colon], number(s[colon + 1..dash]), number(s[dash + 1..]))
  }

  function RangeOf(path: string, start: Option<int>, end: Option<int>): (r: Option<(string, Chunk)>)
    ensures r.Some? ==> r.value.0 == path && 0 < r.value.1.start <= r.value.1.end
  {
    if start.Some? && end.Some? && 0 < start.value <= end.value then Some((path, Chunk(start.value, end.value))) else None
  }

  function ParseChunk(s: string): Option<(string, Chunk)> {
    SplitChunk(s, ToInteger)
  }

  /** `path=value`, split at the first equals sign. */
  function ParseKeyValue(s: string): Option<(string, string)> {
    match FirstFrom(s, '=', 0)
    case None => None
    case Some(split) => if split == 0 || split + 1 >= |s| then None else Some((s[..split], s[split + 1..]))
  }

  // ---------------------------------------------------------------- written and read back

  function Decimal(n: nat): string {
    if n < 10 then [(n + '0' as int) as char] else Decimal(n / 10) + [(n % 10 + '0' as int) as char]
  }

  lemma {:induction false} DecimalValue(n: nat)
    ensures AllDigits(Decimal(n)) && Decimal(n) != [] && Value(Decimal(n)) == n
  {
    if n < 10 {
      assert Decimal(n)[1..] == [];
    } else {
      DecimalValue(n / 10);
      var last := [(n % 10 + '0' as int) as char];
      ValueAppend(Decimal(n / 10), last);
      assert Power10(1) == 10 && last[1..] == [] && Value(last) == n % 10;
    }
  }

  lemma {:induction false} AllLeading(s: string)
    requires AllDigits(s)
    ensures LeadingDigits(s) == s
  {
    if s != [] {
      AllLeading(s[1..]);
    }
  }

  lemma {:induction false} IntegerReadBack(n: nat)
    requires n < INT64_LIMIT
    ensures ToInteger(Decimal(n)) == Some(n)
  {
    DecimalValue(n);
    AllLeading(Decimal(n));
    assert IsDigit(Decimal(n)[0]);
  }

  lemma {:induction false} ColonBeforeRest(path: string, rest: string)
    requires forall i :: 0 <= i < |rest| ==> rest[i] != ':'
    ensures LastColon(path + ":" + rest) == Some(|path|)
    decreases |rest|
  {
    var s := path + ":" + rest;
    if rest != [] {
      var front := rest[..|rest| - 1];
      assert s[..|s| - 1] == path + ":" + front;
      ColonBeforeRest(path, front);
    }
  }

  lemma {:induction false} DashBehind(s: string, from: nat, dash: nat)
    requires from <= dash < |s| && s[dash] == '-' && forall i :: from <= i < dash ==> s[i] != '-'
    ensures FirstFrom(s, '-', from) == Some(dash)
    decreases dash - from
  {
    if from < dash {
      DashBehind(s, from + 1, dash);
    }
  }

  /** Where the text of a chunk selector is cut. */
  lemma {:induction false} ChunkParts(path: string, a: string, b: string)
    requires AllDigits(a) && AllDigits(b)
    ensures var s := path + ":" + (a + "-" + b);
      && LastColon(s) == Some(|path|) && FirstFrom(s, '-', |path| + 1) == Some(|path| + 1 + |a|)
      && |s| == |path| + |a| + |b| + 2
      && s[..|path|] == path && s[|path| + 1..|path| + 1 + |a|] == a && s[|path| + 1 + |a| + 1..] == b
  {
    var rest := a + "-" + b;
    var s := path + ":" + rest;
    forall i | 0 <= i < |rest| ensures rest[i] != ':' {
      assert IsDigit(rest[i]) || rest[i] == '-';
    }
    ColonBeforeRest(path, rest);
    var dash := |path| + 1 + |a|;
    assert forall i :: |path| + 1 <= i < dash ==> s[i] == a[i - |path| - 1];
    DashBehind(s, |path| + 1, dash);
  }

  lemma {:induction false} SplitReadsBack(path: string, a: string, b: string, number: string -> Option<int>)
    requires AllDigits(a) && AllDigits(b) && path != [] && a != [] && b != []
    ensures SplitChunk(path + ":" + (a + "-" + b), number) == RangeOf(path, number(a), number(b))
  {
    ChunkParts(path, a, b);
  }

  /** A chunk selector written for any path, even one with colons and dashes, reads back as that path and range. */
  lemma {:induction false} ChunkReadBack(path: string, start: nat, end: nat)
    requires path != [] && 0 < start <= end < INT64_LIMIT
    ensures ParseChunk(path + ":" + (Decimal(start) + "-" + Decimal(end))) == Some((path, Chunk(start, end)))
  {
    DecimalValue(start);
    DecimalValue(end);
    IntegerReadBack(start);
    IntegerReadBack(end);
    SplitReadsBack(path, Decimal(start), Decimal(end), ToInteger);
  }

  predicate Without(s: string, c: char) {
    forall i :: 0 <= i < |s| ==> s[i] != c
  }

  /** `s` is written as a path and two numbers' texts, neither with a colon and the first without a dash. */
  ghost predicate WrittenChunk(s: string, path: string, a: string, b: string) {
    && s == path + ":" + (a + "-" + b) && path != [] && a != [] && b != []
    && Without(a, ':') && Without(b, ':') && Without(a, '-')
  }

  ghost predicate ChunkText(s: string, path: string, chunk: Chunk) {
    exists a, b :: WrittenChunk(s, path, a, b) && ToInteger(a) == Some(chunk.start) && ToInteger(b) == Some(chunk.end)
  }

  lemma {:induction false} LastColonIsLast(s: string)
    ensures LastColon(s) == None <==> Without(s, ':')
    ensures LastColon(s).Some? ==> LastColon(s).value < |s| && s[LastColon(s).value] == ':'
    ensures LastColon(s).Some? ==> Without(s[LastColon(s).value + 1..], ':')
  {
    if s != [] && s[|s| - 1] != ':' {
      LastColonIsLast(s[..|s| - 1]);
      if LastColon(s).Some? {
        var colon := LastColon(s).value;
        forall i | colon < i < |s| ensures s[i] != ':' {
          assert i < |s| - 1 ==> s[..|s| - 1][colon + 1..][i - colon - 1] == s[i];
        }
      } else {
        assert forall i :: 0 <= i < |s| - 1 ==> s[..|s| - 1][i] == s[i];
      }
    }
  }

  lemma {:induction false} FirstIsFirst(s: string, c: char, from: nat)
    requires from <= |s|
    ensures FirstFrom(s, c, from) == None <==> forall i :: from <= i < |s| ==> s[i] != c
    ensures FirstFrom(s, c, from).Some? ==> forall i :: from <= i < FirstFrom(s, c, from).value ==> s[i] != c
    decreases |s| - from
  {
    if from < |s| && s[from] != c {
      FirstIsFirst(s, c, from + 1);
    }
  }

  lemma {:induction false} SplitWritten(s: string, path: string, a: string, b: string, number: string -> Option<int>)
    requires WrittenChunk(s, path, a, b)
    ensures SplitChunk(s, number) == RangeOf(path, number(a), number(b))
  {
    var rest := a + "-" + b;
    forall i | 0 <= i < |rest| ensures rest[i] != ':' {
      assert rest[i] == if i < |a| then a[i] else if i == |a| then '-' else b[i - |a| - 1];
    }
    ColonBeforeRest(path, rest);
    var dash := |path| + 1 + |a|;
    assert forall i :: |path| + 1 <= i < dash ==> s[i] == a[i - |path| - 1];
    DashBehind(s, |path| + 1, dash);
    assert s[..|path|] == path && s[|path| + 1..dash] == a && s[dash + 1..] == b;
  }

  /** Cutting at the last colon and the first dash behind it gives parts without these. */
  lemma {:induction false} CutParts(s: string, colon: nat, dash: nat)
    requires 0 < colon && colon + 1 < dash && dash + 1 < |s| && s[colon] == ':' && s[dash] == '-'
    requires Without(s[colon + 1..], ':') && forall i :: colon < i < dash ==> s[i] != '-'
    ensures WrittenChunk(s, s[..colon], s[colon + 1..dash], s[dash + 1..])
  {
    var a, b, rest := s[colon + 1..dash], s[dash + 1..], s[colon + 1..];
    assert forall i :: 0 <= i < |a| ==> a[i] == rest[i] == s[colon + 1 + i];
    assert forall i :: 0 <= i < |b| ==> b[i] == rest[dash - colon + i];
    assert s == s[..colon] + ":" + (a + "-" + b);
  }

  lemma {:induction false} CutIsWritten(s: string, colon: nat, dash: nat)
    requires LastColon(s) == Some(colon) && 0 < colon && FirstFrom(s, '-', colon + 1) == Some(dash)
    requires colon + 1 < dash && dash + 1 < |s|
    ensures WrittenChunk(s, s[..colon], s[colon + 1..dash], s[dash + 1..])
  {
    LastColonIsLast(s);
    FirstIsFirst(s, '-', colon + 1);
    CutParts(s, colon, dash);
  }

  lemma {:induction false} WhereSplit(s: string, number: string -> Option<int>) returns (colon: nat, dash: nat)
    requires SplitChunk(s, number).Some?
    ensures LastColon(s) == Some(colon) && 0 < colon && FirstFrom(s, '-', colon + 1) == Some(dash)
    ensures colon + 1 < dash && dash + 1 < |s|
    ensures SplitChunk(s, number) == RangeOf(s[..colon], number(s[colon + 1..dash]), number(s[dash + 1..]))
  {
    colon := LastColon(s).value;
    dash := FirstFrom(s, '-', colon + 1).value;
  }

  lemma {:induction false} SplitIsWritten(s: string, number: string -> Option<int>) returns (a: string, b: string)
    requires SplitChunk(s, number).Some?
    ensures WrittenChunk(s, SplitChunk(s, number).value.0, a, b)
    ensures number(a) == Some(SplitChunk(s, number).value.1.start) && number(b) == Some(SplitChunk(s, number).value.1.end)
  {
    var colon, dash := WhereSplit(s, number);
    a, b := s[colon + 1..dash], s[dash + 1..];
    CutIsWritten(s, colon, dash);
  }

  /** A selector parses to a path and a range exactly when it is written that way and the range is one. */
  lemma {:induction false} ChunkParsesIff(s: string, path: string, chunk: Chunk)
    ensures ParseChunk(s) == Some((path, chunk)) <==> ChunkText(s, path, chunk) && 0 < chunk.start <= chunk.end
  {
    if ParseChunk(s) == Some((path, chunk)) {
      var a, b := SplitIsWritten(s, ToInteger);
    }
    if ChunkText(s, path, chunk) {
      var a, b :| WrittenChunk(s, path, a, b) && ToInteger(a) == Some(chunk.start) && ToInteger(b) == Some(chunk.end);
      SplitWritten(s, path, a, b, ToInteger);
    }
  }

  /** The same for `path=value`. */
  lemma {:induction false} KeyValueParsesIff(s: string, path: string, value: string)
    ensures ParseKeyValue(s) == Some((path, value)) <==>
      s == path + "=" + value && path != [] && value != [] && Without(path, '=')
  {
    FirstIsFirst(s, '=', 0);
    if ParseKeyValue(s) == Some((path, value)) {
      var split := FirstFrom(s, '=', 0).value;
      assert s == s[..split] + "=" + s[split + 1..];
    } else if s == path + "=" + value && path != [] && value != [] && Without(path, '=') {
      PostconditionReadBack(path, value);
    }
  }

  lemma {:induction false} KeyEnds(s: string, from: nat, split: nat)
    requires from <= split < |s| && s[split] == '=' && forall i :: from <= i < split ==> s[i] != '='
    ensures FirstFrom(s, '=', from) == Some(split)
    decreases split - from
  {
    if from < split {
      KeyEnds(s, from + 1, split);
    }
  }

  /** A postcondition reads back when its path has no equals sign; the value may have some. */
  lemma {:induction false} PostconditionReadBack(path: string, value: string)
    requires path != [] && value != [] && forall i :: 0 <= i < |path| ==> path[i] != '='
    ensures ParseKeyValue(path + "=" + value) == Some((path, value))
  {
    var s := path + "=" + value;
    KeyEnds(s, 0, |path|);
    assert s[..|path|] == path && s[|path| + 1..] == value;
  }

  // ---------------------------------------------------------------- the arguments

  datatype Arguments = Arguments(id: string, workItem: string, agent: string, files: seq<string>,
                                 chunks: seq<string>, postconditions: seq<string>, validation: seq<string>)

  /** Resolving a path selector against the repository. */
  type Resolver = string -> Option<string>

  /** The selectors of the whole list, each resolved. */
  ghost predicate AllResolve(resolve: Resolver, inputs: seq<string>, paths: seq<string>) {
    |paths| == |inputs| && forall i :: 0 <= i < |inputs| ==> resolve(inputs[i]) == Some(paths[i]) && paths[i] != []
  }

  ghost predicate AcceptedPaths(resolve: Resolver, inputs: seq<string>, paths: seq<string>) {
    AllResolve(resolve, inputs, paths) && !Duplicate(paths) && !ExposedOverlap(paths)
  }

  method NormalizeFiles(resolve: Resolver, inputs: seq<string>) returns (files: Option<seq<string>>, ghost paths: seq<string>)
    requires forall s :: resolve(s) != Some([])
    ensures files.Some? <==> exists other :: AcceptedPaths(resolve, inputs, other)
    ensures files.Some? ==>
      StrictlySorted(files.value) && AcceptedPaths(resolve, inputs, paths) && multiset(files.value) == multiset(paths)
  {
    var resolved := [];
    paths := [];
    for i := 0 to |inputs|
      invariant AllResolve(resolve, inputs[..i], resolved)
    {
      var one := resolve(inputs[i]);
      if one.None? {
        return None, paths;
      }
      resolved := resolved + [one.value];
    }
    paths := resolved;
    assert AllResolve(resolve, inputs, paths);
    forall other | AllResolve(resolve, inputs, other) ensures other == paths {
    }
    files := SortSelectors(resolved);
    assert files.Some? ==> AcceptedPaths(resolve, inputs, paths);
  }

  /** A selector names a declared file. */
  predicate Declares(resolve: Resolver, files: seq<string>, input: string) {
    resolve(input).Some? && resolve(input).value in files
  }

  predicate ChunkOk(resolve: Resolver, files: seq<string>, raw: string) {
    ParseChunk(raw).Some? && Declares(resolve, files, ParseChunk(raw).value.0)
  }

  predicate PostconditionOk(resolve: Resolver, files: seq<string>, raw: string) {
    ParseKeyValue(raw).Some? && Declares(resolve, files, ParseKeyValue(raw).value.0)
  }

  /** What a chunk selector turns into. */
  predicate ChunkFrom(resolve: Resolver, files: seq<string>, raw: string, chunk: (string, Chunk)) {
    && ChunkOk(resolve, files, raw) && resolve(ParseChunk(raw).value.0) == Some(chunk.0)
    && chunk.1 == ParseChunk(raw).value.1 && chunk.0 in files && 0 < chunk.1.start <= chunk.1.end
  }

  predicate PostconditionFrom(resolve: Resolver, files: seq<string>, raw: string, post: (string, string)) {
    && PostconditionOk(resolve, files, raw) && resolve(ParseKeyValue(raw).value.0) == Some(post.0)
    && post.1 == ParseKeyValue(raw).value.1 && post.0 in files && post.1 != []
  }

  method ParseOneChunk(resolve: Resolver, files: seq<string>, raw: string) returns (chunk: Option<(string, Chunk)>)
    ensures chunk.Some? <==> ChunkOk(resolve, files, raw)
    ensures chunk.Some? ==> ChunkFrom(resolve, files, raw, chunk.value)
  {
    var parsed := ParseChunk(raw);
    if parsed.None? || !Declares(resolve, files, parsed.value.0) {
      return None;
    }
    return Some((resolve(parsed.value.0).value, parsed.value.1));
  }

  method ParseChunks(resolve: Resolver, files: seq<string>, raws: seq<string>) returns (r: Option<seq<(string, Chunk)>>)
    ensures r.Some? <==> forall i :: 0 <= i < |raws| ==> ChunkOk(resolve, files, raws[i])
    ensures r.Some? ==> |r.value| == |raws|
    ensures r.Some? ==> forall i :: 0 <= i < |raws| ==> ChunkFrom(resolve, files, raws[i], r.value[i])
  {
    var chunks: seq<(string, Chunk)> := [];
    for i := 0 to |raws|
      invariant |chunks| == i && forall k :: 0 <= k < i ==> ChunkFrom(resolve, files, raws[k], chunks[k])
    {
      var chunk := ParseOneChunk(resolve, files, raws[i]);
      if chunk.None? {
        return None;
      }
      chunks := chunks + [chunk.value];
    }
    return Some(chunks);
  }

  method ParseOnePostcondition(resolve: Resolver, files: seq<string>, raw: string) returns (post: Option<(string, string)>)
    ensures post.Some? <==> PostconditionOk(resolve, files, raw)
    ensures post.Some? ==> PostconditionFrom(resolve, files, raw, post.value)
  {
    var parsed := ParseKeyValue(raw);
    if parsed.None? || !Declares(resolve, files, parsed.value.0) {
      return None;
    }
    return Some((resolve(parsed.value.0).value, parsed.value.1));
  }

  method ParsePostconditions(resolve: Resolver, files: seq<string>, raws: seq<string>)
      returns (r: Option<seq<(string, string)>>)
    ensures r.Some? <==> forall i :: 0 <= i < |raws| ==> PostconditionOk(resolve, files, raws[i])
    ensures r.Some? ==> |r.value| == |raws|
    ensures r.Some? ==> forall i :: 0 <= i < |raws| ==> PostconditionFrom(resolve, files, raws[i], r.value[i])
  {
    var posts: seq<(string, string)> := [];
    for i := 0 to |raws|
      invariant |posts| == i && forall k :: 0 <= k < i ==> PostconditionFrom(resolve, files, raws[k], posts[k])
    {
      var post := ParseOnePostcondition(resolve, files, raws[i]);
      if post.None? {
        return None;
      }
      posts := posts + [post.value];
    }
    return Some(posts);
  }

  function Trimmed(s: string): string {
    WithoutBlanks(TrimmedEnd(s))
  }

  function TrimmedEnd(s: string): string {
    if s == [] || !IsBlankChar(s[|s| - 1]) then s else TrimmedEnd(s[..|s| - 1])
  }

  predicate Blank(s: string) {
    forall i :: 0 <= i < |s| ==> IsBlankChar(s[i])
  }

  lemma {:induction false} BlankFront(s: string) returns (lead: string)
    ensures Blank(lead) && s == lead + WithoutBlanks(s)
    ensures WithoutBlanks(s) != [] ==> !IsBlankChar(WithoutBlanks(s)[0])
  {
    lead := [];
    if s != [] && IsBlankChar(s[0]) {
      var rest := BlankFront(s[1..]);
      lead := [s[0]] + rest;
    }
  }

  lemma {:induction false} BlankEnd(s: string) returns (trail: string)
    ensures Blank(trail) && s == TrimmedEnd(s) + trail
    ensures TrimmedEnd(s) != [] ==> !IsBlankChar(TrimmedEnd(s)[|TrimmedEnd(s)| - 1])
  {
    trail := [];
    if s != [] && IsBlankChar(s[|s| - 1]) {
      var rest := BlankEnd(s[..|s| - 1]);
      trail := rest + [s[|s| - 1]];
    }
  }

  /** Trimming takes blanks away on both sides and nothing else, and leaves none there. */
  lemma {:induction false} TrimmedMeans(s: string) returns (lead: string, trail: string)
    ensures Blank(lead) && Blank(trail) && s == lead + Trimmed(s) + trail
    ensures Trimmed(s) != [] ==> !IsBlankChar(Trimmed(s)[0]) && !IsBlankChar(Trimmed(s)[|Trimmed(s)| - 1])
  {
    trail := BlankEnd(s);
    lead := BlankFront(TrimmedEnd(s));
    var kept := Trimmed(s);
    assert kept != [] ==> kept[|kept| - 1] == TrimmedEnd(s)[|TrimmedEnd(s)| - 1];
  }

  /** The request carries what the arguments say. */
  ghost predicate Carries(resolve: Resolver, a: Arguments, generatedId: string, r: Request)
    requires r.Admit?
  {
    && r.id == (if a.id == [] then generatedId else a.id)
    && r.workItem == Trimmed(a.workItem) && r.agent == Trimmed(a.agent) && r.validation == a.validation
    && (exists paths :: AcceptedPaths(resolve, a.files, paths) && multiset(r.files) == multiset(paths))
    && |r.chunks| == |a.chunks| && |r.postconditions| == |a.postconditions|
    && (forall i :: 0 <= i < |a.chunks| ==> ChunkFrom(resolve, r.files, a.chunks[i], r.chunks[i]))
    && forall i :: 0 <= i < |a.postconditions| ==>
      PostconditionFrom(resolve, r.files, a.postconditions[i], r.postconditions[i])
  }

  /** The selectors of these resolved files pass. */
  ghost predicate SelectorsPass(resolve: Resolver, a: Arguments, paths: seq<string>) {
    && AcceptedPaths(resolve, a.files, paths)
    && (forall i :: 0 <= i < |a.chunks| ==> ChunkOk(resolve, paths, a.chunks[i]))
    && forall i :: 0 <= i < |a.postconditions| ==> PostconditionOk(resolve, paths, a.postconditions[i])
  }

  /** The arguments pass the checks made before the lock. */
  ghost predicate Acceptable(resolve: Resolver, a: Arguments, generatedId: string) {
    && Trimmed(a.workItem) != [] && Trimmed(a.agent) != [] && IsSafeId(if a.id == [] then generatedId else a.id)
    && a.files != [] && exists paths :: SelectorsPass(resolve, a, paths)
  }

  lemma OnlyOneResolution(resolve: Resolver, inputs: seq<string>, p: seq<string>, q: seq<string>)
    requires AllResolve(resolve, inputs, p) && AllResolve(resolve, inputs, q)
    ensures p == q
  {
  }

  /** Refuses exactly what fails a check; what passes is a valid request for the queue. */
  method ParseAdmission(a: Arguments, generatedId: string, resolve: Resolver) returns (r: Option<Request>)
    requires forall s :: resolve(s) != Some([])
    ensures r.Some? <==> Acceptable(resolve, a, generatedId)
    ensures r.Some? ==> r.value.Admit? && ValidRequest(r.value) && StrictlySorted(r.value.files)
    ensures r.Some? ==> Carries(resolve, a, generatedId, r.value)
  {
    var workItem, agent := Trimmed(a.workItem), Trimmed(a.agent);
    if workItem == [] || agent == [] {
      return None;
    }
    var id := if a.id == [] then generatedId else a.id;
    if !IsSafeId(id) {
      return None;
    }
    var files;
    ghost var paths;
    files, paths := NormalizeFiles(resolve, a.files);
    if files.None? || files.value == [] {
      assert files.Some? ==> multiset(files.value) == multiset(paths) && |multiset(paths)| == |paths|;
      return None;
    }
    SameSelectors(files.value, paths);
    forall other | SelectorsPass(resolve, a, other) ensures other == paths {
      OnlyOneResolution(resolve, a.files, other, paths);
    }
    var chunks := ParseChunks(resolve, files.value, a.chunks);
    if chunks.None? {
      assert forall i :: 0 <= i < |a.chunks| ==>
        (ChunkOk(resolve, paths, a.chunks[i]) <==> ChunkOk(resolve, files.value, a.chunks[i]));
      return None;
    }
    var posts := ParsePostconditions(resolve, files.value, a.postconditions);
    if posts.None? {
      assert forall i :: 0 <= i < |a.postconditions| ==>
        (PostconditionOk(resolve, paths, a.postconditions[i]) <==> PostconditionOk(resolve, files.value, a.postconditions[i]));
      return None;
    }
    assert SelectorsPass(resolve, a, paths);
    return Some(Admit(id, workItem, agent, files.value, chunks.value, posts.value, a.validation));
  }

  /** Some chunk argument claims the line of the file it resolves to. */
  predicate ArgumentClaims(resolve: Resolver, raws: seq<string>, path: string, line: int) {
    exists i :: 0 <= i < |raws| && ParseChunk(raws[i]).Some? && resolve(ParseChunk(raws[i]).value.0) == Some(path)
      && ParseChunk(raws[i]).value.1.start <= line <= ParseChunk(raws[i]).value.1.end
  }

  /** A postcondition argument names the file. */
  predicate ArgumentNames(resolve: Resolver, raw: string, path: string) {
    ParseKeyValue(raw).Some? && resolve(ParseKeyValue(raw).value.0) == Some(path)
  }

  /** The last postcondition argument for the file asks for this value. */
  predicate ArgumentAsks(resolve: Resolver, raws: seq<string>, path: string, value: string) {
    exists i :: 0 <= i < |raws| && ArgumentNames(resolve, raws[i], path) && ParseKeyValue(raws[i]).value.1 == value
      && forall j :: i < j < |raws| ==> !ArgumentNames(resolve, raws[j], path)
  }

  /** The item says what the arguments say. */
  ghost predicate ItemFromArguments(resolve: Resolver, a: Arguments, generatedId: string, item: Item, head: string,
                                    stamp: string)
  {
    && item.id == (if a.id == [] then generatedId else a.id) && item.baseHead == head && item.admittedAt == stamp
    && item.workItem == Trimmed(a.workItem) && item.agent == Trimmed(a.agent) && item.validation == a.validation
    && (exists paths :: AcceptedPaths(resolve, a.files, paths) && multiset(item.files) == multiset(paths))
    && (forall path, line :: HasLine(ChunksFor(item, path), line) <==> ArgumentClaims(resolve, a.chunks, path, line))
    && (forall path :: path in item.postconditions ==>
      ArgumentAsks(resolve, a.postconditions, path, item.postconditions[path]))
    && forall path :: path in item.postconditions <==>
      exists i :: 0 <= i < |a.postconditions| && ArgumentNames(resolve, a.postconditions[i], path)
  }

  lemma CarriedClaims(resolve: Resolver, a: Arguments, generatedId: string, r: Request, path: string, line: int)
    requires r.Admit? && Carries(resolve, a, generatedId, r)
    ensures ClaimsLine(r.chunks, path, line) <==> ArgumentClaims(resolve, a.chunks, path, line)
  {
    if i :| 0 <= i < |r.chunks| && r.chunks[i].0 == path && r.chunks[i].1.start <= line <= r.chunks[i].1.end {
      assert ChunkFrom(resolve, r.files, a.chunks[i], r.chunks[i]);
    }
    if ArgumentClaims(resolve, a.chunks, path, line) {
      var i :| 0 <= i < |a.chunks| && ParseChunk(a.chunks[i]).Some?
        && resolve(ParseChunk(a.chunks[i]).value.0) == Some(path)
        && ParseChunk(a.chunks[i]).value.1.start <= line <= ParseChunk(a.chunks[i]).value.1.end;
      assert ChunkFrom(resolve, r.files, a.chunks[i], r.chunks[i]);
    }
  }

  lemma CarriedAsks(resolve: Resolver, a: Arguments, generatedId: string, r: Request, path: string)
    requires r.Admit? && Carries(resolve, a, generatedId, r)
    ensures Names(r.postconditions, path) <==>
      exists i :: 0 <= i < |a.postconditions| && ArgumentNames(resolve, a.postconditions[i], path)
    ensures forall value :: LastValue(r.postconditions, path, value) ==>
      ArgumentAsks(resolve, a.postconditions, path, value)
  {
    forall i | 0 <= i < |a.postconditions|
      ensures r.postconditions[i].0 == path <==> ArgumentNames(resolve, a.postconditions[i], path)
      ensures ParseKeyValue(a.postconditions[i]).Some? && ParseKeyValue(a.postconditions[i]).value.1 == r.postconditions[i].1
    {
      assert PostconditionFrom(resolve, r.files, a.postconditions[i], r.postconditions[i]);
    }
  }

  lemma CarriedItem(resolve: Resolver, a: Arguments, generatedId: string, r: Request, item: Item, head: string, stamp: string)
    requires r.Admit? && Carries(resolve, a, generatedId, r) && ItemSays(item, r, head, stamp)
    ensures ItemFromArguments(resolve, a, generatedId, item, head, stamp)
  {
    forall path, line
      ensures HasLine(ChunksFor(item, path), line) <==> ArgumentClaims(resolve, a.chunks, path, line)
    {
      ClaimsAsListed(item, r, head, stamp, path, line);
      CarriedClaims(resolve, a, generatedId, r, path, line);
    }
    forall path
      ensures path in item.postconditions ==> ArgumentAsks(resolve, a.postconditions, path, item.postconditions[path])
      ensures path in item.postconditions <==>
        exists i :: 0 <= i < |a.postconditions| && ArgumentNames(resolve, a.postconditions[i], path)
    {
      CarriedAsks(resolve, a, generatedId, r, path);
    }
  }

  /** The whole command: what is refused leaves the queue alone, the rest is admitted as parsed. */
  method RunAdmitCommand(queue: QueueDirectory, a: Arguments, generatedId: string, resolve: Resolver, stamp: string)
      returns (response: Response)
    requires forall s :: resolve(s) != Some([])
    modifies queue`stateFile, queue`locked
    ensures queue.locked == old(queue.locked)
    ensures !Acceptable(resolve, a, generatedId) ==>
      response == Blocked(InvalidAdmission) && queue.stateFile == old(queue.stateFile)
    ensures Acceptable(resolve, a, generatedId) ==> exists r: Request ::
      r.Admit? && Carries(resolve, a, generatedId, r)
      && (response, queue.stateFile) == Answer(old(queue.stateFile), old(queue.locked), queue.readable, queue.writable,
                                               r, Reading(queue.head, stamp, ""))
    ensures response.Admitted? ==>
      queue.head.Some? && ItemFromArguments(resolve, a, generatedId, response.item, queue.head.value, stamp)
  {
    var parsed := ParseAdmission(a, generatedId, resolve);
    if parsed.None? {
      return Blocked(InvalidAdmission);
    }
    var r := parsed.value;
    response := queue.RunAdmit(r, stamp);
    if response.Admitted? {
      ghost var reading, file := Reading(queue.head, stamp, ""), old(queue.stateFile);
      AnswerMeans(file, old(queue.locked), queue.readable, queue.writable, r, reading);
      AdmissionMeans(if file.None? then EMPTY_STATE else file.value, r, reading);
      CarriedItem(resolve, a, generatedId, r, response.item, queue.head.value, stamp);
    }
  }
}

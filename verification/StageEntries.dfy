/**
 The stage entries of a plan: the scanners put together as the plan parser does, and
 when what they return is what the plan declares.
 */
module StageEntries {
  import opened Common
  import opened Scanners
  import opened JsonText
  import opened JsonScanning
  import opened JsonBrackets
  import opened PlanFields
  import opened StringLists

  datatype CommitEntry = CommitEntry(message: string, includes: seq<string>, excludes: seq<string>,
                                     verdict: string, reason: string)

  datatype StageEntry = StageEntry(repoKey: string, commits: seq<CommitEntry>)

  /** Trimming, compacting and slash repair of the fields. */
  datatype Repair = Repair(repo: string -> string, message: string -> string, path: string -> string,
                           verdict: string -> string, reason: string -> string)

  function Listed<T>(o: Option<T>): seq<T> {
    if o.Some? then [o.value] else []
  }

  // ---------------------------------------------------------------- as the parser reads the text

  function ReviewField(text: string, field: string, repair: string -> string): string {
    match ObjectBodyFor(text, "review")
    case None => ""
    case Some(body) => match StringField(body, field)
      case None => ""
      case Some(value) => repair(value)
  }

  function CommitRead(text: string, r: Repair): Option<CommitEntry> {
    match StringField(text, "message")
    case None => None
    case Some(raw) =>
      if r.message(raw) == [] then None
      else
        Some(CommitEntry(r.message(raw), StringArrayFor(text, "include", r.path), StringArrayFor(text, "exclude", r.path),
                         ReviewField(text, "verdict", r.verdict), ReviewField(text, "reason", r.reason)))
  }

  function CommitsRead(objects: seq<string>, r: Repair): seq<CommitEntry> {
    if objects == [] then []
    else CommitsRead(objects[..|objects| - 1], r) + Listed(CommitRead(objects[|objects| - 1], r))
  }

  function CommitObjects(text: string): seq<string> {
    match ArrayBodyFor(text, "commits")
    case None => []
    case Some(body) => TopObjects(body, 0, 0, Outside, None)
  }

  function EntryRead(text: string, r: Repair): Option<StageEntry> {
    match StringField(text, "repo")
    case None => None
    case Some(raw) =>
      var commits := CommitsRead(CommitObjects(text), r);
      if r.repo(raw) == [] || commits == [] then None else Some(StageEntry(r.repo(raw), commits))
  }

  function EntriesRead(objects: seq<string>, r: Repair): seq<StageEntry> {
    if objects == [] then []
    else EntriesRead(objects[..|objects| - 1], r) + Listed(EntryRead(objects[|objects| - 1], r))
  }

  /** The entries of a stage array body. */
  function StageRead(body: string, r: Repair): seq<StageEntry> {
    EntriesRead(TopObjects(body, 0, 0, Outside, None), r)
  }

  method ParseReviewField(text: string, field: string, repair: string -> string) returns (value: string)
    ensures value == ReviewField(text, field, repair)
  {
    var body := ExtractObjectBodyForKey(text, "review");
    if body == None {
      return "";
    }
    var raw := ExtractStringField(body.value, field);
    return if raw == None then "" else repair(raw.value);
  }

  method ParseCommit(text: string, r: Repair) returns (commit: Option<CommitEntry>)
    ensures commit == CommitRead(text, r)
  {
    var raw := ExtractStringField(text, "message");
    if raw == None {
      return None;
    }
    var message := r.message(raw.value);
    if message == [] {
      return None;
    }
    var included := ExtractStringArrayForKey(text, "include", r.path);
    var excluded := ExtractStringArrayForKey(text, "exclude", r.path);
    var verdict := ParseReviewField(text, "verdict", r.verdict);
    var reason := ParseReviewField(text, "reason", r.reason);
    return Some(CommitEntry(message, included, excluded, verdict, reason));
  }

  method ParseCommits(text: string, r: Repair) returns (commits: seq<CommitEntry>)
    ensures commits == CommitsRead(CommitObjects(text), r)
  {
    commits := [];
    var body := ExtractArrayBodyForKey(text, "commits");
    if body == None {
      return;
    }
    var objects := SplitTopLevelObjects(body.value);
    for i := 0 to |objects|
      invariant commits == CommitsRead(objects[..i], r)
    {
      assert objects[..i + 1][..i] == objects[..i];
      var commit := ParseCommit(objects[i], r);
      if commit.Some? {
        commits := commits + [commit.value];
      }
    }
    assert objects[..|objects|] == objects;
  }

  method ParseEntry(text: string, r: Repair) returns (entry: Option<StageEntry>)
    ensures entry == EntryRead(text, r)
  {
    var raw := ExtractStringField(text, "repo");
    if raw == None {
      return None;
    }
    var repoKey := r.repo(raw.value);
    var commits := ParseCommits(text, r);
    return if repoKey != [] && commits != [] then Some(StageEntry(repoKey, commits)) else None;
  }

  lemma {:induction false} EntriesStep(objects: seq<string>, i: nat, r: Repair)
    requires i < |objects|
    ensures EntriesRead(objects[..i + 1], r) == EntriesRead(objects[..i], r) + Listed(EntryRead(objects[i], r))
  {
    assert objects[..i + 1][..i] == objects[..i];
  }

  method ParseStageEntries(body: string, r: Repair) returns (entries: seq<StageEntry>)
    ensures entries == StageRead(body, r)
  {
    entries := [];
    var objects := SplitTopLevelObjects(body);
    for i := 0 to |objects|
      invariant entries == EntriesRead(objects[..i], r)
    {
      EntriesStep(objects, i, r);
      var entry := ParseEntry(objects[i], r);
      if entry.Some? {
        entries := entries + [entry.value];
      }
    }
    assert objects[..|objects|] == objects;
  }

  // ---------------------------------------------------------------- as the document declares it

  /** The object's own value under the key. */
  function Own(m: Members, key: string): Option<Json> {
    match m
    case NoMembers => None
    case Member(_, k, _, _, value, _, rest) => if Decode(k) == key then Some(value) else Own(rest, key)
  }

  function OwnString(m: Members, key: string): Option<string> {
    match Own(m, key)
    case Some(Text(units)) => Some(Decode(units))
    case _ => None
  }

  function OwnList(m: Members, key: string, repair: string -> string): seq<string> {
    match Own(m, key)
    case Some(Array(_, items)) => LeadingStrings(items, repair)
    case _ => []
  }

  function OwnMembers(m: Members, key: string): Members {
    match Own(m, key)
    case Some(Object(_, members)) => members
    case _ => NoMembers
  }

  /** The objects of an array, also inside arrays of arrays. */
  function ValueObjects(j: Json): seq<Json> {
    match j
    case Array(_, items) => ItemObjects(items)
    case Object(_, _) => [j]
    case _ => []
  }

  function ItemObjects(items: Items): seq<Json> {
    match items
    case NoItems => []
    case Item(_, value, _, rest) => ValueObjects(value) + ItemObjects(rest)
  }

  function OwnObjects(m: Members, key: string): seq<Json> {
    match Own(m, key)
    case Some(Array(_, items)) => ItemObjects(items)
    case _ => []
  }

  function MembersOf(j: Json): Members {
    if j.Object? then j.members else NoMembers
  }

  function DeclaredReview(m: Members, field: string, repair: string -> string): string {
    match OwnString(OwnMembers(m, "review"), field)
    case None => ""
    case Some(value) => repair(value)
  }

  function DeclaredCommit(m: Members, r: Repair): Option<CommitEntry> {
    match OwnString(m, "message")
    case None => None
    case Some(raw) =>
      if r.message(raw) == [] then None
      else
        Some(CommitEntry(r.message(raw), OwnList(m, "include", r.path), OwnList(m, "exclude", r.path),
                         DeclaredReview(m, "verdict", r.verdict), DeclaredReview(m, "reason", r.reason)))
  }

  function DeclaredCommits(objects: seq<Json>, r: Repair): seq<CommitEntry> {
    if objects == [] then []
    else DeclaredCommits(objects[..|objects| - 1], r) + Listed(DeclaredCommit(MembersOf(objects[|objects| - 1]), r))
  }

  function DeclaredEntry(m: Members, r: Repair): Option<StageEntry> {
    match OwnString(m, "repo")
    case None => None
    case Some(raw) =>
      var commits := DeclaredCommits(OwnObjects(m, "commits"), r);
      if r.repo(raw) == [] || commits == [] then None else Some(StageEntry(r.repo(raw), commits))
  }

  function DeclaredEntries(objects: seq<Json>, r: Repair): seq<StageEntry> {
    if objects == [] then []
    else DeclaredEntries(objects[..|objects| - 1], r) + Listed(DeclaredEntry(MembersOf(objects[|objects| - 1]), r))
  }

  // ---------------------------------------------------------------- no earlier value holds a key

  predicate ReviewClean(m: Members) {
    !Shadowed(m, "verdict") && !Shadowed(m, "reason")
  }

  predicate CommitClean(m: Members) {
    && !Shadowed(m, "message") && !Shadowed(m, "include") && !Shadowed(m, "exclude") && !Shadowed(m, "review")
    && ReviewClean(OwnMembers(m, "review"))
  }

  predicate CommitsClean(objects: seq<Json>) {
    forall i :: 0 <= i < |objects| ==> CommitClean(MembersOf(objects[i]))
  }

  predicate EntryClean(m: Members) {
    !Shadowed(m, "repo") && !Shadowed(m, "commits") && CommitsClean(OwnObjects(m, "commits"))
  }

  /** In every entry, every key the parser looks up is held by no value before the object's own. */
  predicate StageClean(objects: seq<Json>) {
    forall i :: 0 <= i < |objects| ==> EntryClean(MembersOf(objects[i]))
  }

  // ---------------------------------------------------------------- one lookup

  function EntryValue(e: Option<Entry>): Option<Json> {
    match e
    case None => None
    case Some(entry) => Some(entry.value)
  }

  /** Unless shadowed, the first value in document order is the object's own. */
  lemma {:induction false} OwnIsFirst(m: Members, first: bool, base: nat, key: string)
    requires !Shadowed(m, key)
    ensures EntryValue(FirstEntry(MemberEntries(m, first, base), key)) == Own(m, key)
    decreases m
  {
    if m.Member? {
      var at := ValueAt(m, first, base);
      MemberFirstEntry(m, first, base, key);
      if Decode(m.key) != key {
        HasKeyIffEntry(m.value, at, key);
        OwnIsFirst(m.rest, false, at + |Print(m.value)| + |m.trail|, key);
      }
    }
  }

  lemma {:induction false} OwnWellFormed(m: Members, key: string)
    requires WellFormedMembers(m) && Own(m, key).Some?
    ensures WellFormed(Own(m, key).value)
  {
    if m.Member? && Decode(m.key) != key {
      OwnWellFormed(m.rest, key);
    }
  }

  /** The object's text alone is a document. */
  lemma ObjectDocument(j: Json)
    ensures Document("", j, "") == Print(j)
  {
  }

  lemma {:induction false} FirstOfObject(pad: string, m: Members, key: string)
    requires !Shadowed(m, key)
    ensures FirstValue(Object(pad, m), key) == Own(m, key)
  {
    OwnIsFirst(m, true, 1, key);
  }

  /** Lookups in a printed object, as declared when not shadowed. */
  lemma {:induction false} ObjectString(pad: string, m: Members, key: string)
    requires WellFormed(Object(pad, m)) && !Shadowed(m, key)
    ensures StringField(Print(Object(pad, m)), key) == OwnString(m, key)
  {
    ObjectDocument(Object(pad, m));
    FirstOfObject(pad, m, key);
    ExtractorsReadDocument(Object(pad, m), "", key);
  }

  lemma {:induction false} ObjectPart(pad: string, m: Members, key: string)
    requires WellFormed(Object(pad, m)) && !Shadowed(m, key)
    ensures ObjectBodyFor(Print(Object(pad, m)), key) ==
      match Own(m, key)
      case Some(Object(p, members)) => Some(ObjectBody(p, members))
      case _ => None
  {
    ObjectDocument(Object(pad, m));
    FirstOfObject(pad, m, key);
    ExtractorsReadDocument(Object(pad, m), "", key);
  }

  lemma {:induction false} ArrayPart(pad: string, m: Members, key: string)
    requires WellFormed(Object(pad, m)) && !Shadowed(m, key)
    ensures ArrayBodyFor(Print(Object(pad, m)), key) ==
      match Own(m, key)
      case Some(Array(p, items)) => Some(ArrayBody(p, items))
      case _ => None
  {
    ObjectDocument(Object(pad, m));
    FirstOfObject(pad, m, key);
    ExtractorsReadDocument(Object(pad, m), "", key);
  }

  lemma {:induction false} ObjectList(pad: string, m: Members, key: string, repair: string -> string)
    requires WellFormed(Object(pad, m)) && !Shadowed(m, key)
    ensures StringArrayFor(Print(Object(pad, m)), key, repair) == OwnList(m, key, repair)
  {
    ObjectDocument(Object(pad, m));
    FirstOfObject(pad, m, key);
    match Own(m, key)
    case Some(Array(p, items)) => ListReadsDocument(Object(pad, m), "", key, p, items, repair);
    case _ => ArrayPart(pad, m, key);
  }

  /** The search in an object's body, without its braces. */
  lemma {:induction false} SearchBody(pad: string, m: Members, key: string)
    requires IsBlank(pad) && WellFormedMembers(m)
    ensures KeyValue(ObjectBody(pad, m), key, 0) == Found(MemberEntries(m, true, 0), key, None)
  {
    var text := ObjectBody(pad, m);
    if m == NoMembers {
      BlankNoKey(text, key, 0, pad);
    } else {
      assert Stands(text, 0, PrintMembers(m, true));
      SearchMembers(text, key, 0, m, true, |text|);
    }
  }

  lemma {:induction false} BodyStringField(pad: string, m: Members, key: string)
    requires IsBlank(pad) && WellFormedMembers(m) && !Shadowed(m, key)
    ensures StringField(ObjectBody(pad, m), key) == OwnString(m, key)
  {
    var text, entries := ObjectBody(pad, m), MemberEntries(m, true, 0);
    SearchBody(pad, m, key);
    OwnIsFirst(m, true, 0, key);
    match FirstEntry(entries, key)
    case None =>
    case Some(e) =>
      var i := FirstEntryIsFirst(entries, key);
      assert Stands(text, 0, PrintMembers(m, true));
      MemberEntriesStand(text, 0, m, true);
      ExtractorsReadValue(text, e.at, e.value);
  }

  // ---------------------------------------------------------------- the whole stage

  lemma {:induction false} ReviewAsDeclared(pad: string, m: Members, field: string, repair: string -> string)
    requires WellFormed(Object(pad, m)) && CommitClean(m) && (field == "verdict" || field == "reason")
    ensures ReviewField(Print(Object(pad, m)), field, repair) == DeclaredReview(m, field, repair)
  {
    ObjectPart(pad, m, "review");
    var own := Own(m, "review");
    if own.Some? && own.value.Object? {
      OwnWellFormed(m, "review");
      BodyStringField(own.value.pad, own.value.members, field);
    }
  }

  lemma {:induction false} CommitAsDeclared(pad: string, m: Members, r: Repair)
    requires WellFormed(Object(pad, m)) && CommitClean(m)
    ensures CommitRead(Print(Object(pad, m)), r) == DeclaredCommit(m, r)
  {
    ObjectString(pad, m, "message");
    ObjectList(pad, m, "include", r.path);
    ObjectList(pad, m, "exclude", r.path);
    ReviewAsDeclared(pad, m, "verdict", r.verdict);
    ReviewAsDeclared(pad, m, "reason", r.reason);
  }

  /** The texts are the printed objects. */
  ghost predicate Printed(texts: seq<string>, objects: seq<Json>) {
    |texts| == |objects| && forall i :: 0 <= i < |objects| ==>
      objects[i].Object? && WellFormed(objects[i]) && texts[i] == Print(objects[i])
  }

  lemma {:induction false} ValueObjectsPrinted(j: Json)
    requires WellFormed(j)
    ensures Printed(ObjectTexts(j), ValueObjects(j))
    decreases j, 0
  {
    match j
    case Array(_, items) => ItemObjectsPrinted(items);
    case _ =>
  }

  lemma {:induction false} ItemObjectsPrinted(items: Items)
    requires WellFormedItems(items)
    ensures Printed(ItemObjectTexts(items), ItemObjects(items))
    decreases items, 0
  {
    if items.Item? {
      ValueObjectsPrinted(items.value);
      ItemObjectsPrinted(items.rest);
    }
  }

  /** Commits that are read alike one by one are read alike together. */
  lemma {:induction false} CommitsAlike(texts: seq<string>, objects: seq<Json>, r: Repair)
    requires |texts| == |objects|
    requires forall i :: 0 <= i < |objects| ==> CommitRead(texts[i], r) == DeclaredCommit(MembersOf(objects[i]), r)
    ensures CommitsRead(texts, r) == DeclaredCommits(objects, r)
    decreases |objects|
  {
    if objects != [] {
      CommitsAlike(texts[..|texts| - 1], objects[..|objects| - 1], r);
    }
  }

  lemma {:induction false} CommitsAsDeclared(texts: seq<string>, objects: seq<Json>, r: Repair)
    requires Printed(texts, objects) && CommitsClean(objects)
    ensures CommitsRead(texts, r) == DeclaredCommits(objects, r)
  {
    forall i | 0 <= i < |objects| ensures CommitRead(texts[i], r) == DeclaredCommit(MembersOf(objects[i]), r) {
      CommitAsDeclared(objects[i].pad, objects[i].members, r);
    }
    CommitsAlike(texts, objects, r);
  }

  lemma {:induction false} EntryAsDeclared(pad: string, m: Members, r: Repair)
    requires WellFormed(Object(pad, m)) && EntryClean(m)
    ensures EntryRead(Print(Object(pad, m)), r) == DeclaredEntry(m, r)
  {
    ObjectString(pad, m, "repo");
    ArrayPart(pad, m, "commits");
    var own := Own(m, "commits");
    if own.Some? && own.value.Array? {
      OwnWellFormed(m, "commits");
      SplitsIntoObjects(own.value.pad, own.value.items);
      ItemObjectsPrinted(own.value.items);
      CommitsAsDeclared(ItemObjectTexts(own.value.items), ItemObjects(own.value.items), r);
    } else {
      assert CommitsRead([], r) == DeclaredCommits([], r) == [];
    }
  }

  /** Entries that are read alike one by one are read alike together. */
  lemma {:induction false} EntriesAlike(texts: seq<string>, objects: seq<Json>, r: Repair)
    requires |texts| == |objects|
    requires forall i :: 0 <= i < |objects| ==> EntryRead(texts[i], r) == DeclaredEntry(MembersOf(objects[i]), r)
    ensures EntriesRead(texts, r) == DeclaredEntries(objects, r)
    decreases |objects|
  {
    if objects != [] {
      EntriesAlike(texts[..|texts| - 1], objects[..|objects| - 1], r);
    }
  }

  lemma {:induction false} EntriesAsDeclared(texts: seq<string>, objects: seq<Json>, r: Repair)
    requires Printed(texts, objects) && StageClean(objects)
    ensures EntriesRead(texts, r) == DeclaredEntries(objects, r)
  {
    forall i | 0 <= i < |objects| ensures EntryRead(texts[i], r) == DeclaredEntry(MembersOf(objects[i]), r) {
      EntryAsDeclared(objects[i].pad, objects[i].members, r);
    }
    EntriesAlike(texts, objects, r);
  }

  /** A printed stage whose keys are not held by earlier values is read as it is declared. */
  lemma {:induction false} StageReadsBack(pad: string, items: Items, r: Repair)
    requires IsBlank(pad) && WellFormedItems(items) && StageClean(ItemObjects(items))
    ensures StageRead(ArrayBody(pad, items), r) == DeclaredEntries(ItemObjects(items), r)
  {
    SplitsIntoObjects(pad, items);
    ItemObjectsPrinted(items);
    EntriesAsDeclared(ItemObjectTexts(items), ItemObjects(items), r);
  }

  // ---------------------------------------------------------------- and only then

  /** The lookup in a printed object ends at its own member, or finds nothing when it has none. */
  predicate FindsOwn(pad: string, m: Members, key: string) {
    KeyValue(Print(Object(pad, m)), key, 0) == OwnValueAt(m, true, 1, key)
  }

  predicate FindsOwnInBody(j: Json, key: string) {
    j.Object? ==> KeyValue(ObjectBody(j.pad, j.members), key, 0) == OwnValueAt(j.members, true, 0, key)
  }

  predicate CommitFindsOwn(j: Json) {
    j.Object? ==>
      && FindsOwn(j.pad, j.members, "message") && FindsOwn(j.pad, j.members, "include")
      && FindsOwn(j.pad, j.members, "exclude") && FindsOwn(j.pad, j.members, "review")
      && (Own(j.members, "review").Some? ==>
            FindsOwnInBody(Own(j.members, "review").value, "verdict")
            && FindsOwnInBody(Own(j.members, "review").value, "reason"))
  }

  predicate EntryFindsOwn(j: Json) {
    j.Object? ==>
      && FindsOwn(j.pad, j.members, "repo") && FindsOwn(j.pad, j.members, "commits")
      && forall i :: 0 <= i < |OwnObjects(j.members, "commits")| ==> CommitFindsOwn(OwnObjects(j.members, "commits")[i])
  }

  lemma {:induction false} FindsOwnIff(pad: string, m: Members, key: string)
    requires WellFormed(Object(pad, m))
    ensures FindsOwn(pad, m, key) <==> !Shadowed(m, key)
  {
    ObjectDocument(Object(pad, m));
    LookupReadsOwnMember(pad, m, "", key);
  }

  lemma {:induction false} FindsOwnInBodyIff(pad: string, m: Members, key: string)
    requires WellFormed(Object(pad, m))
    ensures FindsOwnInBody(Object(pad, m), key) <==> !Shadowed(m, key)
  {
    SearchBody(pad, m, key);
    if m.Member? {
      assert Stands(ObjectBody(pad, m), 0, PrintMembers(m, true));
      OwnUnlessShadowed(ObjectBody(pad, m), 0, m, true, key);
    }
  }

  lemma {:induction false} CommitFindsOwnIff(pad: string, m: Members)
    requires WellFormed(Object(pad, m))
    ensures CommitFindsOwn(Object(pad, m)) <==> CommitClean(m)
  {
    FindsOwnIff(pad, m, "message");
    FindsOwnIff(pad, m, "include");
    FindsOwnIff(pad, m, "exclude");
    FindsOwnIff(pad, m, "review");
    var own := Own(m, "review");
    if own.Some? && own.value.Object? {
      OwnWellFormed(m, "review");
      FindsOwnInBodyIff(own.value.pad, own.value.members, "verdict");
      FindsOwnInBodyIff(own.value.pad, own.value.members, "reason");
    }
  }

  lemma {:induction false} EntryFindsOwnIff(pad: string, m: Members)
    requires WellFormed(Object(pad, m))
    ensures EntryFindsOwn(Object(pad, m)) <==> EntryClean(m)
  {
    FindsOwnIff(pad, m, "repo");
    FindsOwnIff(pad, m, "commits");
    var objects := OwnObjects(m, "commits");
    if objects != [] {
      OwnWellFormed(m, "commits");
      ItemObjectsPrinted(Own(m, "commits").value.items);
    }
    forall i | 0 <= i < |objects| ensures CommitFindsOwn(objects[i]) <==> CommitClean(MembersOf(objects[i])) {
      CommitFindsOwnIff(objects[i].pad, objects[i].members);
    }
  }

  /**
   Every lookup the parser makes in a printed stage ends at the member it is meant for
   if and only if no value before it holds the key; then the stage is read as declared.
   */
  lemma {:induction false} StageFindsOwnIffClean(pad: string, items: Items, r: Repair)
    requires IsBlank(pad) && WellFormedItems(items)
    ensures (forall i :: 0 <= i < |ItemObjects(items)| ==> EntryFindsOwn(ItemObjects(items)[i])) <==>
            StageClean(ItemObjects(items))
    ensures StageClean(ItemObjects(items)) ==>
      StageRead(ArrayBody(pad, items), r) == DeclaredEntries(ItemObjects(items), r)
  {
    ItemObjectsPrinted(items);
    var objects := ItemObjects(items);
    forall i | 0 <= i < |objects| ensures EntryFindsOwn(objects[i]) <==> EntryClean(MembersOf(objects[i])) {
      EntryFindsOwnIff(objects[i].pad, objects[i].members);
    }
    if StageClean(objects) {
      StageReadsBack(pad, items, r);
    }
  }
}

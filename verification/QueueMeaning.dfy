/** What admission, drain and completion do, told from the requests and the state alone. */
module QueueMeaning {
  import opened Common
  import opened QueueBatch
  import opened AgentQueue
  import opened QueueInvariants

  // ---------------------------------------------------------------- the item of an admission

  /** The ranges listed for the path, in order. */
  function ListedRanges(chunks: seq<(string, Chunk)>, path: string): seq<Chunk> {
    if chunks == [] then []
    else if chunks[0].0 == path then [chunks[0].1] + ListedRanges(chunks[1..], path)
    else ListedRanges(chunks[1..], path)
  }

  predicate Lists(chunks: seq<(string, Chunk)>, path: string) {
    exists i :: 0 <= i < |chunks| && chunks[i].0 == path
  }

  predicate ClaimsLine(chunks: seq<(string, Chunk)>, path: string, line: int) {
    exists i :: 0 <= i < |chunks| && chunks[i].0 == path && chunks[i].1.start <= line <= chunks[i].1.end
  }

  /** The last entry for the path has this value. */
  predicate LastValue(posts: seq<(string, string)>, path: string, value: string) {
    exists i :: 0 <= i < |posts| && posts[i] == (path, value) && forall j :: i < j < |posts| ==> posts[j].0 != path
  }

  predicate Names(posts: seq<(string, string)>, path: string) {
    exists i :: 0 <= i < |posts| && posts[i].0 == path
  }

  /** The item says what the request says, at this HEAD and time. */
  ghost predicate ItemSays(item: Item, r: Request, head: string, stamp: string)
    requires r.Admit?
  {
    && item.id == r.id && item.baseHead == head && item.workItem == r.workItem && item.agent == r.agent
    && item.files == r.files && item.validation == r.validation && item.admittedAt == stamp
    && (forall path :: path in item.chunks <==> Lists(r.chunks, path))
    && (forall path :: ChunksFor(item, path) == ListedRanges(r.chunks, path))
    && (forall path :: path in item.postconditions <==> Names(r.postconditions, path))
    && forall path :: path in item.postconditions ==> LastValue(r.postconditions, path, item.postconditions[path])
  }

  lemma {:induction false} ListedAppend(chunks: seq<(string, Chunk)>, last: (string, Chunk), path: string)
    ensures ListedRanges(chunks + [last], path)
         == ListedRanges(chunks, path) + if last.0 == path then [last.1] else []
  {
    if chunks == [] {
      assert [last][1..] == [];
    } else {
      assert (chunks + [last])[1..] == chunks[1..] + [last];
      ListedAppend(chunks[1..], last, path);
    }
  }

  function RangesIn(m: map<string, seq<Chunk>>, path: string): seq<Chunk> {
    if path in m then m[path] else []
  }

  lemma ChunkMapStep(chunks: seq<(string, Chunk)>, path: string)
    requires chunks != []
    ensures var last := chunks[|chunks| - 1];
      RangesIn(ChunkMap(chunks), path)
      == RangesIn(ChunkMap(chunks[..|chunks| - 1]), path) + if last.0 == path then [last.1] else []
  {
  }

  lemma {:induction false} ChunkMapRanges(chunks: seq<(string, Chunk)>, path: string)
    ensures RangesIn(ChunkMap(chunks), path) == ListedRanges(chunks, path)
  {
    if chunks != [] {
      var front, last := chunks[..|chunks| - 1], chunks[|chunks| - 1];
      ChunkMapRanges(front, path);
      ChunkMapStep(chunks, path);
      assert chunks == front + [last];
      ListedAppend(front, last, path);
    }
  }

  lemma {:induction false} ChunkMapKeys(chunks: seq<(string, Chunk)>, path: string)
    ensures path in ChunkMap(chunks) <==> Lists(chunks, path)
  {
    if chunks != [] {
      ChunkMapKeys(chunks[..|chunks| - 1], path);
      if chunks[|chunks| - 1].0 != path {
        ListsInFront(chunks, path);
      }
    }
  }

  lemma ListsInFront(chunks: seq<(string, Chunk)>, path: string)
    requires chunks != [] && chunks[|chunks| - 1].0 != path
    ensures Lists(chunks, path) <==> Lists(chunks[..|chunks| - 1], path)
  {
    var front := chunks[..|chunks| - 1];
    if i :| 0 <= i < |chunks| && chunks[i].0 == path {
      assert front[i].0 == path;
    }
    if i :| 0 <= i < |front| && front[i].0 == path {
      assert chunks[i].0 == path;
    }
  }

  lemma LastValueBefore(posts: seq<(string, string)>, path: string, value: string, next: (string, string))
    requires LastValue(posts, path, value) && next.0 != path
    ensures LastValue(posts + [next], path, value)
  {
    var longer := posts + [next];
    var i :| 0 <= i < |posts| && posts[i] == (path, value) && forall j :: i < j < |posts| ==> posts[j].0 != path;
    assert longer[i] == (path, value);
  }

  lemma LastValueAtEnd(posts: seq<(string, string)>, next: (string, string))
    ensures LastValue(posts + [next], next.0, next.1)
  {
    assert (posts + [next])[|posts|] == next;
  }

  lemma NamesMore(posts: seq<(string, string)>, next: (string, string), path: string)
    ensures Names(posts + [next], path) <==> Names(posts, path) || next.0 == path
  {
    var longer := posts + [next];
    assert longer[|posts|] == next;
    if i :| 0 <= i < |posts| && posts[i].0 == path {
      assert longer[i].0 == path;
    }
  }

  lemma {:induction false} LastPostconditionWins(posts: seq<(string, string)>, path: string)
    ensures path in PostconditionMap(posts) <==> Names(posts, path)
    ensures path in PostconditionMap(posts) ==> LastValue(posts, path, PostconditionMap(posts)[path])
  {
    if posts != [] {
      var front, last := posts[..|posts| - 1], posts[|posts| - 1];
      assert posts == front + [last];
      LastPostconditionWins(front, path);
      NamesMore(front, last, path);
      LastValueAtEnd(front, last);
      if last.0 != path && path in PostconditionMap(front) {
        LastValueBefore(front, path, PostconditionMap(front)[path], last);
      }
    }
  }

  /** Two entries cannot both be the last one. */
  lemma OneLastValue(posts: seq<(string, string)>, path: string, a: string, b: string)
    requires LastValue(posts, path, a) && LastValue(posts, path, b)
    ensures a == b
  {
  }

  lemma NewItemSays(r: Request, reading: Reading)
    requires r.Admit? && reading.head.Some?
    ensures ItemSays(NewItem(r, reading), r, reading.head.value, reading.stamp)
  {
    var item := NewItem(r, reading);
    forall path
      ensures path in item.chunks <==> Lists(r.chunks, path)
      ensures ChunksFor(item, path) == ListedRanges(r.chunks, path)
    {
      ChunkMapKeys(r.chunks, path);
      ChunkMapRanges(r.chunks, path);
    }
    forall path
      ensures path in item.postconditions <==> Names(r.postconditions, path)
      ensures path in item.postconditions ==> LastValue(r.postconditions, path, item.postconditions[path])
    {
      LastPostconditionWins(r.postconditions, path);
    }
  }

  /** The id is neither that of a pending item nor that of the active batch. */
  predicate FreshId(q: QueueState, id: string) {
    (forall i :: 0 <= i < |q.pending| ==> q.pending[i].id != id) && (q.active.Some? ==> q.active.value.id != id)
  }

  /** Admission takes a fresh id when HEAD resolves, and appends an item that says what was asked for. */
  lemma AdmissionMeans(q: QueueState, r: Request, reading: Reading)
    requires r.Admit?
    ensures var (after, answer) := Execute(q, r, reading);
      && (answer.Admitted? <==> FreshId(q, r.id) && reading.head.Some?)
      && (answer == Blocked(DuplicateAdmission) <==> !FreshId(q, r.id))
      && (answer == Blocked(HeadUnavailable) <==> FreshId(q, r.id) && reading.head.None?)
      && (answer.Admitted? || answer == Blocked(DuplicateAdmission) || answer == Blocked(HeadUnavailable))
      && (answer.Admitted? ==> ItemSays(answer.item, r, reading.head.value, reading.stamp))
      && (answer.Admitted? ==> after == q.(pending := q.pending + [answer.item]))
      && (!answer.Admitted? ==> after == q)
  {
    if reading.head.Some? {
      NewItemSays(r, reading);
    }
  }

  lemma HasLineCons(c: Chunk, ranges: seq<Chunk>, line: int)
    ensures HasLine([c] + ranges, line) <==> c.start <= line <= c.end || HasLine(ranges, line)
  {
    var all := [c] + ranges;
    assert all[0] == c;
    if i :| 0 <= i < |ranges| && ranges[i].start <= line <= ranges[i].end {
      assert all[i + 1] == ranges[i];
    }
  }

  lemma ClaimsCons(chunks: seq<(string, Chunk)>, path: string, line: int)
    requires chunks != []
    ensures ClaimsLine(chunks, path, line) <==>
      (chunks[0].0 == path && chunks[0].1.start <= line <= chunks[0].1.end) || ClaimsLine(chunks[1..], path, line)
    ensures Lists(chunks, path) <==> chunks[0].0 == path || Lists(chunks[1..], path)
  {
    forall i | 0 <= i < |chunks| ensures i > 0 ==> chunks[1..][i - 1] == chunks[i] {
    }
    if i :| 0 <= i < |chunks[1..]| && chunks[1..][i].0 == path {
      assert chunks[i + 1].0 == path;
    }
    if ClaimsLine(chunks[1..], path, line) {
      var i :| 0 <= i < |chunks[1..]| && chunks[1..][i].0 == path
        && chunks[1..][i].1.start <= line <= chunks[1..][i].1.end;
      assert chunks[i + 1] == chunks[1..][i];
    }
  }

  lemma {:induction false} ListedClaims(chunks: seq<(string, Chunk)>, path: string, line: int)
    ensures HasLine(ListedRanges(chunks, path), line) <==> ClaimsLine(chunks, path, line)
    ensures ListedRanges(chunks, path) != [] <==> Lists(chunks, path)
  {
    if chunks != [] {
      ListedClaims(chunks[1..], path, line);
      ClaimsCons(chunks, path, line);
      HasLineCons(chunks[0].1, ListedRanges(chunks[1..], path), line);
    }
  }

  /** In the item, a line is claimed exactly when some listed chunk of the path holds it. */
  lemma ClaimsAsListed(item: Item, r: Request, head: string, stamp: string, path: string, line: int)
    requires r.Admit? && ItemSays(item, r, head, stamp)
    ensures HasLine(ChunksFor(item, path), line) <==> ClaimsLine(r.chunks, path, line)
    ensures ChunksFor(item, path) != [] <==> Lists(r.chunks, path)
  {
    ListedClaims(r.chunks, path, line);
  }

  // ---------------------------------------------------------------- which requests fit together

  /** Both requests end the file in the same state. */
  predicate Agree(r: Request, s: Request, path: string)
    requires r.Admit? && s.Admit?
  {
    exists i :: 0 <= i < |r.postconditions| && LastValue(r.postconditions, path, r.postconditions[i].1)
      && LastValue(s.postconditions, path, r.postconditions[i].1)
  }

  /** Both list chunks of the file, and none of its lines twice. */
  ghost predicate ShareNoLine(r: Request, s: Request, path: string)
    requires r.Admit? && s.Admit?
  {
    && Lists(r.chunks, path) && Lists(s.chunks, path)
    && forall line :: !(ClaimsLine(r.chunks, path, line) && ClaimsLine(s.chunks, path, line))
  }

  /** On every file of both, the requests agree on its final state or share no line. */
  ghost predicate Together(r: Request, s: Request)
    requires r.Admit? && s.Admit?
  {
    forall path :: path in r.files && path in s.files ==> Agree(r, s, path) || ShareNoLine(r, s, path)
  }

  lemma PostconditionsAgree(a: Item, b: Item, r: Request, s: Request, heads: (string, string), stamps: (string, string),
                            path: string)
    requires r.Admit? && s.Admit? && ValidRequest(r) && ValidRequest(s)
    requires ItemSays(a, r, heads.0, stamps.0) && ItemSays(b, s, heads.1, stamps.1)
    ensures PostconditionFor(a, path) != "" && PostconditionFor(a, path) == PostconditionFor(b, path) <==> Agree(r, s, path)
  {
    if path in a.postconditions {
      var i :| 0 <= i < |r.postconditions| && r.postconditions[i] == (path, a.postconditions[path])
        && forall j :: i < j < |r.postconditions| ==> r.postconditions[j].0 != path;
      assert r.postconditions[i].1 == a.postconditions[path] != "";
    }
    if Agree(r, s, path) {
      var i :| 0 <= i < |r.postconditions| && LastValue(r.postconditions, path, r.postconditions[i].1)
        && LastValue(s.postconditions, path, r.postconditions[i].1);
      assert Names(r.postconditions, path) && Names(s.postconditions, path);
      OneLastValue(r.postconditions, path, r.postconditions[i].1, a.postconditions[path]);
      OneLastValue(s.postconditions, path, r.postconditions[i].1, b.postconditions[path]);
    }
  }

  lemma {:induction false} ListedValid(chunks: seq<(string, Chunk)>, path: string)
    requires forall i :: 0 <= i < |chunks| ==> 0 < chunks[i].1.start <= chunks[i].1.end
    ensures ValidChunks(ListedRanges(chunks, path))
  {
    if chunks != [] {
      ListedValid(chunks[1..], path);
    }
  }

  lemma ListedRangesValid(item: Item, r: Request, head: string, stamp: string, path: string)
    requires r.Admit? && ValidRequest(r) && ItemSays(item, r, head, stamp)
    ensures ValidChunks(ChunksFor(item, path))
  {
    ListedValid(r.chunks, path);
  }

  lemma ApartIffNoLine(a: Item, b: Item, r: Request, s: Request, heads: (string, string), stamps: (string, string),
                       path: string)
    requires r.Admit? && s.Admit? && ValidRequest(r) && ValidRequest(s)
    requires ItemSays(a, r, heads.0, stamps.0) && ItemSays(b, s, heads.1, stamps.1)
    ensures ChunksApart(ChunksFor(a, path), ChunksFor(b, path)) <==> ShareNoLine(r, s, path)
  {
    ListedRangesValid(a, r, heads.0, stamps.0, path);
    ListedRangesValid(b, s, heads.1, stamps.1, path);
    ApartMeansNoSharedLine(ChunksFor(a, path), ChunksFor(b, path));
    forall line
      ensures HasLine(ChunksFor(a, path), line) <==> ClaimsLine(r.chunks, path, line)
      ensures HasLine(ChunksFor(b, path), line) <==> ClaimsLine(s.chunks, path, line)
    {
      ClaimsAsListed(a, r, heads.0, stamps.0, path, line);
      ClaimsAsListed(b, s, heads.1, stamps.1, path, line);
    }
    ClaimsAsListed(a, r, heads.0, stamps.0, path, 0);
    ClaimsAsListed(b, s, heads.1, stamps.1, path, 0);
  }

  /** Two items may be in one batch exactly when the requests they came from fit together. */
  lemma CompatibleIffTogether(a: Item, b: Item, r: Request, s: Request, heads: (string, string), stamps: (string, string))
    requires r.Admit? && s.Admit? && ValidRequest(r) && ValidRequest(s)
    requires ItemSays(a, r, heads.0, stamps.0) && ItemSays(b, s, heads.1, stamps.1)
    ensures CompatibleItems(a, b) <==> Together(r, s)
  {
    forall path
      ensures PathCompatible(a, b, path) <==> Agree(r, s, path) || ShareNoLine(r, s, path)
      ensures path in StringSet(a.files) <==> path in r.files
      ensures path in StringSet(b.files) <==> path in s.files
    {
      PostconditionsAgree(a, b, r, s, heads, stamps, path);
      ApartIffNoLine(a, b, r, s, heads, stamps, path);
    }
  }

  // ---------------------------------------------------------------- over a run

  /** Command `k` of the log admitted the item. */
  ghost predicate AdmittedBy(log: seq<Commit>, k: nat, item: Item) {
    k < |log| && log[k].request.Admit? && Answers(StateAfter(log[..k]), log[k]) == Admitted(item)
  }

  lemma AdmittedBySays(log: seq<Commit>, k: nat, item: Item)
    requires AdmittedBy(log, k, item)
    ensures log[k].reading.head.Some? && ItemSays(item, log[k].request, log[k].reading.head.value, log[k].reading.stamp)
  {
    AdmissionMeans(StateAfter(log[..k]), log[k].request, log[k].reading);
  }

  lemma OnlyAdmitAdmits(q: QueueState, c: Commit)
    ensures Answers(q, c).Admitted? ==> c.request.Admit?
  {
  }

  lemma {:induction false} AdmittedInLog(log: seq<Commit>, item: Item)
    requires item in Replay(log).admitted
    ensures exists k: nat :: AdmittedBy(log, k, item)
  {
    if log != [] {
      var n := |log| - 1;
      var front, last := log[..n], log[n];
      OnlyAdmitAdmits(StateAfter(front), last);
      if item in Replay(front).admitted {
        AdmittedInLog(front, item);
        var k: nat :| AdmittedBy(front, k, item);
        assert front[..k] == log[..k];
        assert AdmittedBy(log, k, item);
      } else {
        assert AdmittedBy(log, n, item);
      }
    }
  }

  /** Every item of the active batch was admitted by some command of the log. */
  lemma ActiveItemAdmitted(log: seq<Commit>, i: nat) returns (k: nat)
    requires ValidLog(log) && StateAfter(log).active.Some? && i < |StateAfter(log).active.value.items|
    ensures AdmittedBy(log, k, StateAfter(log).active.value.items[i])
  {
    ReachableStates(log);
    var q := StateAfter(log);
    var item := q.active.value.items[i];
    assert item in multiset(q.active.value.items) && item in KeptItems(q);
    AdmittedInLog(log, item);
    k :| AdmittedBy(log, k, item);
  }

  /**
   Requests that claim a line of one file are never active together, unless they agree
   on the file's final state; and without chunks on both sides a shared file needs that
   agreement too.
   */
  lemma ActiveRequestsFit(log: seq<Commit>, i: nat, j: nat) returns (k: nat, m: nat)
    requires ValidLog(log) && StateAfter(log).active.Some? && i < j < |StateAfter(log).active.value.items|
    ensures k != m && AdmittedBy(log, k, StateAfter(log).active.value.items[i])
    ensures AdmittedBy(log, m, StateAfter(log).active.value.items[j])
    ensures Together(log[k].request, log[m].request)
  {
    k := ActiveItemAdmitted(log, i);
    m := ActiveItemAdmitted(log, j);
    ReachableStates(log);
    var items := StateAfter(log).active.value.items;
    AdmittedBySays(log, k, items[i]);
    AdmittedBySays(log, m, items[j]);
    assert CompatibleItems(items[i], items[j]) && items[i].id != items[j].id;
    CompatibleIffTogether(items[i], items[j], log[k].request, log[m].request,
                          (log[k].reading.head.value, log[m].reading.head.value),
                          (log[k].reading.stamp, log[m].reading.stamp));
  }

  // ---------------------------------------------------------------- drain and completion

  /** The scan stops at item `i`, which was planned at another HEAD; everything scanned before was fine. */
  predicate StaleAt(pending: seq<Item>, head: string, i: nat) {
    && i < |pending| && pending[i].baseHead != head
    && (forall k :: 0 <= k < i ==> pending[k].baseHead == head)
    && forall k, m :: 0 <= k < i && k < m < |pending| ==> CompatibleItems(pending[k], pending[m])
  }

  /** The scan stops at the pair `i`, `j`. */
  predicate ConflictAt(pending: seq<Item>, head: string, i: nat, j: nat) {
    && i < j < |pending| && !CompatibleItems(pending[i], pending[j])
    && (forall k :: 0 <= k <= i ==> pending[k].baseHead == head)
    && (forall k, m :: 0 <= k < i && k < m < |pending| ==> CompatibleItems(pending[k], pending[m]))
    && forall m :: i < m < j ==> CompatibleItems(pending[i], pending[m])
  }

  ghost predicate ScanStops(pending: seq<Item>, head: string, o: Obstacle) {
    match o
    case Stale(i) => StaleAt(pending, head, i)
    case Conflict(i, j) => ConflictAt(pending, head, i, j)
  }

  lemma {:induction false} FirstObstacleStops(pending: seq<Item>, head: string, i: nat, j: nat)
    requires i <= j
    requires forall k :: 0 <= k < i && k < |pending| ==> pending[k].baseHead == head
    requires forall k, m :: 0 <= k < i && k < m < |pending| ==> CompatibleItems(pending[k], pending[m])
    requires i < j && i < |pending| ==> pending[i].baseHead == head
    requires forall m :: i < m < j && m < |pending| ==> CompatibleItems(pending[i], pending[m])
    ensures FirstObstacle(pending, head, i, j).Some? ==>
      ScanStops(pending, head, FirstObstacle(pending, head, i, j).value)
    decreases |pending| - i, |pending| - j
  {
    if i < |pending| {
      if i == j && pending[i].baseHead == head {
        FirstObstacleStops(pending, head, i, i + 1);
      } else if i < j && j >= |pending| {
        FirstObstacleStops(pending, head, i + 1, i + 1);
      } else if i < j < |pending| && CompatibleItems(pending[i], pending[j]) {
        FirstObstacleStops(pending, head, i, j + 1);
      }
    }
  }

  /** Only one place stops the scan, and then the items are not accepted. */
  lemma ScanStopsOnce(pending: seq<Item>, head: string, o: Obstacle, p: Obstacle)
    requires ScanStops(pending, head, o) && ScanStops(pending, head, p)
    ensures o == p && !Accepts(pending, head)
  {
  }

  lemma FirstObstacleIff(pending: seq<Item>, head: string, o: Obstacle)
    ensures FirstObstacle(pending, head, 0, 0) == Some(o) <==> ScanStops(pending, head, o)
  {
    PlansIffAccepts(pending, head);
    FirstObstacleStops(pending, head, 0, 0);
    if ScanStops(pending, head, o) {
      ScanStopsOnce(pending, head, o, o);
      ScanStopsOnce(pending, head, o, FirstObstacle(pending, head, 0, 0).value);
    }
  }

  /** The batch lists its items' ids, work items and agents in order and unites their files and validations. */
  ghost predicate BatchSays(b: Batch, items: seq<Item>, head: string, stamp: string) {
    && b.id == "batch-" + stamp && b.baseHead == head
    && |b.itemIds| == |b.workItems| == |b.agents| == |items|
    && (forall i :: 0 <= i < |items| ==>
      b.itemIds[i] == items[i].id && b.workItems[i] == items[i].workItem && b.agents[i] == items[i].agent)
    && (forall f :: f in b.files <==> exists i :: 0 <= i < |items| && f in items[i].files)
    && (forall v :: v in b.validation <==> exists i :: 0 <= i < |items| && v in items[i].validation)
  }

  lemma {:induction false} ValidationsUnited(items: seq<Item>, v: string)
    ensures v in ValidationUnion(items) <==> exists i :: 0 <= i < |items| && v in items[i].validation
  {
    if items != [] {
      var n := |items| - 1;
      var front := items[..n];
      ValidationsUnited(front, v);
      if i :| 0 <= i < |front| && v in front[i].validation {
        assert v in items[i].validation;
      }
      if i :| 0 <= i < |items| && v in items[i].validation {
        assert i < n ==> v in front[i].validation;
        assert i == n ==> v in StringSet(items[n].validation);
      }
    }
  }

  lemma PlannedBatchSays(items: seq<Item>, head: string, stamp: string)
    ensures BatchSays(PlannedBatch(items, head, "batch-" + stamp), items, head, stamp)
  {
    var b := PlannedBatch(items, head, "batch-" + stamp);
    assert FilesOf(items, b.files);
    forall v ensures v in b.validation <==> exists i :: 0 <= i < |items| && v in items[i].validation {
      ValidationsUnited(items, v);
    }
  }

  /** There is something to plan and a HEAD to plan at. */
  predicate CanPlan(q: QueueState, reading: Reading) {
    q.active.None? && q.pending != [] && reading.head.Some?
  }

  /** What each answer of a drain means. */
  lemma DrainMeans(q: QueueState, r: Request, reading: Reading)
    requires r.Drain?
    ensures var (after, answer) := Execute(q, r, reading);
      && (answer == Blocked(ActiveBatch) <==> q.active.Some?)
      && (answer == NothingPending <==> q.active.None? && q.pending == [])
      && (answer == Blocked(HeadUnavailable) <==> q.active.None? && q.pending != [] && reading.head.None?)
      && (answer == Blocked(StaleBaseHead) <==>
        CanPlan(q, reading) && exists i :: StaleAt(q.pending, reading.head.value, i))
      && (answer == Blocked(QueueConflict) <==>
        CanPlan(q, reading) && exists i, j :: ConflictAt(q.pending, reading.head.value, i, j))
      && (answer.Previewed? <==> CanPlan(q, reading) && Accepts(q.pending, reading.head.value) && !r.confirm)
      && (answer.Activated? <==> CanPlan(q, reading) && Accepts(q.pending, reading.head.value) && r.confirm)
  {
    if CanPlan(q, reading) {
      var head := reading.head.value;
      PlansIffAccepts(q.pending, head);
      forall o ensures FirstObstacle(q.pending, head, 0, 0) == Some(o) <==> ScanStops(q.pending, head, o) {
        FirstObstacleIff(q.pending, head, o);
      }
      forall i ensures StaleAt(q.pending, head, i) <==> ScanStops(q.pending, head, Stale(i)) {
      }
      forall i, j ensures ConflictAt(q.pending, head, i, j) <==> ScanStops(q.pending, head, Conflict(i, j)) {
      }
    }
  }

  /** A preview and an activated batch describe the pending items; activating takes all of them. */
  lemma DrainTakesPending(q: QueueState, r: Request, reading: Reading)
    requires r.Drain?
    ensures var (after, answer) := Execute(q, r, reading);
      && (answer.Previewed? || answer.Activated? ==>
        BatchSays(answer.batch, q.pending, reading.head.value, reading.stamp))
      && (answer.Previewed? ==> answer.batch.status == Preview)
      && (answer.Activated? ==> answer.batch.status == Active && answer.batch.startedAt == reading.stamp2)
      && (answer.Activated? ==> answer.batch.items == q.pending)
      && after == if answer.Activated? then QueueState([], Some(answer.batch), q.receipts) else q
  {
    if CanPlan(q, reading) {
      PlannedBatchSays(q.pending, reading.head.value, reading.stamp);
    }
  }

  /**
   Only the named batch is completed; its receipt carries the requested status and the
   time and is otherwise the batch, and the oldest of a hundred receipts goes.
   */
  lemma CompletionMeans(q: QueueState, r: Request, reading: Reading)
    requires r.Complete?
    ensures var (after, answer) := Execute(q, r, reading);
      && (answer.Completed? <==> q.active.Some? && q.active.value.id == r.batch)
      && (answer == Blocked(BatchMismatch) <==> !answer.Completed?)
      && (!answer.Completed? ==> after == q)
      && (answer.Completed? ==>
        var batch, receipt := q.active.value, answer.receipt;
        && receipt.id == r.batch && receipt.status == r.status && receipt.completedAt == reading.stamp
        && receipt.(status := batch.status, completedAt := batch.completedAt) == batch
        && after.active == None && after.pending == q.pending
        && q.receipts + [receipt] == (if |q.receipts| >= 100 then [q.receipts[0]] else []) + after.receipts)
  {
  }

  /** The state file changes exactly with an answer that says so, and then holds the atomic queue's state. */
  lemma AnswerMeans(file: Option<QueueState>, locked: bool, readable: bool, writable: bool, r: Request, reading: Reading)
    ensures var (answer, after) := Answer(file, locked, readable, writable, r, reading);
      var start := if file.None? then EMPTY_STATE else file.value;
      && (Mutates(answer) ==> ValidRequest(r) && !locked && writable && (file.Some? ==> readable))
      && (Mutates(answer) ==> answer == Execute(start, r, reading).1 && after == Some(Execute(start, r, reading).0))
      && (!Mutates(answer) ==> after == file)
      && (ValidRequest(r) && !locked && (file.None? || readable) && writable ==> answer == Execute(start, r, reading).1)
      && (answer == Blocked(StateWriteFailed) ==> !writable && Mutates(Execute(start, r, reading).1))
      && (answer == Blocked(QueueLocked) <==> ValidRequest(r) && locked)
      && (answer == Blocked(StateInvalid) <==> ValidRequest(r) && !locked && file.Some? && !readable)
      && (answer == Blocked(InvalidAdmission) || answer == Blocked(InvalidCompletion) <==> !ValidRequest(r))
  {
  }
}

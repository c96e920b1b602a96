/** Admission items of the agent mutation queue, their compatibility, and batch planning. */
module QueueBatch {
  import opened Common

  /** Inclusive line range. */
  datatype Chunk = Chunk(start: int, end: int)

  datatype Item = Item(
    id: string, baseHead: string, workItem: string, agent: string,
    files: seq<string>, chunks: map<string, seq<Chunk>>, postconditions: map<string, string>,
    validation: seq<string>, admittedAt: string)

  datatype Status = Planned | Preview | Active | Succeeded | Failed | Cancelled

  datatype Batch = Batch(
    id: string, baseHead: string, itemIds: seq<string>, workItems: seq<string>, agents: seq<string>,
    files: set<string>, validation: set<string>, status: Status,
    startedAt: string, items: seq<Item>, completedAt: string)

  function StringSet(values: seq<string>): set<string> {
    set v | v in values
  }

  function ChunksFor(item: Item, path: string): seq<Chunk> {
    if path in item.chunks then item.chunks[path] else []
  }

  function PostconditionFor(item: Item, path: string): string {
    if path in item.postconditions then item.postconditions[path] else ""
  }

  // ---------------------------------------------------------------- chunks

  predicate Apart(a: Chunk, b: Chunk) {
    a.end < b.start || b.end < a.start
  }

  predicate ChunksApart(a: seq<Chunk>, b: seq<Chunk>) {
    a != [] && b != [] && forall i, j :: 0 <= i < |a| && 0 <= j < |b| ==> Apart(a[i], b[j])
  }

  method ChunksDoNotOverlap(first: seq<Chunk>, second: seq<Chunk>) returns (r: bool)
    ensures r == ChunksApart(first, second)
  {
    if first == [] || second == [] {
      return false;
    }
    for i := 0 to |first|
      invariant forall k, j :: 0 <= k < i && 0 <= j < |second| ==> Apart(first[k], second[j])
    {
      for j := 0 to |second|
        invariant forall k :: 0 <= k < j ==> Apart(first[i], second[k])
      {
        if !(first[i].end < second[j].start || second[j].end < first[i].start) {
          assert !Apart(first[i], second[j]);
          return false;
        }
      }
    }
    return true;
  }

  predicate HasLine(chunks: seq<Chunk>, line: int) {
    exists i :: 0 <= i < |chunks| && chunks[i].start <= line <= chunks[i].end
  }

  /** The ranges admission accepts. */
  predicate ValidChunks(chunks: seq<Chunk>) {
    forall i :: 0 <= i < |chunks| ==> 0 < chunks[i].start <= chunks[i].end
  }

  /** On admitted ranges, the interval test says that no line belongs to both sides. */
  lemma ApartMeansNoSharedLine(a: seq<Chunk>, b: seq<Chunk>)
    requires ValidChunks(a) && ValidChunks(b)
    ensures ChunksApart(a, b) <==> a != [] && b != [] && forall line :: !(HasLine(a, line) && HasLine(b, line))
  {
    if a != [] && b != [] && !ChunksApart(a, b) {
      var i, j :| 0 <= i < |a| && 0 <= j < |b| && !Apart(a[i], b[j]);
      var line := if a[i].start < b[j].start then b[j].start else a[i].start;
      assert HasLine(a, line) && HasLine(b, line);
    }
  }

  // ---------------------------------------------------------------- compatibility

  /** Two intents on one shared path. */
  predicate PathCompatible(a: Item, b: Item, path: string) {
    || (PostconditionFor(a, path) != "" && PostconditionFor(a, path) == PostconditionFor(b, path))
    || ChunksApart(ChunksFor(a, path), ChunksFor(b, path))
  }

  predicate CompatibleItems(a: Item, b: Item) {
    forall path :: path in StringSet(a.files) ==> path in StringSet(b.files) ==> PathCompatible(a, b, path)
  }

  method Compatible(first: Item, second: Item) returns (r: bool)
    ensures r == CompatibleItems(first, second)
  {
    var rest, secondFiles := StringSet(first.files), StringSet(second.files);
    while rest != {}
      invariant rest <= StringSet(first.files)
      invariant forall path :: path in StringSet(first.files) - rest ==>
        path in secondFiles ==> PathCompatible(first, second, path)
      decreases rest
    {
      var path :| path in rest;
      rest := rest - {path};
      if path in secondFiles {
        var firstPost, secondPost := PostconditionFor(first, path), PostconditionFor(second, path);
        if firstPost == "" || firstPost != secondPost {
          var apart := ChunksDoNotOverlap(ChunksFor(first, path), ChunksFor(second, path));
          if !apart {
            assert !PathCompatible(first, second, path);
            return false;
          }
        }
      }
    }
    return true;
  }

  lemma CompatibilityIsSymmetric(a: Item, b: Item)
    ensures CompatibleItems(a, b) <==> CompatibleItems(b, a)
  {
    forall path ensures PathCompatible(a, b, path) <==> PathCompatible(b, a, path) {
      ApartIsSymmetric(ChunksFor(a, path), ChunksFor(b, path));
    }
  }

  lemma ApartIsSymmetric(a: seq<Chunk>, b: seq<Chunk>)
    ensures ChunksApart(a, b) <==> ChunksApart(b, a)
  {
    if ChunksApart(a, b) {
      assert forall i, j :: 0 <= i < |b| && 0 <= j < |a| ==> Apart(a[j], b[i]) && Apart(b[i], a[j]);
    }
    if ChunksApart(b, a) {
      assert forall i, j :: 0 <= i < |a| && 0 <= j < |b| ==> Apart(b[j], a[i]) && Apart(a[i], b[j]);
    }
  }

  // ---------------------------------------------------------------- batches

  datatype Obstacle = Stale(index: nat) | Conflict(first: nat, second: nat)

  /** Batch planning accepts: every item is at HEAD and every pair is compatible. */
  predicate Accepts(pending: seq<Item>, head: string) {
    && (forall i :: 0 <= i < |pending| ==> pending[i].baseHead == head)
    && (forall i, j :: 0 <= i < j < |pending| ==> CompatibleItems(pending[i], pending[j]))
  }

  /** The first obstacle in scan order, from item `i` and, within it, partner `j`. */
  function FirstObstacle(pending: seq<Item>, head: string, i: nat, j: nat): Option<Obstacle>
    requires i <= j
    decreases |pending| - i, |pending| - j
  {
    if i >= |pending| then None
    else if i == j && pending[i].baseHead != head then Some(Stale(i))
    else if i == j then FirstObstacle(pending, head, i, i + 1)
    else if j >= |pending| then FirstObstacle(pending, head, i + 1, i + 1)
    else if !CompatibleItems(pending[i], pending[j]) then Some(Conflict(i, j))
    else FirstObstacle(pending, head, i, j + 1)
  }

  lemma {:induction false} ObstacleIffRejected(pending: seq<Item>, head: string, i: nat, j: nat)
    requires i <= j
    requires forall k :: 0 <= k < i && k < |pending| ==> pending[k].baseHead == head
    requires forall k, m :: 0 <= k < i && k < m < |pending| ==> CompatibleItems(pending[k], pending[m])
    requires i < j && i < |pending| ==> pending[i].baseHead == head
    requires forall m :: i < m < j && m < |pending| ==> CompatibleItems(pending[i], pending[m])
    ensures FirstObstacle(pending, head, i, j) == None <==> Accepts(pending, head)
    decreases |pending| - i, |pending| - j
  {
    if i < |pending| {
      if i == j && pending[i].baseHead == head {
        ObstacleIffRejected(pending, head, i, i + 1);
      } else if i < j && j >= |pending| {
        ObstacleIffRejected(pending, head, i + 1, i + 1);
      } else if i < j < |pending| && CompatibleItems(pending[i], pending[j]) {
        ObstacleIffRejected(pending, head, i, j + 1);
      }
    }
  }

  /** Planning accepts exactly when all items are at HEAD and pairwise compatible. */
  lemma PlansIffAccepts(pending: seq<Item>, head: string)
    ensures FirstObstacle(pending, head, 0, 0) == None <==> Accepts(pending, head)
  {
    ObstacleIffRejected(pending, head, 0, 0);
  }

  ghost predicate FilesOf(items: seq<Item>, files: set<string>) {
    forall f :: f in files <==> exists i :: 0 <= i < |items| && f in items[i].files
  }

  function FileUnion(items: seq<Item>): (files: set<string>)
    ensures FilesOf(items, files)
  {
    if items == [] then {} else
      var front := items[..|items| - 1];
      assert items == front + [items[|items| - 1]];
      FileUnion(front) + StringSet(items[|items| - 1].files)
  }

  function ValidationUnion(items: seq<Item>): set<string> {
    if items == [] then {} else ValidationUnion(items[..|items| - 1]) + StringSet(items[|items| - 1].validation)
  }

  function PlannedBatch(pending: seq<Item>, head: string, id: string): Batch {
    Batch(id, head, seq(|pending|, i requires 0 <= i < |pending| => pending[i].id),
          seq(|pending|, i requires 0 <= i < |pending| => pending[i].workItem),
          seq(|pending|, i requires 0 <= i < |pending| => pending[i].agent),
          FileUnion(pending), ValidationUnion(pending), Planned, "", [], "")
  }

  method BuildBatch(pending: seq<Item>, head: string, id: string) returns (obstacle: Option<Obstacle>, batch: Batch)
    ensures obstacle == FirstObstacle(pending, head, 0, 0)
    ensures obstacle == None ==> batch == PlannedBatch(pending, head, id)
  {
    batch := PlannedBatch([], head, id);
    for first := 0 to |pending|
      invariant FirstObstacle(pending, head, 0, 0) == FirstObstacle(pending, head, first, first)
    {
      if pending[first].baseHead != head {
        return Some(Stale(first)), batch;
      }
      for second := first + 1 to |pending|
        invariant FirstObstacle(pending, head, 0, 0) == FirstObstacle(pending, head, first, second)
      {
        var ok := Compatible(pending[first], pending[second]);
        if !ok {
          return Some(Conflict(first, second)), batch;
        }
      }
    }
    obstacle := None;
    for i := 0 to |pending|
      invariant batch == PlannedBatch(pending[..i], head, id)
    {
      var item := pending[i];
      assert pending[..i + 1][..i] == pending[..i];
      batch := batch.(itemIds := batch.itemIds + [item.id], workItems := batch.workItems + [item.workItem],
                      agents := batch.agents + [item.agent], files := batch.files + StringSet(item.files),
                      validation := batch.validation + StringSet(item.validation));
    }
    assert pending[..|pending|] == pending;
  }

  // ---------------------------------------------------------------- permutations

  /** The verdict in terms of how often each item occurs. */
  ghost predicate AcceptsBag(bag: multiset<Item>, head: string) {
    && (forall x :: x in bag ==> x.baseHead == head)
    && (forall x, y :: x in bag && y in bag && (x != y || bag[x] >= 2) ==> CompatibleItems(x, y))
  }

  lemma Occurs(s: seq<Item>, i: nat, j: nat)
    requires i < j < |s|
    ensures s[i] in multiset(s) && s[j] in multiset(s)
    ensures s[i] == s[j] ==> multiset(s)[s[i]] >= 2
  {
    assert s == s[..j] + s[j..];
    assert s[..j][i] in multiset(s[..j]) && s[j..][0] in multiset(s[j..]);
  }

  lemma {:induction false} OccursTwice(s: seq<Item>, x: Item) returns (i: nat, j: nat)
    requires multiset(s)[x] >= 2
    ensures i < j < |s| && s[i] == x && s[j] == x
  {
    assert s == s[..|s| - 1] + [s[|s| - 1]];
    var front := s[..|s| - 1];
    if multiset(front)[x] >= 2 {
      i, j := OccursTwice(front, x);
    } else {
      assert x in multiset(front);
      i :| 0 <= i < |front| && front[i] == x;
      j := |s| - 1;
    }
  }

  lemma AcceptsByBag(pending: seq<Item>, head: string)
    ensures Accepts(pending, head) <==> AcceptsBag(multiset(pending), head)
  {
    var bag := multiset(pending);
    if Accepts(pending, head) {
      forall x, y | x in bag && y in bag && (x != y || bag[x] >= 2) ensures CompatibleItems(x, y) {
        if x == y {
          var i, j := OccursTwice(pending, x);
        } else {
          var i :| 0 <= i < |pending| && pending[i] == x;
          var j :| 0 <= j < |pending| && pending[j] == y;
          CompatibilityIsSymmetric(x, y);
        }
      }
    }
    if AcceptsBag(bag, head) {
      forall i, j | 0 <= i < j < |pending| ensures CompatibleItems(pending[i], pending[j]) {
        Occurs(pending, i, j);
      }
      forall i | 0 <= i < |pending| ensures pending[i].baseHead == head {
        assert pending[i] in bag;
      }
    }
  }

  /** The planning verdict does not depend on the order of admission. */
  lemma VerdictIgnoresOrder(pending: seq<Item>, other: seq<Item>, head: string)
    requires multiset(pending) == multiset(other)
    ensures FirstObstacle(pending, head, 0, 0) == None <==> FirstObstacle(other, head, 0, 0) == None
  {
    PlansIffAccepts(pending, head);
    PlansIffAccepts(other, head);
    AcceptsByBag(pending, head);
    AcceptsByBag(other, head);
  }
}

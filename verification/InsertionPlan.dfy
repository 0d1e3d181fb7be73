/**
 Planning a confirmed block insertion from committed server responses: the
 responses are validated against what the editor knew, the whole hierarchy is
 measured by a memoised walk, and only then a forest is built.

 Ids are numbers ordered as localeCompare orders the strings (assumed to be a
 total order); 0 stands for the empty string.
 */
module InsertionPlan {
  import opened Options

  type Id = nat

  datatype Block = Block(id: Id, pageId: Id, version: int, sortOrder: int, parent: Option<Id>)

  const MAX_SAFE_INTEGER := 9007199254740991

  const MAX_DEPTH: nat := 128

  predicate PositiveVersion(v: int) {
    0 < v <= MAX_SAFE_INTEGER
  }

  // ----- indexing -----

  predicate ValidBlock(block: Block, page: Id) {
    && block.id != 0 && block.pageId == page && PositiveVersion(block.version)
    && 0 <= block.sortOrder <= MAX_SAFE_INTEGER
    && block.parent != Some(0)
  }

  predicate UniqueIds(blocks: seq<Block>) {
    forall i, j :: 0 <= i < j < |blocks| ==> blocks[i].id != blocks[j].id
  }

  predicate WellFormed(blocks: seq<Block>, page: Id) {
    UniqueIds(blocks) && forall i :: 0 <= i < |blocks| ==> ValidBlock(blocks[i], page)
  }

  /** The map holds exactly the listed blocks under their ids. */
  ghost predicate Indexes(byId: map<Id, Block>, blocks: seq<Block>) {
    && (forall i :: 0 <= i < |blocks| ==> blocks[i].id in byId && byId[blocks[i].id] == blocks[i])
    && (forall id :: id in byId ==> byId[id].id == id && byId[id] in blocks)
  }

  function IndexOf(blocks: seq<Block>): map<Id, Block> {
    if blocks == [] then map[]
    else
      var last := blocks[|blocks| - 1];
      IndexOf(blocks[..|blocks| - 1])[last.id := last]
  }

  lemma {:induction false} IndexOfIndexes(blocks: seq<Block>)
    requires UniqueIds(blocks)
    ensures Indexes(IndexOf(blocks), blocks) && |IndexOf(blocks)| == |blocks|
    decreases |blocks|
  {
    if blocks != [] {
      var front, last := blocks[..|blocks| - 1], blocks[|blocks| - 1];
      IndexOfIndexes(front);
      assert blocks == front + [last];
      assert last.id !in IndexOf(front);
    }
  }

  /** The test for one more block. */
  lemma OneMoreBlock(blocks: seq<Block>, i: nat, page: Id)
    requires i < |blocks| && WellFormed(blocks[..i], page)
    ensures WellFormed(blocks[..i + 1], page) <==>
      ValidBlock(blocks[i], page) && blocks[i].id !in IndexOf(blocks[..i])
  {
    var front := blocks[..i];
    IndexOfIndexes(front);
    assert blocks[..i + 1] == front + [blocks[i]];
    if blocks[i].id in IndexOf(front) {
      var j :| 0 <= j < |front| && front[j] == IndexOf(front)[blocks[i].id];
      assert blocks[..i + 1][j].id == blocks[..i + 1][i].id;
    }
  }

  lemma PrefixIsWellFormed(blocks: seq<Block>, i: nat, page: Id)
    requires i <= |blocks| && WellFormed(blocks, page)
    ensures WellFormed(blocks[..i], page)
  {
  }

  method IndexBlocks(blocks: seq<Block>, page: Id) returns (r: Option<map<Id, Block>>)
    ensures r.Some? <==> WellFormed(blocks, page)
    ensures r.Some? ==> r.value == IndexOf(blocks)
  {
    var byId: map<Id, Block> := map[];
    for i := 0 to |blocks|
      invariant WellFormed(blocks[..i], page) && byId == IndexOf(blocks[..i])
    {
      var block := blocks[i];
      OneMoreBlock(blocks, i, page);
      if !ValidBlock(block, page) || block.id in byId {
        if WellFormed(blocks, page) { PrefixIsWellFormed(blocks, i + 1, page); }
        return None;
      }
      byId := byId[block.id := block];
      assert blocks[..i + 1][..i] == blocks[..i];
    }
    assert blocks[..|blocks|] == blocks;
    r := Some(byId);
  }

  // ----- the depth walk -----

  /** Exactly `d` parent links lead from the block to a root. */
  ghost predicate AtDepth(byId: map<Id, Block>, id: Id, d: nat)
    decreases d
  {
    id in byId &&
    match byId[id].parent
    case None => d == 0
    case Some(p) => d > 0 && AtDepth(byId, p, d - 1)
  }

  /** The parent chain reaches a root within 129 blocks, the block itself included. */
  ghost predicate Rooted(byId: map<Id, Block>, id: Id) {
    exists d: nat :: d <= MAX_DEPTH && AtDepth(byId, id, d)
  }

  lemma {:induction false} DepthIsUnique(byId: map<Id, Block>, id: Id, d: nat, e: nat)
    requires AtDepth(byId, id, d) && AtDepth(byId, id, e)
    ensures d == e
    decreases d
  {
    if byId[id].parent.Some? {
      DepthIsUnique(byId, byId[id].parent.value, d - 1, e - 1);
    }
  }

  /** The blocks walked so far, each the child of the next; `cursor` is the last one's parent. */
  ghost predicate Trail(byId: map<Id, Block>, trail: seq<Id>, cursor: Option<Id>) {
    && (forall i :: 0 <= i < |trail| ==> trail[i] in byId)
    && (forall i :: 0 <= i < |trail| - 1 ==> byId[trail[i]].parent == Some(trail[i + 1]))
    && (trail != [] ==> byId[trail[|trail| - 1]].parent == cursor)
  }

  /** A rooted first block roots every block of the trail, one link closer each. */
  lemma {:induction false} TrailDepths(byId: map<Id, Block>, trail: seq<Id>, cursor: Option<Id>, d: nat, i: nat)
    requires Trail(byId, trail, cursor) && trail != [] && AtDepth(byId, trail[0], d) && i < |trail|
    ensures i <= d && AtDepth(byId, trail[i], d - i)
    decreases i
  {
    if i > 0 {
      TrailDepths(byId, trail, cursor, d, i - 1);
      assert byId[trail[i - 1]].parent == Some(trail[i - 1 + 1]);
    }
  }

  lemma TrailCursorDepth(byId: map<Id, Block>, trail: seq<Id>, cursor: Option<Id>, d: nat)
    requires Trail(byId, trail, cursor) && trail != [] && AtDepth(byId, trail[0], d) && cursor.Some?
    ensures |trail| <= d && AtDepth(byId, cursor.value, d - |trail|)
  {
    TrailDepths(byId, trail, cursor, d, |trail| - 1);
  }

  /** Why the walk gives up: a missing parent, a repeated block, or too many blocks. */
  lemma GivenUpIsNotRooted(byId: map<Id, Block>, trail: seq<Id>, cursor: Id)
    requires Trail(byId, trail, Some(cursor)) && trail != []
    requires cursor !in byId || cursor in trail || |trail| > MAX_DEPTH
    ensures !Rooted(byId, trail[0])
  {
    forall d: nat | d <= MAX_DEPTH && AtDepth(byId, trail[0], d)
      ensures false
    {
      TrailCursorDepth(byId, trail, Some(cursor), d);
      if cursor in trail {
        var i :| 0 <= i < |trail| && trail[i] == cursor;
        TrailDepths(byId, trail, Some(cursor), d, i);
        DepthIsUnique(byId, cursor, d - i, d - |trail|);
      }
    }
  }

  /** What the memo may hold. */
  ghost predicate Measured(byId: map<Id, Block>, depths: map<Id, nat>) {
    forall id :: id in depths ==> depths[id] <= MAX_DEPTH && AtDepth(byId, id, depths[id])
  }

  /** Climbs from one block to a root or to a measured block. */
  method Climb(byId: map<Id, Block>, depths: map<Id, nat>, id: Id) returns (r: Option<(seq<Id>, Option<Id>)>)
    requires id in byId && id !in depths && Measured(byId, depths)
    ensures r.None? ==> !Rooted(byId, id)
    ensures r.Some? ==>
      && r.value.0 != [] && r.value.0[0] == id && Trail(byId, r.value.0, r.value.1)
      && (r.value.1.Some? ==> r.value.1.value in depths)
  {
    var cursor := Some(id);
    var trail: seq<Id> := [];
    var seen: set<Id> := {};
    while cursor.Some? && cursor.value !in depths
      invariant Trail(byId, trail, cursor) && |trail| <= MAX_DEPTH + 1
      invariant trail == [] ==> cursor == Some(id)
      invariant trail != [] ==> trail[0] == id
      invariant forall x :: x in seen <==> x in trail
      decreases MAX_DEPTH + 1 - |trail|
    {
      if cursor.value !in byId || cursor.value in seen || |trail| > MAX_DEPTH {
        GivenUpIsNotRooted(byId, trail, cursor.value);
        return None;
      }
      seen := seen + {cursor.value};
      trail := trail + [cursor.value];
      cursor := byId[cursor.value].parent;
    }
    r := Some((trail, cursor));
  }

  /** Measures the walked blocks from the top down. */
  method Descend(byId: map<Id, Block>, known: map<Id, nat>, walked: seq<Id>, cursor: Option<Id>)
    returns (r: Option<map<Id, nat>>)
    requires Measured(byId, known) && Trail(byId, walked, cursor)
    requires cursor.Some? ==> cursor.value in known
    ensures r.None? ==> exists id :: id in byId && !Rooted(byId, id)
    ensures r.Some? ==>
      Measured(byId, r.value) && known.Keys <= r.value.Keys && (forall x :: x in walked ==> x in r.value)
  {
    var trail := walked;
    var depths: map<Id, nat> := known;
    var depth: int := if cursor.None? then -1 else depths[cursor.value];
    while trail != []
      invariant Measured(byId, depths) && known.Keys <= depths.Keys
      invariant |trail| <= |walked| && trail == walked[..|trail|]
      invariant forall i :: |trail| <= i < |walked| ==> walked[i] in depths
      invariant -1 <= depth
      invariant trail != [] && byId[trail[|trail| - 1]].parent.None? ==> depth == -1
      invariant trail != [] && byId[trail[|trail| - 1]].parent.Some? ==>
        0 <= depth && AtDepth(byId, byId[trail[|trail| - 1]].parent.value, depth)
      decreases |trail|
    {
      var top := trail[|trail| - 1];
      depth := depth + 1;
      assert AtDepth(byId, top, depth);
      if depth > MAX_DEPTH {
        forall d: nat | d <= MAX_DEPTH && AtDepth(byId, top, d)
          ensures false
        {
          DepthIsUnique(byId, top, d, depth);
        }
        assert !Rooted(byId, top);
        return None;
      }
      depths := depths[top := depth];
      trail := trail[..|trail| - 1];
      if trail != [] {
        assert byId[walked[|trail| - 1]].parent == Some(walked[|trail| - 1 + 1]);
      }
    }
    r := Some(depths);
  }

  /** The walk accepts exactly the hierarchies whose every chain is short enough, in any order. */
  method WalkDepths(byId: map<Id, Block>, order: seq<Id>) returns (r: Option<map<Id, nat>>)
    requires forall id :: id in order <==> id in byId
    ensures r.Some? <==> forall id :: id in byId ==> Rooted(byId, id)
    ensures r.Some? ==> r.value.Keys >= byId.Keys && Measured(byId, r.value)
  {
    var depths: map<Id, nat> := map[];
    for i := 0 to |order|
      invariant Measured(byId, depths)
      invariant forall j :: 0 <= j < i ==> order[j] in depths
    {
      if order[i] !in depths {
        assert order[i] in order;
        var walk := Climb(byId, depths, order[i]);
        if walk.None? {
          return None;
        }
        var measured := Descend(byId, depths, walk.value.0, walk.value.1);
        if measured.None? {
          return None;
        }
        depths := measured.value;
      }
    }
    forall id | id in byId
      ensures id in depths && Rooted(byId, id)
    {
      assert id in order;
    }
    r := Some(depths);
  }

  // ----- sibling lists -----

  predicate Precedes(a: Block, b: Block) {
    a.sortOrder < b.sortOrder || (a.sortOrder == b.sortOrder && a.id < b.id)
  }

  function Siblings(blocks: seq<Block>, p: Option<Id>): seq<Block> {
    if blocks == [] then []
    else
      var last := blocks[|blocks| - 1];
      Siblings(blocks[..|blocks| - 1], p) + (if last.parent == p then [last] else [])
  }

  function Inserted(sorted: seq<Block>, b: Block): seq<Block> {
    if sorted == [] then [b]
    else if Precedes(b, sorted[0]) then [b] + sorted
    else [sorted[0]] + Inserted(sorted[1..], b)
  }

  function Sorted(blocks: seq<Block>): seq<Block> {
    if blocks == [] then [] else Inserted(Sorted(blocks[..|blocks| - 1]), blocks[|blocks| - 1])
  }

  ghost predicate Ascending(blocks: seq<Block>) {
    forall i, j :: 0 <= i < j < |blocks| ==> Precedes(blocks[i], blocks[j])
  }

  lemma {:induction false} InsertedKeeps(sorted: seq<Block>, b: Block)
    ensures multiset(Inserted(sorted, b)) == multiset(sorted) + multiset{b}
    ensures forall x :: x in Inserted(sorted, b) <==> x == b || x in sorted
    ensures |Inserted(sorted, b)| == |sorted| + 1
  {
    if sorted != [] {
      assert sorted == [sorted[0]] + sorted[1..];
      if !Precedes(b, sorted[0]) { InsertedKeeps(sorted[1..], b); }
    }
  }

  lemma {:induction false} InsertedAscends(sorted: seq<Block>, b: Block)
    requires Ascending(sorted) && forall x :: x in sorted ==> x.id != b.id
    ensures Ascending(Inserted(sorted, b))
  {
    if sorted != [] && !Precedes(b, sorted[0]) {
      var rest := Inserted(sorted[1..], b);
      InsertedAscends(sorted[1..], b);
      InsertedKeeps(sorted[1..], b);
      assert sorted[0] in sorted;
      assert forall k :: 0 <= k < |rest| ==> rest[k] in rest;
      assert forall x :: x in sorted[1..] ==> Precedes(sorted[0], x);
    }
  }

  lemma {:induction false} SortedAscends(blocks: seq<Block>)
    requires UniqueIds(blocks)
    ensures Ascending(Sorted(blocks)) && multiset(Sorted(blocks)) == multiset(blocks)
    decreases |blocks|
  {
    if blocks != [] {
      var front, last := blocks[..|blocks| - 1], blocks[|blocks| - 1];
      SortedAscends(front);
      assert blocks == front + [last];
      forall x | x in Sorted(front) ensures x.id != last.id {
        assert x in multiset(Sorted(front));
        assert x in front;
      }
      InsertedAscends(Sorted(front), last);
      InsertedKeeps(Sorted(front), last);
    }
  }

  lemma {:induction false} SiblingsMembers(blocks: seq<Block>, p: Option<Id>)
    requires UniqueIds(blocks)
    ensures forall b :: b in Siblings(blocks, p) <==> b in blocks && b.parent == p
    ensures UniqueIds(Siblings(blocks, p))
    decreases |blocks|
  {
    if blocks != [] {
      var front, last := blocks[..|blocks| - 1], blocks[|blocks| - 1];
      SiblingsMembers(front, p);
      assert blocks == front + [last];
      forall b | b in Siblings(front, p) ensures b.id != last.id {
        assert b in front;
      }
    }
  }

  // ----- the forest -----

  /** The nested result: each block's children, in order, and the roots. */
  datatype Forest = Forest(roots: seq<Block>, children: map<Id, seq<Block>>)

  function ListOf(f: Forest, p: Option<Id>): seq<Block> {
    match p
    case None => f.roots
    case Some(id) => if id in f.children then f.children[id] else []
  }

  /** Every block stands exactly once, under its own parent, among ascending siblings. */
  ghost predicate Faithful(f: Forest, blocks: seq<Block>) {
    && (forall id :: id in f.children <==> exists i :: 0 <= i < |blocks| && blocks[i].id == id)
    && (forall p :: Ascending(ListOf(f, p)))
    && (forall p, b :: b in ListOf(f, p) <==> b in blocks && b.parent == p)
  }

  /** What a reader of the forest sees: each block among the others of its parent, by position and then by id. */
  lemma FaithfulReads(f: Forest, blocks: seq<Block>, p: Option<Id>, i: nat, j: nat)
    requires Faithful(f, blocks) && i < j < |ListOf(f, p)|
    ensures var x, y := ListOf(f, p)[i], ListOf(f, p)[j];
      && x in blocks && x.parent == p && x.sortOrder <= y.sortOrder && (x.sortOrder == y.sortOrder ==> x.id < y.id)
    ensures forall b :: b in blocks ==> b in ListOf(f, b.parent) && b.id in f.children
  {
    assert ListOf(f, p)[i] in ListOf(f, p);
    assert Precedes(ListOf(f, p)[i], ListOf(f, p)[j]);
    assert forall b :: b in blocks ==> exists k :: 0 <= k < |blocks| && blocks[k].id == b.id;
  }

  /** The children arrays after the first blocks were pushed. */
  ghost predicate Pushed(f: Forest, byId: map<Id, Block>, blocks: seq<Block>) {
    f.children.Keys == byId.Keys && f.roots == Siblings(blocks, None)
    && forall id :: id in byId ==> f.children[id] == Siblings(blocks, Some(id))
  }

  method PushBlocks(byId: map<Id, Block>, blocks: seq<Block>) returns (f: Forest)
    requires forall i :: 0 <= i < |blocks| && blocks[i].parent.Some? ==> blocks[i].parent.value in byId
    ensures Pushed(f, byId, blocks)
  {
    var roots: seq<Block> := [];
    var children: map<Id, seq<Block>> := map id | id in byId :: [];
    for i := 0 to |blocks|
      invariant Pushed(Forest(roots, children), byId, blocks[..i])
    {
      var block := blocks[i];
      assert blocks[..i + 1][..i] == blocks[..i];
      if block.parent.None? {
        roots := roots + [block];
      } else {
        children := children[block.parent.value := children[block.parent.value] + [block]];
      }
    }
    assert blocks[..|blocks|] == blocks;
    f := Forest(roots, children);
  }

  /** Every children array is sorted in place. */
  method SortChildren(pushed: map<Id, seq<Block>>, keys: seq<Id>) returns (children: map<Id, seq<Block>>)
    requires Distinct(keys) && forall id :: id in keys <==> id in pushed
    ensures children.Keys == pushed.Keys
    ensures forall id :: id in pushed ==> children[id] == Sorted(pushed[id])
  {
    children := pushed;
    for i := 0 to |keys|
      invariant children.Keys == pushed.Keys
      invariant forall j :: 0 <= j < i ==> children[keys[j]] == Sorted(pushed[keys[j]])
      invariant forall j :: i <= j < |keys| ==> children[keys[j]] == pushed[keys[j]]
    {
      assert keys[i] in keys;
      children := children[keys[i] := Sorted(children[keys[i]])];
    }
    forall id | id in pushed
      ensures children[id] == Sorted(pushed[id])
    {
      assert id in keys;
    }
  }

  lemma SortedSiblings(blocks: seq<Block>, p: Option<Id>)
    requires UniqueIds(blocks)
    ensures Ascending(Sorted(Siblings(blocks, p)))
    ensures forall b :: b in Sorted(Siblings(blocks, p)) <==> b in blocks && b.parent == p
  {
    var list := Siblings(blocks, p);
    SiblingsMembers(blocks, p);
    SortedAscends(list);
    forall b ensures b in Sorted(list) <==> b in list {
      assert b in multiset(Sorted(list)) <==> b in multiset(list);
    }
  }

  /** The lists of the built forest are the sorted sibling lists. */
  ghost predicate Built(f: Forest, byId: map<Id, Block>, blocks: seq<Block>) {
    && Indexes(byId, blocks) && f.children.Keys == byId.Keys
    && f.roots == Sorted(Siblings(blocks, None))
    && forall id :: id in byId ==> f.children[id] == Sorted(Siblings(blocks, Some(id)))
  }

  lemma ParentIsKnown(byId: map<Id, Block>, blocks: seq<Block>, b: Block)
    requires Indexes(byId, blocks) && b in blocks && Rooted(byId, b.id)
    ensures b.parent.Some? ==> b.parent.value in byId
  {
    var i :| 0 <= i < |blocks| && blocks[i] == b;
    var d: nat :| d <= MAX_DEPTH && AtDepth(byId, b.id, d);
    assert b.parent.Some? ==> AtDepth(byId, b.parent.value, d - 1);
  }

  lemma BuiltList(f: Forest, byId: map<Id, Block>, blocks: seq<Block>, p: Option<Id>)
    requires Built(f, byId, blocks) && UniqueIds(blocks)
    requires p.Some? && p.value !in byId ==> forall b :: b in blocks ==> b.parent != p
    ensures Ascending(ListOf(f, p))
    ensures forall b :: b in ListOf(f, p) <==> b in blocks && b.parent == p
  {
    if p.None? || p.value in byId {
      SortedSiblings(blocks, p);
    }
  }

  lemma BuiltKeys(f: Forest, byId: map<Id, Block>, blocks: seq<Block>, id: Id)
    requires Built(f, byId, blocks)
    ensures id in f.children <==> exists i :: 0 <= i < |blocks| && blocks[i].id == id
  {
    if id in byId {
      var i :| 0 <= i < |blocks| && blocks[i] == byId[id];
    }
  }

  /** The forest built from a measured hierarchy loses nothing and moves nothing. */
  lemma BuiltForestIsFaithful(f: Forest, byId: map<Id, Block>, blocks: seq<Block>)
    requires Built(f, byId, blocks) && UniqueIds(blocks) && forall id :: id in byId ==> Rooted(byId, id)
    ensures Faithful(f, blocks)
  {
    forall p: Option<Id>
      ensures Ascending(ListOf(f, p)) && forall b :: b in ListOf(f, p) <==> b in blocks && b.parent == p
    {
      forall b | b in blocks ensures b.parent.Some? ==> b.parent.value in byId {
        ParentIsKnown(byId, blocks, b);
      }
      BuiltList(f, byId, blocks, p);
    }
    forall id ensures id in f.children <==> exists i :: 0 <= i < |blocks| && blocks[i].id == id {
      BuiltKeys(f, byId, blocks, id);
    }
  }

  // ----- the plan -----

  /** A committed response: the blocks it carries and the page version it confirms. */
  datatype CreateResult = CreateResult(block: Block, pageContentVersion: int, authoritative: bool)

  datatype OrderResult = OrderResult(blocks: seq<Block>, pageContentVersion: int)

  datatype Request = Request(
    pageId: Id,
    baseVersion: int,
    currentVersion: int,
    before: seq<Block>,
    current: seq<Block>,
    parent: Option<Id>,
    orderedIds: seq<Id>,
    create: CreateResult,
    order: Option<OrderResult>,
    dateIsValid: bool)

  function ResultVersion(q: Request): int {
    if q.order.Some? then q.order.value.pageContentVersion else q.create.pageContentVersion
  }

  predicate VersionsFit(q: Request) {
    && q.pageId != 0
    && PositiveVersion(q.baseVersion) && PositiveVersion(ResultVersion(q))
    && q.create.authoritative && q.create.pageContentVersion == q.baseVersion + 1
    && ResultVersion(q) == q.baseVersion + (if q.order.None? then 1 else 2)
    && q.currentVersion == ResultVersion(q)
    && q.dateIsValid && q.create.block.id != 0
  }

  function Canonical(q: Request): seq<Block> {
    if q.order.None? then q.current + [q.create.block] else q.order.value.blocks
  }

  /** Nothing structural raced with the operation. */
  predicate NothingRaced(q: Request, before: map<Id, Block>, current: map<Id, Block>) {
    && |before| == |current|
    && q.create.block.id !in before && q.create.block.id !in current
    && q.create.block.parent == q.parent
    && (q.parent.Some? ==> q.parent.value in before)
    && forall id :: id in before ==>
         && id in current && current[id].parent == before[id].parent
         && (q.order.None? ==> current[id].version == before[id].version && current[id].sortOrder == before[id].sortOrder)
  }

  /** The requested order names the old siblings and the new block. */
  predicate OrderFits(q: Request) {
    var originals := Siblings(q.before, q.parent);
    && |q.orderedIds| == |originals| + 1
    && q.create.block.id in q.orderedIds
    && forall i :: 0 <= i < |originals| ==> originals[i].id in q.orderedIds
  }

  predicate IsReordered(q: Request, id: Id) {
    q.order.Some? && id in q.orderedIds
  }

  /** Every confirmed block is the known one, one version later where it was reordered. */
  predicate BlockFits(q: Request, before: map<Id, Block>, current: map<Id, Block>, block: Block) {
    (block.id == q.create.block.id || block.id in before) &&
    var initial := if block.id == q.create.block.id then q.create.block else before[block.id];
    && block.parent == initial.parent
    && block.version == initial.version + (if IsReordered(q, block.id) then 1 else 0)
    && (block.id in current ==> current[block.id].version <= block.version)
    && (!IsReordered(q, block.id) ==> block.sortOrder == initial.sortOrder)
  }

  predicate Distinct(ids: seq<Id>) {
    forall i, j :: 0 <= i < j < |ids| ==> ids[i] != ids[j]
  }

  function IdsOf(blocks: seq<Block>): (ids: seq<Id>)
    ensures |ids| == |blocks| && forall i :: 0 <= i < |ids| ==> ids[i] == blocks[i].id
  {
    if blocks == [] then [] else [blocks[0].id] + IdsOf(blocks[1..])
  }

  /** No two siblings share a position. */
  predicate DistinctOrders(blocks: seq<Block>) {
    forall i, j :: 0 <= i < j < |blocks| ==> blocks[i].sortOrder != blocks[j].sortOrder
  }

  /** The responses confirm exactly the requested insertion. */
  predicate Confirms(q: Request, before: map<Id, Block>, current: map<Id, Block>) {
    var canonical := Canonical(q);
    && |canonical| == |before| + 1
    && (exists i :: 0 <= i < |canonical| && canonical[i].id == q.create.block.id)
    && (forall i :: 0 <= i < |canonical| ==> BlockFits(q, before, current, canonical[i]))
    && IdsOf(Sorted(Siblings(canonical, q.parent))) == q.orderedIds
    && DistinctOrders(Sorted(Siblings(canonical, q.parent)))
  }

  /** The first half: what the editor knew is whole and nothing changed it meanwhile. */
  predicate KnownFits(q: Request) {
    && VersionsFit(q) && Distinct(q.orderedIds)
    && WellFormed(q.before, q.pageId) && WellFormed(q.current, q.pageId) && ValidBlock(q.create.block, q.pageId)
    && NothingRaced(q, IndexOf(q.before), IndexOf(q.current)) && OrderFits(q)
  }

  /** A whole set of blocks whose every parent chain reaches a root in time. */
  ghost predicate Measurable(blocks: seq<Block>, page: Id) {
    WellFormed(blocks, page) && forall id :: id in IndexOf(blocks) ==> Rooted(IndexOf(blocks), id)
  }

  /** What a caller must present for the insertion to be applied without a refresh. */
  ghost predicate Accepts(q: Request) {
    KnownFits(q) && Confirms(q, IndexOf(q.before), IndexOf(q.current)) && Measurable(Canonical(q), q.pageId)
  }

  method CheckKnown(q: Request) returns (r: Option<(map<Id, Block>, map<Id, Block>)>)
    ensures r.Some? <==> KnownFits(q)
    ensures r.Some? ==> r.value == (IndexOf(q.before), IndexOf(q.current))
  {
    if !VersionsFit(q) || !Distinct(q.orderedIds) {
      return None;
    }
    var before := IndexBlocks(q.before, q.pageId);
    if before.None? {
      return None;
    }
    var current := IndexBlocks(q.current, q.pageId);
    if current.None? || !ValidBlock(q.create.block, q.pageId) || !NothingRaced(q, before.value, current.value)
       || !OrderFits(q)
    {
      return None;
    }
    r := Some((before.value, current.value));
  }

  /** The second half: an indexed page becomes a forest if its hierarchy can be measured. */
  method MeasureAndBuild(blocks: seq<Block>, page: Id, p: Option<Id>) returns (r: Option<Forest>)
    requires exists b :: b in blocks && b.parent == p
    ensures r.Some? <==> Measurable(blocks, page)
    ensures r.Some? ==> Faithful(r.value, blocks) && ListOf(r.value, p) == Sorted(Siblings(blocks, p))
  {
    var byId := IndexBlocks(blocks, page);
    if byId.None? {
      return None;
    }
    IndexOfIndexes(blocks);
    OrderIsComplete(byId.value, blocks);
    var depths := WalkDepths(byId.value, IdsOf(blocks));
    if depths.None? {
      return None;
    }
    var b :| b in blocks && b.parent == p;
    ParentIsKnown(byId.value, blocks, b);
    var forest := BuildForest(byId.value, blocks, p);
    r := Some(forest);
  }

  method ApplyConfirmed(q: Request, before: map<Id, Block>, current: map<Id, Block>) returns (r: Option<Forest>)
    requires q.create.block.parent == q.parent
    ensures r.Some? <==> Confirms(q, before, current) && Measurable(Canonical(q), q.pageId)
    ensures r.Some? ==> Faithful(r.value, Canonical(q)) && IdsOf(ListOf(r.value, q.parent)) == q.orderedIds
  {
    if !Confirms(q, before, current) {
      return None;
    }
    CreatedIsSibling(q, before, current);
    r := MeasureAndBuild(Canonical(q), q.pageId, q.parent);
  }

  method Plan(q: Request) returns (r: Option<Forest>)
    ensures r.Some? <==> Accepts(q)
    ensures r.Some? ==> Faithful(r.value, Canonical(q)) && IdsOf(ListOf(r.value, q.parent)) == q.orderedIds
  {
    var known := CheckKnown(q);
    if known.None? {
      return None;
    }
    r := ApplyConfirmed(q, known.value.0, known.value.1);
  }

  lemma CreatedIsSibling(q: Request, before: map<Id, Block>, current: map<Id, Block>)
    requires Confirms(q, before, current) && q.create.block.parent == q.parent
    ensures exists b :: b in Canonical(q) && b.parent == q.parent
  {
    var canonical := Canonical(q);
    var i :| 0 <= i < |canonical| && canonical[i].id == q.create.block.id;
    assert BlockFits(q, before, current, canonical[i]);
    assert canonical[i] in canonical;
  }

  lemma OrderIsComplete(byId: map<Id, Block>, blocks: seq<Block>)
    requires Indexes(byId, blocks)
    ensures forall id :: id in IdsOf(blocks) <==> id in byId
  {
    forall id ensures id in IdsOf(blocks) <==> id in byId {
      if id in byId {
        var i :| 0 <= i < |blocks| && blocks[i] == byId[id];
        assert IdsOf(blocks)[i] == id;
      }
    }
  }

  method BuildForest(byId: map<Id, Block>, blocks: seq<Block>, p: Option<Id>) returns (f: Forest)
    requires Indexes(byId, blocks) && UniqueIds(blocks) && forall id :: id in byId ==> Rooted(byId, id)
    ensures Faithful(f, blocks)
    ensures (p.None? || p.value in byId) ==> ListOf(f, p) == Sorted(Siblings(blocks, p))
  {
    forall b | b in blocks ensures b.parent.Some? ==> b.parent.value in byId {
      ParentIsKnown(byId, blocks, b);
    }
    var pushed := PushBlocks(byId, blocks);
    OrderIsComplete(byId, blocks);
    var children := SortChildren(pushed.children, IdsOf(blocks));
    f := Forest(Sorted(pushed.roots), children);
    BuiltForestIsFaithful(f, byId, blocks);
  }
}

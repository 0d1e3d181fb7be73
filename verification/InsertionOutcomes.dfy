/**
 What it takes for a confirmed insertion to be applied, told by the blocks the editor had, has and was answered, and by
 no index of them; and that the answers of a server nobody raced with are always applied.
 */
module InsertionOutcomes {
  import opened Options
  import opened InsertionPlan

  // ----- the conditions, block by block -----

  /** A whole list of one page's blocks. */
  ghost predicate Whole(blocks: seq<Block>, page: Id) {
    && (forall i, j :: 0 <= i < j < |blocks| ==> blocks[i].id != blocks[j].id)
    && forall b :: b in blocks ==>
         && b.id != 0 && b.pageId == page && b.parent != Some(0)
         && 0 < b.version <= 9007199254740991 && 0 <= b.sortOrder <= 9007199254740991
  }

  ghost predicate Has(blocks: seq<Block>, id: Id) {
    exists b :: b in blocks && b.id == id
  }

  /** The parent chain of a block, itself first, up to a root. */
  ghost predicate IsChain(blocks: seq<Block>, chain: seq<Block>) {
    && chain != [] && (forall i :: 0 <= i < |chain| ==> chain[i] in blocks)
    && (forall i :: 0 <= i < |chain| - 1 ==> chain[i].parent == Some(chain[i + 1].id))
    && chain[|chain| - 1].parent.None?
  }

  /** Every block has such a chain of at most 129 blocks. */
  ghost predicate Shallow(blocks: seq<Block>) {
    forall b :: b in blocks ==> exists chain :: IsChain(blocks, chain) && chain[0] == b && |chain| <= 129
  }

  /** The answers say that exactly this insertion has happened: one page version, or two with a new order. */
  predicate Answered(q: Request) {
    && q.pageId != 0 && q.create.authoritative && q.dateIsValid
    && 0 < q.baseVersion && q.create.pageContentVersion == q.baseVersion + 1
    && (q.order.None? ==> q.currentVersion == q.baseVersion + 1 <= 9007199254740991)
    && (q.order.Some? ==>
          q.currentVersion == q.order.value.pageContentVersion == q.baseVersion + 2 <= 9007199254740991)
  }

  /** The editor's blocks before the request and now: the same ones, in the same places, none of them the new one. */
  ghost predicate Unmoved(q: Request) {
    && (forall id :: Has(q.before, id) <==> Has(q.current, id))
    && (forall b, now :: b in q.before && now in q.current && b.id == now.id ==>
          && now.parent == b.parent
          && (q.order.None? ==> now.version == b.version && now.sortOrder == b.sortOrder))
    && !Has(q.before, q.create.block.id)
    && q.create.block.parent == q.parent && (q.parent.Some? ==> Has(q.before, q.parent.value))
  }

  /** The block as it was confirmed: moved in the order and one version later if it was ordered, otherwise unchanged. */
  predicate ConfirmedAs(q: Request, b: Block, confirmed: Block) {
    && confirmed.parent == b.parent
    && (q.order.Some? && b.id in q.orderedIds ==> confirmed.version == b.version + 1)
    && (q.order.None? || b.id !in q.orderedIds ==> confirmed.version == b.version && confirmed.sortOrder == b.sortOrder)
  }

  /** The confirmed page: the old blocks and the new one, each as it was confirmed and no older than the editor has it. */
  ghost predicate Extends(q: Request, page: seq<Block>) {
    && (forall id :: Has(page, id) <==> Has(q.before, id) || id == q.create.block.id)
    && (forall b, confirmed :: b in q.before && confirmed in page && b.id == confirmed.id ==> ConfirmedAs(q, b, confirmed))
    && (forall confirmed :: confirmed in page && confirmed.id == q.create.block.id ==>
          ConfirmedAs(q, q.create.block, confirmed))
    && (forall now, confirmed :: now in q.current && confirmed in page && now.id == confirmed.id ==>
          now.version <= confirmed.version)
  }

  /** The new siblings stand in the requested order, each at a position of its own. */
  ghost predicate Stands(page: seq<Block>, p: Option<Id>, ids: seq<Id>) {
    && (forall i, j :: 0 <= i < j < |ids| ==> ids[i] != ids[j])
    && (forall id :: id in ids <==> exists b :: b in page && b.id == id && b.parent == p)
    && (forall i, j, a, b :: 0 <= i < j < |ids| && a in page && b in page && a.id == ids[i] && b.id == ids[j] ==>
          a.sortOrder < b.sortOrder)
  }

  /** Everything the plan demands. */
  ghost predicate Undisturbed(q: Request) {
    && Answered(q)
    && Whole(q.before, q.pageId) && Whole(q.current, q.pageId) && Whole([q.create.block], q.pageId)
    && Unmoved(q)
    && Whole(Canonical(q), q.pageId) && Shallow(Canonical(q))
    && Extends(q, Canonical(q)) && Stands(Canonical(q), q.parent, q.orderedIds)
  }

  // ----- the parts -----

  lemma WholeExactly(blocks: seq<Block>, page: Id)
    ensures WellFormed(blocks, page) <==> Whole(blocks, page)
  {
    if Whole(blocks, page) {
      forall i | 0 <= i < |blocks| ensures ValidBlock(blocks[i], page) {
        assert blocks[i] in blocks;
      }
    }
  }

  lemma AnsweredExactly(q: Request)
    ensures VersionsFit(q) && q.create.block.id != 0 <==> Answered(q) && q.create.block.id != 0
  {
  }

  lemma HasIndexed(byId: map<Id, Block>, blocks: seq<Block>, id: Id)
    requires Indexes(byId, blocks)
    ensures id in byId <==> Has(blocks, id)
  {
    if Has(blocks, id) {
      var b :| b in blocks && b.id == id;
    }
  }

  lemma HasAll(blocks: seq<Block>)
    requires UniqueIds(blocks)
    ensures Indexes(IndexOf(blocks), blocks) && |IndexOf(blocks)| == |blocks|
    ensures forall id :: id in IndexOf(blocks) <==> Has(blocks, id)
  {
    IndexOfIndexes(blocks);
    forall id ensures id in IndexOf(blocks) <==> Has(blocks, id) {
      HasIndexed(IndexOf(blocks), blocks, id);
    }
  }

  lemma MapsOfOneSize(a: map<Id, Block>, b: map<Id, Block>)
    requires a.Keys <= b.Keys && |a| >= |b|
    ensures a.Keys == b.Keys
  {
    assert |a.Keys| == |a| && |b.Keys| == |b|;
    if a.Keys < b.Keys {
      SubsetIsSmaller(a.Keys, b.Keys);
    }
  }

  lemma SubsetIsSmaller(a: set<Id>, b: set<Id>)
    requires a < b
    ensures |a| < |b|
  {
    assert b == a + (b - a);
    assert b - a != {};
  }

  lemma UnmovedExactly(q: Request)
    requires UniqueIds(q.before) && UniqueIds(q.current)
    ensures NothingRaced(q, IndexOf(q.before), IndexOf(q.current)) <==> Unmoved(q)
  {
    HasAll(q.before);
    HasAll(q.current);
    if NothingRaced(q, IndexOf(q.before), IndexOf(q.current)) {
      MapsOfOneSize(IndexOf(q.before), IndexOf(q.current));
      IndexedUnmoved(q, IndexOf(q.before), IndexOf(q.current));
    }
    if Unmoved(q) {
      UnmovedIndexed(q, IndexOf(q.before), IndexOf(q.current));
    }
  }

  ghost predicate IndexesAll(byId: map<Id, Block>, blocks: seq<Block>) {
    Indexes(byId, blocks) && forall id :: id in byId <==> Has(blocks, id)
  }

  lemma IndexedBlock(byId: map<Id, Block>, blocks: seq<Block>, b: Block)
    requires Indexes(byId, blocks) && b in blocks
    ensures b.id in byId && byId[b.id] == b
  {
    var i :| 0 <= i < |blocks| && blocks[i] == b;
  }

  lemma IndexedUnmoved(q: Request, before: map<Id, Block>, current: map<Id, Block>)
    requires IndexesAll(before, q.before) && IndexesAll(current, q.current)
    requires NothingRaced(q, before, current) && before.Keys == current.Keys
    ensures Unmoved(q)
  {
    forall b, now | b in q.before && now in q.current && b.id == now.id
      ensures now.parent == b.parent
      ensures q.order.None? ==> now.version == b.version && now.sortOrder == b.sortOrder
    {
      IndexedBlock(before, q.before, b);
      IndexedBlock(current, q.current, now);
    }
  }

  lemma UnmovedIndexed(q: Request, before: map<Id, Block>, current: map<Id, Block>)
    requires IndexesAll(before, q.before) && IndexesAll(current, q.current) && Unmoved(q)
    ensures NothingRaced(q, before, current)
  {
    assert before.Keys == current.Keys;
    assert |before| == |before.Keys| == |current.Keys| == |current|;
    forall id | id in before
      ensures id in current && current[id].parent == before[id].parent
      ensures q.order.None? ==>
        current[id].version == before[id].version && current[id].sortOrder == before[id].sortOrder
    {
      assert before[id] in q.before && current[id] in q.current;
    }
  }

  // ----- chains -----

  lemma {:induction false} DepthHasChain(byId: map<Id, Block>, blocks: seq<Block>, id: Id, d: nat)
      returns (chain: seq<Block>)
    requires Indexes(byId, blocks) && AtDepth(byId, id, d)
    ensures IsChain(blocks, chain) && chain[0] == byId[id] && |chain| == d + 1
    decreases d
  {
    if byId[id].parent.None? {
      chain := [byId[id]];
    } else {
      var rest := DepthHasChain(byId, blocks, byId[id].parent.value, d - 1);
      chain := [byId[id]] + rest;
    }
  }

  lemma {:induction false} ChainHasDepth(byId: map<Id, Block>, blocks: seq<Block>, chain: seq<Block>)
    requires Indexes(byId, blocks) && IsChain(blocks, chain)
    ensures chain[0].id in byId && byId[chain[0].id] == chain[0] && AtDepth(byId, chain[0].id, |chain| - 1)
    decreases |chain|
  {
    var i :| 0 <= i < |blocks| && blocks[i] == chain[0];
    if |chain| > 1 {
      assert chain[0].parent == Some(chain[0 + 1].id);
      ChainHasDepth(byId, blocks, chain[1..]);
    }
  }

  lemma MeasurableExactly(blocks: seq<Block>, page: Id)
    ensures Measurable(blocks, page) <==> Whole(blocks, page) && Shallow(blocks)
  {
    WholeExactly(blocks, page);
    if WellFormed(blocks, page) {
      HasAll(blocks);
      if Measurable(blocks, page) { MeasurableIsShallow(blocks, page); }
      if Shallow(blocks) { ShallowIsMeasurable(blocks, page); }
    }
  }

  lemma MeasurableIsShallow(blocks: seq<Block>, page: Id)
    requires Measurable(blocks, page)
    ensures Shallow(blocks)
  {
    HasAll(blocks);
    forall b | b in blocks
      ensures exists chain :: IsChain(blocks, chain) && chain[0] == b && |chain| <= 129
    {
      var i :| 0 <= i < |blocks| && blocks[i] == b;
      assert Rooted(IndexOf(blocks), b.id);
      var d: nat :| d <= MAX_DEPTH && AtDepth(IndexOf(blocks), b.id, d);
      var chain := DepthHasChain(IndexOf(blocks), blocks, b.id, d);
    }
  }

  lemma ShallowIsMeasurable(blocks: seq<Block>, page: Id)
    requires WellFormed(blocks, page) && Shallow(blocks)
    ensures Measurable(blocks, page)
  {
    HasAll(blocks);
    forall id | id in IndexOf(blocks)
      ensures Rooted(IndexOf(blocks), id)
    {
      var b := IndexOf(blocks)[id];
      var chain :| IsChain(blocks, chain) && chain[0] == b && |chain| <= 129;
      ChainHasDepth(IndexOf(blocks), blocks, chain);
    }
  }

  // ----- the order -----

  ghost predicate SameMembers(a: seq<Block>, b: seq<Block>) {
    forall x :: x in a <==> x in b
  }

  /** A set of siblings is in order in one way. */
  lemma {:induction false} AscendingIsUnique(a: seq<Block>, b: seq<Block>)
    requires Ascending(a) && Ascending(b) && SameMembers(a, b)
    ensures a == b
    decreases |a|
  {
    if a == [] {
      assert forall i :: 0 <= i < |b| ==> b[i] in a;
    } else {
      assert a[0] in b;
      assert b[0] in a;
      assert a[0] == b[0];
      forall x ensures x in a[1..] <==> x in b[1..] {
        TailMembers(a, x);
        TailMembers(b, x);
      }
      AscendingIsUnique(a[1..], b[1..]);
      assert a == [a[0]] + a[1..] && b == [b[0]] + b[1..];
    }
  }

  lemma TailMembers(a: seq<Block>, x: Block)
    requires a != [] && Ascending(a)
    ensures x in a[1..] <==> x in a && x != a[0]
  {
  }

  /** Siblings whose ids are the order, at positions of their own, stand in it. */
  lemma SortedStands(page: seq<Block>, p: Option<Id>, ids: seq<Id>)
    requires UniqueIds(page) && IdsOf(Sorted(Siblings(page, p))) == ids && DistinctOrders(Sorted(Siblings(page, p)))
    ensures Stands(page, p, ids)
  {
    SortedSiblings(page, p);
    ListStands(page, p, ids, Sorted(Siblings(page, p)));
  }

  lemma ListStands(page: seq<Block>, p: Option<Id>, ids: seq<Id>, list: seq<Block>)
    requires UniqueIds(page) && IdsOf(list) == ids && DistinctOrders(list) && Ascending(list)
    requires forall b :: b in list <==> b in page && b.parent == p
    ensures Stands(page, p, ids)
  {
    forall id ensures id in ids <==> exists b :: b in page && b.id == id && b.parent == p {
      ListedId(page, p, ids, list, id);
    }
    forall i, j | 0 <= i < j < |ids| ensures ids[i] != ids[j] {
      ListedOrder(page, p, ids, list, i, j);
    }
    forall i, j, a, b | 0 <= i < j < |ids| && a in page && b in page && a.id == ids[i] && b.id == ids[j]
      ensures a.sortOrder < b.sortOrder
    {
      ListedOrder(page, p, ids, list, i, j);
      OneById(page, a, list[i]);
      OneById(page, b, list[j]);
    }
  }

  lemma ListedId(page: seq<Block>, p: Option<Id>, ids: seq<Id>, list: seq<Block>, id: Id)
    requires IdsOf(list) == ids && forall b :: b in list <==> b in page && b.parent == p
    ensures id in ids <==> exists b :: b in page && b.id == id && b.parent == p
  {
    if id in ids {
      var i :| 0 <= i < |ids| && ids[i] == id;
      assert list[i] in list;
    }
    if b :| b in page && b.id == id && b.parent == p {
      assert b in list;
      var i :| 0 <= i < |list| && list[i] == b;
      assert ids[i] == id;
    }
  }

  lemma ListedOrder(page: seq<Block>, p: Option<Id>, ids: seq<Id>, list: seq<Block>, i: nat, j: nat)
    requires UniqueIds(page) && IdsOf(list) == ids && DistinctOrders(list) && Ascending(list) && i < j < |ids|
    requires forall b :: b in list <==> b in page && b.parent == p
    ensures list[i] in page && list[j] in page && list[i].sortOrder < list[j].sortOrder && ids[i] != ids[j]
  {
    assert list[i] in list && list[j] in list;
    assert Precedes(list[i], list[j]);
    if ids[i] == ids[j] { OneById(page, list[i], list[j]); }
  }

  lemma OneById(page: seq<Block>, a: Block, b: Block)
    requires UniqueIds(page) && a in page && b in page && a.id == b.id
    ensures a == b
  {
  }

  /** The siblings, listed by the order. */
  lemma {:induction false} StandingList(page: seq<Block>, p: Option<Id>, ids: seq<Id>, n: nat) returns (list: seq<Block>)
    requires Stands(page, p, ids) && n <= |ids|
    ensures |list| == n && forall i :: 0 <= i < n ==> list[i] in page && list[i].id == ids[i] && list[i].parent == p
    decreases n
  {
    if n == 0 {
      list := [];
    } else {
      list := StandingList(page, p, ids, n - 1);
      assert ids[n - 1] in ids;
      var b :| b in page && b.id == ids[n - 1] && b.parent == p;
      list := list + [b];
    }
  }

  ghost predicate ListsOrder(page: seq<Block>, p: Option<Id>, ids: seq<Id>, list: seq<Block>) {
    |list| == |ids| && forall i :: 0 <= i < |ids| ==> list[i] in page && list[i].id == ids[i] && list[i].parent == p
  }

  lemma OrderRises(page: seq<Block>, p: Option<Id>, ids: seq<Id>, list: seq<Block>)
    requires Stands(page, p, ids) && ListsOrder(page, p, ids, list)
    ensures forall i, j :: 0 <= i < j < |list| ==> list[i].sortOrder < list[j].sortOrder
  {
    forall i, j | 0 <= i < j < |list| ensures list[i].sortOrder < list[j].sortOrder {
      assert list[i].id == ids[i] && list[j].id == ids[j];
    }
  }

  lemma OrderListsAll(page: seq<Block>, p: Option<Id>, ids: seq<Id>, list: seq<Block>, sorted: seq<Block>)
    requires UniqueIds(page) && Stands(page, p, ids) && ListsOrder(page, p, ids, list)
    requires forall b :: b in sorted <==> b in page && b.parent == p
    ensures SameMembers(sorted, list)
  {
    forall b ensures b in sorted <==> b in list {
      if b in sorted {
        assert b.id in ids;
        var i :| 0 <= i < |ids| && ids[i] == b.id;
        OneById(page, b, list[i]);
      }
    }
  }

  lemma StandsSorted(page: seq<Block>, p: Option<Id>, ids: seq<Id>)
    requires UniqueIds(page) && Stands(page, p, ids)
    ensures IdsOf(Sorted(Siblings(page, p))) == ids && DistinctOrders(Sorted(Siblings(page, p)))
  {
    SortedSiblings(page, p);
    var list := StandingList(page, p, ids, |ids|);
    OrderRises(page, p, ids, list);
    OrderListsAll(page, p, ids, list, Sorted(Siblings(page, p)));
    AscendingIsUnique(Sorted(Siblings(page, p)), list);
    assert IdsOf(list) == ids;
  }

  // ----- the confirmed page -----

  lemma ConfirmedIds(q: Request, before: map<Id, Block>, current: map<Id, Block>, page: map<Id, Block>)
    requires IndexesAll(before, q.before) && IndexesAll(page, Canonical(q)) && |page| == |before| + 1
    requires q.create.block.id !in before
    requires forall i :: 0 <= i < |Canonical(q)| ==> BlockFits(q, before, current, Canonical(q)[i])
    ensures forall id :: Has(Canonical(q), id) <==> Has(q.before, id) || id == q.create.block.id
  {
    var all := before[q.create.block.id := q.create.block];
    assert all.Keys == before.Keys + {q.create.block.id};
    assert |all| == |all.Keys| == |before.Keys| + 1 == |before| + 1;
    forall id | id in page ensures id in all {
      var i :| 0 <= i < |Canonical(q)| && Canonical(q)[i] == page[id];
      assert BlockFits(q, before, current, Canonical(q)[i]);
    }
    MapsOfOneSize(page, all);
  }

  lemma ConfirmedBlocks(q: Request, before: map<Id, Block>, current: map<Id, Block>)
    requires Indexes(before, q.before) && Indexes(current, q.current) && q.create.block.id !in before
    requires forall i :: 0 <= i < |Canonical(q)| ==> BlockFits(q, before, current, Canonical(q)[i])
    ensures forall b, confirmed :: b in q.before && confirmed in Canonical(q) && b.id == confirmed.id ==>
      ConfirmedAs(q, b, confirmed)
    ensures forall confirmed :: confirmed in Canonical(q) && confirmed.id == q.create.block.id ==>
      ConfirmedAs(q, q.create.block, confirmed)
    ensures forall now, confirmed :: now in q.current && confirmed in Canonical(q) && now.id == confirmed.id ==>
      now.version <= confirmed.version
  {
    forall confirmed | confirmed in Canonical(q) ensures BlockFits(q, before, current, confirmed) {
      var i :| 0 <= i < |Canonical(q)| && Canonical(q)[i] == confirmed;
    }
    forall b | b in q.before ensures b.id in before && before[b.id] == b { IndexedBlock(before, q.before, b); }
    forall now | now in q.current ensures now.id in current && current[now.id] == now {
      IndexedBlock(current, q.current, now);
    }
  }

  lemma AcceptedExtends(q: Request)
    requires UniqueIds(q.before) && UniqueIds(q.current) && UniqueIds(Canonical(q))
    requires NothingRaced(q, IndexOf(q.before), IndexOf(q.current)) && Confirms(q, IndexOf(q.before), IndexOf(q.current))
    ensures Extends(q, Canonical(q)) && Stands(Canonical(q), q.parent, q.orderedIds)
  {
    HasAll(q.before);
    HasAll(q.current);
    HasAll(Canonical(q));
    ConfirmedIds(q, IndexOf(q.before), IndexOf(q.current), IndexOf(Canonical(q)));
    ConfirmedBlocks(q, IndexOf(q.before), IndexOf(q.current));
    SortedStands(Canonical(q), q.parent, q.orderedIds);
  }

  lemma AcceptedIsUndisturbed(q: Request)
    requires Accepts(q)
    ensures Undisturbed(q)
  {
    AcceptedIsWhole(q);
    AcceptedExtends(q);
  }

  lemma AcceptedIsWhole(q: Request)
    requires Accepts(q)
    ensures Answered(q) && Unmoved(q) && Shallow(Canonical(q))
    ensures Whole(q.before, q.pageId) && Whole(q.current, q.pageId) && Whole([q.create.block], q.pageId)
    ensures Whole(Canonical(q), q.pageId)
  {
    WholeExactly(q.before, q.pageId);
    WholeExactly(q.current, q.pageId);
    UnmovedExactly(q);
    MeasurableExactly(Canonical(q), q.pageId);
  }

  /** The blocks that fit, given the page block by block. */
  lemma ExtendedFits(q: Request, before: map<Id, Block>, current: map<Id, Block>, page: seq<Block>, confirmed: Block)
    requires IndexesAll(before, q.before) && IndexesAll(current, q.current) && Extends(q, page) && confirmed in page
    ensures BlockFits(q, before, current, confirmed)
  {
    assert Has(page, confirmed.id);
    if confirmed.id in current { assert current[confirmed.id] in q.current; }
    if confirmed.id != q.create.block.id { assert before[confirmed.id] in q.before; }
  }

  lemma OneMoreId(few: seq<Block>, more: seq<Block>, id: Id)
    requires UniqueIds(few) && UniqueIds(more) && !Has(few, id)
    requires forall x :: Has(more, x) <==> Has(few, x) || x == id
    ensures |more| == |few| + 1
  {
    HasAll(few);
    HasAll(more);
    assert IndexOf(more).Keys == IndexOf(few).Keys + {id};
    assert |IndexOf(more)| == |IndexOf(more).Keys| && |IndexOf(few)| == |IndexOf(few).Keys|;
  }

  /** An order of siblings that are one more than before is one longer, and names them all. */
  lemma OrderNamesAll(few: seq<Block>, more: seq<Block>, id: Id, ids: seq<Id>)
    requires UniqueIds(few) && UniqueIds(more) && !Has(few, id)
    requires forall x :: Has(more, x) <==> Has(few, x) || x == id
    requires IdsOf(Sorted(more)) == ids
    ensures |ids| == |few| + 1 && id in ids && forall i :: 0 <= i < |few| ==> few[i].id in ids
  {
    OneMoreId(few, more, id);
    SortedAscends(more);
    assert |Sorted(more)| == |multiset(Sorted(more))| == |multiset(more)| == |more|;
    forall x | Has(more, x) ensures x in ids {
      var b :| b in more && b.id == x;
      assert b in multiset(Sorted(more));
      var i :| 0 <= i < |Sorted(more)| && Sorted(more)[i] == b;
      assert ids[i] == x;
    }
    forall i | 0 <= i < |few| ensures few[i].id in ids {
      assert few[i] in few;
      assert Has(more, few[i].id);
    }
    assert Has(more, id);
  }

  /** The order names the old siblings and the new block, so it is one longer than they are. */
  lemma StandingOrderFits(q: Request)
    requires UniqueIds(q.before) && UniqueIds(Canonical(q)) && Unmoved(q)
    requires Extends(q, Canonical(q)) && Stands(Canonical(q), q.parent, q.orderedIds)
    ensures OrderFits(q)
  {
    SiblingsMembers(q.before, q.parent);
    SiblingsMembers(Canonical(q), q.parent);
    StandsSorted(Canonical(q), q.parent, q.orderedIds);
    SiblingIds(q);
    OrderNamesAll(Siblings(q.before, q.parent), Siblings(Canonical(q), q.parent), q.create.block.id, q.orderedIds);
  }

  /** The new siblings are the old ones and the new block. */
  lemma SiblingIds(q: Request)
    requires UniqueIds(q.before) && UniqueIds(Canonical(q)) && Unmoved(q) && Extends(q, Canonical(q))
    ensures forall id :: Has(Siblings(Canonical(q), q.parent), id) <==>
      Has(Siblings(q.before, q.parent), id) || id == q.create.block.id
    ensures !Has(Siblings(q.before, q.parent), q.create.block.id)
  {
    SiblingsMembers(q.before, q.parent);
    SiblingsMembers(Canonical(q), q.parent);
    forall id
      ensures Has(Siblings(Canonical(q), q.parent), id) <==>
        Has(Siblings(q.before, q.parent), id) || id == q.create.block.id
    {
      OneSiblingId(q, id);
    }
    assert forall b :: b in Siblings(q.before, q.parent) ==> b in q.before;
  }

  lemma OneSiblingId(q: Request, id: Id)
    requires Unmoved(q) && Extends(q, Canonical(q))
    requires forall b :: b in Siblings(q.before, q.parent) <==> b in q.before && b.parent == q.parent
    requires forall b :: b in Siblings(Canonical(q), q.parent) <==> b in Canonical(q) && b.parent == q.parent
    ensures Has(Siblings(Canonical(q), q.parent), id) <==>
      Has(Siblings(q.before, q.parent), id) || id == q.create.block.id
  {
    if confirmed :| confirmed in Siblings(Canonical(q), q.parent) && confirmed.id == id {
      assert Has(Canonical(q), id);
      if id != q.create.block.id {
        var b :| b in q.before && b.id == id;
        assert ConfirmedAs(q, b, confirmed);
      }
    }
    if b :| b in Siblings(q.before, q.parent) && b.id == id {
      assert Has(q.before, id);
      var confirmed :| confirmed in Canonical(q) && confirmed.id == id;
      assert ConfirmedAs(q, b, confirmed);
    }
    if id == q.create.block.id {
      assert Has(Canonical(q), id);
      var confirmed :| confirmed in Canonical(q) && confirmed.id == id;
      assert ConfirmedAs(q, q.create.block, confirmed);
    }
  }

  lemma UndisturbedIsKnown(q: Request)
    requires Answered(q) && Whole(q.before, q.pageId) && Whole(q.current, q.pageId) && Whole([q.create.block], q.pageId)
    requires Unmoved(q) && OrderFits(q) && Distinct(q.orderedIds)
    ensures KnownFits(q)
  {
    WholeExactly(q.before, q.pageId);
    WholeExactly(q.current, q.pageId);
    UnmovedExactly(q);
    assert q.create.block in [q.create.block];
  }

  lemma UndisturbedFits(q: Request)
    requires UniqueIds(q.before) && UniqueIds(q.current) && UniqueIds(Canonical(q)) && Unmoved(q)
    requires Extends(q, Canonical(q))
    ensures forall i :: 0 <= i < |Canonical(q)| ==> BlockFits(q, IndexOf(q.before), IndexOf(q.current), Canonical(q)[i])
    ensures |Canonical(q)| == |IndexOf(q.before)| + 1
  {
    HasAll(q.before);
    HasAll(q.current);
    OneMoreId(q.before, Canonical(q), q.create.block.id);
    forall i | 0 <= i < |Canonical(q)| ensures BlockFits(q, IndexOf(q.before), IndexOf(q.current), Canonical(q)[i]) {
      ExtendedFits(q, IndexOf(q.before), IndexOf(q.current), Canonical(q), Canonical(q)[i]);
    }
  }

  lemma UndisturbedConfirms(q: Request)
    requires UniqueIds(q.before) && UniqueIds(q.current) && UniqueIds(Canonical(q)) && Unmoved(q)
    requires Extends(q, Canonical(q)) && Stands(Canonical(q), q.parent, q.orderedIds)
    ensures Confirms(q, IndexOf(q.before), IndexOf(q.current))
  {
    UndisturbedFits(q);
    StandsSorted(Canonical(q), q.parent, q.orderedIds);
    assert Has(Canonical(q), q.create.block.id);
  }

  lemma UndisturbedIsAccepted(q: Request)
    requires Undisturbed(q)
    ensures Accepts(q)
  {
    MeasurableExactly(Canonical(q), q.pageId);
    StandingOrderFits(q);
    UndisturbedIsKnown(q);
    UndisturbedConfirms(q);
  }

  /**
   A plan is made exactly when nothing disturbed the insertion: the editor's page is as it was, the answers confirm this
   one insertion and no other change, and the confirmed page is whole and shallow with the siblings in the order asked.
   */
  lemma AcceptsExactly(q: Request)
    ensures Accepts(q) <==> Undisturbed(q)
  {
    if Accepts(q) { AcceptedIsUndisturbed(q); }
    if Undisturbed(q) { UndisturbedIsAccepted(q); }
  }

  // ----- a server nobody raced with -----

  /** The editor's page is whole and as it was, and the new block is a new one under a block of it, not too deep. */
  ghost predicate Fresh(q: Request) {
    && q.current == q.before && Whole(q.before, q.pageId) && Shallow(q.before)
    && Whole([q.create.block], q.pageId) && !Has(q.before, q.create.block.id) && q.create.block.parent == q.parent
    && (q.parent.Some? ==>
          exists chain: seq<Block> :: IsChain(q.before, chain) && chain[0].id == q.parent.value && |chain| <= 128)
  }

  /** The page with the new block. */
  ghost predicate Joins(q: Request, all: seq<Block>) {
    forall b :: b in all <==> b in q.before || b == q.create.block
  }

  lemma FreshIsUnmoved(q: Request)
    requires Fresh(q)
    ensures Unmoved(q) && Joins(q, q.before + [q.create.block]) && Whole(q.before + [q.create.block], q.pageId)
  {
    var c := q.create.block;
    var page := q.before + [c];
    assert c in [c];
    if q.parent.Some? {
      var chain: seq<Block> :| IsChain(q.before, chain) && chain[0].id == q.parent.value && |chain| <= 128;
      assert Has(q.before, q.parent.value);
    }
    forall i, j | 0 <= i < j < |page| ensures page[i].id != page[j].id {
      assert page[i] in q.before;
    }
  }

  lemma LongerPageHasChain(blocks: seq<Block>, more: seq<Block>, chain: seq<Block>)
    requires IsChain(blocks, chain) && forall b :: b in blocks ==> b in more
    ensures IsChain(more, chain)
  {
  }

  lemma ChainFromChild(blocks: seq<Block>, b: Block, chain: seq<Block>)
    requires IsChain(blocks, chain) && b in blocks && b.parent == Some(chain[0].id)
    ensures IsChain(blocks, [b] + chain)
  {
  }

  lemma FreshIsShallow(q: Request, all: seq<Block>)
    requires Fresh(q) && Joins(q, all)
    ensures Shallow(all)
  {
    forall b | b in all ensures exists chain :: IsChain(all, chain) && chain[0] == b && |chain| <= 129 {
      if b in q.before {
        var chain :| IsChain(q.before, chain) && chain[0] == b && |chain| <= 129;
        LongerPageHasChain(q.before, all, chain);
      } else {
        CreatedHasChain(q, all);
      }
    }
  }

  lemma CreatedHasChain(q: Request, all: seq<Block>)
    requires Fresh(q) && Joins(q, all)
    ensures exists chain :: IsChain(all, chain) && chain[0] == q.create.block && |chain| <= 129
  {
    var c := q.create.block;
    assert c in all;
    if q.parent.None? {
      assert IsChain(all, [c]);
    } else {
      var chain: seq<Block> :| IsChain(q.before, chain) && chain[0].id == q.parent.value && |chain| <= 128;
      LongerPageHasChain(q.before, all, chain);
      ChainFromChild(all, c, chain);
      assert ([c] + chain)[0] == c;
    }
  }

  /** A page that has each block as it was confirmed extends what the editor had. */
  lemma MatchingPageExtends(q: Request, all: seq<Block>, page: seq<Block>)
    requires Joins(q, all) && q.current == q.before && forall id :: Has(page, id) <==> Has(all, id)
    requires forall b, confirmed :: b in all && confirmed in page && b.id == confirmed.id ==>
      ConfirmedAs(q, b, confirmed) && b.version <= confirmed.version
    ensures Extends(q, page)
  {
    forall id ensures Has(all, id) <==> Has(q.before, id) || id == q.create.block.id {
      assert q.create.block in all;
      if Has(q.before, id) {
        var b :| b in q.before && b.id == id;
        assert b in all;
      }
    }
  }

  /** The block is simply added, and the order asked is the one the siblings then stand in: the plan is made. */
  lemma AddedIsPlanned(q: Request)
    requires Fresh(q) && Answered(q) && q.order.None?
    requires Stands(q.before + [q.create.block], q.parent, q.orderedIds)
    ensures Accepts(q)
  {
    var page := q.before + [q.create.block];
    FreshIsUnmoved(q);
    FreshIsShallow(q, page);
    forall b, confirmed | b in page && confirmed in page && b.id == confirmed.id ensures b == confirmed {
      OneById(page, b, confirmed);
    }
    MatchingPageExtends(q, page, page);
    AcceptsExactly(q);
  }

  function Position(ids: seq<Id>, x: Id): (i: nat)
    requires x in ids
    ensures i < |ids| && ids[i] == x
  {
    if ids[0] == x then 0 else 1 + Position(ids[1..], x)
  }

  /** The server gives every ordered block its position, and a new version with it. */
  function Placed(b: Block, ids: seq<Id>): Block {
    if b.id in ids then b.(version := b.version + 1, sortOrder := Position(ids, b.id)) else b
  }

  function PlacedAll(blocks: seq<Block>, ids: seq<Id>): (r: seq<Block>)
    ensures |r| == |blocks| && forall i :: 0 <= i < |r| ==> r[i] == Placed(blocks[i], ids)
  {
    Mapped(blocks, (b: Block) => Placed(b, ids))
  }

  lemma {:induction false} PlacedChain(blocks: seq<Block>, ids: seq<Id>, chain: seq<Block>)
    requires IsChain(blocks, chain)
    ensures IsChain(PlacedAll(blocks, ids), PlacedAll(chain, ids))
  {
    var placed := PlacedAll(chain, ids);
    forall i | 0 <= i < |placed| ensures placed[i] in PlacedAll(blocks, ids) {
      var j :| 0 <= j < |blocks| && blocks[j] == chain[i];
      assert PlacedAll(blocks, ids)[j] == placed[i];
    }
  }

  /** The ids name the new block and its siblings, each once. */
  ghost predicate NamesSiblings(blocks: seq<Block>, p: Option<Id>, ids: seq<Id>) {
    && (forall i, j :: 0 <= i < j < |ids| ==> ids[i] != ids[j])
    && forall id :: id in ids <==> exists b :: b in blocks && b.id == id && b.parent == p
  }

  lemma PlacedIsWhole(blocks: seq<Block>, page: Id, ids: seq<Id>)
    requires Whole(blocks, page) && Shallow(blocks) && |ids| <= MAX_SAFE_INTEGER
    requires forall b :: b in blocks ==> b.version < MAX_SAFE_INTEGER
    ensures Whole(PlacedAll(blocks, ids), page) && Shallow(PlacedAll(blocks, ids))
  {
    var placed := PlacedAll(blocks, ids);
    forall b | b in placed
      ensures exists chain :: IsChain(placed, chain) && chain[0] == b && |chain| <= 129
    {
      var i :| 0 <= i < |blocks| && placed[i] == b;
      assert blocks[i] in blocks;
      var chain :| IsChain(blocks, chain) && chain[0] == blocks[i] && |chain| <= 129;
      PlacedChain(blocks, ids, chain);
      assert PlacedAll(chain, ids)[0] == b;
    }
    PlacedFits(blocks, page, ids);
  }

  lemma PlacedFits(blocks: seq<Block>, page: Id, ids: seq<Id>)
    requires Whole(blocks, page) && |ids| <= MAX_SAFE_INTEGER
    requires forall b :: b in blocks ==> b.version < MAX_SAFE_INTEGER
    ensures Whole(PlacedAll(blocks, ids), page)
  {
    var placed := PlacedAll(blocks, ids);
    forall b | b in placed
      ensures b.id != 0 && b.pageId == page && b.parent != Some(0)
      ensures 0 < b.version <= 9007199254740991 && 0 <= b.sortOrder <= 9007199254740991
    {
      var i :| 0 <= i < |blocks| && placed[i] == b;
      assert blocks[i] in blocks;
    }
  }

  /** What the server placed under an id is the block of that id. */
  lemma PlacedById(blocks: seq<Block>, ids: seq<Id>, b: Block, placed: Block)
    requires UniqueIds(blocks) && b in blocks && placed in PlacedAll(blocks, ids) && placed.id == b.id
    ensures placed == Placed(b, ids)
  {
    var i :| 0 <= i < |blocks| && PlacedAll(blocks, ids)[i] == placed;
    OneById(blocks, b, blocks[i]);
  }

  lemma PlacedHas(blocks: seq<Block>, ids: seq<Id>, id: Id)
    ensures Has(PlacedAll(blocks, ids), id) <==> Has(blocks, id)
  {
    if b :| b in blocks && b.id == id {
      var i :| 0 <= i < |blocks| && blocks[i] == b;
      assert PlacedAll(blocks, ids)[i] in PlacedAll(blocks, ids);
    }
    if b :| b in PlacedAll(blocks, ids) && b.id == id {
      var i :| 0 <= i < |blocks| && PlacedAll(blocks, ids)[i] == b;
      assert blocks[i] in blocks;
    }
  }

  lemma PlacedStands(blocks: seq<Block>, p: Option<Id>, ids: seq<Id>)
    requires UniqueIds(blocks) && NamesSiblings(blocks, p, ids)
    ensures Stands(PlacedAll(blocks, ids), p, ids)
  {
    var page := PlacedAll(blocks, ids);
    forall id ensures id in ids <==> exists b :: b in page && b.id == id && b.parent == p {
      if b :| b in blocks && b.id == id && b.parent == p {
        var i :| 0 <= i < |blocks| && blocks[i] == b;
        assert page[i] in page;
      }
      if b :| b in page && b.id == id && b.parent == p {
        var i :| 0 <= i < |blocks| && page[i] == b;
        assert blocks[i] in blocks;
      }
    }
    forall i, j, a, b | 0 <= i < j < |ids| && a in page && b in page && a.id == ids[i] && b.id == ids[j]
      ensures a.sortOrder < b.sortOrder
    {
      PlacedAt(blocks, ids, a, i);
      PlacedAt(blocks, ids, b, j);
    }
  }

  lemma PlacedAt(blocks: seq<Block>, ids: seq<Id>, a: Block, i: nat)
    requires i < |ids| && a in PlacedAll(blocks, ids) && a.id == ids[i]
    requires forall i, j :: 0 <= i < j < |ids| ==> ids[i] != ids[j]
    ensures a.sortOrder == i
  {
    var k :| 0 <= k < |blocks| && PlacedAll(blocks, ids)[k] == a;
    assert blocks[k].id in ids && ids[Position(ids, blocks[k].id)] == ids[i];
  }

  lemma PlacedExtends(q: Request, blocks: seq<Block>)
    requires Joins(q, blocks) && UniqueIds(blocks) && q.current == q.before && q.order.Some?
    ensures Extends(q, PlacedAll(blocks, q.orderedIds))
  {
    var page := PlacedAll(blocks, q.orderedIds);
    forall id ensures Has(page, id) <==> Has(blocks, id) {
      PlacedHas(blocks, q.orderedIds, id);
    }
    forall b, confirmed | b in blocks && confirmed in page && b.id == confirmed.id
      ensures ConfirmedAs(q, b, confirmed) && b.version <= confirmed.version
    {
      PlacedById(blocks, q.orderedIds, b, confirmed);
    }
    MatchingPageExtends(q, blocks, page);
  }

  /** The block is added and the siblings are placed in any order asked: the plan is made. */
  lemma PlacedIsPlanned(q: Request)
    requires Fresh(q) && Answered(q) && NamesSiblings(q.before + [q.create.block], q.parent, q.orderedIds)
    requires q.order.Some? && q.order.value.blocks == PlacedAll(q.before + [q.create.block], q.orderedIds)
    requires |q.orderedIds| <= MAX_SAFE_INTEGER
    requires forall b :: b in q.before + [q.create.block] ==> b.version < MAX_SAFE_INTEGER
    ensures Accepts(q)
  {
    var blocks := q.before + [q.create.block];
    FreshIsUnmoved(q);
    FreshIsShallow(q, blocks);
    PlacedIsWhole(blocks, q.pageId, q.orderedIds);
    PlacedExtends(q, blocks);
    PlacedStands(blocks, q.parent, q.orderedIds);
    AcceptsExactly(q);
  }
}

/**
 The block forest of a page: blocks name their parent and a sort order, and the
 page reads them depth first. Ids are numbers ordered as localeCompare orders
 the strings, which is assumed to be a total order.
 */
module BlockForest {
  import opened DepthFirst
  import opened Options

  datatype Node = Node(parent: Option<Id>, order: int, body: string)

  type Blocks = map<Id, Node>

  /** The comparison every sibling list is sorted with. */
  predicate Before(m: Blocks, x: Id, y: Id)
    requires x in m && y in m
  {
    m[x].order < m[y].order || (m[x].order == m[y].order && x < y)
  }

  /** The ids of a set of blocks, strictly ascending. */
  ghost predicate IsListing(m: Blocks, s: set<Id>, ids: seq<Id>)
    requires s <= m.Keys
  {
    && (forall x :: x in ids <==> x in s)
    && (forall i, j :: 0 <= i < j < |ids| ==> Before(m, ids[i], ids[j]))
  }

  lemma FirstExists(m: Blocks, s: set<Id>) returns (first: Id)
    requires s != {} && s <= m.Keys
    ensures first in s && forall x :: x in s && x != first ==> Before(m, first, x)
  {
    var candidate :| candidate in s;
    first := candidate;
    if s != {candidate} {
      var rest := FirstExists(m, s - {candidate});
      assert forall x :: x in s && x != candidate ==> x in s - {candidate};
      first := if Before(m, candidate, rest) then candidate else rest;
    }
  }

  ghost function Listed(m: Blocks, s: set<Id>): (ids: seq<Id>)
    requires s <= m.Keys
    ensures IsListing(m, s, ids)
  {
    if s == {} then []
    else
      var first := First(m, s);
      var rest := Listed(m, s - {first});
      assert forall x :: x in rest <==> x in s - {first};
      [first] + rest
  }

  ghost function First(m: Blocks, s: set<Id>): (first: Id)
    requires s != {} && s <= m.Keys
    ensures first in s && forall x :: x in s && x != first ==> Before(m, first, x)
  {
    assert exists first :: first in s && forall x :: x in s && x != first ==> Before(m, first, x) by {
      var first := FirstExists(m, s);
    }
    var first :| first in s && forall x :: x in s && x != first ==> Before(m, first, x);
    first
  }

  lemma EmptyListing(m: Blocks, s: set<Id>, ids: seq<Id>)
    requires s <= m.Keys && IsListing(m, s, ids)
    ensures ids == [] <==> s == {}
  {
    if ids != [] {
      assert ids[0] in ids;
    } else {
      assert forall x :: x in s ==> x in ids;
    }
  }

  /** Sorting has one answer. */
  lemma {:induction false} ListingIsUnique(m: Blocks, s: set<Id>, a: seq<Id>, b: seq<Id>)
    requires s <= m.Keys && IsListing(m, s, a) && IsListing(m, s, b)
    ensures a == b
    decreases |a|
  {
    if a == [] || b == [] {
      EmptyListing(m, s, a);
      EmptyListing(m, s, b);
    } else {
      assert a[0] in b && b[0] in a;
      assert a[0] == b[0];
      ListingIsUnique(m, s - {a[0]}, a[1..], b[1..]);
      assert a == [a[0]] + a[1..] && b == [b[0]] + b[1..];
    }
  }

  ghost function ChildSet(m: Blocks, p: Option<Id>): set<Id> {
    set x | x in m && m[x].parent == p
  }

  /** The children of a parent, or the roots, in page order. */
  ghost function Children(m: Blocks, p: Option<Id>): (ids: seq<Id>)
    ensures forall x :: x in ids <==> x in m && m[x].parent == p
  {
    Listed(m, ChildSet(m, p))
  }

  /** Siblings are read by their sort order, and equal ones by their ids. */
  lemma ChildrenAreSorted(m: Blocks, p: Option<Id>, i: nat, j: nat)
    requires i < j < |Children(m, p)|
    ensures var x, y := Children(m, p)[i], Children(m, p)[j];
      && x in m && y in m && x != y
      && m[x].order <= m[y].order && (m[x].order == m[y].order ==> x < y)
  {
    assert Children(m, p)[i] in Children(m, p) && Children(m, p)[j] in Children(m, p);
    assert Before(m, Children(m, p)[i], Children(m, p)[j]);
  }

  ghost function KidsOf(m: Blocks): Kids {
    (x: Id) => Children(m, Some(x))
  }

  ghost predicate Rises(m: Blocks, h: Heights, x: Id)
    requires x in m
  {
    m[x].parent.Some? ==> h(x) < h(m[x].parent.value)
  }

  /** Heights that rise along every parent link witness that there is no cycle. */
  ghost predicate Acyclic(m: Blocks, h: Heights) {
    forall x :: x in m ==> Rises(m, h, x)
  }

  /** The whole page, depth first from its roots. */
  ghost function PageOrder(m: Blocks, h: Heights, n: nat): seq<Id>
    requires Falls(KidsOf(m), h) && Below(h, Children(m, None), n)
  {
    Preorder(KidsOf(m), h, Children(m, None), n)
  }

  lemma PageOrderStaysInside(m: Blocks, h: Heights, n: nat)
    requires Falls(KidsOf(m), h) && Below(h, Children(m, None), n)
    ensures forall x :: x in PageOrder(m, h, n) ==> x in m
  {
    ReadingStaysClosed(KidsOf(m), h, m.Keys, Children(m, None), n);
    DroppedMembers(PageOrder(m, h, n), m.Keys);
  }

  // ----- replacing a block while promoting its children -----

  function IndexOf(ids: seq<Id>, x: Id): (i: nat)
    requires x in ids
    ensures i < |ids| && ids[i] == x
  {
    if ids[0] == x then 0 else 1 + IndexOf(ids[1..], x)
  }

  /** The new sibling list: the replacement, if any, and the promoted children take the target's place. */
  ghost function PlannedOrder(m: Blocks, target: Id, head: seq<Id>): seq<Id>
    requires target in m
  {
    Splice(Children(m, m[target].parent), target, head + Children(m, Some(target)))
  }

  /**
   The page after the plan is written back: planned siblings get the target's
   parent and dense orders, the target is gone, everything else is as it was.
   `m` is the snapshot without the replacement's canonical copy.
   */
  ghost function Promoted(m: Blocks, target: Id, head: seq<Id>, bodies: map<Id, string>): Blocks
    requires target in m && forall x :: x in head ==> x in bodies
  {
    var order := PlannedOrder(m, target, head);
    map x | x in (m.Keys - {target}) + (set y | y in head) ::
      if x in order then Node(m[target].parent, IndexOf(order, x), if x in m then m[x].body else bodies[x])
      else if x in m then m[x]
      else Node(m[target].parent, 0, bodies[x])
  }

  /** What a replacement asks of the page: the replacement, if any, is one new leaf block. */
  ghost predicate PlanFits(m: Blocks, h: Heights, target: Id, head: seq<Id>, bodies: map<Id, string>) {
    && target in m && Acyclic(m, h)
    && |head| <= 1
    && (forall x :: x in head ==> x !in m && x in bodies && forall y :: y in m ==> m[y].parent != Some(x))
  }

  ghost predicate NoRepeats(ids: seq<Id>) {
    forall i, j :: 0 <= i < j < |ids| ==> ids[i] != ids[j]
  }

  lemma {:induction false} SpliceHasNoRepeats(ids: seq<Id>, target: Id, list: seq<Id>)
    requires NoRepeats(ids) && NoRepeats(list)
    requires forall x :: x in list ==> x !in ids
    ensures NoRepeats(Splice(ids, target, list))
  {
    if ids != [] {
      var rest := ids[1..];
      assert forall x :: x in rest ==> x in ids;
      assert ids[0] !in rest;
      SpliceHasNoRepeats(rest, target, list);
      SpliceMembers(rest, target, list);
      ConcatHasNoRepeats(if ids[0] == target then list else [ids[0]], Splice(rest, target, list));
    }
  }

  lemma ConcatHasNoRepeats(a: seq<Id>, b: seq<Id>)
    requires NoRepeats(a) && NoRepeats(b) && forall x :: x in a ==> x !in b
    ensures NoRepeats(a + b)
  {
    forall i, j | 0 <= i < j < |a + b|
      ensures (a + b)[i] != (a + b)[j]
    {
      if i < |a| <= j {
        assert a[i] in a && b[j - |a|] in b;
      }
    }
  }

  lemma PlannedOrderFacts(m: Blocks, h: Heights, target: Id, head: seq<Id>, bodies: map<Id, string>)
    requires PlanFits(m, h, target, head, bodies)
    ensures NoRepeats(PlannedOrder(m, target, head))
    ensures forall x :: x in PlannedOrder(m, target, head) <==>
      (x in m && x != target && m[x].parent == m[target].parent) || x in head || (x in m && m[x].parent == Some(target))
    ensures m[target].parent != Some(target)
  {
    assert Rises(m, h, target);
    SpliceMembers(Children(m, m[target].parent), target, head + Children(m, Some(target)));
    PlannedOrderHasNoRepeats(m, target, head);
  }

  lemma PlannedOrderHasNoRepeats(m: Blocks, target: Id, head: seq<Id>)
    requires target in m && m[target].parent != Some(target)
    requires |head| <= 1 && forall x :: x in head ==> x !in m
    ensures NoRepeats(PlannedOrder(m, target, head))
  {
    var siblings := Children(m, m[target].parent);
    var kids := Children(m, Some(target));
    ConcatHasNoRepeats(head, kids);
    SpliceHasNoRepeats(siblings, target, head + kids);
  }

  /** The affected siblings are numbered as planned. */
  lemma PlannedSiblings(m: Blocks, h: Heights, target: Id, head: seq<Id>, bodies: map<Id, string>)
    requires PlanFits(m, h, target, head, bodies)
    ensures Children(Promoted(m, target, head, bodies), m[target].parent) == PlannedOrder(m, target, head)
  {
    var t := Promoted(m, target, head, bodies);
    var order := PlannedOrder(m, target, head);
    var s := ChildSet(t, m[target].parent);
    PlannedOrderFacts(m, h, target, head, bodies);
    assert forall x :: x in order <==> x in s;
    forall i, j | 0 <= i < j < |order|
      ensures Before(t, order[i], order[j])
    {
      assert order[i] in order && order[j] in order;
    }
    ListingIsUnique(t, s, order, Children(t, m[target].parent));
  }

  /** Sibling lists elsewhere do not move. */
  lemma OtherSiblings(
    m: Blocks, h: Heights, target: Id, head: seq<Id>, bodies: map<Id, string>, q: Option<Id>)
    requires PlanFits(m, h, target, head, bodies) && q != Some(target) && q != m[target].parent
    ensures Children(Promoted(m, target, head, bodies), q) == Children(m, q)
    ensures target !in Children(m, q)
  {
    var t := Promoted(m, target, head, bodies);
    PlannedOrderFacts(m, h, target, head, bodies);
    SameSiblings(m, t, q);
  }

  lemma SameSiblings(m: Blocks, t: Blocks, q: Option<Id>)
    requires ChildSet(m, q) == ChildSet(t, q)
    requires forall x :: x in ChildSet(m, q) ==> m[x] == t[x]
    ensures Children(m, q) == Children(t, q)
  {
    var ids := Children(m, q);
    assert forall i :: 0 <= i < |ids| ==> ids[i] in ids;
    assert IsListing(t, ChildSet(t, q), ids);
    ListingIsUnique(t, ChildSet(t, q), ids, Children(t, q));
  }

  /** The sibling lists of the new page are the old ones with the target spliced out. */
  lemma PromotedChildren(
    m: Blocks, h: Heights, target: Id, head: seq<Id>, bodies: map<Id, string>, q: Option<Id>)
    requires PlanFits(m, h, target, head, bodies) && q != Some(target)
    ensures Children(Promoted(m, target, head, bodies), q)
         == Splice(Children(m, q), target, head + Children(m, Some(target)))
  {
    if q == m[target].parent {
      PlannedSiblings(m, h, target, head, bodies);
    } else {
      OtherSiblings(m, h, target, head, bodies, q);
      SpliceMembers(Children(m, q), target, head + Children(m, Some(target)));
    }
  }

  /** Promotion loses no link: what hangs from a missing block afterwards hung from it before. */
  lemma NothingIsOrphaned(m: Blocks, h: Heights, target: Id, head: seq<Id>, bodies: map<Id, string>, x: Id)
    requires PlanFits(m, h, target, head, bodies)
    ensures var t := Promoted(m, target, head, bodies);
      && (t.Keys == (m.Keys - {target}) + (set y | y in head))
      && (x in t && x in m ==> t[x].body == m[x].body)
      && (x in head ==> t[x].body == bodies[x] && t[x].parent == m[target].parent)
      && (x in m && m[x].parent == Some(target) ==> x in t && t[x].parent == m[target].parent)
      && (x in m && x != target && m[x].parent != Some(target) ==>
            t[x].parent == m[x].parent && (m[x].parent != m[target].parent ==> t[x] == m[x]))
      && (x in t && t[x].parent.Some? && t[x].parent.value !in t ==>
            (x in m && m[x].parent == t[x].parent) || m[target].parent == t[x].parent)
      && (x in t && t[x].parent.Some? ==> t[x].parent.value != target)
  {
    PlannedOrderFacts(m, h, target, head, bodies);
  }

  /** The affected siblings are numbered 0, 1, 2, ... without gaps. */
  lemma SiblingOrdersAreDense(
    m: Blocks, h: Heights, target: Id, head: seq<Id>, bodies: map<Id, string>, i: nat)
    requires PlanFits(m, h, target, head, bodies)
    requires i < |Children(Promoted(m, target, head, bodies), m[target].parent)|
    ensures var t := Promoted(m, target, head, bodies);
      t[Children(t, m[target].parent)[i]].order == i
  {
    PlannedOrderFacts(m, h, target, head, bodies);
    PromotedChildren(m, h, target, head, bodies, m[target].parent);
  }

  // ----- the page order -----

  /** The replacement is a leaf; every other block keeps its height. */
  ghost function PromotedHeights(h: Heights, head: seq<Id>): Heights {
    (x: Id) => if x in head then 0 else h(x)
  }

  lemma PromotedIsAcyclic(m: Blocks, h: Heights, target: Id, head: seq<Id>, bodies: map<Id, string>)
    requires PlanFits(m, h, target, head, bodies)
    ensures Acyclic(Promoted(m, target, head, bodies), PromotedHeights(h, head))
  {
    PlannedOrderFacts(m, h, target, head, bodies);
    var t := Promoted(m, target, head, bodies);
    forall x | x in t
      ensures Rises(t, PromotedHeights(h, head), x)
    {
      assert Rises(m, h, target);
      if x in m { assert Rises(m, h, x); }
    }
  }

  lemma PromotedIsSpliced(m: Blocks, h: Heights, target: Id, head: seq<Id>, bodies: map<Id, string>)
    requires PlanFits(m, h, target, head, bodies)
    ensures Spliced(KidsOf(m), KidsOf(Promoted(m, target, head, bodies)), h, PromotedHeights(h, head), target, head)
  {
    var t := Promoted(m, target, head, bodies);
    PromotedIsAcyclic(m, h, target, head, bodies);
    AcyclicFalls(m, h);
    AcyclicFalls(t, PromotedHeights(h, head));
    forall x: Id | x != target
      ensures KidsOf(t)(x) == Splice(KidsOf(m)(x), target, head + KidsOf(m)(target))
    {
      PromotedChildren(m, h, target, head, bodies, Some(x));
    }
    forall r | r in head
      ensures KidsOf(t)(r) == []
    {
      HeadIsLeaf(m, h, target, head, bodies, r);
    }
  }

  lemma AcyclicFalls(m: Blocks, h: Heights)
    requires Acyclic(m, h)
    ensures Falls(KidsOf(m), h)
  {
    forall x: Id, y: Id | y in KidsOf(m)(x)
      ensures h(y) < h(x)
    {
      assert Rises(m, h, y);
    }
  }

  lemma HeadIsLeaf(m: Blocks, h: Heights, target: Id, head: seq<Id>, bodies: map<Id, string>, r: Id)
    requires PlanFits(m, h, target, head, bodies) && r in head
    ensures KidsOf(Promoted(m, target, head, bodies))(r) == []
  {
    PromotedChildren(m, h, target, head, bodies, Some(r));
    EmptyListing(m, ChildSet(m, Some(r)), Children(m, Some(r)));
    assert Splice([], target, head + KidsOf(m)(target)) == [];
  }

  /**
   The whole page, read depth first, is what it was with the target replaced by
   the attachment (or dropped), however the two readings are computed.
   */
  lemma PromotionKeepsPageOrder(
    m: Blocks, h: Heights, n: nat, target: Id, head: seq<Id>, bodies: map<Id, string>, k: Heights, l: nat)
    requires PlanFits(m, h, target, head, bodies)
    requires Falls(KidsOf(m), h) && Below(h, Children(m, None), n)
    requires Falls(KidsOf(Promoted(m, target, head, bodies)), k)
    requires Below(k, Children(Promoted(m, target, head, bodies), None), l)
    ensures PageOrder(Promoted(m, target, head, bodies), k, l) == Splice(PageOrder(m, h, n), target, head)
  {
    var t := Promoted(m, target, head, bodies);
    PromotedIsSpliced(m, h, target, head, bodies);
    PageOrderStaysInside(m, h, n);
    SplicingCommutes(KidsOf(m), KidsOf(t), h, PromotedHeights(h, head), target, head, Children(m, None), n);
    PromotedChildren(m, h, target, head, bodies, None);
    PreorderIndependent(KidsOf(t), PromotedHeights(h, head), k, Children(t, None), n, l);
  }

  /** In the words of a reader: what stood before and after the target still does, and the attachment between them. */
  lemma PromotionIsInPlace(
    m: Blocks, h: Heights, n: nat, target: Id, head: seq<Id>, bodies: map<Id, string>, k: Heights, l: nat,
    before: seq<Id>, after: seq<Id>)
    requires PlanFits(m, h, target, head, bodies)
    requires Falls(KidsOf(m), h) && Below(h, Children(m, None), n)
    requires Falls(KidsOf(Promoted(m, target, head, bodies)), k)
    requires Below(k, Children(Promoted(m, target, head, bodies), None), l)
    requires PageOrder(m, h, n) == before + [target] + after && target !in before && target !in after
    ensures PageOrder(Promoted(m, target, head, bodies), k, l) == before + head + after
  {
    PromotionKeepsPageOrder(m, h, n, target, head, bodies, k, l);
    SpliceInPlace(before, after, target, head);
  }
}

/**
 Deleting a block of the page together with everything beneath it: the closure
 loop that collects the subtree, and what the deletion leaves of the page order.
 */
module BlockDeletion {
  import opened BlockForest
  import opened DepthFirst
  import opened Options

  /** At most `n` parent links lead from `x` to the target. */
  ghost predicate Reaches(m: Blocks, x: Id, target: Id, n: nat)
    decreases n
  {
    x == target || (n > 0 && x in m && m[x].parent.Some? && Reaches(m, m[x].parent.value, target, n - 1))
  }

  /** The target, its children, their children and so on; cyclic pages included. */
  ghost predicate InSubtree(m: Blocks, x: Id, target: Id) {
    x in m && exists n: nat :: Reaches(m, x, target, n)
  }

  ghost predicate ClosedUnder(m: Blocks, d: set<Id>) {
    forall x :: x in m && m[x].parent.Some? && m[x].parent.value in d ==> x in d
  }

  lemma {:induction false} ClosedHoldsSubtree(m: Blocks, d: set<Id>, target: Id, x: Id, n: nat)
    requires ClosedUnder(m, d) && target in d && Reaches(m, x, target, n)
    ensures x in d
    decreases n
  {
    if x != target {
      ClosedHoldsSubtree(m, d, target, m[x].parent.value, n - 1);
    }
  }

  /** The target is in its subtree, and so is every block whose parent is. */
  lemma SubtreeIsClosed(m: Blocks, target: Id, x: Id)
    requires x in m
    ensures x == target ==> InSubtree(m, x, target)
    ensures m[x].parent.Some? && InSubtree(m, m[x].parent.value, target) ==> InSubtree(m, x, target)
  {
    assert x == target ==> Reaches(m, x, target, 0);
    if m[x].parent.Some? && InSubtree(m, m[x].parent.value, target) {
      var n: nat :| Reaches(m, m[x].parent.value, target, n);
      assert Reaches(m, x, target, n + 1);
    }
  }

  /** The sweep over the snapshot is repeated until it adds nothing. */
  method CollectSubtree(m: Blocks, entries: seq<Id>, target: Id) returns (ids: set<Id>)
    requires target in m && forall x :: x in entries <==> x in m
    ensures forall x :: x in ids <==> InSubtree(m, x, target)
    ensures ClosedUnder(m, ids)
  {
    ids := {target};
    assert Reaches(m, target, target, 0);
    var changed := true;
    while changed
      invariant target in ids && forall x :: x in ids ==> InSubtree(m, x, target)
      invariant !changed ==> ClosedUnder(m, ids)
      decreases m.Keys - ids, changed
    {
      changed := false;
      ghost var before := ids;
      for i := 0 to |entries|
        invariant before <= ids && (changed <==> before != ids)
        invariant forall x :: x in ids ==> InSubtree(m, x, target)
        invariant !changed ==> forall j :: 0 <= j < i ==>
          entries[j] in ids || m[entries[j]].parent.None? || m[entries[j]].parent.value !in ids
      {
        var x := entries[i];
        if x !in ids && m[x].parent.Some? && m[x].parent.value in ids {
          ghost var n: nat :| Reaches(m, m[x].parent.value, target, n);
          assert Reaches(m, x, target, n + 1);
          ids := ids + {x};
          changed := true;
        }
      }
      if changed {
        assert forall x :: x in ids ==> x in m;
        assert m.Keys - ids < m.Keys - before;
      }
    }
    forall x | InSubtree(m, x, target)
      ensures x in ids
    {
      var n: nat :| Reaches(m, x, target, n);
      ClosedHoldsSubtree(m, ids, target, x, n);
    }
  }

  // ----- what remains -----

  function Without(m: Blocks, d: set<Id>): Blocks {
    map x | x in m && x !in d :: m[x]
  }

  lemma {:induction false} DroppedIsListing(m: Blocks, s: set<Id>, ids: seq<Id>, d: set<Id>)
    requires s <= m.Keys && IsListing(m, s, ids)
    ensures IsListing(m, s - d, Dropped(ids, d))
    decreases |ids|
  {
    EmptyListing(m, s, ids);
    if ids != [] {
      var x, rest := ids[0], Dropped(ids[1..], d);
      assert x in ids;
      DroppedIsListing(m, s - {x}, ids[1..], d);
      if x in d {
        assert s - {x} - d == s - d && Dropped(ids, d) == rest;
      } else {
        ConsLists(m, s - {x} - d, rest, x);
        assert s - {x} - d + {x} == s - d;
      }
    }
  }

  lemma ConsLists(m: Blocks, s: set<Id>, rest: seq<Id>, x: Id)
    requires s <= m.Keys && x in m && IsListing(m, s, rest)
    requires forall y :: y in s ==> Before(m, x, y)
    ensures IsListing(m, s + {x}, [x] + rest)
  {
  }

  lemma RemainingChildren(m: Blocks, d: set<Id>, q: Option<Id>)
    ensures Children(Without(m, d), q) == Dropped(Children(m, q), d)
  {
    var t := Without(m, d);
    var ids := Dropped(Children(m, q), d);
    DroppedIsListing(m, ChildSet(m, q), Children(m, q), d);
    assert ChildSet(t, q) == ChildSet(m, q) - d;
    ListsWithout(m, d, ChildSet(t, q), ids);
    ListingIsUnique(t, ChildSet(t, q), ids, Children(t, q));
  }

  lemma ListsWithout(m: Blocks, d: set<Id>, s: set<Id>, ids: seq<Id>)
    requires s <= m.Keys - d && IsListing(m, s, ids)
    ensures s <= Without(m, d).Keys && IsListing(Without(m, d), s, ids)
  {
    assert forall i :: 0 <= i < |ids| ==> ids[i] in ids;
  }

  lemma WithoutRemains(m: Blocks, d: set<Id>)
    requires ClosedUnder(m, d)
    ensures Remains(KidsOf(m), KidsOf(Without(m, d)), d)
  {
    forall x: Id ensures KidsOf(Without(m, d))(x) == Dropped(KidsOf(m)(x), d) {
      RemainingChildren(m, d, Some(x));
    }
  }

  lemma WithoutFalls(m: Blocks, h: Heights, d: set<Id>)
    requires Acyclic(m, h)
    ensures Acyclic(Without(m, d), h) && Falls(KidsOf(m), h) && Falls(KidsOf(Without(m, d)), h)
  {
  }

  /** Deletion of a closed set removes it from the page order and moves nothing else. */
  lemma CascadeKeepsPageOrder(m: Blocks, h: Heights, n: nat, d: set<Id>, k: Heights, l: nat)
    requires Acyclic(m, h) && Falls(KidsOf(m), h) && Below(h, Children(m, None), n) && ClosedUnder(m, d)
    requires Falls(KidsOf(Without(m, d)), k) && Below(k, Children(Without(m, d), None), l)
    ensures PageOrder(Without(m, d), k, l) == Dropped(PageOrder(m, h, n), d)
  {
    WithoutFalls(m, h, d);
    WithoutRemains(m, d);
    RemovalFiltersReading(KidsOf(m), KidsOf(Without(m, d)), h, d, Children(m, None), n);
    RemainingChildren(m, d, None);
    PreorderIndependent(KidsOf(Without(m, d)), h, k, Children(Without(m, d), None), n, l);
  }

  /**
   The upload may have broadcast the attachment already. Wherever that leaf
   copy stands, the plan drops it first, so the page order afterwards is the
   old one without the copy and with the target replaced.
   */
  lemma ReplacementKeepsPageOrder(
    m: Blocks, w: Blocks, h: Heights, n: nat, target: Id, attachment: Id, bodies: map<Id, string>,
    r: Blocks, k: Heights, l: nat)
    requires w == Without(m, {attachment}) && target in w && attachment in bodies
    requires forall y :: y in m ==> m[y].parent != Some(attachment)
    requires r == Promoted(w, target, [attachment], bodies)
    requires Acyclic(m, h) && Falls(KidsOf(m), h) && Below(h, Children(m, None), n)
    requires Falls(KidsOf(r), k) && Below(k, Children(r, None), l)
    ensures PageOrder(r, k, l) == Splice(Dropped(PageOrder(m, h, n), {attachment}), target, [attachment])
  {
    WithoutFalls(m, h, {attachment});
    LeafRemovalFits(m, w, h, target, attachment, bodies);
    WithoutBelow(m, h, n, {attachment});
    CascadeKeepsPageOrder(m, h, n, {attachment}, h, n);
    PromotionKeepsPageOrder(w, h, n, target, [attachment], bodies, k, l);
  }

  lemma LeafRemovalFits(m: Blocks, w: Blocks, h: Heights, target: Id, attachment: Id, bodies: map<Id, string>)
    requires w == Without(m, {attachment}) && target in w && attachment in bodies && Acyclic(w, h)
    requires forall y :: y in m ==> m[y].parent != Some(attachment)
    ensures ClosedUnder(m, {attachment}) && PlanFits(w, h, target, [attachment], bodies)
  {
  }

  lemma WithoutBelow(m: Blocks, h: Heights, n: nat, d: set<Id>)
    requires Below(h, Children(m, None), n)
    ensures Below(h, Children(Without(m, d), None), n)
  {
  }

  // ----- the nested form -----

  /** A page as the server sends it: blocks with their children inside. */
  datatype Tree = Tree(id: Id, children: seq<Tree>)

  ghost function Flat(forest: seq<Tree>): seq<Id> {
    if forest == [] then []
    else [forest[0].id] + Flat(forest[0].children) + Flat(forest[1..])
  }

  lemma {:induction false} FlatConcat(a: seq<Tree>, b: seq<Tree>)
    ensures Flat(a + b) == Flat(a) + Flat(b)
  {
    if a == [] {
      assert a + b == b;
    } else {
      assert (a + b)[1..] == a[1..] + b;
      FlatConcat(a[1..], b);
    }
  }

  /** A block stands before everything inside it, and everything inside it before what follows it. */
  lemma FlatReads(before: seq<Tree>, block: Tree, after: seq<Tree>)
    ensures Flat(before + [block] + after) == Flat(before) + [block.id] + Flat(block.children) + Flat(after)
  {
    FlatConcat(before + [block], after);
    FlatConcat(before, [block]);
    FlatOne(block);
  }

  lemma FlatOne(block: Tree)
    ensures Flat([block]) == [block.id] + Flat(block.children)
  {
    assert Flat([block]) == [block.id] + Flat(block.children) + Flat([]);
  }

  ghost function Size(forest: seq<Tree>): nat {
    if forest == [] then 0 else 1 + Size(forest[0].children) + Size(forest[1..])
  }

  /** The stack of `FlattenBlocks`, read from its top. */
  ghost function TopDown(stack: seq<Tree>): (r: seq<Tree>)
    ensures |r| == |stack|
  {
    if stack == [] then [] else [stack[|stack| - 1]] + TopDown(stack[..|stack| - 1])
  }

  /** Children are pushed from the last to the first, so the first is popped next. */
  method PushReversed(stack: seq<Tree>, children: seq<Tree>) returns (r: seq<Tree>)
    ensures TopDown(r) == children + TopDown(stack)
  {
    r := stack;
    var index := |children|;
    while index > 0
      invariant 0 <= index <= |children| && TopDown(r) == children[index..] + TopDown(stack)
    {
      index := index - 1;
      assert (r + [children[index]])[..|r|] == r;
      r := r + [children[index]];
    }
  }

  /** The explicit stack yields the recursive depth-first order. */
  method FlattenBlocks(forest: seq<Tree>) returns (result: seq<Id>)
    ensures result == Flat(forest)
  {
    result := [];
    var stack := PushReversed([], forest);
    assert TopDown(stack) == forest;
    while stack != []
      invariant result + Flat(TopDown(stack)) == Flat(forest)
      decreases Size(TopDown(stack))
    {
      var block := stack[|stack| - 1];
      ghost var others := TopDown(stack)[1..];
      stack := stack[..|stack| - 1];
      assert TopDown(stack) == others;
      result := result + [block.id];
      stack := PushReversed(stack, block.children);
      FlatConcat(block.children, others);
      SizeConcat(block.children, others);
    }
  }

  lemma {:induction false} SizeConcat(a: seq<Tree>, b: seq<Tree>)
    ensures Size(a + b) == Size(a) + Size(b)
  {
    if a == [] {
      assert a + b == b;
    } else {
      assert (a + b)[1..] == a[1..] + b;
      SizeConcat(a[1..], b);
    }
  }
}

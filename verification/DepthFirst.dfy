/**
 Depth-first reading of a forest given by its child lists, and how it follows
 two edits of those lists: replacing one node by leaves and its own children,
 and removing nodes together with everything beneath them.
 */
module DepthFirst {

  type Id = nat

  type Kids = Id -> seq<Id>

  type Heights = Id -> nat

  /** Heights that fall from parent to child witness that no node is beneath itself. */
  ghost predicate Falls(c: Kids, h: Heights) {
    forall x: Id, y: Id :: y in c(x) ==> h(y) < h(x)
  }

  ghost predicate Below(h: Heights, ids: seq<Id>, n: nat) {
    forall x :: x in ids ==> h(x) < n
  }

  /** The given nodes in order, each followed by everything beneath it. */
  ghost function Preorder(c: Kids, h: Heights, ids: seq<Id>, n: nat): seq<Id>
    requires Falls(c, h) && Below(h, ids, n)
    decreases n, |ids|
  {
    if ids == [] then []
    else
      assert ids[0] in ids;
      [ids[0]] + Preorder(c, h, c(ids[0]), h(ids[0])) + Preorder(c, h, ids[1..], n)
  }

  lemma {:induction false} PreorderConcat(c: Kids, h: Heights, a: seq<Id>, b: seq<Id>, n: nat)
    requires Falls(c, h) && Below(h, a, n) && Below(h, b, n)
    ensures Below(h, a + b, n)
    ensures Preorder(c, h, a + b, n) == Preorder(c, h, a, n) + Preorder(c, h, b, n)
    decreases |a|
  {
    if a == [] {
      assert a + b == b;
    } else {
      assert a[0] in a;
      PreorderConcat(c, h, a[1..], b, n);
      assert a + b == [a[0]] + (a[1..] + b);
    }
  }

  /** The reading depends neither on the bound nor on the heights. */
  lemma {:induction false} PreorderIndependent(c: Kids, h: Heights, k: Heights, ids: seq<Id>, n: nat, l: nat)
    requires Falls(c, h) && Below(h, ids, n) && Falls(c, k) && Below(k, ids, l)
    ensures Preorder(c, h, ids, n) == Preorder(c, k, ids, l)
    decreases n, |ids|
  {
    if ids != [] {
      assert ids[0] in ids;
      PreorderIndependent(c, h, k, c(ids[0]), h(ids[0]), k(ids[0]));
      PreorderIndependent(c, h, k, ids[1..], n, l);
    }
  }

  // ----- one node replaced -----

  /** Every occurrence of the target becomes the given list. */
  function Splice(ids: seq<Id>, target: Id, list: seq<Id>): seq<Id> {
    if ids == [] then []
    else (if ids[0] == target then list else [ids[0]]) + Splice(ids[1..], target, list)
  }

  lemma {:induction false} SpliceMembers(ids: seq<Id>, target: Id, list: seq<Id>)
    ensures forall x :: x in Splice(ids, target, list) <==>
      (x in ids && x != target) || (target in ids && x in list)
    ensures target !in ids ==> Splice(ids, target, list) == ids
  {
    if ids != [] {
      SpliceMembers(ids[1..], target, list);
      assert ids == [ids[0]] + ids[1..];
    }
  }

  lemma {:induction false} SpliceConcat(a: seq<Id>, b: seq<Id>, target: Id, list: seq<Id>)
    ensures Splice(a + b, target, list) == Splice(a, target, list) + Splice(b, target, list)
  {
    if a == [] {
      assert a + b == b;
    } else {
      assert (a + b)[1..] == a[1..] + b;
      SpliceConcat(a[1..], b, target, list);
    }
  }

  lemma SpliceReading(x: Id, inner: seq<Id>, outer: seq<Id>, target: Id, list: seq<Id>)
    ensures Splice([x] + inner + outer, target, list)
         == (if x == target then list else [x]) + Splice(inner, target, list) + Splice(outer, target, list)
  {
    SpliceConcat([x] + inner, outer, target, list);
    SpliceConcat([x], inner, target, list);
  }

  /** The list stands where the target stood. */
  lemma SpliceInPlace(before: seq<Id>, after: seq<Id>, target: Id, list: seq<Id>)
    requires target !in before && target !in after
    ensures Splice(before + [target] + after, target, list) == before + list + after
  {
    SpliceConcat(before + [target], after, target, list);
    SpliceConcat(before, [target], target, list);
    SpliceMembers(before, target, list);
    SpliceMembers(after, target, list);
  }

  /**
   Child lists `d` are child lists `c` with the target replaced by the leaves
   of `head` followed by the target's own children.
   */
  ghost predicate Spliced(c: Kids, d: Kids, h: Heights, k: Heights, target: Id, head: seq<Id>) {
    && Falls(c, h) && Falls(d, k)
    && (forall x :: x != target && x !in head ==> d(x) == Splice(c(x), target, head + c(target)))
    && (forall x :: x in head ==> k(x) == 0 && d(x) == [])
    && (forall x :: x !in head ==> k(x) == h(x))
  }

  lemma {:induction false} LeavesReadThemselves(c: Kids, h: Heights, list: seq<Id>, n: nat)
    requires Falls(c, h) && Below(h, list, n) && forall x :: x in list ==> c(x) == []
    ensures Preorder(c, h, list, n) == list
  {
    if list != [] {
      assert list[0] in list && list == [list[0]] + list[1..];
      LeavesReadThemselves(c, h, list[1..], n);
    }
  }

  /** The reading of the spliced forest is the spliced reading. */
  lemma {:induction false} SplicingCommutes(
    c: Kids, d: Kids, h: Heights, k: Heights, target: Id, head: seq<Id>, ids: seq<Id>, n: nat)
    requires Spliced(c, d, h, k, target, head) && Below(h, ids, n)
    requires forall x :: x in head ==> x !in Preorder(c, h, ids, n)
    ensures Below(k, Splice(ids, target, head + c(target)), n)
    ensures Preorder(d, k, Splice(ids, target, head + c(target)), n) == Splice(Preorder(c, h, ids, n), target, head)
    decreases n, |ids|
  {
    if ids != [] {
      var x, rest := ids[0], ids[1..];
      var tail := Splice(rest, target, head + c(target));
      assert x in ids;
      SplicingCommutes(c, d, h, k, target, head, rest, n);
      SplicingCommutes(c, d, h, k, target, head, c(x), h(x));
      SpliceReading(x, Preorder(c, h, c(x), h(x)), Preorder(c, h, rest, n), target, head);
      assert x in Preorder(c, h, ids, n);
      if x == target {
        SpliceMembers(c(target), target, head + c(target));
        ReadingSplicedTarget(c, d, h, k, target, head, tail, n);
      }
    }
  }

  /** The leaves, then the promoted children, then what follows. */
  lemma ReadingSplicedTarget(
    c: Kids, d: Kids, h: Heights, k: Heights, target: Id, head: seq<Id>, tail: seq<Id>, n: nat)
    requires Spliced(c, d, h, k, target, head) && h(target) < n
    requires Below(k, c(target), h(target)) && Below(k, tail, n)
    ensures Below(k, head + c(target) + tail, n)
    ensures Preorder(d, k, head + c(target) + tail, n)
         == head + Preorder(d, k, c(target), h(target)) + Preorder(d, k, tail, n)
  {
    PreorderConcat(d, k, head, c(target), n);
    PreorderConcat(d, k, head + c(target), tail, n);
    LeavesReadThemselves(d, k, head, n);
    PreorderIndependent(d, k, k, c(target), h(target), n);
  }

  // ----- nodes removed -----

  function Dropped(ids: seq<Id>, gone: set<Id>): seq<Id> {
    if ids == [] then []
    else (if ids[0] in gone then [] else [ids[0]]) + Dropped(ids[1..], gone)
  }

  lemma {:induction false} DroppedMembers(ids: seq<Id>, gone: set<Id>)
    ensures forall x :: x in Dropped(ids, gone) <==> x in ids && x !in gone
  {
    if ids != [] {
      DroppedMembers(ids[1..], gone);
      assert ids == [ids[0]] + ids[1..];
    }
  }

  lemma {:induction false} DroppedConcat(a: seq<Id>, b: seq<Id>, gone: set<Id>)
    ensures Dropped(a + b, gone) == Dropped(a, gone) + Dropped(b, gone)
  {
    if a == [] {
      assert a + b == b;
    } else {
      assert (a + b)[1..] == a[1..] + b;
      DroppedConcat(a[1..], b, gone);
    }
  }

  lemma DroppedReading(x: Id, inner: seq<Id>, outer: seq<Id>, gone: set<Id>)
    ensures Dropped([x] + inner + outer, gone)
         == (if x in gone then [] else [x]) + Dropped(inner, gone) + Dropped(outer, gone)
  {
    DroppedConcat([x] + inner, outer, gone);
    DroppedConcat([x], inner, gone);
  }

  ghost predicate ClosedDown(c: Kids, gone: set<Id>) {
    forall x, y :: x in gone && y in c(x) ==> y in gone
  }

  lemma {:induction false} ReadingStaysClosed(c: Kids, h: Heights, gone: set<Id>, ids: seq<Id>, n: nat)
    requires Falls(c, h) && Below(h, ids, n) && ClosedDown(c, gone)
    requires forall x :: x in ids ==> x in gone
    ensures Dropped(Preorder(c, h, ids, n), gone) == []
    decreases n, |ids|
  {
    if ids != [] {
      assert ids[0] in ids;
      ReadingStaysClosed(c, h, gone, c(ids[0]), h(ids[0]));
      ReadingStaysClosed(c, h, gone, ids[1..], n);
      DroppedReading(ids[0], Preorder(c, h, c(ids[0]), h(ids[0])), Preorder(c, h, ids[1..], n), gone);
    }
  }

  /** Child lists `d` are child lists `c` without the nodes of `gone`. */
  ghost predicate Remains(c: Kids, d: Kids, gone: set<Id>) {
    ClosedDown(c, gone) && forall x :: d(x) == Dropped(c(x), gone)
  }

  /** Removing a downward-closed set filters every depth-first reading. */
  lemma {:induction false} RemovalFiltersReading(c: Kids, d: Kids, h: Heights, gone: set<Id>, ids: seq<Id>, n: nat)
    requires Remains(c, d, gone) && Falls(c, h) && Falls(d, h) && Below(h, ids, n)
    ensures Below(h, Dropped(ids, gone), n)
    ensures Preorder(d, h, Dropped(ids, gone), n) == Dropped(Preorder(c, h, ids, n), gone)
    decreases n, |ids|
  {
    if ids != [] {
      var x, rest := ids[0], ids[1..];
      assert x in ids && ids == [x] + rest;
      RemovalFiltersReading(c, d, h, gone, rest, n);
      if x in gone {
        ReadingStaysClosed(c, h, gone, c(x), h(x));
        assert Dropped(ids, gone) == Dropped(rest, gone);
      } else {
        RemovalFiltersReading(c, d, h, gone, c(x), h(x));
        assert Dropped(ids, gone) == [x] + Dropped(rest, gone);
      }
      DroppedReading(x, Preorder(c, h, c(x), h(x)), Preorder(c, h, rest, n), gone);
    }
  }
}

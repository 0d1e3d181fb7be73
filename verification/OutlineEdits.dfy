/** Structural edits of an outline: indent, outdent and delete, in place. */
module OutlineEdits {
  import opened Options
  import opened TreeRepair

  // ----- relinking one node -----

  /** `id` does not occur on the chain that starts at `q`. */
  ghost predicate Avoids(p: Parents, q: Option<Id>, id: Id) {
    q.Some? ==> forall k: nat :: Up(p, q.value, k) != Some(id)
  }

  lemma {:induction false} AvoidingChainStays(p: Parents, id: Id, target: Option<Id>, x: Id, n: nat)
    requires Avoids(p, Some(x), id)
    ensures Up(p[id := target], x, n) == Up(p, x, n)
    decreases n
  {
    if n > 0 {
      AvoidingChainStays(p, id, target, x, n - 1);
      assert Up(p, x, n - 1) != Some(id);
    }
  }

  /** A chain either avoids the node or meets it, and then goes on as the node does. */
  lemma {:induction false} ChainRootedAfterRelink(p: Parents, id: Id, target: Option<Id>, x: Id, n: nat)
    requires Up(p, x, n) == None && Rooted(p[id := target], id)
    ensures Rooted(p[id := target], x)
    decreases n
  {
    var q := p[id := target];
    if x != id {
      assert Up(p, x, 0) == Some(x) && Up(q, x, 0) == Some(x);
      assert Up(p, x, 1) == ParentOf(p, x) && Up(q, x, 1) == ParentOf(p, x);
      if ParentOf(p, x).Some? {
        UpPlus(p, x, 1, n - 1);
        ChainRootedAfterRelink(p, id, target, ParentOf(p, x).value, n - 1);
        AncestorsAreRooted(q, x, 1);
      }
    }
  }

  lemma RelinkKeepsRooted(p: Parents, id: Id, target: Option<Id>)
    requires AllRooted(p) && id in p && (target.Some? ==> target.value in p) && Avoids(p, target, id)
    ensures AllRooted(p[id := target])
  {
    var q := p[id := target];
    assert Up(q, id, 0) == Some(id) && Up(q, id, 1) == target;
    if target.Some? {
      var n: nat :| Up(p, target.value, n) == None;
      AvoidingChainStays(p, id, target, target.value, n);
      assert Rooted(q, target.value);
      AncestorsAreRooted(q, id, 1);
    }
    forall x | x in q ensures Rooted(q, x) {
      if x != id {
        var n: nat :| Up(p, x, n) == None;
        ChainRootedAfterRelink(p, id, target, x, n);
      }
    }
  }

  /** No node of a rooted outline is among its own proper ancestors. */
  lemma NotOwnAncestor(p: Parents, id: Id, k: nat)
    requires Rooted(p, id) && k > 0
    ensures Up(p, id, k) != Some(id)
  {
    assert Up(p, id, 0) == Some(id);
    if Up(p, id, k) == Some(id) { RepeatIsNotRooted(p, id, 0, k); }
  }

  lemma AncestorsAvoid(p: Parents, id: Id, k: nat)
    requires Rooted(p, id) && k > 0
    ensures Avoids(p, Up(p, id, k), id)
  {
    if Up(p, id, k).Some? {
      forall j: nat ensures Up(p, Up(p, id, k).value, j) != Some(id) {
        UpPlus(p, id, k, j);
        NotOwnAncestor(p, id, k + j);
      }
    }
  }

  /** A sibling's chain meets the node only if the common parent's does. */
  lemma SiblingAvoids(p: Parents, id: Id, sibling: Id)
    requires AllRooted(p) && id in p && sibling in p && sibling != id && p[id] == p[sibling]
    ensures Avoids(p, Some(sibling), id)
  {
    assert Up(p, id, 0) == Some(id) && Up(p, id, 1) == p[id];
    assert Up(p, sibling, 0) == Some(sibling) && Up(p, sibling, 1) == p[id];
    forall k: nat ensures Up(p, sibling, k) != Some(id) {
      if k > 0 {
        UpPlus(p, sibling, 1, k - 1);
        UpPlus(p, id, 1, k - 1);
        NotOwnAncestor(p, id, k);
      }
    }
  }

  // ----- deleting one node -----

  /** The node's children move to its parent, and the node is gone. */
  function Spliced(p: Parents, id: Id): Parents
    requires id in p
  {
    map x | x in p && x != id :: if p[x] == Some(id) then p[id] else p[x]
  }

  ghost predicate IsAncestor(p: Parents, x: Id, y: Id) {
    exists k: nat :: k > 0 && Up(p, x, k) == Some(y)
  }

  lemma IsAncestorOneUp(p: Parents, x: Id, y: Id, k: nat)
    requires ParentOf(p, x).Some?
    ensures Up(p, x, k + 1) == Up(p, ParentOf(p, x).value, k)
  {
  }

  lemma ParentIsAncestor(p: Parents, x: Id, y: Id)
    requires ParentOf(p, x) == Some(y)
    ensures IsAncestor(p, x, y)
  {
    assert Up(p, x, 0) == Some(x);
    assert Up(p, x, 1) == Some(y);
  }

  lemma AncestorOfParent(p: Parents, x: Id, z: Id, y: Id)
    requires ParentOf(p, x) == Some(z) && IsAncestor(p, z, y)
    ensures IsAncestor(p, x, y)
  {
    var k: nat :| k > 0 && Up(p, z, k) == Some(y);
    IsAncestorOneUp(p, x, y, k);
  }

  lemma {:induction false} SplicedAncestorWasAncestor(p: Parents, id: Id, x: Id, y: Id, k: nat)
    requires id in p && x != id && k > 0 && Up(Spliced(p, id), x, k) == Some(y)
    ensures IsAncestor(p, x, y)
    decreases k
  {
    var q := Spliced(p, id);
    if ParentOf(q, x).None? {
      assert Up(q, x, 0) == Some(x);
      assert Up(q, x, 1) == None;
      UpEnds(q, x, 1, k);
    } else {
      var z := ParentOf(q, x).value;
      IsAncestorOneUp(q, x, y, k - 1);
      if k == 1 {
        assert z == y;
        if p[x] == Some(id) {
          ParentIsAncestor(p, id, y);
          AncestorOfParent(p, x, id, y);
        } else {
          ParentIsAncestor(p, x, y);
        }
      } else if z == id {
        assert ParentOf(q, id) == None;
        assert Up(q, id, 0) == Some(id);
        assert Up(q, id, 1) == None;
        UpEnds(q, id, 1, k - 1);
      } else {
        SplicedAncestorWasAncestor(p, id, z, y, k - 1);
        if p[x] == Some(id) {
          AncestorOfParent(p, id, z, y);
          AncestorOfParent(p, x, id, y);
        } else {
          AncestorOfParent(p, x, z, y);
        }
      }
    }
  }

  lemma {:induction false} AncestorSurvives(p: Parents, id: Id, x: Id, y: Id, k: nat)
    requires id in p && Rooted(p, id) && x in p && x != id && y != id && k > 0 && Closed(p)
    requires Up(p, x, k) == Some(y)
    ensures IsAncestor(Spliced(p, id), x, y)
    decreases k
  {
    var q := Spliced(p, id);
    assert Up(p, x, 0) == Some(x) && Up(p, x, 1) == p[x];
    if p[x].None? { UpEnds(p, x, 1, k); }
    var z := p[x].value;
    IsAncestorOneUp(p, x, y, k - 1);
    if z != id {
      if k == 1 {
        ParentIsAncestor(q, x, y);
      } else {
        AncestorSurvives(p, id, z, y, k - 1);
        AncestorOfParent(q, x, z, y);
      }
    } else {
      assert Up(p, id, 0) == Some(id) && Up(p, id, 1) == p[id];
      if p[id].None? { UpEnds(p, id, 1, k - 1); }
      var w := p[id].value;
      NotOwnAncestor(p, id, 1);
      IsAncestorOneUp(p, id, y, k - 2);
      if k == 2 {
        ParentIsAncestor(q, x, y);
      } else {
        AncestorSurvives(p, id, w, y, k - 2);
        AncestorOfParent(q, x, w, y);
      }
    }
  }

  /** Deleting a node changes no ancestor relation between the others. */
  lemma DeleteKeepsAncestors(p: Parents, id: Id, x: Id, y: Id)
    requires id in p && Rooted(p, id) && Closed(p) && x in p && x != id && y != id
    ensures IsAncestor(Spliced(p, id), x, y) <==> IsAncestor(p, x, y)
  {
    if IsAncestor(Spliced(p, id), x, y) {
      var k: nat :| k > 0 && Up(Spliced(p, id), x, k) == Some(y);
      SplicedAncestorWasAncestor(p, id, x, y, k);
    }
    if IsAncestor(p, x, y) {
      var k: nat :| k > 0 && Up(p, x, k) == Some(y);
      AncestorSurvives(p, id, x, y, k);
    }
  }

  lemma {:induction false} SplicedChainEnds(p: Parents, id: Id, x: Id, n: nat)
    requires id in p && Closed(p) && x in p && x != id && Rooted(p, id) && Up(p, x, n) == None
    ensures Rooted(Spliced(p, id), x)
    decreases n
  {
    var q := Spliced(p, id);
    assert Up(q, x, 0) == Some(x) && Up(q, x, 1) == q[x];
    assert Up(p, x, 0) == Some(x) && Up(p, x, 1) == p[x];
    if q[x].Some? {
      var z := q[x].value;
      IsAncestorOneUp(p, x, x, n - 1);
      if p[x] == Some(id) {
        NotOwnAncestor(p, id, 1);
        assert Up(p, id, 0) == Some(id) && Up(p, id, 1) == p[id];
        IsAncestorOneUp(p, id, id, n - 2);
        SplicedChainEnds(p, id, z, n - 2);
      } else {
        SplicedChainEnds(p, id, z, n - 1);
      }
      AncestorsAreRooted(q, x, 1);
    }
  }

  lemma DeleteKeepsRooted(p: Parents, id: Id)
    requires id in p && Closed(p) && AllRooted(p)
    ensures AllRooted(Spliced(p, id)) && Closed(Spliced(p, id))
  {
    forall x | x in Spliced(p, id) ensures Rooted(Spliced(p, id), x) {
      var n: nat :| Up(p, x, n) == None;
      SplicedChainEnds(p, id, x, n);
    }
    assert Up(p, id, 0) == Some(id) && Up(p, id, 1) == p[id];
    NotOwnAncestor(p, id, 1);
  }

  // ----- the outline being edited -----

  ghost predicate Distinct(ids: seq<Id>) {
    forall i, j :: 0 <= i < j < |ids| ==> ids[i] != ids[j]
  }

  /** Links to the node itself or to a missing node are dropped before the repair. */
  function Sanitized(p: Parents): Parents {
    map x | x in p :: if p[x] == Some(x) || (p[x].Some? && p[x].value !in p) then None else p[x]
  }

  /** What normalization makes of the parent links. */
  ghost function Normalized(p: Parents, nodes: seq<Id>): Parents {
    Repaired(Sanitized(p), nodes)
  }

  /** Exactly those links go, and no node does. */
  lemma SanitizedExactly(p: Parents, x: Id)
    ensures x in Sanitized(p) <==> x in p
    ensures x in p && p[x] != Some(x) && (p[x].Some? ==> p[x].value in p) ==> Sanitized(p)[x] == p[x]
    ensures x in p && (p[x] == Some(x) || (p[x].Some? && p[x].value !in p)) ==> Sanitized(p)[x] == None
  {
  }

  /** However broken the rest is, a node whose own chain ends keeps its link. */
  lemma NormalizedKeepsEndingChains(p: Parents, nodes: seq<Id>, x: Id)
    requires (forall y :: y in nodes <==> y in p) && x in p && Rooted(Sanitized(p), x)
    ensures x in Normalized(p, nodes) && Normalized(p, nodes)[x] == Sanitized(p)[x]
  {
    RepairedIsRooted(Sanitized(p), nodes);
    RepairedIsGentle(Sanitized(p), nodes);
  }

  lemma SanitizedKeepsRooted(p: Parents)
    requires Closed(p) && AllRooted(p)
    ensures Sanitized(p) == p
  {
    forall x | x in p ensures p[x] != Some(x) {
      NotOwnAncestor(p, x, 1);
      assert Up(p, x, 0) == Some(x);
      assert Up(p, x, 1) == p[x];
    }
  }

  /** Normalizing a sound outline changes nothing, so normalizing twice changes nothing more. */
  lemma NormalizationIsIdempotent(p: Parents, nodes: seq<Id>)
    requires forall x :: x in nodes <==> x in p
    ensures AllRooted(Normalized(p, nodes)) && Closed(Normalized(p, nodes))
    ensures Normalized(Normalized(p, nodes), nodes) == Normalized(p, nodes)
  {
    var q := Normalized(p, nodes);
    RepairedIsRooted(Sanitized(p), nodes);
    SanitizedKeepsRooted(q);
    RepairedIsGentle(q, nodes);
  }

  /** The last node before `id` in the list with the same parent. */
  function PreviousSibling(nodes: seq<Id>, p: Parents, id: Id): (r: Option<Id>)
    ensures r.Some? ==> r.value in nodes && r.value != id && ParentOf(p, r.value) == ParentOf(p, id)
  {
    PreviousBefore(nodes, p, id, None)
  }

  function PreviousBefore(nodes: seq<Id>, p: Parents, id: Id, found: Option<Id>): (r: Option<Id>)
    requires found.Some? ==> found.value != id && ParentOf(p, found.value) == ParentOf(p, id)
    ensures r.None? || r == found || ( r.value in nodes && r.value != id && ParentOf(p, r.value) == ParentOf(p, id))
  {
    if nodes == [] then None
    else if nodes[0] == id then found
    else PreviousBefore(nodes[1..], p, id, if ParentOf(p, nodes[0]) == ParentOf(p, id) then Some(nodes[0]) else found)
  }

  /** Node i of the list has the same parent as the node, and stands before it. */
  ghost predicate StandsBefore(nodes: seq<Id>, p: Parents, id: Id, i: nat) {
    i < |nodes| && id !in nodes[..i + 1] && ParentOf(p, nodes[i]) == ParentOf(p, id)
  }

  /** The previous sibling is the nearest node before it that has its parent; there is none if no node has. */
  lemma PreviousSiblingIsNearest(nodes: seq<Id>, p: Parents, id: Id)
    requires id in nodes
    ensures var r := PreviousSibling(nodes, p, id);
      if r.None? then forall i: nat :: !StandsBefore(nodes, p, id, i)
      else exists i: nat :: StandsBefore(nodes, p, id, i) && nodes[i] == r.value
                            && forall j: nat :: StandsBefore(nodes, p, id, j) ==> j <= i
  {
    PreviousBeforeIsNearest(nodes, p, id, None);
  }

  lemma {:induction false} PreviousBeforeIsNearest(nodes: seq<Id>, p: Parents, id: Id, found: Option<Id>)
    requires id in nodes && (found.Some? ==> found.value != id && ParentOf(p, found.value) == ParentOf(p, id))
    ensures var r := PreviousBefore(nodes, p, id, found);
      || (r == found && forall i: nat :: !StandsBefore(nodes, p, id, i))
      || (r.Some? && exists i: nat :: StandsBefore(nodes, p, id, i) && nodes[i] == r.value
                                      && forall j: nat :: StandsBefore(nodes, p, id, j) ==> j <= i)
    decreases |nodes|
  {
    if nodes[0] != id {
      var rest := nodes[1..];
      var next := if ParentOf(p, nodes[0]) == ParentOf(p, id) then Some(nodes[0]) else found;
      assert nodes == [nodes[0]] + rest;
      PreviousBeforeIsNearest(rest, p, id, next);
      forall j: nat | StandsBefore(nodes, p, id, j) ensures j == 0 || StandsBefore(rest, p, id, j - 1) {
        if j > 0 { StandsBeforeShifts(nodes, p, id, j - 1); }
      }
      assert StandsBefore(nodes, p, id, 0) <==> ParentOf(p, nodes[0]) == ParentOf(p, id);
      if i: nat :| StandsBefore(rest, p, id, i) && (forall j: nat :: StandsBefore(rest, p, id, j) ==> j <= i) {
        StandsBeforeShifts(nodes, p, id, i);
        assert StandsBefore(nodes, p, id, i + 1);
      }
    } else {
      forall i: nat ensures !StandsBefore(nodes, p, id, i) {
        if i < |nodes| { assert nodes[..i + 1][0] == id; }
      }
    }
  }

  lemma StandsBeforeShifts(nodes: seq<Id>, p: Parents, id: Id, i: nat)
    requires nodes != [] && nodes[0] != id
    ensures StandsBefore(nodes[1..], p, id, i) <==> StandsBefore(nodes, p, id, i + 1)
  {
    if i + 1 < |nodes| {
      assert nodes[..i + 2] == [nodes[0]] + nodes[1..][..i + 1];
    }
  }

  function WithoutNode(nodes: seq<Id>, id: Id): seq<Id> {
    if nodes == [] then []
    else (if nodes[0] == id then [] else [nodes[0]]) + WithoutNode(nodes[1..], id)
  }

  lemma {:induction false} WithoutNodeKeeps(nodes: seq<Id>, id: Id)
    requires Distinct(nodes)
    ensures Distinct(WithoutNode(nodes, id))
    ensures forall x :: x in WithoutNode(nodes, id) <==> x in nodes && x != id
  {
    if nodes != [] {
      assert nodes == [nodes[0]] + nodes[1..];
      assert nodes[0] !in nodes[1..];
      WithoutNodeKeeps(nodes[1..], id);
    }
  }

  /** What stands before and after the node stays where it stood. */
  lemma {:induction false} WithoutNodeInPlace(before: seq<Id>, id: Id, after: seq<Id>)
    requires id !in before && id !in after
    ensures WithoutNode(before + [id] + after, id) == before + after
    decreases |before|
  {
    if before == [] {
      assert before + [id] + after == [id] + after && ([id] + after)[1..] == after;
      WithoutMissing(after, id);
    } else {
      assert (before + [id] + after)[1..] == before[1..] + [id] + after;
      WithoutNodeInPlace(before[1..], id, after);
    }
  }

  lemma {:induction false} WithoutMissing(nodes: seq<Id>, id: Id)
    requires id !in nodes
    ensures WithoutNode(nodes, id) == nodes
    decreases |nodes|
  {
    if nodes != [] { WithoutMissing(nodes[1..], id); }
  }

  class Outline {
    var nodes: seq<Id>
    var parentOf: Parents

    /** Every node is listed once and has a chain to a root. */
    ghost predicate Valid()
      reads this
    {
      Distinct(nodes) && (forall x :: x in nodes <==> x in parentOf) && Closed(parentOf) && AllRooted(parentOf)
    }

    constructor (nodes: seq<Id>, parentOf: Parents)
      requires Distinct(nodes) && forall x :: x in nodes <==> x in parentOf
      ensures Valid() && this.nodes == nodes && this.parentOf == Normalized(parentOf, nodes)
    {
      this.nodes := nodes;
      this.parentOf := Sanitized(parentOf);
      new;
      RepairedIsRooted(this.parentOf, nodes);
      this.parentOf := Repair(this.parentOf, nodes);
    }

    /** A node that has a previous sibling becomes that sibling's child. */
    method Indent(id: Id)
      requires Valid() && id in nodes
      modifies this`parentOf
      ensures Valid()
      ensures var previous := PreviousSibling(nodes, old(parentOf), id);
        parentOf == if previous.Some? then old(parentOf)[id := previous] else old(parentOf)
    {
      var previous := PreviousSibling(nodes, parentOf, id);
      if previous.Some? {
        SiblingAvoids(parentOf, id, previous.value);
        RelinkKeepsRooted(parentOf, id, previous);
        parentOf := parentOf[id := previous];
      }
    }

    /** A node with a parent becomes its parent's sibling. */
    method Outdent(id: Id)
      requires Valid() && id in nodes
      modifies this`parentOf
      ensures Valid()
      ensures parentOf == if old(parentOf)[id].Some?
        then old(parentOf)[id := ParentOf(old(parentOf), old(parentOf)[id].value)]
        else old(parentOf)
    {
      var parent := parentOf[id];
      if parent.Some? {
        var grandparent := ParentOf(parentOf, parent.value);
        assert Up(parentOf, id, 0) == Some(id) && Up(parentOf, id, 1) == parent;
        assert Up(parentOf, id, 2) == grandparent;
        AncestorsAvoid(parentOf, id, 2);
        RelinkKeepsRooted(parentOf, id, grandparent);
        parentOf := parentOf[id := grandparent];
      }
    }

    /** The parent links once the node's children hang from the node's parent. */
    method MoveChildren(id: Id) returns (links: Parents)
      requires id in parentOf && Distinct(nodes) && forall x :: x in nodes <==> x in parentOf
      ensures links - {id} == Spliced(parentOf, id)
    {
      var parentId := parentOf[id];
      links := parentOf;
      for i := 0 to |nodes|
        invariant links.Keys == parentOf.Keys
        invariant forall j :: 0 <= j < |nodes| ==>
          links[nodes[j]] == if j < i && parentOf[nodes[j]] == Some(id) then parentId else parentOf[nodes[j]]
      {
        assert nodes[i] in nodes;
        if links[nodes[i]] == Some(id) {
          links := links[nodes[i] := parentId];
        }
      }
      assert forall x :: x in parentOf ==> x in nodes;
    }

    /** The node goes and its children move up; ancestry among the others stays. */
    method Delete(id: Id)
      requires Valid() && id in nodes
      modifies this
      ensures Valid()
      ensures nodes == WithoutNode(old(nodes), id) && parentOf == Spliced(old(parentOf), id)
      ensures forall x, y :: x in nodes && y in nodes ==>
        (IsAncestor(parentOf, x, y) <==> IsAncestor(old(parentOf), x, y))
    {
      DeleteKeepsRooted(parentOf, id);
      WithoutNodeKeeps(nodes, id);
      forall x, y | x in parentOf && x != id && y != id
        ensures IsAncestor(Spliced(parentOf, id), x, y) <==> IsAncestor(parentOf, x, y)
      {
        DeleteKeepsAncestors(parentOf, id, x, y);
      }
      var links := MoveChildren(id);
      parentOf := links - {id};
      nodes := WithoutNode(nodes, id);
      assert parentOf == Spliced(old(parentOf), id);
    }
  }
}

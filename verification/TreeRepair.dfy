/**
 Parent links of an outline: climbing them, cutting the ones that never reach a
 root, and the cache that makes the cutting fast.
 */
module TreeRepair {
  import opened Options

  type Id = nat

  type Parents = map<Id, Option<Id>>

  function ParentOf(p: Parents, id: Id): Option<Id> {
    if id in p then p[id] else None
  }

  /** The ancestor `k` links up, if the chain is that long. */
  function Up(p: Parents, id: Id, k: nat): Option<Id>
    decreases k
  {
    if k == 0 then Some(id)
    else
      var below := Up(p, id, k - 1);
      if below.None? then None else ParentOf(p, below.value)
  }

  /** The parent chain ends. */
  ghost predicate Rooted(p: Parents, id: Id) {
    exists n: nat :: Up(p, id, n) == None
  }

  ghost predicate Closed(p: Parents) {
    forall id :: id in p && p[id].Some? ==> p[id].value in p
  }

  ghost predicate AllRooted(p: Parents) {
    forall id :: id in p ==> Rooted(p, id)
  }

  lemma {:induction false} UpPlus(p: Parents, id: Id, a: nat, b: nat)
    ensures Up(p, id, a + b) == if Up(p, id, a).None? then None else Up(p, Up(p, id, a).value, b)
    decreases b
  {
    if b > 0 { UpPlus(p, id, a, b - 1); }
  }

  /** Beyond the root there is nothing. */
  lemma UpEnds(p: Parents, id: Id, n: nat, m: nat)
    requires Up(p, id, n) == None && n <= m
    ensures Up(p, id, m) == None
  {
    UpPlus(p, id, n, m - n);
  }

  lemma AncestorsAreRooted(p: Parents, id: Id, k: nat)
    requires Up(p, id, k).Some?
    ensures Rooted(p, id) <==> Rooted(p, Up(p, id, k).value)
  {
    var top := Up(p, id, k).value;
    if Rooted(p, id) {
      var n: nat :| Up(p, id, n) == None;
      UpEnds(p, id, n, k + n);
      UpPlus(p, id, k, n);
    }
    if Rooted(p, top) {
      var n: nat :| Up(p, top, n) == None;
      UpPlus(p, id, k, n);
    }
  }

  /** A chain that comes back never ends. */
  lemma {:induction false} LoopsForever(p: Parents, id: Id, i: nat, k: nat, n: nat)
    requires i < k && Up(p, id, i) == Up(p, id, k) && Up(p, id, k).Some?
    ensures Up(p, id, n).Some?
    decreases n
  {
    if n <= k {
      if Up(p, id, n).None? { UpEnds(p, id, n, k); }
    } else {
      LoopsForever(p, id, i, k, n - (k - i));
      UpPlus(p, id, k, n - k);
      UpPlus(p, id, i, n - k);
      assert i + (n - k) == n - (k - i);
    }
  }

  lemma RepeatIsNotRooted(p: Parents, id: Id, i: nat, k: nat)
    requires i < k && Up(p, id, i) == Up(p, id, k) && Up(p, id, k).Some?
    ensures !Rooted(p, id)
  {
    forall n: nat ensures Up(p, id, n).Some? {
      LoopsForever(p, id, i, k, n);
    }
  }

  // ----- the walk, without and with the cache -----

  /** What has been seen after `k` links. */
  ghost predicate Seen(p: Parents, id: Id, seen: set<Id>, k: nat) {
    && (forall i: nat :: i < k ==> Up(p, id, i).Some? && Up(p, id, i).value in seen)
    && (forall x :: x in seen ==> exists i: nat :: i < k && Up(p, id, i) == Some(x))
  }

  /** The plain walk: true exactly when the node's chain never ends. */
  method WouldCycleUncached(id: Id, p: Parents) returns (cycles: bool)
    requires Closed(p) && id in p && p[id].Some?
    ensures cycles <==> !Rooted(p, id)
  {
    var seen: set<Id> := {id};
    var current := p[id];
    ghost var k := 1;
    assert Up(p, id, 0) == Some(id);
    while current.Some?
      invariant k >= 1 && current == Up(p, id, k) && Seen(p, id, seen, k)
      invariant (current.Some? ==> current.value in p) && seen <= p.Keys
      decreases p.Keys - seen, current.Some?
    {
      if current.value in seen {
        ghost var i: nat :| i < k && Up(p, id, i) == current;
        RepeatIsNotRooted(p, id, i, k);
        return true;
      }
      seen := seen + {current.value};
      current := ParentOf(p, current.value);
      k := k + 1;
    }
    cycles := false;
  }

  ghost predicate CacheFits(p: Parents, acyclic: set<Id>) {
    forall x :: x in acyclic ==> Rooted(p, x)
  }

  /** The cached walk answers the same, and what it adds to the cache is true. */
  method ParentWouldCycle(id: Id, p: Parents, acyclic: set<Id>) returns (cycles: bool, cache: set<Id>)
    requires Closed(p) && id in p && p[id].Some? && CacheFits(p, acyclic)
    ensures cycles <==> !Rooted(p, id)
    ensures CacheFits(p, cache)
  {
    var parent := p[id].value;
    assert Up(p, id, 0) == Some(id) && Up(p, id, 1) == Some(parent);
    AncestorsAreRooted(p, id, 1);
    if id in acyclic || parent in acyclic {
      return false, acyclic;
    }
    var seen: set<Id> := {id};
    var current := Some(parent);
    ghost var k := 1;
    while current.Some?
      invariant k >= 1 && current == Up(p, id, k) && Seen(p, id, seen, k)
      invariant (current.Some? ==> current.value in p) && seen <= p.Keys
      decreases p.Keys - seen, current.Some?
    {
      if current.value in acyclic {
        AncestorsAreRooted(p, id, k);
        break;
      }
      if current.value in seen {
        ghost var i: nat :| i < k && Up(p, id, i) == current;
        RepeatIsNotRooted(p, id, i, k);
        return true, acyclic;
      }
      seen := seen + {current.value};
      current := ParentOf(p, current.value);
      k := k + 1;
    }
    assert Rooted(p, id);
    forall x | x in seen ensures Rooted(p, x) {
      var i: nat :| i < k && Up(p, id, i) == Some(x);
      AncestorsAreRooted(p, id, i);
    }
    cycles, cache := false, acyclic + seen;
  }

  // ----- the repair -----

  /** Node by node in input order, a link whose chain never ends is cut. */
  ghost function Repaired(p: Parents, order: seq<Id>): Parents
    decreases |order|
  {
    if order == [] then p
    else
      var q := Repaired(p, order[..|order| - 1]);
      var x := order[|order| - 1];
      if ParentOf(q, x).Some? && !Rooted(q, x) then q[x := None] else q
  }

  /** Cutting a link ends more chains and lengthens none. */
  lemma {:induction false} CutUp(p: Parents, x: Id, id: Id, n: nat)
    requires Up(p, id, n) == None
    ensures Up(p[x := None], id, n) == None
    decreases n
  {
    var q := p[x := None];
    if Up(q, id, n).Some? {
      CutAgrees(p, x, id, n);
    }
  }

  lemma {:induction false} CutAgrees(p: Parents, x: Id, id: Id, n: nat)
    requires Up(p[x := None], id, n).Some?
    ensures Up(p, id, n) == Up(p[x := None], id, n)
    decreases n
  {
    if n > 0 { CutAgrees(p, x, id, n - 1); }
  }

  lemma CutKeepsRooted(p: Parents, x: Id, id: Id)
    requires Rooted(p, id)
    ensures Rooted(p[x := None], id)
  {
    var n: nat :| Up(p, id, n) == None;
    CutUp(p, x, id, n);
  }

  lemma CutIsRooted(p: Parents, x: Id)
    ensures Rooted(p[x := None], x)
  {
    assert Up(p[x := None], x, 0) == Some(x);
    assert Up(p[x := None], x, 1) == None;
  }

  lemma {:induction false} RepairedFacts(p: Parents, order: seq<Id>)
    requires Closed(p) && forall x :: x in order ==> x in p
    ensures var q := Repaired(p, order);
      && q.Keys == p.Keys && Closed(q)
      && (forall x :: x in p ==> q[x] == p[x] || (q[x] == None && !Rooted(p, x)))
      && (forall x :: Rooted(p, x) ==> Rooted(q, x))
      && (forall x :: x in order ==> Rooted(q, x))
    decreases |order|
  {
    if order != [] {
      var front, x := order[..|order| - 1], order[|order| - 1];
      assert order == front + [x];
      RepairedFacts(p, front);
      var q := Repaired(p, front);
      if ParentOf(q, x).Some? && !Rooted(q, x) {
        forall y | Rooted(q, y) ensures Rooted(q[x := None], y) {
          CutKeepsRooted(q, x, y);
        }
        CutIsRooted(q, x);
      } else if ParentOf(q, x).None? {
        assert Up(q, x, 0) == Some(x);
        assert Up(q, x, 1) == None;
      }
    }
  }

  /** After the repair every node has a chain to a root. */
  lemma RepairedIsRooted(p: Parents, order: seq<Id>)
    requires Closed(p) && forall x :: x in order <==> x in p
    ensures AllRooted(Repaired(p, order)) && Closed(Repaired(p, order)) && Repaired(p, order).Keys == p.Keys
  {
    RepairedFacts(p, order);
  }

  /** A link is cut only where the input's own chain never ended; a sound outline is untouched. */
  lemma RepairedIsGentle(p: Parents, order: seq<Id>)
    requires Closed(p) && forall x :: x in order ==> x in p
    ensures forall x :: x in p && Rooted(p, x) ==> ParentOf(Repaired(p, order), x) == p[x]
    ensures AllRooted(p) ==> Repaired(p, order) == p
  {
    RepairedFacts(p, order);
  }

  /** Some node of the parent chain, the node itself included, is one of these. */
  ghost predicate Meets(p: Parents, id: Id, nodes: seq<Id>) {
    exists k: nat :: Up(p, id, k).Some? && Up(p, id, k).value in nodes
  }

  lemma {:induction false} OthersAreKept(p: Parents, order: seq<Id>, id: Id)
    requires id !in order
    ensures ParentOf(Repaired(p, order), id) == ParentOf(p, id)
    decreases |order|
  {
    if order != [] {
      var front, x := order[..|order| - 1], order[|order| - 1];
      assert order == front + [x];
      OthersAreKept(p, front, id);
    }
  }

  lemma {:induction false} ChainIsKept(p: Parents, order: seq<Id>, id: Id, k: nat)
    requires !Meets(p, id, order)
    ensures Up(Repaired(p, order), id, k) == Up(p, id, k)
    decreases k
  {
    if k > 0 {
      ChainIsKept(p, order, id, k - 1);
      var below := Up(p, id, k - 1);
      if below.Some? {
        OthersAreKept(p, order, below.value);
      }
    }
  }

  lemma {:induction false} MeetingIsRooted(p: Parents, order: seq<Id>, id: Id, k: nat)
    requires Closed(p) && id in p && forall x :: x in order ==> x in p
    requires Up(p, id, k).Some? && Up(p, id, k).value in order
    ensures Rooted(Repaired(p, order), id)
    decreases k
  {
    var q := Repaired(p, order);
    RepairedFacts(p, order);
    if k > 0 {
      assert Up(q, id, 0) == Some(id);
      assert Up(q, id, 1) == q[id];
      if q[id].Some? {
        UpPlus(p, id, 1, k - 1);
        assert Up(p, id, 0) == Some(id);
        assert Up(p, id, 1) == p[id] == q[id];
        MeetingIsRooted(p, order, q[id].value, k - 1);
        AncestorsAreRooted(q, id, 1);
      }
    }
  }

  /** Once some nodes are repaired, a chain ends if it ended before or meets one of them. */
  lemma RootedExactly(p: Parents, order: seq<Id>, id: Id)
    requires Closed(p) && id in p && forall x :: x in order ==> x in p
    ensures Rooted(Repaired(p, order), id) <==> Rooted(p, id) || Meets(p, id, order)
  {
    RepairedFacts(p, order);
    if Meets(p, id, order) {
      var k: nat :| Up(p, id, k).Some? && Up(p, id, k).value in order;
      MeetingIsRooted(p, order, id, k);
    } else if Rooted(Repaired(p, order), id) {
      var n: nat :| Up(Repaired(p, order), id, n) == None;
      ChainIsKept(p, order, id, n);
    }
  }

  /** A link is cut exactly if its chain never ended and meets no node that comes earlier in the input. */
  lemma {:induction false} CutExactly(p: Parents, order: seq<Id>, i: nat)
    requires Closed(p) && i < |order| && forall x :: x in order ==> x in p
    requires forall j, k :: 0 <= j < k < |order| ==> order[j] != order[k]
    ensures ParentOf(Repaired(p, order), order[i])
         == if Rooted(p, order[i]) || Meets(p, order[i], order[..i]) then p[order[i]] else None
    decreases |order|
  {
    var front, x := order[..|order| - 1], order[|order| - 1];
    assert order == front + [x];
    RootedExactly(p, front, x);
    if i < |front| {
      assert front[..i] == order[..i] && front[i] != x;
      CutExactly(p, front, i);
    } else {
      assert x !in front;
      OthersAreKept(p, front, x);
      RepairedFacts(p, front);
    }
  }

  method RepairUncached(p: Parents, order: seq<Id>) returns (q: Parents)
    requires Closed(p) && forall x :: x in order ==> x in p
    ensures q == Repaired(p, order)
  {
    q := p;
    for i := 0 to |order|
      invariant q == Repaired(p, order[..i]) && Closed(q) && q.Keys == p.Keys
    {
      assert order[..i + 1][..i] == order[..i];
      var x := order[i];
      if q[x].Some? {
        var cycles := WouldCycleUncached(x, q);
        if cycles {
          q := q[x := None];
        }
      }
    }
    assert order[..|order|] == order;
  }

  /** The cached repair cuts exactly the links the uncached one cuts. */
  method Repair(p: Parents, order: seq<Id>) returns (q: Parents)
    requires Closed(p) && forall x :: x in order ==> x in p
    ensures q == Repaired(p, order)
  {
    q := p;
    var acyclic: set<Id> := {};
    for i := 0 to |order|
      invariant q == Repaired(p, order[..i]) && Closed(q) && q.Keys == p.Keys
      invariant CacheFits(q, acyclic)
    {
      assert order[..i + 1][..i] == order[..i];
      var x := order[i];
      if q[x].Some? {
        var cycles, cache := ParentWouldCycle(x, q, acyclic);
        acyclic := cache;
        if cycles {
          forall y | y in acyclic ensures Rooted(q[x := None], y) {
            CutKeepsRooted(q, x, y);
          }
          CutIsRooted(q, x);
          q := q[x := None];
        }
        acyclic := acyclic + {x};
      }
    }
    assert order[..|order|] == order;
  }
}

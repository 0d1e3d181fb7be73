/**
 Writer locks over several ids at once: every call takes its ids one after the
 other from a lock manager with one FIFO queue per name, holds them during its
 action and gives them back in reverse. Names are numbers in string order.
 */
module WriterLocks {

  type Name = nat

  // ----- the order in which a call asks -----

  ghost predicate Ascending(ids: seq<Name>) {
    forall i, j :: 0 <= i < j < |ids| ==> ids[i] < ids[j]
  }

  function Insert(ids: seq<Name>, x: Name): (r: seq<Name>)
    requires Ascending(ids)
    ensures Ascending(r) && forall y :: y in r <==> y == x || y in ids
  {
    if ids == [] then [x]
    else if x < ids[0] then [x] + ids
    else if x == ids[0] then ids
    else
      var rest := Insert(ids[1..], x);
      assert ids == [ids[0]] + ids[1..];
      assert forall k :: 0 <= k < |rest| ==> rest[k] in rest && ids[0] < rest[k];
      [ids[0]] + rest
  }

  /** The requested ids without repeats, in ascending order. */
  function SortedIds(requested: seq<Name>): (r: seq<Name>)
    ensures Ascending(r) && forall y :: y in r <==> y in requested
  {
    if requested == [] then []
    else
      assert requested == [requested[0]] + requested[1..];
      Insert(SortedIds(requested[1..]), requested[0])
  }

  // ----- calls and the lock table -----

  /** Before a request, in a queue, inside the action, giving locks back, settled. */
  datatype Phase = Asking | Queued | Acting | Returning | Done

  /** A call holds the first `held` of its ids. */
  datatype Call = Call(ids: seq<Name>, exclusive: bool, held: nat, phase: Phase)

  datatype State = State(calls: seq<Call>, queue: Name -> seq<nat>)

  predicate Holds(c: Call, n: Name) {
    exists i :: 0 <= i < c.held && i < |c.ids| && c.ids[i] == n
  }

  /** The first request in a queue is granted once no holder conflicts with it. */
  ghost predicate Grantable(s: State, n: Name) {
    && s.queue(n) != [] && s.queue(n)[0] < |s.calls|
    && forall d: nat :: d < |s.calls| && Holds(s.calls[d], n) ==>
         !s.calls[d].exclusive && !s.calls[s.queue(n)[0]].exclusive
  }

  datatype Event =
    | Request(requested: seq<Name>, exclusive: bool)
    | Ask(c: nat)
    | Grant(n: Name)
    | Start(c: nat)
    | Settle(c: nat)
    | Unwind(c: nat)
    | Abort(c: nat)

  predicate InPhase(s: State, c: nat, phase: Phase) {
    c < |s.calls| && s.calls[c].phase == phase
  }

  ghost predicate Enabled(s: State, e: Event) {
    match e
    case Request(requested, exclusive) => requested != []
    case Ask(c) => InPhase(s, c, Asking) && s.calls[c].held < |s.calls[c].ids|
    case Grant(n) => Grantable(s, n)
    case Start(c) => InPhase(s, c, Asking) && s.calls[c].held >= |s.calls[c].ids|
    case Settle(c) => InPhase(s, c, Acting)
    case Unwind(c) => InPhase(s, c, Returning)
    case Abort(c) => InPhase(s, c, Queued) && s.calls[c].held < |s.calls[c].ids|
  }

  function Update(s: State, c: nat, call: Call): State
    requires c < |s.calls|
  {
    s.(calls := s.calls[c := call])
  }

  function SetQueue(queue: Name -> seq<nat>, n: Name, list: seq<nat>): Name -> seq<nat> {
    (m: Name) => if m == n then list else queue(m)
  }

  function Removed(list: seq<nat>, c: nat): seq<nat> {
    if list == [] then []
    else (if list[0] == c then [] else [list[0]]) + Removed(list[1..], c)
  }

  ghost function Next(s: State, e: Event): State
    requires Enabled(s, e)
  {
    match e
    case Request(requested, exclusive) =>
      s.(calls := s.calls + [Call(SortedIds(requested), exclusive, 0, Asking)])
    case Ask(c) =>
      var n := s.calls[c].ids[s.calls[c].held];
      Update(s, c, s.calls[c].(phase := Queued)).(queue := SetQueue(s.queue, n, s.queue(n) + [c]))
    case Grant(n) =>
      var c := s.queue(n)[0];
      var call := s.calls[c];
      Update(s, c, call.(held := call.held + 1, phase := Asking)).(queue := SetQueue(s.queue, n, s.queue(n)[1..]))
    case Start(c) => Update(s, c, s.calls[c].(phase := Acting))
    case Settle(c) => Update(s, c, s.calls[c].(phase := Returning))
    case Unwind(c) =>
      var call := s.calls[c];
      Update(s, c, if call.held > 0 then call.(held := call.held - 1) else call.(phase := Done))
    case Abort(c) =>
      var n := s.calls[c].ids[s.calls[c].held];
      Update(s, c, s.calls[c].(phase := Returning)).(queue := SetQueue(s.queue, n, Removed(s.queue(n), c)))
  }

  ghost function Run(events: seq<Event>): State
    decreases |events|
  {
    if events == [] then State([], (n: Name) => [])
    else
      var s := Run(events[..|events| - 1]);
      if Enabled(s, events[|events| - 1]) then Next(s, events[|events| - 1]) else s
  }

  ghost predicate Reachable(s: State) {
    exists events :: Run(events) == s
  }

  // ----- invariants -----

  ghost predicate CallFits(c: Call) {
    && Ascending(c.ids) && c.held <= |c.ids|
    && (c.phase.Queued? ==> c.held < |c.ids|)
    && (c.phase.Acting? ==> c.held == |c.ids|)
    && (c.phase.Done? ==> c.held == 0)
  }

  predicate WaitsFor(s: State, c: nat, n: Name) {
    InPhase(s, c, Queued) && s.calls[c].held < |s.calls[c].ids| && s.calls[c].ids[s.calls[c].held] == n
  }

  /** A call stands once in the queue of the name it waits for, and nowhere else. */
  ghost predicate QueuesFit(s: State) {
    && (forall n: Name, c: nat :: c in s.queue(n) <==> WaitsFor(s, c, n))
    && (forall n: Name, i: nat, j: nat :: i < j < |s.queue(n)| ==> s.queue(n)[i] != s.queue(n)[j])
  }

  /** A name held exclusively is held once. */
  ghost predicate Excludes(s: State) {
    forall n: Name, c: nat, d: nat ::
      (c < |s.calls| && d < |s.calls| && c != d && Holds(s.calls[c], n) && Holds(s.calls[d], n)) ==>
        !s.calls[c].exclusive
  }

  ghost predicate Inv(s: State) {
    && (forall c :: 0 <= c < |s.calls| ==> CallFits(s.calls[c]))
    && QueuesFit(s) && Excludes(s)
  }

  lemma {:induction false} RemovedMembers(list: seq<nat>, c: nat)
    ensures forall x :: x in Removed(list, c) <==> x in list && x != c
    ensures |Removed(list, c)| <= |list|
  {
    if list != [] {
      RemovedMembers(list[1..], c);
      assert list == [list[0]] + list[1..];
    }
  }

  ghost predicate Distinct(list: seq<nat>) {
    forall i: nat, j: nat :: i < j < |list| ==> list[i] != list[j]
  }

  lemma {:induction false} RemovedStaysDistinct(list: seq<nat>, c: nat)
    requires Distinct(list)
    ensures Distinct(Removed(list, c))
  {
    if list != [] {
      RemovedStaysDistinct(list[1..], c);
      RemovedMembers(list[1..], c);
      assert forall i :: 1 <= i < |list| ==> list[1..][i - 1] == list[i];
      assert list[0] !in list[1..];
    }
  }

  // ----- every step keeps them -----

  lemma RequestKeeps(s: State, requested: seq<Name>, exclusive: bool)
    requires Inv(s) && requested != []
    ensures Inv(Next(s, Request(requested, exclusive)))
  {
    var t := Next(s, Request(requested, exclusive));
    assert forall n, c: nat :: WaitsFor(t, c, n) <==> WaitsFor(s, c, n);
    assert forall n :: !Holds(t.calls[|s.calls|], n);
  }

  lemma AskKeeps(s: State, c: nat)
    requires Inv(s) && Enabled(s, Ask(c))
    ensures Inv(Next(s, Ask(c)))
  {
    var t := Next(s, Ask(c));
    var n := s.calls[c].ids[s.calls[c].held];
    assert !WaitsFor(s, c, n);
    forall m: Name, d: nat
      ensures d in t.queue(m) <==> WaitsFor(t, d, m)
    {
      assert d != c ==> (WaitsFor(t, d, m) <==> WaitsFor(s, d, m));
    }
    assert forall d: nat, m :: d < |s.calls| ==> (Holds(t.calls[d], m) <==> Holds(s.calls[d], m));
  }

  lemma PhaseKeeps(s: State, c: nat, phase: Phase)
    requires Inv(s) && c < |s.calls| && !s.calls[c].phase.Queued? && !phase.Queued?
    requires CallFits(s.calls[c].(phase := phase))
    ensures Inv(Update(s, c, s.calls[c].(phase := phase)))
  {
    var t := Update(s, c, s.calls[c].(phase := phase));
    assert forall d: nat, m :: WaitsFor(t, d, m) <==> WaitsFor(s, d, m);
    assert forall d: nat, m :: d < |s.calls| ==> (Holds(t.calls[d], m) <==> Holds(s.calls[d], m));
  }

  lemma UnwindKeeps(s: State, c: nat)
    requires Inv(s) && Enabled(s, Unwind(c))
    ensures Inv(Next(s, Unwind(c)))
  {
    var t := Next(s, Unwind(c));
    assert forall d: nat, m :: WaitsFor(t, d, m) <==> WaitsFor(s, d, m);
    assert forall d: nat, m :: d < |s.calls| && Holds(t.calls[d], m) ==> Holds(s.calls[d], m);
  }

  lemma GrantKeepsQueues(s: State, n: Name)
    requires Inv(s) && Enabled(s, Grant(n))
    ensures QueuesFit(Next(s, Grant(n)))
    ensures s.calls[s.queue(n)[0]].held < |s.calls[s.queue(n)[0]].ids|
  {
    var t := Next(s, Grant(n));
    var c := s.queue(n)[0];
    assert c in s.queue(n);
    forall m: Name, d: nat
      ensures d in t.queue(m) <==> WaitsFor(t, d, m)
    {
      assert s.queue(n) == [c] + s.queue(n)[1..];
      assert d != c ==> (WaitsFor(t, d, m) <==> WaitsFor(s, d, m));
      if d == c && m == n {
        assert c !in s.queue(n)[1..];
      }
    }
  }

  lemma GrantKeeps(s: State, n: Name)
    requires Inv(s) && Enabled(s, Grant(n))
    ensures Inv(Next(s, Grant(n)))
  {
    GrantKeepsQueues(s, n);
    var t := Next(s, Grant(n));
    var c := s.queue(n)[0];
    assert c in s.queue(n) && WaitsFor(s, c, n);
    forall m: Name, d: nat | d < |s.calls|
      ensures Holds(t.calls[d], m) <==> Holds(s.calls[d], m) || (d == c && m == n)
    {
      if d == c && m == n { assert t.calls[c].ids[s.calls[c].held] == n; }
      if d == c && Holds(s.calls[c], m) {
        var i :| 0 <= i < s.calls[c].held && s.calls[c].ids[i] == m;
        assert t.calls[c].ids[i] == m;
      }
    }
  }

  lemma AbortKeeps(s: State, c: nat)
    requires Inv(s) && Enabled(s, Abort(c))
    ensures Inv(Next(s, Abort(c)))
  {
    var t := Next(s, Abort(c));
    var n := s.calls[c].ids[s.calls[c].held];
    RemovedMembers(s.queue(n), c);
    RemovedStaysDistinct(s.queue(n), c);
    forall m: Name, d: nat
      ensures d in t.queue(m) <==> WaitsFor(t, d, m)
    {
      assert d != c ==> (WaitsFor(t, d, m) <==> WaitsFor(s, d, m));
      assert WaitsFor(s, c, m) ==> m == n;
    }
    assert forall d: nat, m :: d < |s.calls| ==> (Holds(t.calls[d], m) <==> Holds(s.calls[d], m));
  }

  lemma NextKeeps(s: State, e: Event)
    requires Inv(s) && Enabled(s, e)
    ensures Inv(Next(s, e))
  {
    match e
    case Request(requested, exclusive) => RequestKeeps(s, requested, exclusive);
    case Ask(c) => AskKeeps(s, c);
    case Grant(n) => GrantKeeps(s, n);
    case Start(c) => PhaseKeeps(s, c, Acting);
    case Settle(c) => PhaseKeeps(s, c, Returning);
    case Unwind(c) => UnwindKeeps(s, c);
    case Abort(c) => AbortKeeps(s, c);
  }

  lemma {:induction false} RunKeeps(events: seq<Event>)
    ensures Inv(Run(events))
    decreases |events|
  {
    if events != [] {
      var s, e := Run(events[..|events| - 1]), events[|events| - 1];
      RunKeeps(events[..|events| - 1]);
      if Enabled(s, e) { NextKeeps(s, e); }
    }
  }

  // ----- freedom from deadlock -----

  /** Steps that need neither a new call nor an abort signal. */
  predicate IsProgress(e: Event) {
    !e.Request? && !e.Abort?
  }

  ghost predicate AllSettled(s: State) {
    forall c :: 0 <= c < |s.calls| ==> s.calls[c].phase.Done?
  }

  /** The name a queued call waits for. */
  function Awaited(c: Call): Name {
    if c.held < |c.ids| then c.ids[c.held] else 0
  }

  /** Among the waiting calls, one that waits for the greatest name. */
  lemma {:induction false} GreatestWaiter(calls: seq<Call>, k: nat) returns (c: nat)
    requires k < |calls| && exists d :: 0 <= d <= k && calls[d].phase.Queued?
    ensures c <= k && calls[c].phase.Queued?
    ensures forall d :: 0 <= d <= k && calls[d].phase.Queued? ==> Awaited(calls[d]) <= Awaited(calls[c])
  {
    if exists d :: 0 <= d <= k - 1 && calls[d].phase.Queued? {
      c := GreatestWaiter(calls, k - 1);
      if calls[k].phase.Queued? && Awaited(calls[k]) > Awaited(calls[c]) {
        c := k;
      }
    } else {
      c := k;
    }
  }

  /**
   The head of the queue for the greatest awaited name can be granted: a
   conflicting holder waits too, and in ascending order it waits for a greater name.
   */
  lemma GreatestNameIsGranted(s: State, c: nat)
    requires Inv(s) && InPhase(s, c, Queued)
    requires forall d :: 0 <= d < |s.calls| ==> s.calls[d].phase.Queued? || s.calls[d].phase.Done?
    requires forall d :: 0 <= d < |s.calls| && s.calls[d].phase.Queued? ==> Awaited(s.calls[d]) <= Awaited(s.calls[c])
    ensures Grantable(s, Awaited(s.calls[c]))
  {
    var n := Awaited(s.calls[c]);
    assert CallFits(s.calls[c]);
    assert WaitsFor(s, c, n);
    assert c in s.queue(n);
    assert s.queue(n)[0] in s.queue(n);
    forall d: nat | d < |s.calls|
      ensures !Holds(s.calls[d], n)
    {
      assert CallFits(s.calls[d]);
    }
  }

  /** Some call can step in every state in which a call is unsettled. */
  lemma SomeCallCanStep(s: State) returns (e: Event)
    requires Inv(s) && !AllSettled(s)
    ensures IsProgress(e) && Enabled(s, e)
  {
    if c: nat :| c < |s.calls| && !s.calls[c].phase.Queued? && !s.calls[c].phase.Done? {
      match s.calls[c].phase
      case Asking => e := if s.calls[c].held < |s.calls[c].ids| then Ask(c) else Start(c);
      case Acting => e := Settle(c);
      case Returning => e := Unwind(c);
    } else {
      var k: nat :| k < |s.calls| && !s.calls[k].phase.Done?;
      assert s.calls[k].phase.Queued?;
      var c := GreatestWaiter(s.calls, |s.calls| - 1);
      GreatestNameIsGranted(s, c);
      e := Grant(Awaited(s.calls[c]));
    }
  }

  lemma NoDeadlock(s: State)
    requires Reachable(s) && !AllSettled(s)
    ensures exists e :: IsProgress(e) && Enabled(s, e)
  {
    var events :| Run(events) == s;
    RunKeeps(events);
    var e := SomeCallCanStep(s);
  }

  // ----- and every progress step counts -----

  /** How many steps a call has before it at most. */
  function Distance(c: Call): nat {
    match c.phase
    case Asking => |c.ids| + 3 + (if c.held < |c.ids| then 2 * (|c.ids| - c.held) else 0)
    case Queued => |c.ids| + 2 + (if c.held < |c.ids| then 2 * (|c.ids| - c.held) else 0)
    case Acting => |c.ids| + 2
    case Returning => c.held + 1
    case Done => 0
  }

  function Total(calls: seq<Call>): nat {
    if calls == [] then 0 else Distance(calls[0]) + Total(calls[1..])
  }

  lemma {:induction false} TotalFalls(calls: seq<Call>, c: nat, call: Call)
    requires c < |calls| && Distance(call) < Distance(calls[c])
    ensures Total(calls[c := call]) < Total(calls)
  {
    if c == 0 {
      assert calls[0 := call][1..] == calls[1..];
    } else {
      assert calls[c := call][1..] == calls[1..][c - 1 := call];
      TotalFalls(calls[1..], c - 1, call);
    }
  }

  lemma ProgressCounts(s: State, e: Event)
    requires Inv(s) && IsProgress(e) && Enabled(s, e)
    ensures Total(Next(s, e).calls) < Total(s.calls)
  {
    var t := Next(s, e);
    match e
    case Grant(n) =>
      var c := s.queue(n)[0];
      assert c in s.queue(n) && WaitsFor(s, c, n);
      TotalFalls(s.calls, c, t.calls[c]);
    case Ask(c) => TotalFalls(s.calls, c, t.calls[c]);
    case Start(c) => TotalFalls(s.calls, c, t.calls[c]);
    case Settle(c) => TotalFalls(s.calls, c, t.calls[c]);
    case Unwind(c) => TotalFalls(s.calls, c, t.calls[c]);
  }

  /** The schedules that end with every call settled. */
  ghost predicate Settles(s: State, schedule: seq<Event>)
    decreases |schedule|
  {
    if schedule == [] then AllSettled(s)
    else IsProgress(schedule[0]) && Enabled(s, schedule[0]) && Settles(Next(s, schedule[0]), schedule[1..])
  }

  lemma {:induction false} CanSettle(s: State) returns (schedule: seq<Event>)
    requires Inv(s)
    ensures Settles(s, schedule) && |schedule| <= Total(s.calls)
    decreases Total(s.calls)
  {
    if AllSettled(s) {
      schedule := [];
    } else {
      var e := SomeCallCanStep(s);
      ProgressCounts(s, e);
      NextKeeps(s, e);
      var rest := CanSettle(Next(s, e));
      schedule := [e] + rest;
      assert schedule[1..] == rest;
    }
  }

  /** From every reachable state all calls can finish, without aborting any. */
  lemma EveryCallCanFinish(s: State)
    requires Reachable(s)
    ensures exists schedule :: Settles(s, schedule)
  {
    var events :| Run(events) == s;
    RunKeeps(events);
    var schedule := CanSettle(s);
  }

  /** Two calls inside their actions that named a common id are both shared. */
  lemma ExclusiveActionsAreAlone(s: State, c: nat, d: nat, n: Name)
    requires Reachable(s) && c != d && InPhase(s, c, Acting) && InPhase(s, d, Acting)
    requires n in s.calls[c].ids && n in s.calls[d].ids
    ensures !s.calls[c].exclusive && !s.calls[d].exclusive
  {
    var events :| Run(events) == s;
    RunKeeps(events);
    assert CallFits(s.calls[c]) && CallFits(s.calls[d]);
    assert Holds(s.calls[c], n) && Holds(s.calls[d], n);
  }
}

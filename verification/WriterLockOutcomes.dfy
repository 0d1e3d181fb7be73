/**
 What the lock manager does for each call, told by who holds what: which request is granted next, in which order, and
 which calls may act side by side.
 */
module WriterLockOutcomes {
  import opened WriterLocks

  /** Nobody who holds the name conflicts with the call: shared locks only go together. */
  ghost predicate NobodyConflicts(s: State, n: Name, c: nat)
    requires c < |s.calls|
  {
    && (s.calls[c].exclusive ==> forall d: nat :: d < |s.calls| ==> !Holds(s.calls[d], n))
    && (!s.calls[c].exclusive ==> forall d: nat :: d < |s.calls| && Holds(s.calls[d], n) ==> !s.calls[d].exclusive)
  }

  /** The first in a queue is granted its name exactly when nobody who holds it conflicts. */
  lemma GrantableExactly(s: State, n: Name)
    requires Reachable(s) && s.queue(n) != []
    ensures s.queue(n)[0] < |s.calls|
    ensures Enabled(s, Grant(n)) <==> NobodyConflicts(s, n, s.queue(n)[0])
  {
    ReachableIsSound(s);
    assert s.queue(n)[0] in s.queue(n);
    assert WaitsFor(s, s.queue(n)[0], n);
  }

  lemma ReachableIsSound(s: State)
    requires Reachable(s)
    ensures Inv(s)
  {
    var events :| Run(events) == s;
    RunKeeps(events);
  }

  /** Every other call is as it was, and every other queue. */
  ghost predicate OnlyCall(s: State, t: State, c: nat) {
    |t.calls| == |s.calls| && forall d: nat :: d < |s.calls| && d != c ==> t.calls[d] == s.calls[d]
  }

  ghost predicate OnlyQueue(s: State, t: State, n: Name) {
    forall m: Name :: m != n ==> t.queue(m) == s.queue(m)
  }

  /** A call starts with its ids in ascending order, holding none of them. */
  lemma RequestDoes(s: State, requested: seq<Name>, exclusive: bool)
    requires requested != []
    ensures var t := Next(s, Request(requested, exclusive));
            var call := t.calls[|s.calls|];
      && t.calls[..|s.calls|] == s.calls && |t.calls| == |s.calls| + 1 && t.queue == s.queue
      && (forall n :: n in call.ids <==> n in requested)
      && (forall i, j :: 0 <= i < j < |call.ids| ==> call.ids[i] < call.ids[j])
      && call.exclusive == exclusive && call.phase.Asking? && forall n :: !Holds(call, n)
  {
  }

  /** It asks for the first of them it does not hold, behind all who wait for that one, or acts if it holds them all. */
  lemma AskDoes(s: State, e: Event)
    requires Reachable(s) && Enabled(s, e) && (e.Ask? || e.Start?)
    ensures var t := Next(s, e);
            var before, now := s.calls[e.c], t.calls[e.c];
      && OnlyCall(s, t, e.c) && now.ids == before.ids && now.held == before.held && now.exclusive == before.exclusive
      && (e.Start? ==> now.phase.Acting? && (forall n :: Holds(now, n) <==> n in now.ids) && t.queue == s.queue)
      && (e.Ask? ==>
            && now.phase.Queued? && !Holds(before, before.ids[before.held])
            && (forall i :: 0 <= i < before.held ==> Holds(before, before.ids[i]))
            && t.queue(before.ids[before.held]) == s.queue(before.ids[before.held]) + [e.c]
            && OnlyQueue(s, t, before.ids[before.held]))
  {
    ReachableIsSound(s);
  }

  /** A grant gives the first who waits the name, and asks it to go on. */
  lemma GrantDoes(s: State, n: Name)
    requires Reachable(s) && Enabled(s, Grant(n))
    ensures var t := Next(s, Grant(n));
            var c := s.queue(n)[0];
      && OnlyCall(s, t, c) && OnlyQueue(s, t, n) && t.queue(n) == s.queue(n)[1..]
      && t.calls[c].phase.Asking? && t.calls[c].ids == s.calls[c].ids && t.calls[c].exclusive == s.calls[c].exclusive
      && (forall m :: Holds(t.calls[c], m) <==> Holds(s.calls[c], m) || m == n)
  {
    ReachableIsSound(s);
    assert s.queue(n)[0] in s.queue(n);
    assert WaitsFor(s, s.queue(n)[0], n);
    var c := s.queue(n)[0];
    forall m ensures Holds(Next(s, Grant(n)).calls[c], m) <==> Holds(s.calls[c], m) || m == n {
      OneMoreHeld(s.calls[c], m);
    }
  }

  lemma OneMoreHeld(call: Call, m: Name)
    requires call.held < |call.ids|
    ensures Holds(call.(held := call.held + 1, phase := Asking), m) <==> Holds(call, m) || m == call.ids[call.held]
  {
    var next := call.(held := call.held + 1, phase := Asking);
    if m == call.ids[call.held] { assert next.ids[call.held] == m; }
  }

  /** After its action, or after it was aborted while it waited, a call gives its names back, the last one first. */
  lemma ReturnDoes(s: State, e: Event)
    requires Reachable(s) && Enabled(s, e) && (e.Settle? || e.Unwind? || e.Abort?)
    ensures var t := Next(s, e);
            var before, now := s.calls[e.c], t.calls[e.c];
      && OnlyCall(s, t, e.c) && now.ids == before.ids && now.exclusive == before.exclusive
      && (e.Settle? || e.Abort? ==> now.held == before.held && now.phase.Returning?)
      && (e.Settle? || e.Unwind? ==> t.queue == s.queue)
      && (e.Abort? ==> forall n :: e.c !in t.queue(n))
      && (e.Abort? ==> OnlyQueue(s, t, before.ids[before.held]))
      && before.held <= |before.ids|
      && (e.Unwind? && before.held > 0 ==> now.held == before.held - 1 && now.phase.Returning?
                                           && !Holds(now, before.ids[before.held - 1]))
      && (e.Unwind? && before.held == 0 ==> now.phase.Done? && now.held == 0)
  {
    ReachableIsSound(s);
    if e.Abort? {
      var n := s.calls[e.c].ids[s.calls[e.c].held];
      RemovedMembers(s.queue(n), e.c);
      forall m: Name ensures e.c !in Next(s, e).queue(m) {
        if e.c in s.queue(m) { assert WaitsFor(s, e.c, m); }
      }
    }
  }

  /** A call may be aborted exactly while it waits in some queue. */
  lemma AbortedOnlyWhileWaiting(s: State, c: nat)
    requires Reachable(s) && c < |s.calls|
    ensures Enabled(s, Abort(c)) <==> exists n: Name :: c in s.queue(n)
  {
    ReachableIsSound(s);
    assert CallFits(s.calls[c]);
    if InPhase(s, c, Queued) {
      assert WaitsFor(s, c, s.calls[c].ids[s.calls[c].held]);
    }
    if n: Name :| c in s.queue(n) {
      assert WaitsFor(s, c, n);
    }
  }

  // ----- nobody overtakes -----

  /** Both wait for the name, the first one in front. */
  ghost predicate InFront(queue: seq<nat>, c: nat, d: nat) {
    exists i, j :: 0 <= i < j < |queue| && queue[i] == c && queue[j] == d
  }

  lemma {:induction false} RemovedKeepsFront(queue: seq<nat>, x: nat, c: nat, d: nat)
    requires InFront(queue, c, d) && c != x && d != x
    ensures InFront(Removed(queue, x), c, d)
    decreases |queue|
  {
    var i, j :| 0 <= i < j < |queue| && queue[i] == c && queue[j] == d;
    RemovedMembers(queue[1..], x);
    if i == 0 {
      assert queue[1..][j - 1] == d;
      assert d in Removed(queue[1..], x);
      var k :| 0 <= k < |Removed(queue[1..], x)| && Removed(queue[1..], x)[k] == d;
      assert Removed(queue, x)[0] == c && Removed(queue, x)[k + 1] == d;
    } else {
      assert queue[1..][i - 1] == c && queue[1..][j - 1] == d;
      RemovedKeepsFront(queue[1..], x, c, d);
      var k, l :| 0 <= k < l < |Removed(queue[1..], x)| && Removed(queue[1..], x)[k] == c && Removed(queue[1..], x)[l] == d;
      var n := if queue[0] == x then 0 else 1;
      assert Removed(queue, x)[k + n] == c && Removed(queue, x)[l + n] == d;
    }
  }

  /**
   Who waits in front is granted first: until then, whatever happens, both keep their places, unless one of them is
   aborted. The one behind is never granted the name meanwhile.
   */
  lemma NobodyOvertakes(s: State, e: Event, n: Name, c: nat, d: nat)
    requires Reachable(s) && Enabled(s, e) && InFront(s.queue(n), c, d) && e != Abort(c) && e != Abort(d)
    ensures InFront(Next(s, e).queue(n), c, d) || (e == Grant(n) && s.queue(n)[0] == c)
    ensures e == Grant(n) ==> s.queue(n)[0] != d
  {
    ReachableIsSound(s);
    var i, j :| 0 <= i < j < |s.queue(n)| && s.queue(n)[i] == c && s.queue(n)[j] == d;
    var t := Next(s, e);
    if e == Grant(n) {
      if i > 0 { assert t.queue(n)[i - 1] == c && t.queue(n)[j - 1] == d; }
    } else if e.Abort? && s.calls[e.c].ids[s.calls[e.c].held] == n {
      RemovedKeepsFront(s.queue(n), e.c, c, d);
    } else {
      assert t.queue(n)[i] == c && t.queue(n)[j] == d;
    }
  }

  ghost predicate Possible(s: State, run: seq<Event>)
    decreases |run|
  {
    run != [] ==> Enabled(s, run[0]) && Possible(Next(s, run[0]), run[1..])
  }

  ghost function After(s: State, run: seq<Event>): State
    requires Possible(s, run)
    decreases |run|
  {
    if run == [] then s else After(Next(s, run[0]), run[1..])
  }

  /** Some event of the run grants the name to the call. */
  ghost predicate Granted(s: State, run: seq<Event>, n: Name, c: nat)
    requires Possible(s, run)
    decreases |run|
  {
    && run != []
    && (|| (run[0] == Grant(n) && s.queue(n)[0] == c)
        || Granted(Next(s, run[0]), run[1..], n, c))
  }

  /** Over every run: while the one in front has not been granted the name, nor either aborted, it stays in front. */
  lemma {:induction false} FirstComeFirstServed(s: State, run: seq<Event>, n: Name, c: nat, d: nat)
    requires Reachable(s) && Possible(s, run) && InFront(s.queue(n), c, d)
    requires forall i :: 0 <= i < |run| ==> run[i] != Abort(c) && run[i] != Abort(d)
    ensures InFront(After(s, run).queue(n), c, d) || Granted(s, run, n, c)
    decreases |run|
  {
    if run != [] {
      NobodyOvertakes(s, run[0], n, c, d);
      if !(run[0] == Grant(n) && s.queue(n)[0] == c) {
        StepIsReachable(s, run[0]);
        FirstComeFirstServed(Next(s, run[0]), run[1..], n, c, d);
      }
    }
  }

  lemma StepIsReachable(s: State, e: Event)
    requires Reachable(s) && Enabled(s, e)
    ensures Reachable(Next(s, e))
  {
    var events :| Run(events) == s;
    assert (events + [e])[..|events|] == events;
    assert Run(events + [e]) == Next(s, e);
  }
}

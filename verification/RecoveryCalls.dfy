/**
 What a call does in the end, told by its arguments alone: what it queues and shows, and what store and mirror hold once
 it has gone through; and what a flush reports, exactly.
 */
module RecoveryCalls {
  import opened Options
  import opened RecoveryMirror
  import opened RecoveryInvariants
  import opened RecoveryMirrorProofs
  import opened RecoveryReceiptProofs
  import opened RecoveryConvergence
  import opened RecoveryPeers
  import opened RecoveryProgress
  import opened RecoveryTransactions

  // ----- what a call queues -----

  /** The call's operation goes to the end of the queue, under a generation newer than all before. */
  lemma CallQueues(s: State, e: Event)
    requires Inv(s) && (e.SetItem? || e.RemoveItem? || e.Compare?)
    ensures var t := Next(s, e);
      && |t.queue| == |s.queue| + 1 && t.queue[..|s.queue|] == s.queue
      && t.KeySequence(e.key) == s.mutations + 1 == t.mutations
      && t.durable == s.durable && t.phase == s.phase
    ensures var op := Next(s, e).queue[|s.queue|];
      && op.key == e.key && op.sequence == s.mutations + 1
      && (e.SetItem? ==> op.Put? && op.value == e.value)
      && (e.RemoveItem? ==> op.Delete?)
      && (e.Compare? ==> op.Conditional? && op.comparison == e.comparison)
  {
    CallIsCall(s, e);
  }

  /** And this is what the page sees at once. */
  lemma CallShows(s: State, e: Event)
    requires Inv(s) && (e.SetItem? || e.RemoveItem? || e.Compare?)
    ensures var t := Next(s, e);
      && (e.SetItem? ==> OnlyKeyHolds(s.records, t.records, e.key, Some(e.value)))
      && (e.RemoveItem? ==> OnlyKeyHolds(s.records, t.records, e.key, None) && e.key !in t.uncommitted)
      && (e.Compare? ==> t.records == s.records && t.uncommitted == s.uncommitted)
  {
  }

  // ----- a call that goes through -----

  /** Neither the head nor the key changes; whatever else may happen. */
  predicate Spares(e: Event, k: Key) {
    && !Mutates(e, k) && !e.Commit? && !e.Abort? && !e.Continue?
    && !(e.PeerCommits? && e.key == k) && !e.PeerClears?
  }

  predicate SparingRun(run: seq<Event>, k: Key) {
    forall j :: 0 <= j < |run| ==> Spares(run[j], k)
  }

  /** The head, its phase, and what decides how it ends. */
  ghost predicate SameHead(s: State, t: State, k: Key) {
    && s.queue != [] && t.queue != [] && t.queue[0] == s.queue[0] && t.phase == s.phase
    && t.KeySequence(k) == s.KeySequence(k)
    && Lookup(t.durable, k) == Lookup(s.durable, k) && Lookup(t.uncommitted, k) == Lookup(s.uncommitted, k)
  }

  lemma CallKeepsHead(s: State, e: Event, k: Key)
    requires Inv(s) && s.queue != [] && (e.SetItem? || e.RemoveItem? || e.Compare?) && e.key != k
    ensures SameHead(s, Next(s, e), k)
  {
    CallIsCall(s, e);
  }

  lemma SparingStepKeepsHead(s: State, e: Event, k: Key)
    requires Inv(s) && Enabled(s, e) && Spares(e, k) && s.queue != [] && (s.phase.Waiting? || s.phase.Committed?)
    ensures SameHead(s, Next(s, e), k)
  {
    if e.SetItem? || e.RemoveItem? || e.Compare? {
      CallKeepsHead(s, e, k);
    } else if ReaderEvent(e) || FlushEvent(e) {
      ReaderStepChangesReaders(s, e);
    }
  }

  lemma {:induction false} SparingRunKeepsHead(s: State, run: seq<Event>, k: Key)
    requires Inv(s) && Possible(s, run) && SparingRun(run, k) && s.queue != [] && (s.phase.Waiting? || s.phase.Committed?)
    ensures Inv(After(s, run)) && SameHead(s, After(s, run), k)
    decreases |run|
  {
    if run != [] {
      StepKeeps(s, run[0]);
      SparingStepKeepsHead(s, run[0], k);
      SparingRunKeepsHead(Next(s, run[0]), run[1..], k);
    }
  }

  /** What a call asks for: its value, nothing, or, when its comparison does not match, what is there. */
  ghost predicate Does(call: Event, matched: bool, before: Option<Value>, now: Option<Value>) {
    && (call.SetItem? ==> now == Some(call.value))
    && (call.RemoveItem? ==> now == None)
    && (call.Compare? && !matched ==> now == before)
    && (call.Compare? && matched && call.comparison.ReplaceIf? ==> now == Some(call.comparison.next))
    && (call.Compare? && matched && call.comparison.RemoveIf? ==> now == None)
    && (call.Compare? && matched && call.comparison.LegacyPut? ==> now == Some(call.comparison.legacy))
    && (call.Compare? && matched && call.comparison.LegacyRemove? ==> now == None)
  }

  /** The operation a call queues. */
  predicate Carries(op: Operation, call: Event) {
    && (call.SetItem? || call.RemoveItem? || call.Compare?) && op.key == call.key
    && (call.SetItem? ==> op.Put? && op.value == call.value)
    && (call.RemoveItem? ==> op.Delete?)
    && (call.Compare? ==> op.Conditional? && op.comparison == call.comparison)
  }

  /** The newest call on its key is at the head; a comparison's key has no draft. */
  predicate AtHead(s: State, call: Event) {
    && s.queue != [] && Carries(s.queue[0], call) && HeadIsNewest(s)
    && (call.Compare? ==> call.key !in s.uncommitted)
  }

  /** Store and mirror hold the result, and no draft hides it. */
  ghost predicate Applied(call: Event, matched: bool, before: Option<Value>, t: State)
    requires call.SetItem? || call.RemoveItem? || call.Compare?
  {
    && Does(call, matched, before, Lookup(t.durable, call.key))
    && t.Agrees(call.key) && call.key !in t.uncommitted
  }

  lemma HeadCommits(s: State, call: Event, matched: bool)
    requires AtHead(s, call) && Enabled(s, Commit(matched))
    ensures var t := Next(s, Commit(matched));
      && AtHead(t, call) && t.phase == Committed(Lookup(t.durable, call.key))
      && Does(call, matched, Lookup(s.durable, call.key), Lookup(t.durable, call.key))
  {
    if s.queue[0].Conditional? {
      ComparisonCommits(s, matched);
    } else {
      WriteCommits(s, matched);
    }
  }

  /** A draft that goes by its own commit is the put at the head. */
  lemma HeadContinues(s: State, call: Event)
    requires Inv(s) && AtHead(s, call) && s.phase == Committed(Lookup(s.durable, call.key))
    ensures Enabled(s, Continue)
    ensures var t := Next(s, Continue);
      && t.Agrees(call.key) && call.key !in t.uncommitted && t.durable == s.durable
  {
    assert Shown(s, s.queue[0]);
  }

  /**
   A call whose operation has come to the head and whose transaction commits is applied: after its continuation, store
   and mirror both hold what it asked for. In between anything may happen that spares the key.
   */
  lemma HeadGoesThrough(s: State, call: Event, matched: bool, between: seq<Event>)
    requires Inv(s) && AtHead(s, call) && Enabled(s, Commit(matched))
    requires Possible(Next(s, Commit(matched)), between) && SparingRun(between, call.key)
    ensures var u := After(Next(s, Commit(matched)), between);
      Enabled(u, Continue) && Applied(call, matched, Lookup(s.durable, call.key), Next(u, Continue))
  {
    var c := Next(s, Commit(matched));
    HeadCommits(s, call, matched);
    StepKeeps(s, Commit(matched));
    SparingRunKeepsHead(c, between, call.key);
    HeadContinues(After(c, between), call);
  }

  /** The whole way of one call, from an empty queue: it is made, its transaction commits, and its continuation runs. */
  function WayOf(call: Event, before: seq<Event>, matched: bool, between: seq<Event>): seq<Event> {
    [call] + (before + ([Commit(matched)] + (between + [Continue])))
  }

  /**
   On every such way the call is applied: a matched compareAndSet or legacy put leaves its value in store and mirror, a
   matched compareAndRemove or legacy removal leaves neither with the key, an unmatched one leaves what was stored.
   */
  lemma CallGoesThrough(s: State, call: Event, before: seq<Event>, matched: bool, between: seq<Event>)
    requires Inv(s) && s.queue == [] && (call.Compare? ==> call.key !in s.uncommitted)
    requires call.SetItem? || call.RemoveItem? || call.Compare?
    requires SparingRun(before, call.key) && SparingRun(between, call.key)
    requires Possible(s, WayOf(call, before, matched, between))
    ensures Applied(call, matched, Lookup(s.durable, call.key), After(s, WayOf(call, before, matched, between)))
  {
    CallIsAtHead(s, call);
    WaitingWay(Next(s, call), call, before, matched, between);
    assert WayOf(call, before, matched, between)[1..] == before + ([Commit(matched)] + (between + [Continue]));
  }

  lemma WaitingWay(t: State, call: Event, before: seq<Event>, matched: bool, between: seq<Event>)
    requires Inv(t) && AtHead(t, call) && t.phase.Waiting?
    requires SparingRun(before, call.key) && SparingRun(between, call.key)
    requires Possible(t, before + ([Commit(matched)] + (between + [Continue])))
    ensures Applied(call, matched, Lookup(t.durable, call.key),
                    After(t, before + ([Commit(matched)] + (between + [Continue]))))
  {
    RunSplits(t, before, [Commit(matched)] + (between + [Continue]));
    SparingRunKeepsHead(t, before, call.key);
    CommittingWay(After(t, before), call, matched, between);
  }

  lemma CommittingWay(u: State, call: Event, matched: bool, between: seq<Event>)
    requires Inv(u) && AtHead(u, call) && u.phase.Waiting? && SparingRun(between, call.key)
    requires Possible(u, [Commit(matched)] + (between + [Continue]))
    ensures Applied(call, matched, Lookup(u.durable, call.key), After(u, [Commit(matched)] + (between + [Continue])))
  {
    assert ([Commit(matched)] + (between + [Continue]))[1..] == between + [Continue];
    RunSplits(Next(u, Commit(matched)), between, [Continue]);
    HeadGoesThrough(u, call, matched, between);
  }

  lemma CallIsAtHead(s: State, call: Event)
    requires Inv(s) && s.queue == [] && (call.Compare? ==> call.key !in s.uncommitted)
    requires call.SetItem? || call.RemoveItem? || call.Compare?
    ensures var t := Next(s, call);
      && Inv(t) && AtHead(t, call) && t.phase.Waiting? && Lookup(t.durable, call.key) == Lookup(s.durable, call.key)
  {
    StepKeeps(s, call);
    CallQueues(s, call);
    CallShows(s, call);
  }

  lemma {:induction false} RunSplits(s: State, first: seq<Event>, rest: seq<Event>)
    requires Possible(s, first + rest)
    ensures Possible(s, first) && Possible(After(s, first), rest)
    ensures After(s, first + rest) == After(After(s, first), rest)
    decreases |first|
  {
    if first == [] {
      assert first + rest == rest;
    } else {
      assert (first + rest)[1..] == first[1..] + rest;
      RunSplits(Next(s, first[0]), first[1..], rest);
    }
  }

  // ----- what a flush reports, and what a failed reading leaves -----

  ghost predicate SameButFlushes(s: State, t: State) {
    t == s.(flushes := t.flushes, observed := t.observed)
  }

  /** A flush begins with the failures reported so far, and waits for all that is queued and notified by then. */
  lemma FlushBegins(s: State)
    ensures var t := Next(s, BeginFlush);
      && SameButFlushes(s, t) && t.observed == s.observed
      && t.flushes == s.flushes + [Flush(s.observed, s.Enqueued(), s.notifications, s.failures)]
  {
  }

  /** A turn that finds more to await goes on with it; any other ends the flush, and only a report marks what it saw. */
  lemma FlushTurnDoes(s: State, i: nat)
    requires Enabled(s, FlushTurns(i))
    ensures var f := s.flushes[i];
            var t := Next(s, FlushTurns(i));
            var more := f.tail != s.Enqueued() || f.external != s.notifications;
            var reports := !more && s.failures > f.boundary;
      && SameButFlushes(s, t)
      && (more ==> t.flushes == s.flushes[i := Flush(f.boundary, s.Enqueued(), s.notifications, f.failures)])
      && (!more ==> t.flushes == s.flushes[..i] + s.flushes[i + 1..])
      && t.observed == (if reports then s.failures else s.observed)
  {
  }

  /** What was reported is remembered until the next report. */
  lemma OnlyReportsAreRemembered(s: State, e: Event)
    requires Enabled(s, e) && Next(s, e).observed != s.observed
    ensures e.FlushTurns? && FlushVerdict(s, s.flushes[e.index]).WriteFailed? && Next(s, e).observed == s.failures
  {
    if e.Continue? { ContinueKeepsReports(s); }
  }

  lemma ContinueKeepsReports(s: State)
    requires CanContinue(s)
    ensures NextContinue(s).observed == s.observed && NextContinue(s).flushes == s.flushes
  {
    ContinueTouchesOwnKey(s);
  }

  /** The flush that began in `s` has come this far. */
  ghost predicate Began(s: State, f: Flush) {
    f.boundary == s.observed && f.failures == s.failures
  }

  /**
   When a flush ends it reports a failed write exactly if some failure came after the last report before it began: an
   older one was not reported yet, or a write failed while it waited. So no failure is reported twice, and none is missed.
   */
  lemma FlushReportsExactly(s: State, run: seq<Event>, i: nat)
    requires Reached(s) && Possible(Next(s, BeginFlush), run) && Enabled(After(Next(s, BeginFlush), run), FlushTurns(i))
    requires Began(s, After(Next(s, BeginFlush), run).flushes[i])
    ensures var u := After(Next(s, BeginFlush), run);
            var verdict := FlushVerdict(u, u.flushes[i]);
      && s.observed <= s.failures <= u.failures
      && (!verdict.Again? ==> (verdict.WriteFailed? <==> s.observed < s.failures || s.failures < u.failures))
  {
    ReachedIsSound(s);
    StepKeeps(s, BeginFlush);
    StepKeepsFlushes(s, BeginFlush);
    FlushesFit(Next(s, BeginFlush), run);
    var u := After(Next(s, BeginFlush), run);
    assert FlushFits(u, u.flushes[i]);
  }

  /** A reading that fails is dropped; only that of a notification marks the mirror as possibly stale. */
  lemma FailedReadingDoes(s: State, i: nat)
    requires Enabled(s, LoadFails(i))
    ensures var t := Next(s, LoadFails(i));
      && t.readers == s.readers[..i] + s.readers[i + 1..]
      && (t.refreshFailed <==> s.refreshFailed || s.readers[i].notification.Some?)
      && t == s.(readers := t.readers, refreshFailed := t.refreshFailed)
  {
  }

  /** A reading takes the whole store as it is. */
  lemma ReadingDoes(s: State, i: nat)
    requires Enabled(s, Load(i))
    ensures var t := Next(s, Load(i));
      && |t.readers| == |s.readers| && t.readers[i].loaded == Some(s.durable) && t.readers[i].stale == {}
      && t == s.(readers := t.readers)
  {
  }

  /** A notification is numbered and waits for the one before; a refresh covers every key. Both remember the call's time. */
  lemma ReadingBegins(s: State, e: Event)
    requires e.StartRefresh? || e.Notified? || e.NotifiedOfClear?
    ensures var t := Next(s, e);
      && |t.readers| == |s.readers| + 1 && t.readers[..|s.readers|] == s.readers
      && t.notifications == (if e.StartRefresh? then s.notifications else s.notifications + 1)
    ensures var r := Next(s, e).readers[|s.readers|];
      && r.fence == s.mutations && r.barrier == s.Enqueued() && r.loaded.None? && !r.applied
      && (e.StartRefresh? ==> r.notification.None? && r.awaited.None?)
      && (!e.StartRefresh? ==> r.notification == Some(s.notifications + 1) && r.awaited == Some(s.notifications))
      && (e.Notified? ==> r.scope == Single(e.key, s.KeySequence(e.key)))
      && (!e.Notified? ==> r.scope == Everything)
  {
  }
}

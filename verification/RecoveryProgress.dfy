/**
 What becomes of a waiting `flush()` when nothing further is called and nothing more fails: every way of going on comes to
 an end, no flush is then left waiting, and what each of them has answered follows from the state it was in.
 */
module RecoveryProgress {
  import opened Options
  import opened RecoveryMirror
  import opened RecoveryInvariants
  import opened RecoveryMirrorProofs
  import opened RecoveryReceiptProofs
  import opened RecoveryConvergence
  import opened RecoveryPeers
  import opened RecoveryRefresh

  /** The tab goes on by itself: transactions complete, readings succeed, loops turn. */
  predicate Quiet(e: Event) {
    e.Commit? || e.Continue? || e.LoadBack? || e.Load? || e.Apply? || e.RefreshTurns? || e.FlushTurns?
  }

  predicate QuietRun(run: seq<Event>) {
    forall j :: 0 <= j < |run| ==> Quiet(run[j])
  }

  ghost predicate Sound(s: State) {
    Inv(s) && FlushInv(s) && exists p :: PeersInv(s, p)
  }

  lemma StepKeepsSound(s: State, e: Event)
    requires Sound(s) && Enabled(s, e)
    ensures Sound(Next(s, e))
  {
    var p :| PeersInv(s, p);
    StepKeeps(s, e);
    StepKeepsFlushes(s, e);
    StepKeepsPeers(s, e, p);
  }

  lemma RunIsSound(durable: map<Key, Value>, run: seq<Event>, s: State)
    requires Possible(Start(durable), run) && After(Start(durable), run) == s
    ensures Sound(s)
  {
    var h := HistoryAfter(Start(durable), NO_HISTORY, run);
    ReachableHistory(durable, run);
    FlushesFit(Start(durable), run);
    assert PeersInv(s, Peers(h.owed, h.failed + h.refused + h.unread));
  }

  ghost predicate Reached(s: State) {
    exists durable, run :: Possible(Start(durable), run) && After(Start(durable), run) == s
  }

  lemma ReachedIsSound(s: State)
    requires Reached(s)
    ensures Sound(s)
  {
    var durable, run :| Possible(Start(durable), run) && After(Start(durable), run) == s;
    RunIsSound(durable, run, s);
  }

  // ----- how much there is left to do -----

  function Sum(xs: seq<nat>): nat {
    if xs == [] then 0 else xs[0] + Sum(xs[1..])
  }

  lemma {:induction false} SumUpdate(xs: seq<nat>, i: nat, x: nat)
    requires i < |xs|
    ensures Sum(xs[i := x]) == Sum(xs) - xs[i] + x
  {
    if i == 0 {
      assert xs[0 := x][1..] == xs[1..];
    } else {
      assert xs[i := x][1..] == xs[1..][i - 1 := x];
      SumUpdate(xs[1..], i - 1, x);
    }
  }

  lemma {:induction false} SumWithout(xs: seq<nat>, i: nat)
    requires i < |xs|
    ensures Sum(Without(xs, i)) == Sum(xs) - xs[i]
  {
    if i == 0 {
      assert Without(xs, 0) == xs[1..];
    } else {
      assert Without(xs, i)[1..] == Without(xs[1..], i - 1);
      SumWithout(xs[1..], i - 1);
    }
  }

  /** Steps until the head's continuation is done. */
  function HeadWork(phase: Phase): nat {
    match phase
    case Waiting => 2
    case Committed(_) => 1
    case Aborted => 3
    case ReadingBack => 2
    case ReadBack(_) => 1
    case ReadBackFailed => 1
  }

  function QueueWork(s: State): nat {
    if s.queue == [] then 0 else HeadWork(s.phase) + 2 * (|s.queue| - 1)
  }

  /** Steps until the reader is done: a refresh that a notification has come after reads once more. */
  function ReaderWork(notifications: nat, r: Reader): nat {
    var reading := if r.applied then 1 else if r.loaded.Some? then 2 else 3;
    if r.notification.Some? then reading - (if r.applied then 0 else 1)
    else if r.awaited.None? then 4
    else if r.awaited.value == notifications then reading
    else reading + 3
  }

  /** A flush whose tails have moved on turns once more. */
  function FlushWork(enqueued: nat, notifications: nat, f: Flush): nat {
    if f.tail == enqueued && f.external == notifications then 1 else 2
  }

  function ReaderWorks(notifications: nat, readers: seq<Reader>): seq<nat> {
    Mapped(readers, (r: Reader) => ReaderWork(notifications, r))
  }

  function FlushWorks(enqueued: nat, notifications: nat, flushes: seq<Flush>): seq<nat> {
    Mapped(flushes, (f: Flush) => FlushWork(enqueued, notifications, f))
  }

  function Work(s: State): nat {
    QueueWork(s) + Sum(ReaderWorks(s.notifications, s.readers)) + Sum(FlushWorks(s.Enqueued(), s.notifications, s.flushes))
  }

  lemma ReaderDoesWork(n: nat, readers: seq<Reader>, i: nat, next: Option<Reader>)
    requires i < |readers| && (next.Some? ==> ReaderWork(n, next.value) < ReaderWork(n, readers[i]))
    requires ReaderWork(n, readers[i]) > 0
    ensures var rest := if next.Some? then readers[i := next.value] else Without(readers, i);
      Sum(ReaderWorks(n, rest)) < Sum(ReaderWorks(n, readers))
  {
    var works := ReaderWorks(n, readers);
    if next.Some? {
      assert ReaderWorks(n, readers[i := next.value]) == works[i := ReaderWork(n, next.value)];
      SumUpdate(works, i, ReaderWork(n, next.value));
    } else {
      assert ReaderWorks(n, Without(readers, i)) == Without(works, i);
      SumWithout(works, i);
    }
  }

  lemma FlushDoesWork(enqueued: nat, n: nat, flushes: seq<Flush>, i: nat, next: Option<Flush>)
    requires i < |flushes| && (next.Some? ==> FlushWork(enqueued, n, next.value) < FlushWork(enqueued, n, flushes[i]))
    ensures var rest := if next.Some? then flushes[i := next.value] else Without(flushes, i);
      Sum(FlushWorks(enqueued, n, rest)) < Sum(FlushWorks(enqueued, n, flushes))
  {
    var works := FlushWorks(enqueued, n, flushes);
    if next.Some? {
      assert FlushWorks(enqueued, n, flushes[i := next.value]) == works[i := FlushWork(enqueued, n, next.value)];
      SumUpdate(works, i, FlushWork(enqueued, n, next.value));
    } else {
      assert FlushWorks(enqueued, n, Without(flushes, i)) == Without(works, i);
      SumWithout(works, i);
    }
  }

  /** Only a reader has moved on, or is done. */
  lemma OneReaderLess(s: State, t: State, i: nat, next: Option<Reader>)
    requires i < |s.readers| && t == s.(readers := t.readers, records := t.records, disturbed := t.disturbed,
                                        refreshFailed := t.refreshFailed)
    requires t.readers == if next.Some? then s.readers[i := next.value] else Without(s.readers, i)
    requires ReaderWork(s.notifications, s.readers[i]) > 0
    requires next.Some? ==> ReaderWork(s.notifications, next.value) < ReaderWork(s.notifications, s.readers[i])
    ensures Work(t) < Work(s)
  {
    ReaderDoesWork(s.notifications, s.readers, i, next);
    assert t.Enqueued() == s.Enqueued();
  }

  lemma ReaderStepWorks(s: State, e: Event)
    requires Enabled(s, e) && (e.Load? || e.Apply? || e.RefreshTurns?) && ReaderOrdered(s, s.readers[e.index])
    ensures Work(Next(s, e)) < Work(s)
  {
    var i := e.index;
    var r := s.readers[i];
    var t := Next(s, e);
    if e.Load? {
      OneReaderLess(s, t, i, Some(r.(loaded := Some(s.durable), stale := {})));
    } else if e.Apply? {
      OneReaderLess(s, t, i, if r.notification.None? then Some(r.(loaded := None, applied := true)) else None);
    } else {
      OneReaderLess(s, t, i, if r.awaited == Some(s.notifications) then None
                             else Some(r.(awaited := Some(s.notifications), applied := false)));
    }
  }

  lemma FlushStepWorks(s: State, i: nat)
    requires Enabled(s, FlushTurns(i))
    ensures Work(NextFlushTurn(s, i)) < Work(s)
  {
    var t := NextFlushTurn(s, i);
    var next := if |t.flushes| == |s.flushes| then Some(t.flushes[i]) else None;
    FlushDoesWork(s.Enqueued(), s.notifications, s.flushes, i, next);
  }

  lemma OnlyQueueLess(s: State, t: State)
    requires t.readers == s.readers && t.flushes == s.flushes && t.notifications == s.notifications
    requires t.Enqueued() == s.Enqueued() && QueueWork(t) < QueueWork(s)
    ensures Work(t) < Work(s)
  {
  }

  lemma ContinueWorks(s: State)
    requires Sound(s) && CanContinue(s)
    ensures Work(NextContinue(s)) < Work(s)
  {
    ContinueTouchesOwnKey(s);
    if StartsReadBack(s) { ReadingBackStarts(s); } else { ContinuePops(s); }
    assert QueueWork(NextContinue(s)) < QueueWork(s);
    OnlyQueueLess(s, NextContinue(s));
  }

  lemma TransactionWorks(s: State, e: Event)
    requires Enabled(s, e) && (e.Commit? || e.LoadBack?)
    ensures Work(Next(s, e)) < Work(s)
  {
    OnlyQueueLess(s, Next(s, e));
  }

  lemma QuietStepWorks(s: State, e: Event)
    requires Sound(s) && Enabled(s, e) && Quiet(e)
    ensures Work(Next(s, e)) < Work(s)
  {
    if e.FlushTurns? {
      FlushStepWorks(s, e.index);
    } else if e.Load? || e.Apply? || e.RefreshTurns? {
      var p :| PeersInv(s, p);
      assert ReaderOrdered(s, s.readers[e.index]);
      ReaderStepWorks(s, e);
    } else if e.Continue? {
      ContinueWorks(s);
    } else {
      TransactionWorks(s, e);
    }
  }

  // ----- there is always a way on -----

  /** The oldest notification that is not worked off has nothing left to wait for. */
  lemma {:induction false} OldestNotification(readers: seq<Reader>) returns (i: nat)
    requires exists r :: r in readers && r.notification.Some?
    ensures i < |readers| && readers[i].notification.Some?
    ensures forall r :: r in readers && r.notification.Some? ==> readers[i].notification.value <= r.notification.value
  {
    if exists r :: r in readers[1..] && r.notification.Some? {
      var j := OldestNotification(readers[1..]);
      i := if readers[0].notification.Some? && readers[0].notification.value < readers[1..][j].notification.value
           then 0 else j + 1;
    } else {
      i := 0;
    }
  }

  lemma HeadGoesOn(s: State) returns (e: Event)
    requires Sound(s) && s.queue != []
    ensures Quiet(e) && Enabled(s, e)
  {
    match s.phase
    case Waiting => e := Commit(false);
    case ReadingBack => e := LoadBack;
    case Committed(_) => e := Continue;
    case Aborted => e := Continue;
    case ReadBack(_) => e := Continue;
    case ReadBackFailed => e := Continue;
  }

  lemma NotificationGoesOn(s: State) returns (e: Event)
    requires Sound(s) && s.queue == [] && exists r :: r in s.readers && r.notification.Some?
    ensures Quiet(e) && Enabled(s, e)
  {
    var p :| PeersInv(s, p);
    var i := OldestNotification(s.readers);
    assert ReaderOrdered(s, s.readers[i]) && ReaderFits(s, s.readers[i]);
    e := if s.readers[i].loaded.Some? then Apply(i) else Load(i);
  }

  lemma RefreshGoesOn(s: State) returns (e: Event)
    requires Sound(s) && s.queue == [] && s.readers != [] && forall r :: r in s.readers ==> r.notification.None?
    ensures Quiet(e) && Enabled(s, e)
  {
    var p :| PeersInv(s, p);
    var r := s.readers[0];
    assert ReaderOrdered(s, r) && ReaderFits(s, r);
    e := if r.awaited.None? || r.applied then RefreshTurns(0) else if r.loaded.Some? then Apply(0) else Load(0);
  }

  /** While a flush waits, or a reading or an operation is under way, the tab can go on. */
  lemma SomethingGoesOn(s: State) returns (e: Event)
    requires Sound(s) && (s.queue != [] || s.readers != [] || s.flushes != [])
    ensures Quiet(e) && Enabled(s, e)
  {
    if s.queue != [] {
      e := HeadGoesOn(s);
    } else if exists r :: r in s.readers && r.notification.Some? {
      e := NotificationGoesOn(s);
    } else if s.readers != [] {
      e := RefreshGoesOn(s);
    } else {
      assert FlushFits(s, s.flushes[0]);
      e := FlushTurns(0);
    }
  }

  // ----- every flush settles -----

  lemma {:induction false} QuietRunsEnd(s: State, run: seq<Event>)
    requires Sound(s) && Possible(s, run) && QuietRun(run)
    ensures Sound(After(s, run)) && |run| + Work(After(s, run)) <= Work(s)
    decreases |run|
  {
    if run != [] {
      QuietStepWorks(s, run[0]);
      StepKeepsSound(s, run[0]);
      QuietRunsEnd(Next(s, run[0]), run[1..]);
    }
  }

  /** Nothing goes on by itself. */
  ghost predicate Rests(s: State) {
    forall e :: Quiet(e) ==> !Enabled(s, e)
  }

  lemma RestingIsIdle(s: State)
    requires Sound(s) && Rests(s)
    ensures s.flushes == [] && s.queue == [] && s.readers == []
  {
    if s.queue != [] || s.readers != [] || s.flushes != [] {
      var e := SomethingGoesOn(s);
    }
  }

  /**
   From every reachable state, however the tab goes on by itself, it comes to rest after at most so many steps; and where it
   rests, every flush has settled, the queue is empty and no reading is under way.
   */
  lemma EveryFlushSettles(s: State, rest: seq<Event>)
    requires Reached(s) && Possible(s, rest) && QuietRun(rest)
    ensures |rest| <= Work(s)
    ensures var t := After(s, rest); Rests(t) ==> t.flushes == [] && t.queue == [] && t.readers == []
  {
    ReachedIsSound(s);
    QuietRunsEnd(s, rest);
    if Rests(After(s, rest)) { RestingIsIdle(After(s, rest)); }
  }

  // ----- what it answers -----

  /** The head's transaction has failed, and its caller has not been told. */
  predicate HeadHasFailed(s: State) {
    s.queue != [] && !s.phase.Waiting? && !s.phase.Committed?
  }

  function Failures(s: State): nat {
    s.failures + if HeadHasFailed(s) then 1 else 0
  }

  /** Drafts whose write is no longer queued. */
  function LeftOver(s: State): set<Key> {
    set k | k in s.uncommitted && Put(k, s.uncommitted[k].id, s.uncommitted[k].value) !in s.queue
  }

  ghost predicate RefreshReturns(s: State, run: seq<Event>)
    requires Possible(s, run)
    decreases |run|
  {
    run != [] && (Returns(s, run[0]) || RefreshReturns(Next(s, run[0]), run[1..]))
  }

  /** What decides a flush's answer stays as it is while the tab goes on by itself. */
  ghost predicate SameOutlook(s: State, t: State) {
    && Failures(t) == Failures(s)
    && (HeadHasFailed(t) ==> HeadHasFailed(s))
    && (!HeadHasFailed(s) ==> LeftOver(t) == LeftOver(s))
  }

  predicate Bounded(s: State, failures: nat) {
    forall i :: 0 <= i < |s.flushes| ==> s.flushes[i].boundary <= failures
  }

  /** A committed write releases its own draft, and nothing else is written or given up. */
  lemma CommittedKeepsLeftOver(s: State)
    requires Sound(s) && s.queue != [] && s.phase.Committed?
    ensures LeftOver(NextCommitted(s)) == LeftOver(s)
  {
    var t := NextCommitted(s);
    var head := s.queue[0];
    assert forall op :: op in s.queue <==> op == head || op in t.queue;
    forall k | k in s.uncommitted && Put(k, s.uncommitted[k].id, s.uncommitted[k].value) == head
      ensures k !in t.uncommitted
    {
    }
    forall k | k in s.uncommitted && k !in t.uncommitted
      ensures Put(k, s.uncommitted[k].id, s.uncommitted[k].value) == head
    {
      assert TokenNamed(s, s.uncommitted[k]);
    }
  }

  lemma FailedContinueCounts(s: State)
    requires Sound(s) && CanContinue(s) && HeadHasFailed(s)
    ensures Failures(NextContinue(s)) == Failures(s)
  {
    if StartsReadBack(s) {
      ReadingBackStarts(s);
    } else {
      FailureIsCounted(s);
    }
  }

  lemma FailureIsCounted(s: State)
    requires CanContinue(s) && HeadHasFailed(s) && !StartsReadBack(s)
    ensures NextContinue(s).failures == s.failures + 1 && NextContinue(s).phase == Waiting
  {
    if s.phase.Aborted? { AbortIsCounted(s); } else { FailedReadBackIsCounted(s); }
  }

  lemma RevealIsCounted(s: State, visible: Option<Value>, draft: Option<WriteToken>)
    requires s.queue != []
    ensures Revealed(s, visible, draft).failures == s.failures + 1 && Revealed(s, visible, draft).phase == Waiting
  {
  }

  lemma AbortIsCounted(s: State)
    requires s.queue != [] && s.phase.Aborted? && !StartsReadBack(s)
    ensures NextAborted(s).failures == s.failures + 1 && NextAborted(s).phase == Waiting
  {
    var op := s.queue[0];
    if op.Delete? && Owns(s, op) { RevealIsCounted(s, Fallback(s, op), FallbackDraft(s, op)); }
  }

  lemma FailedReadBackIsCounted(s: State)
    requires s.queue != [] && s.queue[0].Delete? && (s.phase.ReadBack? || s.phase.ReadBackFailed?)
    ensures NextReadBack(s).failures == s.failures + 1 && NextReadBack(s).phase == Waiting
  {
    RevealIsCounted(s, if s.phase.ReadBack? then s.phase.found else LastKnown(s, s.queue[0]), None);
  }

  lemma ContinueKeepsOutlook(s: State)
    requires Sound(s) && CanContinue(s)
    ensures SameOutlook(s, NextContinue(s))
  {
    if s.phase.Committed? {
      CommittedKeepsLeftOver(s);
    } else {
      FailedContinueCounts(s);
    }
  }

  lemma QuietStepKeepsOutlook(s: State, e: Event)
    requires Sound(s) && Enabled(s, e) && Quiet(e)
    ensures SameOutlook(s, Next(s, e))
    ensures Next(s, e).refreshFailed == (s.refreshFailed && !Returns(s, e))
    ensures forall n: nat :: Bounded(s, n) ==> Bounded(Next(s, e), n)
  {
    if e.Continue? {
      ContinueTouchesOwnKey(s);
      ContinueKeepsOutlook(s);
    } else if e.FlushTurns? || e.Load? || e.RefreshTurns? {
      ReaderStepChangesReaders(s, e);
    }
  }

  lemma {:induction false} QuietRunKeepsOutlook(s: State, run: seq<Event>)
    requires Sound(s) && Possible(s, run) && QuietRun(run)
    ensures Sound(After(s, run)) && SameOutlook(s, After(s, run))
    ensures After(s, run).refreshFailed == (s.refreshFailed && !RefreshReturns(s, run))
    ensures forall n: nat :: Bounded(s, n) ==> Bounded(After(s, run), n)
    decreases |run|
  {
    if run != [] {
      QuietStepKeepsOutlook(s, run[0]);
      StepKeepsSound(s, run[0]);
      QuietRunKeepsOutlook(Next(s, run[0]), run[1..]);
    }
  }

  /**
   What a flush answers once the tab has gone on by itself: a write has failed, exactly when one had failed after the
   flush's boundary, or was about to be reported; else drafts are left, exactly when the write of one was no longer queued;
   else the mirror is stale, exactly when a notification could not be read and no refresh has returned since; else it
   resolves.
   */
  lemma FlushAnswers(s: State, rest: seq<Event>, i: nat)
    requires Reached(s) && Possible(s, rest) && QuietRun(rest) && Enabled(After(s, rest), FlushTurns(i))
    ensures var f := After(s, rest).flushes[i];
            var verdict := FlushVerdict(After(s, rest), f);
      !verdict.Again? ==>
        && (verdict.WriteFailed? <==> f.boundary < Failures(s))
        && (verdict.DraftsLeft? <==> Failures(s) <= f.boundary && LeftOver(s) != {})
        && (verdict.MirrorStale? <==>
              Failures(s) <= f.boundary && LeftOver(s) == {} && s.refreshFailed && !RefreshReturns(s, rest))
        && (verdict.Resolves? <==>
              Failures(s) <= f.boundary && LeftOver(s) == {} && (s.refreshFailed ==> RefreshReturns(s, rest)))
  {
    var t := After(s, rest);
    ReachedIsSound(s);
    QuietRunKeepsOutlook(s, rest);
    assert Bounded(s, s.failures) by {
      forall j | 0 <= j < |s.flushes| ensures s.flushes[j].boundary <= s.failures { assert FlushFits(s, s.flushes[j]); }
    }
    assert FlushFits(t, t.flushes[i]);
    if !FlushVerdict(t, t.flushes[i]).Again? {
      assert t.queue == [];
      assert LeftOver(t) == t.uncommitted.Keys;
      assert t.uncommitted == map[] <==> t.uncommitted.Keys == {};
    }
  }
}

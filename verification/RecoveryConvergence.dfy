/**
 Every run of one tab's recovery storage: the mirror converges on the store,
 and no uncommitted draft is ever hidden.
 */
module RecoveryConvergence {
  import opened Options
  import opened RecoveryMirror
  import opened RecoveryInvariants
  import opened RecoveryMirrorProofs
  import opened RecoveryReceiptProofs

  lemma ContinueKeeps(s: State)
    requires MirrorInv(s) && ReceiptInv(s) && CanContinue(s)
    ensures MirrorInv(NextContinue(s))
  {
    match s.phase
    case Committed(_) =>
      match s.queue[0] {
        case Put(_, _, _) => PutCommittedKeeps(s);
        case Delete(_, _, _) => DeleteCommittedKeeps(s);
        case Conditional(_, _, _) => ConditionalCommittedKeeps(s);
      }
    case Aborted => AbortedKeeps(s);
    case _ => ReadBackKeeps(s);
  }

  lemma StepKeepsMirror(s: State, e: Event)
    requires Inv(s) && Enabled(s, e)
    ensures MirrorInv(Next(s, e))
  {
    if e.SetItem? {
      SetItemKeeps(s, e.key, e.value);
    } else if e.RemoveItem? {
      RemoveItemKeeps(s, e.key);
    } else if e.Compare? {
      CompareKeeps(s, e.key, e.comparison);
    } else if e.Commit? {
      CommitKeeps(s, e.matched);
    } else if e.Abort? {
      AbortKeeps(s);
    } else if e.Continue? {
      ContinueKeeps(s);
    } else if e.LoadBack? || e.LoadBackFails? {
      LoadBackKeeps(s, e);
    } else if e.Apply? {
      ApplyKeeps(s, e.index);
    } else if PeerEvent(e) {
      PeerStepKeeps(s, e);
    } else if FlushEvent(e) {
      FlushStepKeeps(s, e);
    } else {
      ReaderStepKeeps(s, e);
    }
  }

  lemma StepKeeps(s: State, e: Event)
    requires Inv(s) && Enabled(s, e)
    ensures Inv(Next(s, e))
  {
    StepKeepsMirror(s, e);
    StepKeepsTokens(s, e);
    StepKeepsRemovals(s, e);
    StepKeepsReceipts(s, e);
  }

  // ----- whole runs -----

  /** Each event of the run can happen when its turn comes. */
  ghost predicate Possible(s: State, run: seq<Event>)
    decreases |run|
  {
    run != [] ==> Enabled(s, run[0]) && Possible(Next(s, run[0]), run[1..])
  }

  function After(s: State, run: seq<Event>): State
    requires Possible(s, run)
    decreases |run|
  {
    if run == [] then s else After(Next(s, run[0]), run[1..])
  }

  lemma {:induction false} RunKeeps(s: State, run: seq<Event>)
    requires Inv(s) && Possible(s, run)
    ensures Inv(After(s, run))
    decreases |run|
  {
    if run != [] {
      StepKeeps(s, run[0]);
      RunKeeps(Next(s, run[0]), run[1..]);
    }
  }

  lemma {:induction false} Reachable(durable: map<Key, Value>, run: seq<Event>)
    requires Possible(Start(durable), run)
    ensures Inv(After(Start(durable), run))
  {
    RunKeeps(Start(durable), run);
  }

  // ----- convergence -----

  /**
   What puts a key's mirror behind the store: a peer's commit; an aborted comparison that was the key's newest mutation
   while mirror and store disagreed; a removal that fails, cannot read the store back and falls back to something else
   than is stored; and a reading that a peer has outrun.
   */
  ghost predicate Disturbs(s: State, e: Event, k: Key)
    requires Enabled(s, e)
  {
    || (e.PeerCommits? && e.key == k)
    || (e.PeerClears? && k in s.durable)
    || (e.Abort? && s.queue[0].Conditional? && s.queue[0].key == k
        && HeadIsNewest(s) && k !in s.uncommitted && !s.Agrees(k))
    || (e.LoadBackFails? && s.queue[0].Delete? && s.queue[0].key == k
        && Owns(s, s.queue[0]) && LastKnown(s, s.queue[0]) != Lookup(s.durable, k))
    || (e.Apply? && k in Outrun(s, s.readers[e.index]))
  }

  /** What brings it back: a reading that decides the key, and the end of its newest mutation when it knows the store. */
  ghost predicate Restores(s: State, e: Event, k: Key)
    requires Enabled(s, e)
  {
    || (e.Apply? && Covers(s, s.readers[e.index], k))
    || (e.Continue? && s.queue[0].key == k && Repairs(s))
  }

  lemma DisturbedExactly(s: State, e: Event, k: Key)
    requires Inv(s) && Enabled(s, e)
    ensures k in Next(s, e).disturbed <==> Disturbs(s, e, k) || (k in s.disturbed && !Restores(s, e, k))
  {
    if e.Continue? {
      ContinueTouchesOwnKey(s);
    } else if ReaderEvent(e) || FlushEvent(e) {
      ReaderStepChangesReaders(s, e);
    } else if e.Abort? || e.LoadBackFails? {
      FailureDisturbs(s, e, k);
    } else if e.Apply? {
      ApplyDisturbs(s, e.index, k);
    } else {
      OtherStepDisturbs(s, e, k);
    }
  }

  /** Neither a continuation nor a failure nor a reader's step. */
  predicate OtherEvent(e: Event) {
    !e.Continue? && !ReaderEvent(e) && !FlushEvent(e) && !e.Abort? && !e.LoadBackFails? && !e.Apply?
  }

  lemma OtherStepDisturbs(s: State, e: Event, k: Key)
    requires Enabled(s, e) && OtherEvent(e)
    ensures k in Next(s, e).disturbed <==> Disturbs(s, e, k) || k in s.disturbed
  {
  }

  lemma ApplyDisturbs(s: State, i: nat, k: Key)
    requires Enabled(s, Apply(i))
    ensures k in NextApply(s, i).disturbed <==>
      Disturbs(s, Apply(i), k) || (k in s.disturbed && !Restores(s, Apply(i), k))
  {
  }

  lemma FailureDisturbs(s: State, e: Event, k: Key)
    requires Enabled(s, e) && (e.Abort? || e.LoadBackFails?)
    ensures k in Next(s, e).disturbed <==> Disturbs(s, e, k) || k in s.disturbed
  {
  }

  /** What a continuation does not touch. */
  ghost predicate ContinueFrame(s: State, t: State)
    requires s.queue != []
  {
    && t.flushes == s.flushes && t.observed == s.observed && t.refreshFailed == s.refreshFailed
    && t.notifications == s.notifications && t.readers == s.readers && t.keySequences == s.keySequences
    && t.durable == s.durable && t.Enqueued() == s.Enqueued() && s.failures <= t.failures
    && forall k :: k != s.queue[0].key ==>
         Lookup(t.records, k) == Lookup(s.records, k) && Lookup(t.uncommitted, k) == Lookup(s.uncommitted, k)
  }

  lemma CommittedFrame(s: State)
    requires s.queue != [] && s.phase.Committed?
    ensures ContinueFrame(s, NextCommitted(s))
    ensures NextCommitted(s).disturbed == if Repairs(s) then s.disturbed - {s.queue[0].key} else s.disturbed
  {
  }

  lemma RevealedFrame(s: State, visible: Option<Value>, draft: Option<WriteToken>)
    requires s.queue != []
    ensures ContinueFrame(s, Revealed(s, visible, draft)) && ContinueFrame(s, Popped(s, true))
    ensures Revealed(s, visible, draft).disturbed == Popped(s, true).disturbed
         == if Repairs(s) then s.disturbed - {s.queue[0].key} else s.disturbed
  {
  }

  lemma AbortedFrame(s: State)
    requires s.queue != [] && s.phase.Aborted?
    ensures ContinueFrame(s, NextAborted(s)) && NextAborted(s).disturbed == s.disturbed
  {
    if s.queue[0].Delete? {
      RevealedFrame(s, Fallback(s, s.queue[0]), FallbackDraft(s, s.queue[0]));
    } else {
      RevealedFrame(s, None, None);
    }
  }

  lemma ReadBackFrame(s: State)
    requires s.queue != [] && s.queue[0].Delete? && (s.phase.ReadBack? || s.phase.ReadBackFailed?)
    ensures ContinueFrame(s, NextReadBack(s))
    ensures NextReadBack(s).disturbed == if Repairs(s) then s.disturbed - {s.queue[0].key} else s.disturbed
  {
    RevealedFrame(s, if s.phase.ReadBack? then s.phase.found else LastKnown(s, s.queue[0]), None);
  }

  lemma ContinueTouchesOwnKey(s: State)
    requires CanContinue(s)
    ensures ContinueFrame(s, NextContinue(s))
    ensures NextContinue(s).disturbed == if Repairs(s) then s.disturbed - {s.queue[0].key} else s.disturbed
  {
    if s.phase.Committed? { CommittedFrame(s); } else if s.phase.Aborted? { AbortedFrame(s); } else { ReadBackFrame(s); }
  }

  /**
   Mirror convergence: however page calls, commits, aborts, notifications, refreshes and peers interleave, once the
   queue has drained every key shows the durable value, unless it is an uncommitted draft or was put behind (see
   `DisturbedExactly`) and not brought back since.
   */
  lemma Converges(durable: map<Key, Value>, run: seq<Event>, k: Key)
    requires Possible(Start(durable), run)
    ensures var s := After(Start(durable), run);
      s.queue == [] && k !in s.disturbed ==> k in s.uncommitted || Lookup(s.records, k) == Lookup(s.durable, k)
  {
    Reachable(durable, run);
    var s := After(Start(durable), run);
    assert SettledKeysAgree(s);
  }

  /** No draft is hidden, under every abort, failed read-back, late notification and stale refresh. */
  lemma DraftsStayVisible(durable: map<Key, Value>, run: seq<Event>, k: Key)
    requires Possible(Start(durable), run)
    ensures var s := After(Start(durable), run);
      k in s.uncommitted ==> Lookup(s.records, k) == Some(s.uncommitted[k].value)
  {
    Reachable(durable, run);
    assert DraftsVisible(After(Start(durable), run));
  }

  /** Continuations that release no token. */
  lemma OnlyItsPutReleases(s: State, k: Key)
    requires RemovalsOwn(s) && CanContinue(s) && k in s.uncommitted
    requires !(s.phase.Committed? && s.queue[0].Put? && s.queue[0].key == k
               && s.queue[0].sequence == s.uncommitted[k].id)
    ensures Lookup(NextContinue(s).uncommitted, k) == Some(s.uncommitted[k])
  {
    match s.phase
    case Committed(_) =>
    case Aborted =>
    case _ =>
  }

  /** A draft's token leaves only when its own write committed, or a newer set or a removal replaced it. */
  lemma TokensLeaveOnlyBy(s: State, e: Event, k: Key)
    requires Inv(s) && Enabled(s, e) && k in s.uncommitted
    requires Lookup(Next(s, e).uncommitted, k) != Some(s.uncommitted[k])
    ensures
      || (e.SetItem? && e.key == k)
      || (e.RemoveItem? && e.key == k)
      || (e.Continue? && s.phase == Committed(Some(s.uncommitted[k].value))
          && s.queue[0] == Put(k, s.uncommitted[k].id, s.uncommitted[k].value))
  {
    assert TokenNamed(s, s.uncommitted[k]);
    if e.Continue? {
      if !(s.phase.Committed? && s.queue[0].Put? && s.queue[0].key == k
           && s.queue[0].sequence == s.uncommitted[k].id) {
        OnlyItsPutReleases(s, k);
      }
    } else if ReaderEvent(e) || FlushEvent(e) {
      ReaderStepChangesReaders(s, e);
    }
  }

  /** A queued removal's receipt is unsure after a peer's change, an aborted comparison, or if it was taken while behind. */
  lemma UnsureExactly(s: State, e: Event, k: Key)
    requires Inv(s) && Enabled(s, e)
    ensures k in Next(s, e).unsure <==>
      || (e.PeerCommits? && e.key == k && s.IsQueued(k))
      || (e.PeerClears? && k in s.durable && s.IsQueued(k))
      || (e.Abort? && s.queue[0].Conditional? && s.queue[0].key == k)
      || (e.RemoveItem? && e.key == k && k in s.disturbed)
      || (k in s.unsure && !(e.Continue? && !StartsReadBack(s) && s.queue[0].key == k && HeadIsNewest(s)))
  {
    if e.Continue? {
      ContinueUnsure(s, k);
    } else if ReaderEvent(e) || FlushEvent(e) {
      ReaderStepChangesReaders(s, e);
    } else {
      OtherStepUnsure(s, e, k);
    }
  }

  lemma ContinueUnsure(s: State, k: Key)
    requires Inv(s) && CanContinue(s)
    ensures k in NextContinue(s).unsure <==>
      k in s.unsure && !(!StartsReadBack(s) && s.queue[0].key == k && HeadIsNewest(s))
  {
    if StartsReadBack(s) {
      ReadingBackStarts(s);
    } else {
      assert s.queue[0].Delete? ==> RemovalFits(s, s.queue[0]);
      ContinueDropsOwnRemoval(s);
    }
  }

  lemma OtherStepUnsure(s: State, e: Event, k: Key)
    requires Enabled(s, e) && !e.Continue? && !ReaderEvent(e) && !FlushEvent(e)
    ensures k in Next(s, e).unsure <==>
      || (e.PeerCommits? && e.key == k && s.IsQueued(k))
      || (e.PeerClears? && k in s.durable && s.IsQueued(k))
      || (e.Abort? && s.queue[0].Conditional? && s.queue[0].key == k)
      || (e.RemoveItem? && e.key == k && k in s.disturbed)
      || k in s.unsure
  {
  }

  // ----- one tab alone -----

  /** No peer changes the store, no comparison's transaction fails, and no failed removal fails to read the store back. */
  predicate Smooth(s: State, e: Event)
    requires Enabled(s, e)
  {
    !PeerEvent(e) && !(e.Abort? && s.queue[0].Conditional?) && !e.LoadBackFails?
  }

  ghost predicate SmoothRun(s: State, run: seq<Event>)
    requires Possible(s, run)
    decreases |run|
  {
    run != [] ==> Smooth(s, run[0]) && SmoothRun(Next(s, run[0]), run[1..])
  }

  /** Nothing is or will be behind. */
  ghost predicate Untroubled(s: State) {
    s.disturbed == {} && s.unsure == {} && forall j :: 0 <= j < |s.readers| ==> s.readers[j].stale == {}
  }

  lemma SmoothReadersStay(s: State, e: Event)
    requires Enabled(s, e) && !PeerEvent(e) && forall j :: 0 <= j < |s.readers| ==> s.readers[j].stale == {}
    ensures forall j :: 0 <= j < |Next(s, e).readers| ==> Next(s, e).readers[j].stale == {}
  {
    if e.Continue? { ContinueTouchesOwnKey(s); }
  }

  lemma SmoothStep(s: State, e: Event)
    requires Inv(s) && Untroubled(s) && Enabled(s, e) && Smooth(s, e)
    ensures Untroubled(Next(s, e))
  {
    SmoothReadersStay(s, e);
    forall k ensures k !in Next(s, e).disturbed && k !in Next(s, e).unsure {
      DisturbedExactly(s, e, k);
      UnsureExactly(s, e, k);
    }
  }

  lemma {:induction false} SmoothRunStays(s: State, run: seq<Event>)
    requires Inv(s) && Untroubled(s) && Possible(s, run) && SmoothRun(s, run)
    ensures Inv(After(s, run)) && Untroubled(After(s, run))
    decreases |run|
  {
    if run != [] {
      StepKeeps(s, run[0]);
      SmoothStep(s, run[0]);
      SmoothRunStays(Next(s, run[0]), run[1..]);
    }
  }

  /**
   Without peers, aborted comparisons and failed read-backs, however calls, commits, aborted writes and removals, refreshes
   and flushes interleave, a drained queue leaves every key stored as shown, or an uncommitted draft.
   */
  lemma SmoothRunConverges(durable: map<Key, Value>, run: seq<Event>, k: Key)
    requires Possible(Start(durable), run) && SmoothRun(Start(durable), run)
    ensures var s := After(Start(durable), run);
      s.queue == [] ==> k in s.uncommitted || Lookup(s.records, k) == Lookup(s.durable, k)
  {
    Reachable(durable, []);
    SmoothRunStays(Start(durable), run);
    Converges(durable, run, k);
  }

  /**
   The first failed read-back of such a run: the key's newest mutation, a removal, then shows something else than is stored
   if and only if its receipt is outdated.
   */
  lemma FirstFailedReadBackIsRightExactly(durable: map<Key, Value>, run: seq<Event>)
    requires Possible(Start(durable), run) && SmoothRun(Start(durable), run)
    requires var s := After(Start(durable), run);
      Enabled(s, LoadBackFails) && s.queue[0].Delete? && Owns(s, s.queue[0]) && HeadIsNewest(s)
    ensures var s := After(Start(durable), run);
      NextContinue(NextLoadBackFails(s)).Agrees(s.queue[0].key) <==> !ReceiptOutdated(s, s.queue[0])
  {
    Reachable(durable, []);
    SmoothRunStays(Start(durable), run);
    FailedReadBackIsRightExactly(After(Start(durable), run));
    FailedReadBackShows(After(Start(durable), run));
  }

  lemma FailedReadBackShows(s: State)
    requires Enabled(s, LoadBackFails) && s.queue[0].Delete? && Owns(s, s.queue[0])
    ensures NextContinue(NextLoadBackFails(s)).Agrees(s.queue[0].key)
       <==> LastKnown(s, s.queue[0]) == Lookup(s.durable, s.queue[0].key)
  {
    var t := NextLoadBackFails(s);
    assert LastKnown(t, s.queue[0]) == LastKnown(s, s.queue[0]);
    assert NextContinue(t) == Revealed(t, LastKnown(t, s.queue[0]), None);
  }

  // ----- flush -----

  /** A waiting flush awaits nothing that does not exist, and its boundary lies behind all failures. */
  ghost predicate FlushFits(s: State, f: Flush) {
    f.tail <= s.Enqueued() && f.external <= s.notifications && f.boundary <= f.failures <= s.failures
  }

  ghost predicate FlushInv(s: State) {
    && s.observed <= s.failures
    && (forall i :: 0 <= i < |s.flushes| ==> FlushFits(s, s.flushes[i]))
    && (forall i :: 0 <= i < |s.readers| && s.readers[i].notification.Some? ==>
          s.readers[i].notification.value <= s.notifications)
  }

  /** Steps that begin or end no flush. */
  lemma SameFlushesFit(s: State, t: State)
    requires FlushInv(s) && t.flushes == s.flushes && t.observed == s.observed
    requires s.Enqueued() <= t.Enqueued() && s.failures <= t.failures && s.notifications <= t.notifications
    requires forall i :: 0 <= i < |t.readers| && t.readers[i].notification.Some? ==>
      t.readers[i].notification.value <= t.notifications
    ensures FlushInv(t)
  {
  }

  lemma ReaderStepKeepsFlushes(s: State, e: Event)
    requires FlushInv(s) && Enabled(s, e) && (ReaderEvent(e) || e.Apply? || PeerEvent(e))
    ensures FlushInv(Next(s, e))
  {
    SameFlushesFit(s, Next(s, e));
  }

  lemma FlushStepKeepsFlushes(s: State, e: Event)
    requires FlushInv(s) && Enabled(s, e) && FlushEvent(e)
    ensures FlushInv(Next(s, e))
  {
  }

  lemma ContinueKeepsFlushes(s: State)
    requires FlushInv(s) && CanContinue(s)
    ensures FlushInv(NextContinue(s))
  {
    ContinueTouchesOwnKey(s);
    SameFlushesFit(s, NextContinue(s));
  }

  lemma StepKeepsFlushes(s: State, e: Event)
    requires Inv(s) && FlushInv(s) && Enabled(s, e)
    ensures FlushInv(Next(s, e))
  {
    if ReaderEvent(e) || e.Apply? || PeerEvent(e) {
      ReaderStepKeepsFlushes(s, e);
    } else if FlushEvent(e) {
      FlushStepKeepsFlushes(s, e);
    } else if e.Continue? {
      ContinueKeepsFlushes(s);
    } else {
      SameFlushesFit(s, Next(s, e));
    }
  }

  lemma {:induction false} FlushesFit(s: State, run: seq<Event>)
    requires Inv(s) && FlushInv(s) && Possible(s, run)
    ensures FlushInv(After(s, run))
    decreases |run|
  {
    if run != [] {
      StepKeeps(s, run[0]);
      StepKeepsFlushes(s, run[0]);
      FlushesFit(Next(s, run[0]), run[1..]);
    }
  }

  /** Nothing is under way. */
  predicate Drained(s: State) {
    s.queue == [] && forall i :: 0 <= i < |s.readers| ==> s.readers[i].notification.None?
  }

  /**
   When `flush()` resolves, after any interleaving of later sets, removals, comparisons, notifications, aborts and other
   flushes with the turns of its loop, the queue is empty and no notification is in flight, nothing has failed since it
   began, no draft is uncommitted, and every key that is not behind shows what is stored.
   */
  lemma FlushMeansStored(durable: map<Key, Value>, run: seq<Event>, i: nat)
    requires Possible(Start(durable), run) && Enabled(After(Start(durable), run), FlushTurns(i))
    requires FlushVerdict(After(Start(durable), run), After(Start(durable), run).flushes[i]).Resolves?
    ensures var s := After(Start(durable), run);
      && Drained(s) && s.uncommitted == map[] && !s.refreshFailed
      && s.failures == s.flushes[i].failures
      && forall k :: k !in s.disturbed ==> Lookup(s.records, k) == Lookup(s.durable, k)
  {
    var s := After(Start(durable), run);
    FlushesFit(Start(durable), run);
    assert FlushFits(s, s.flushes[i]);
    forall k | k !in s.disturbed ensures Lookup(s.records, k) == Lookup(s.durable, k) {
      Converges(durable, run, k);
    }
  }

  // ----- where convergence stops -----

  /** Nothing of the key is under way, it is no draft, and the mirror does not show what is stored. */
  ghost predicate Behind(s: State, k: Key) {
    !s.LatestPending(k) && k !in s.uncommitted && !s.Agrees(k)
  }

  /**
   An aborted comparison leaves the mirror behind if and only if mirror and store disagreed at the abort and it was the
   newest mutation of a key without a draft.
   */
  lemma AbortedComparisonLeavesBehindExactly(s: State)
    requires Inv(s) && Enabled(s, Abort) && s.queue[0].Conditional?
    ensures var k := s.queue[0].key;
      Behind(NextContinue(NextAbort(s)), k) <==> HeadIsNewest(s) && k !in s.uncommitted && !s.Agrees(k)
  {
    var u := NextAbort(s);
    StepKeeps(s, Abort);
    FailurePops(u);
    PopKeepsOrder(u, NextContinue(u));
    assert u.LatestPending(u.queue[0].key);
  }

  /**
   A removal that fails and cannot read the store back, with a receipt that nothing unsure has touched, leaves the mirror
   behind if and only if that receipt is outdated.
   */
  lemma FailedReadBackIsRightExactly(s: State)
    requires Inv(s) && Enabled(s, LoadBackFails) && Owns(s, s.queue[0]) && HeadIsNewest(s)
    requires s.queue[0].key !in s.unsure
    ensures LastKnown(s, s.queue[0]) == Lookup(s.durable, s.queue[0].key) <==> !ReceiptOutdated(s, s.queue[0])
  {
    assert RemovalFits(s, s.queue[0]);
    assert ReceiptTrue(s, 0);
    assert Shown(s, s.queue[0]);
  }

  predicate Mutates(e: Event, k: Key) {
    (e.SetItem? || e.RemoveItem? || e.Compare?) && e.key == k
  }

  /** Events that could bring the key back. */
  predicate Touches(s: State, e: Event, k: Key)
    requires Enabled(s, e)
  {
    || Mutates(e, k)
    || (e.PeerCommits? && e.key == k)
    || e.PeerClears?
    || (e.Apply? && Covers(s, s.readers[e.index], k))
  }

  /** A key that is behind stays behind until it is written again, a reading decides it, or a peer changes it. */
  lemma BehindStays(s: State, e: Event, k: Key)
    requires Inv(s) && Enabled(s, e) && Behind(s, k) && !Touches(s, e, k)
    ensures Behind(Next(s, e), k)
  {
    var t := Next(s, e);
    if e.Continue? {
      ContinueKeepsBehind(s, k);
    } else if e.SetItem? || e.RemoveItem? || e.Compare? {
      EnqueueKeepsPending(s, t, t.queue[|s.queue|]);
    } else {
      OtherStepsKeepBehind(s, e, k);
    }
  }

  lemma OtherStepsKeepBehind(s: State, e: Event, k: Key)
    requires Inv(s) && Enabled(s, e) && !QueueEvent(e) && Behind(s, k) && !Touches(s, e, k)
    ensures Behind(Next(s, e), k)
  {
    OtherStepsKeepAll(s, e);
    if ReaderEvent(e) || FlushEvent(e) {
      ReaderStepChangesReaders(s, e);
    } else if e.Apply? {
      MergedLookup(s, s.readers[e.index], k);
    } else {
      assert Next(s, e).KeySequence(k) == s.KeySequence(k);
      assert e.Commit? ==> s.LatestPending(s.queue[0].key);
    }
  }

  lemma ContinueKeepsBehind(s: State, k: Key)
    requires Inv(s) && CanContinue(s) && Behind(s, k)
    ensures Behind(NextContinue(s), k)
  {
    assert s.LatestPending(s.queue[0].key);
    ContinueTouchesOwnKey(s);
    if StartsReadBack(s) {
      ReadingBackStarts(s);
      SameQueueKeepsOrder(s, NextContinue(s));
    } else {
      assert s.queue[0].Delete? ==> RemovalFits(s, s.queue[0]);
      ContinueDropsOwnRemoval(s);
      PopKeepsOrder(s, NextContinue(s));
    }
  }

  /** A run of one more event. */
  lemma RunExtends(s: State, e: Event, rest: seq<Event>)
    requires Enabled(s, e) && Possible(Next(s, e), rest)
    ensures Possible(s, [e] + rest) && After(s, [e] + rest) == After(Next(s, e), rest)
  {
  }

  /**
   A comparison whose transaction aborts leaves the mirror behind: an earlier
   matching comparison has committed "b", but did not touch the mirror because
   the aborted one was already the newer mutation of the key.
   */
  lemma AbortedComparisonLeavesMirrorBehind() returns (run: seq<Event>)
    ensures var s := Start(map["k" := "a"]);
      Possible(s, run) && After(s, run).queue == [] && After(s, run).uncommitted == map[]
      && !After(s, run).Agrees("k")
  {
    var s0 := Start(map["k" := "a"]);
    var s1 := Next(s0, Compare("k", ReplaceIf("b")));
    var s2 := Next(s1, Compare("k", RemoveIf));
    var s3 := Next(s2, Commit(true));
    var s4 := Next(s3, Continue);
    var s5 := Next(s4, Abort);
    var s6 := Next(s5, Continue);
    assert s6.queue == [] && s6.durable["k"] == "b" && s6.records["k"] == "a";
    run := [];
    RunExtends(s5, Continue, run);
    run := [Continue] + run;
    RunExtends(s4, Abort, run);
    run := [Abort] + run;
    RunExtends(s3, Continue, run);
    run := [Continue] + run;
    RunExtends(s2, Commit(true), run);
    run := [Commit(true)] + run;
    RunExtends(s1, Compare("k", RemoveIf), run);
    run := [Compare("k", RemoveIf)] + run;
    RunExtends(s0, Compare("k", ReplaceIf("b")), run);
    run := [Compare("k", ReplaceIf("b"))] + run;
  }

  /** A run of four more events. */
  lemma RunOfFour(s: State, a: Event, b: Event, c: Event, d: Event)
    requires Enabled(s, a) && Enabled(Next(s, a), b) && Enabled(Next(Next(s, a), b), c)
    requires Enabled(Next(Next(Next(s, a), b), c), d)
    ensures Possible(s, [a, b, c, d]) && After(s, [a, b, c, d]) == Next(Next(Next(Next(s, a), b), c), d)
  {
    var s3 := Next(Next(Next(s, a), b), c);
    RunExtends(s3, d, []);
    assert [d] + [] == [d] && [c] + [d] == [c, d] && [b] + [c, d] == [b, c, d] && [a] + [b, c, d] == [a, b, c, d];
    RunExtends(Next(Next(s, a), b), c, [d]);
    RunExtends(Next(s, a), b, [c, d]);
    RunExtends(s, a, [b, c, d]);
  }

  const DRAFT := WriteToken(1, "k", "a")

  /** The write of a draft fails and the draft is removed; its receipt names the draft. */
  lemma DraftFailsAndGoes() returns (s: State, run: seq<Event>)
    ensures Possible(Start(map[]), run) && After(Start(map[]), run) == s
    ensures s.durable == map[] && s.records == map[] && s.uncommitted == map[] && s.committed == {}
    ensures s.queue == [Delete("k", 2, 2)] && s.phase.Waiting? && s.mutations == 2
    ensures s.pendingDeletes == map["k" := DeleteToken(2, 2)]
    ensures s.snapshots == map[2 := Snapshot("k", false, 1, Some("a"), Some(DRAFT))]
  {
    var s0 := Start(map[]);
    run := [SetItem("k", "a"), Abort, Continue, RemoveItem("k")];
    RunOfFour(s0, SetItem("k", "a"), Abort, Continue, RemoveItem("k"));
    s := Next(Next(Next(Next(s0, SetItem("k", "a")), Abort), Continue), RemoveItem("k"));
  }

  /** Something is stored between that removal and another one; then the first removal commits. */
  lemma StoredBetweenRemovals(s: State) returns (t: State, run: seq<Event>)
    requires s.durable == map[] && s.records == map[] && s.uncommitted == map[] && s.committed == {}
    requires s.queue == [Delete("k", 2, 2)] && s.phase.Waiting? && s.mutations == 2
    requires s.pendingDeletes == map["k" := DeleteToken(2, 2)]
    requires s.snapshots == map[2 := Snapshot("k", false, 1, Some("a"), Some(DRAFT))]
    ensures Possible(s, run) && After(s, run) == t
    ensures t.durable == map[] && t.records == map[] && t.uncommitted == map[] && t.committed == {}
    ensures t.queue == [Conditional("k", 3, LegacyPut("b")), Delete("k", 4, 2)] && t.phase.Waiting?
    ensures t.pendingDeletes == map["k" := DeleteToken(4, 2)] && t.KeySequence("k") == 4
    ensures t.snapshots == map[2 := Snapshot("k", true, 1, Some("a"), Some(DRAFT))]
  {
    run := [Compare("k", LegacyPut("b")), RemoveItem("k"), Commit(false), Continue];
    RunOfFour(s, Compare("k", LegacyPut("b")), RemoveItem("k"), Commit(false), Continue);
    t := Next(Next(Next(Next(s, Compare("k", LegacyPut("b"))), RemoveItem("k")), Commit(false)), Continue);
  }

  /** The comparison stores; the receipt still names the draft, so it does not learn of that. */
  lemma OutdatedReceiptArises(s: State) returns (t: State, run: seq<Event>)
    requires s.durable == map[] && s.records == map[] && s.uncommitted == map[] && s.committed == {}
    requires s.queue == [Conditional("k", 3, LegacyPut("b")), Delete("k", 4, 2)] && s.phase.Waiting?
    requires s.pendingDeletes == map["k" := DeleteToken(4, 2)] && s.KeySequence("k") == 4
    requires s.snapshots == map[2 := Snapshot("k", true, 1, Some("a"), Some(DRAFT))]
    ensures Possible(s, run) && After(s, run) == t
    ensures t.durable == map["k" := "b"] && t.records == map[] && t.uncommitted == map[]
    ensures t.queue == [Delete("k", 4, 2)] && t.phase.ReadingBack? && ReceiptOutdated(t, t.queue[0])
  {
    run := [Commit(true), Continue, Abort, Continue];
    RunOfFour(s, Commit(true), Continue, Abort, Continue);
    var s2 := Next(Next(s, Commit(true)), Continue);
    assert s2.queue == [Delete("k", 4, 2)] && s2.durable == map["k" := "b"] && s2.snapshots == s.snapshots;
    t := Next(Next(s2, Abort), Continue);
  }

  lemma ReadBackFails(s: State) returns (run: seq<Event>)
    requires s.durable == map["k" := "b"] && s.records == map[] && s.uncommitted == map[]
    requires s.queue == [Delete("k", 4, 2)] && s.phase.ReadingBack? && ReceiptOutdated(s, s.queue[0])
    ensures Possible(s, run)
    ensures var t := After(s, run);
      t.queue == [] && t.uncommitted == map[] && t.durable == map["k" := "b"] && t.records == map[]
  {
    var t := Next(s, LoadBackFails);
    run := [];
    RunExtends(t, Continue, run);
    run := [Continue] + run;
    RunExtends(s, LoadBackFails, run);
    run := [LoadBackFails] + run;
  }

  /**
   A removal with an outdated receipt leaves the mirror behind when it fails and the store cannot be read back: what was
   stored between two removals of one draft stays hidden.
   */
  lemma OutdatedReceiptLeavesMirrorBehind() returns (run: seq<Event>)
    ensures Possible(Start(map[]), run)
    ensures var s := After(Start(map[]), run);
      s.queue == [] && s.uncommitted == map[] && s.durable == map["k" := "b"] && s.records == map[]
  {
    var s1, first := DraftFailsAndGoes();
    var s2, second := StoredBetweenRemovals(s1);
    var s3, third := OutdatedReceiptArises(s2);
    var last := ReadBackFails(s3);
    RunsJoin(s2, third, last);
    RunsJoin(s1, second, third + last);
    RunsJoin(Start(map[]), first, second + (third + last));
    run := first + (second + (third + last));
  }

  lemma {:induction false} RunsJoin(s: State, first: seq<Event>, rest: seq<Event>)
    requires Possible(s, first) && Possible(After(s, first), rest)
    ensures Possible(s, first + rest) && After(s, first + rest) == After(After(s, first), rest)
    decreases |first|
  {
    if first == [] {
      assert first + rest == rest;
    } else {
      RunsJoin(Next(s, first[0]), first[1..], rest);
      assert (first + rest)[1..] == first[1..] + rest;
    }
  }
}

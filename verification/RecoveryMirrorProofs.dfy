/** Every step keeps the mirror half of the invariant. */
module RecoveryMirrorProofs {
  import opened Options
  import opened RecoveryMirror
  import opened RecoveryInvariants

  // ----- calls made by the page keep the invariant -----

  /** What every call that queues an operation does to the queue and the generations. */
  ghost predicate Enqueues(s: State, t: State, op: Operation) {
    && op.sequence == s.mutations + 1 == t.mutations
    && t.queue == s.queue + [op]
    && t.keySequences == s.keySequences[op.key := op.sequence]
    && t.readers == s.readers && t.finished == s.finished
    && t.durable == s.durable && t.disturbed == s.disturbed && s.unsure <= t.unsure
    && t.phase == s.phase
  }

  lemma EnqueueKeepsPending(s: State, t: State, op: Operation)
    requires Enqueues(s, t, op)
    ensures forall k :: t.LatestPending(k) <==> (k == op.key || s.LatestPending(k))
  {
    assert t.queue[|s.queue|] == op;
    assert t.LatestPending(op.key);
    forall k | k != op.key && s.LatestPending(k)
      ensures t.LatestPending(k)
    {
      var i :| 0 <= i < |s.queue| && s.queue[i].key == k && s.queue[i].sequence == s.KeySequence(k);
      assert t.queue[i] == s.queue[i];
    }
    forall k | k != op.key && t.LatestPending(k)
      ensures s.LatestPending(k)
    {
      var i :| 0 <= i < |t.queue| && t.queue[i].key == k && t.queue[i].sequence == t.KeySequence(k);
      assert t.queue[i] == s.queue[i];
    }
  }

  lemma EnqueueKeepsOrder(s: State, t: State, op: Operation)
    requires QueueOrdered(s) && Enqueues(s, t, op)
    ensures QueueOrdered(t)
    ensures forall k :: t.LatestPending(k) <==> (k == op.key || s.LatestPending(k))
    ensures forall i :: 0 <= i < |s.queue| ==> t.queue[i] == s.queue[i]
    ensures forall i :: 0 <= i < |s.queue| && t.queue[i].sequence == t.KeySequence(t.queue[i].key) ==>
      t.queue[i].key != op.key && s.queue[i].sequence == s.KeySequence(s.queue[i].key)
  {
    EnqueueKeepsPending(s, t, op);
    assert t.queue[|s.queue|] == op;
    forall i | 0 <= i < |s.queue|
      ensures t.queue[i] == s.queue[i] && s.queue[i].sequence < op.sequence
      ensures t.queue[i].sequence <= t.KeySequence(t.queue[i].key) && t.LatestPending(t.queue[i].key)
    {
      assert s.queue[i].sequence <= s.KeySequence(s.queue[i].key) <= s.mutations;
    }
  }

  lemma EnqueueKeepsReaders(s: State, t: State, op: Operation)
    requires ReadersFenced(s) && Enqueues(s, t, op)
    ensures ReadersFenced(t)
  {
  }

  /** A call touches only its own key, and shows its own effect at once. */
  lemma EnqueueKeepsShown(s: State, t: State, op: Operation)
    requires QueueOrdered(s) && PhaseFits(s) && LatestShown(s) && SettledKeysAgree(s) && Enqueues(s, t, op)
    requires forall k :: k != op.key ==>
      Lookup(t.records, k) == Lookup(s.records, k)
      && Lookup(t.uncommitted, k) == Lookup(s.uncommitted, k)
      && Lookup(t.pendingDeletes, k) == Lookup(s.pendingDeletes, k)
    requires Shown(t, op)
    requires t.committed == s.committed
    requires s.queue != [] && s.queue[0].Delete? ==>
      && (Owns(t, s.queue[0]) ==> Owns(s, s.queue[0]))
      && Lookup(t.snapshots, s.queue[0].snapshot) == Lookup(s.snapshots, s.queue[0].snapshot)
      && (Owns(t, s.queue[0]) ==> Lookup(t.records, s.queue[0].key) == Lookup(s.records, s.queue[0].key))
    ensures PhaseFits(t) && LatestShown(t) && SettledKeysAgree(t)
  {
    EnqueueKeepsOrder(s, t, op);
    forall i | 0 <= i < |t.queue| && t.queue[i].sequence == t.KeySequence(t.queue[i].key)
      ensures Shown(t, t.queue[i])
    {
      if i < |s.queue| {
        var k := t.queue[i].key;
        assert Shown(s, s.queue[i]) && k != op.key;
        assert Lookup(t.records, k) == Lookup(s.records, k);
        assert Lookup(t.uncommitted, k) == Lookup(s.uncommitted, k);
        assert Lookup(t.pendingDeletes, k) == Lookup(s.pendingDeletes, k);
      }
    }
    forall k | k !in t.disturbed && k !in t.uncommitted && !t.LatestPending(k)
      ensures t.Agrees(k)
    {
      assert Lookup(t.uncommitted, k) == Lookup(s.uncommitted, k);
      assert s.Agrees(k);
    }
  }

  lemma SetItemKeeps(s: State, k: Key, v: Value)
    requires MirrorInv(s)
    ensures MirrorInv(NextSetItem(s, k, v))
  {
    var t := NextSetItem(s, k, v);
    var op := Put(k, s.mutations + 1, v);
    EnqueueKeepsOrder(s, t, op);
    EnqueueKeepsReaders(s, t, op);
    EnqueueKeepsShown(s, t, op);
  }

  lemma RemoveItemKeeps(s: State, k: Key)
    requires MirrorInv(s)
    requires s.queue != [] && s.queue[0].Delete? ==>
      && (Owns(NextRemoveItem(s, k), s.queue[0]) ==> Owns(s, s.queue[0]))
      && Lookup(NextRemoveItem(s, k).snapshots, s.queue[0].snapshot) == Lookup(s.snapshots, s.queue[0].snapshot)
    ensures MirrorInv(NextRemoveItem(s, k))
  {
    var t := NextRemoveItem(s, k);
    var op := t.queue[|s.queue|];
    EnqueueKeepsOrder(s, t, op);
    EnqueueKeepsReaders(s, t, op);
    EnqueueKeepsShown(s, t, op);
  }

  lemma CompareKeeps(s: State, k: Key, c: Comparison)
    requires MirrorInv(s)
    ensures MirrorInv(NextCompare(s, k, c))
  {
    var t := NextCompare(s, k, c);
    var op := Conditional(k, s.mutations + 1, c);
    EnqueueKeepsOrder(s, t, op);
    EnqueueKeepsReaders(s, t, op);
  }

  // ----- steps that leave the queue alone -----

  ghost predicate SameQueue(s: State, t: State) {
    t.queue == s.queue && t.keySequences == s.keySequences && t.mutations == s.mutations && t.finished == s.finished
  }

  lemma SameQueueKeepsOrder(s: State, t: State)
    requires QueueOrdered(s) && SameQueue(s, t)
    ensures QueueOrdered(t)
    ensures forall k :: t.LatestPending(k) <==> s.LatestPending(k)
  {
  }

  /** The transaction and read-back steps change neither the mirror nor its tokens. */
  lemma SameMirrorKeeps(s: State, t: State)
    requires DraftsVisible(s) && FallbacksKept(s) && RemovalsOwn(s) && LatestShown(s)
    requires t.queue == s.queue && t.keySequences == s.keySequences
    requires t.records == s.records && t.uncommitted == s.uncommitted && t.committed == s.committed
    requires t.pendingDeletes == s.pendingDeletes && t.snapshots == s.snapshots
    ensures DraftsVisible(t) && FallbacksKept(t) && RemovalsOwn(t) && LatestShown(t)
  {
  }

  /** A key whose durable value changes must be marked stale for every loaded reader, or be past its fence. */
  lemma StoreChangeKeepsReaders(s: State, t: State, changed: set<Key>)
    requires ReadersFenced(s) && SameQueue(s, t)
    requires forall k :: k !in changed ==> Lookup(t.durable, k) == Lookup(s.durable, k)
    requires |t.readers| == |s.readers| && forall i :: 0 <= i < |s.readers| ==>
      && s.readers[i].stale <= t.readers[i].stale && t.readers[i] == s.readers[i].(stale := t.readers[i].stale)
      && (s.readers[i].loaded.Some? ==>
            forall k :: k in changed ==> k in t.readers[i].stale || s.readers[i].fence < s.KeySequence(k))
    ensures ReadersFenced(t)
  {
  }

  lemma CommitKeeps(s: State, matched: bool)
    requires MirrorInv(s) && s.queue != [] && s.phase.Waiting?
    ensures MirrorInv(NextCommit(s, matched))
  {
    var t := NextCommit(s, matched);
    SameQueueKeepsOrder(s, t);
    SameMirrorKeeps(s, t);
    assert s.LatestPending(s.queue[0].key);
    assert SettledKeysAgree(t);
  }

  /** A step that only moves the phase keeps what it says fits the phase. */
  lemma PhaseStepKeeps(s: State, t: State)
    requires MirrorInv(s) && PhaseFits(t)
    requires t == s.(phase := t.phase, disturbed := t.disturbed, unsure := t.unsure) && s.disturbed <= t.disturbed
    ensures MirrorInv(t)
  {
    SameQueueKeepsOrder(s, t);
    SameMirrorKeeps(s, t);
    StoreChangeKeepsReaders(s, t, {});
  }

  lemma AbortKeeps(s: State)
    requires MirrorInv(s) && Enabled(s, Abort)
    ensures MirrorInv(NextAbort(s))
  {
    PhaseStepKeeps(s, NextAbort(s));
  }

  lemma LoadBackKeeps(s: State, e: Event)
    requires MirrorInv(s) && Enabled(s, e) && (e.LoadBack? || e.LoadBackFails?)
    ensures MirrorInv(Next(s, e))
  {
    PhaseStepKeeps(s, Next(s, e));
  }

  lemma PeerChangeKeepsReaders(s: State, durable: map<Key, Value>, changed: set<Key>)
    requires ReadersFenced(s) && forall k :: k !in changed ==> Lookup(durable, k) == Lookup(s.durable, k)
    ensures ReadersFenced(NextPeerChange(s, durable, changed))
  {
    StoreChangeKeepsReaders(s, NextPeerChange(s, durable, changed), changed);
  }

  lemma PeerChangeKeepsPhase(s: State, durable: map<Key, Value>, changed: set<Key>)
    requires PhaseFits(s) && forall k :: k !in changed ==> Lookup(durable, k) == Lookup(s.durable, k)
    ensures PhaseFits(NextPeerChange(s, durable, changed))
  {
    assert s.queue != [] ==> s.IsQueued(s.queue[0].key);
  }

  lemma PeerChangeKeeps(s: State, durable: map<Key, Value>, changed: set<Key>)
    requires MirrorInv(s) && forall k :: k !in changed ==> Lookup(durable, k) == Lookup(s.durable, k)
    ensures MirrorInv(NextPeerChange(s, durable, changed))
  {
    var t := NextPeerChange(s, durable, changed);
    SameQueueKeepsOrder(s, t);
    SameMirrorKeeps(s, t);
    PeerChangeKeepsReaders(s, durable, changed);
    PeerChangeKeepsPhase(s, durable, changed);
    forall k | k !in t.disturbed && k !in t.uncommitted && !t.LatestPending(k) ensures t.Agrees(k) {
      assert s.Agrees(k);
    }
  }

  lemma PeerStepKeeps(s: State, e: Event)
    requires MirrorInv(s) && Enabled(s, e) && PeerEvent(e)
    ensures MirrorInv(Next(s, e))
  {
    match e
    case PeerCommits(k, stored) => PeerChangeKeeps(s, Assign(s.durable, k, stored), {k});
    case PeerClears => PeerChangeKeeps(s, map[], s.durable.Keys);
  }

  // ----- continuations -----

  /** What every continuation that finishes the head does to the queue. */
  ghost predicate Pops(s: State, t: State) {
    && s.queue != []
    && t.queue == s.queue[1..] && t.keySequences == s.keySequences && t.mutations == s.mutations
    && t.readers == s.readers && t.finished == s.finished + 1
    && t.durable == s.durable && t.phase == Waiting
    && t.disturbed == (if Repairs(s) then s.disturbed - {s.queue[0].key} else s.disturbed)
    && t.unsure == (if HeadIsNewest(s) then s.unsure - {s.queue[0].key} else s.unsure)
  }

  lemma PopKeepsOrder(s: State, t: State)
    requires QueueOrdered(s) && Pops(s, t)
    ensures QueueOrdered(t)
    ensures forall i :: 0 <= i < |t.queue| ==> t.queue[i] == s.queue[i + 1]
    ensures forall k :: t.LatestPending(k) <==>
      s.LatestPending(k) && !(k == s.queue[0].key && HeadIsNewest(s))
    ensures HeadIsNewest(s) ==> forall i :: 0 <= i < |t.queue| ==> t.queue[i].key != s.queue[0].key
  {
  }

  lemma PopKeepsReaders(s: State, t: State)
    requires ReadersFenced(s) && Pops(s, t)
    ensures ReadersFenced(t)
  {
  }

  /**
   The head's continuation touches only its own key. It may change what the
   key shows only where no newer put or removal of that key is queued.
   */
  lemma PopKeepsShown(s: State, t: State)
    requires QueueOrdered(s) && LatestShown(s) && Pops(s, t)
    requires var k := s.queue[0].key;
      && (forall other :: other != k ==>
            Lookup(t.records, other) == Lookup(s.records, other)
            && Lookup(t.uncommitted, other) == Lookup(s.uncommitted, other)
            && Lookup(t.pendingDeletes, other) == Lookup(s.pendingDeletes, other))
    requires forall i :: 1 <= i < |s.queue| && s.queue[i].key == s.queue[0].key && Shown(s, s.queue[i]) ==>
      Shown(t, s.queue[i])
    ensures LatestShown(t)
  {
    var k := s.queue[0].key;
    assert forall other :: t.KeySequence(other) == s.KeySequence(other);
    forall i | 0 <= i < |t.queue| && t.queue[i].sequence == t.KeySequence(t.queue[i].key)
      ensures Shown(t, t.queue[i])
    {
      var op := s.queue[i + 1];
      assert t.queue[i] == op;
      assert Shown(s, op);
      if op.key != k {
        assert Lookup(t.records, op.key) == Lookup(s.records, op.key);
        assert Lookup(t.uncommitted, op.key) == Lookup(s.uncommitted, op.key);
        assert Lookup(t.pendingDeletes, op.key) == Lookup(s.pendingDeletes, op.key);
      }
    }
  }

  /** If the head was its key's newest mutation, its key must now agree or be a draft. */
  lemma PopKeepsAgreement(s: State, t: State)
    requires QueueOrdered(s) && SettledKeysAgree(s) && Pops(s, t)
    requires var k := s.queue[0].key;
      forall other :: other != k ==>
        Lookup(t.records, other) == Lookup(s.records, other)
        && Lookup(t.uncommitted, other) == Lookup(s.uncommitted, other)
    requires HeadIsNewest(s) && s.queue[0].key !in t.disturbed && s.queue[0].key !in t.uncommitted ==>
      t.Agrees(s.queue[0].key)
    ensures SettledKeysAgree(t)
  {
  }

  lemma PutCommittedKeeps(s: State)
    requires MirrorInv(s) && s.queue != [] && s.phase.Committed? && s.queue[0].Put?
    ensures MirrorInv(NextCommitted(s))
  {
    var t := NextCommitted(s);
    PopKeepsOrder(s, t);
    PopKeepsReaders(s, t);
    PopKeepsShown(s, t);
    PopKeepsAgreement(s, t);
  }

  lemma DeleteCommittedKeeps(s: State)
    requires MirrorInv(s) && s.queue != [] && s.phase.Committed? && s.queue[0].Delete?
    ensures MirrorInv(NextCommitted(s))
  {
    var t := NextCommitted(s);
    PopKeepsOrder(s, t);
    PopKeepsReaders(s, t);
    PopKeepsShown(s, t);
    PopKeepsAgreement(s, t);
  }

  lemma ConditionalCommittedKeeps(s: State)
    requires MirrorInv(s) && s.queue != [] && s.phase.Committed? && s.queue[0].Conditional?
    ensures MirrorInv(NextCommitted(s))
  {
    var t := NextCommitted(s);
    PopKeepsOrder(s, t);
    PopKeepsReaders(s, t);
    PopKeepsShown(s, t);
    PopKeepsAgreement(s, t);
  }

  /** A removal that still owns its key has no newer put or removal of it queued behind. */
  lemma OwnerHidesNothing(s: State, i: nat)
    requires QueueOrdered(s) && 1 <= i < |s.queue|
    requires s.queue[0].Delete? && Owns(s, s.queue[0]) && s.queue[i].key == s.queue[0].key
    requires RemovalsOwn(s) && Shown(s, s.queue[i])
    ensures s.queue[i].Conditional?
  {
  }

  lemma FailureReported(s: State)
    requires MirrorInv(s) && s.queue != [] && !s.phase.Committed?
    requires s.queue[0].Delete? ==> !Owns(s, s.queue[0])
    requires s.phase.ReadBack? || s.phase.ReadBackFailed? ==> s.queue[0].Delete?
    requires AbortFits(s, s.queue[0])
    ensures MirrorInv(Popped(s, true))
  {
    var t := Popped(s, true);
    PopKeepsOrder(s, t);
    PopKeepsReaders(s, t);
    PopKeepsShown(s, t);
    PopKeepsAgreement(s, t);
  }

  lemma DraftRestored(s: State)
    requires MirrorInv(s) && s.queue != [] && s.phase.Aborted?
    requires s.queue[0].Delete? && Owns(s, s.queue[0]) && FallbackDraft(s, s.queue[0]).Some?
    ensures MirrorInv(NextAborted(s))
  {
    var t := NextAborted(s);
    var op := s.queue[0];
    PopKeepsOrder(s, t);
    PopKeepsReaders(s, t);
    forall i | 1 <= i < |s.queue| && s.queue[i].key == op.key && Shown(s, s.queue[i])
      ensures Shown(t, s.queue[i])
    {
      OwnerHidesNothing(s, i);
    }
    PopKeepsShown(s, t);
    PopKeepsAgreement(s, t);
    assert FallbackKept(s.snapshots[op.snapshot], s.committed);
  }

  lemma AbortedKeeps(s: State)
    requires MirrorInv(s) && s.queue != [] && s.phase.Aborted?
    ensures MirrorInv(NextAborted(s))
  {
    var t := NextAborted(s);
    var op := s.queue[0];
    if !op.Delete? || !Owns(s, op) {
      FailureReported(s);
    } else if FallbackDraft(s, op).Some? {
      DraftRestored(s);
    } else {
      SameQueueKeepsOrder(s, t);
      SameMirrorKeeps(s, t);
      StoreChangeKeepsReaders(s, t, {});
    }
  }

  lemma ReadBackKeeps(s: State)
    requires MirrorInv(s) && s.queue != [] && s.queue[0].Delete? && (s.phase.ReadBack? || s.phase.ReadBackFailed?)
    ensures MirrorInv(NextReadBack(s))
  {
    var t := NextReadBack(s);
    var op := s.queue[0];
    if !Owns(s, op) {
      FailureReported(s);
    } else {
      PopKeepsOrder(s, t);
      PopKeepsReaders(s, t);
      forall i | 1 <= i < |s.queue| && s.queue[i].key == op.key && Shown(s, s.queue[i])
        ensures Shown(t, s.queue[i])
      {
        OwnerHidesNothing(s, i);
      }
      PopKeepsShown(s, t);
      PopKeepsAgreement(s, t);
    }
  }

  // ----- refreshes and notifications keep the invariant -----

  /** A key a loaded reader still covers has nothing queued, and the reader saw its durable value. */
  lemma CoveredKeysAreIdle(s: State, r: Reader, k: Key)
    requires QueueOrdered(s) && ReaderFits(s, r) && r.loaded.Some? && Covers(s, r, k)
    ensures !s.LatestPending(k)
    ensures forall i :: 0 <= i < |s.queue| ==> s.queue[i].key != k
    ensures k !in r.stale ==> Lookup(r.loaded.value, k) == Lookup(s.durable, k)
  {
  }

  lemma MergedLookup(s: State, r: Reader, k: Key)
    requires r.loaded.Some?
    ensures Lookup(Merged(s, r), k) ==
      if Covers(s, r, k) then Lookup(r.loaded.value, k) else Lookup(s.records, k)
  {
  }

  lemma ApplyKeepsShown(s: State, i: nat)
    requires QueueOrdered(s) && ReadersFenced(s) && DraftsVisible(s) && LatestShown(s)
    requires i < |s.readers| && s.readers[i].loaded.Some?
    ensures DraftsVisible(NextApply(s, i)) && LatestShown(NextApply(s, i))
  {
  }

  lemma ApplyKeepsAgreement(s: State, i: nat)
    requires QueueOrdered(s) && ReadersFenced(s) && SettledKeysAgree(s)
    requires i < |s.readers| && s.readers[i].loaded.Some?
    ensures SettledKeysAgree(NextApply(s, i))
  {
    var t := NextApply(s, i);
    var r := s.readers[i];
    assert ReaderFits(s, r);
    SameQueueKeepsOrder(s, t);
    forall k | k !in t.disturbed && k !in t.uncommitted && !t.LatestPending(k)
      ensures t.Agrees(k)
    {
      MergedLookup(s, r, k);
      if Covers(s, r, k) { CoveredKeysAreIdle(s, r, k); assert k !in Outrun(s, r); } else { assert s.Agrees(k); }
    }
  }

  predicate ReaderEvent(e: Event) {
    e.StartRefresh? || e.Notified? || e.NotifiedOfClear? || e.Load? || e.LoadFails? || e.RefreshTurns?
  }

  predicate FlushEvent(e: Event) {
    e.BeginFlush? || e.FlushTurns?
  }

  predicate PeerEvent(e: Event) {
    e.PeerCommits? || e.PeerClears?
  }

  /** A reader fits whatever the list of readers is. */
  lemma ReadersAmong(s: State, t: State)
    requires ReadersFenced(s) && SameQueue(s, t) && t.durable == s.durable
    requires forall j :: 0 <= j < |t.readers| ==> t.readers[j] in s.readers || ReaderFits(s, t.readers[j])
    ensures ReadersFenced(t)
  {
    forall j | 0 <= j < |t.readers| ensures ReaderFits(t, t.readers[j]) {
      assert ReaderFits(s, t.readers[j]);
    }
  }

  lemma ReaderStartsFit(s: State, e: Event)
    requires QueueOrdered(s) && (e.StartRefresh? || e.Notified? || e.NotifiedOfClear?)
    ensures var readers := Next(s, e).readers;
      && |readers| == |s.readers| + 1 && ReaderFits(s, readers[|s.readers|])
      && forall j :: 0 <= j < |s.readers| ==> readers[j] == s.readers[j]
  {
  }

  lemma LoadKeepsReaders(s: State, i: nat)
    requires ReadersFenced(s) && Enabled(s, Load(i))
    ensures ReadersFenced(Next(s, Load(i)))
  {
    OneReaderChanges(s, Next(s, Load(i)), i);
  }

  lemma ApplyKeepsReaders(s: State, i: nat)
    requires ReadersFenced(s) && i < |s.readers| && s.readers[i].loaded.Some?
    ensures ReadersFenced(NextApply(s, i))
  {
    OneReaderChanges(s, NextApply(s, i), i);
  }

  lemma RefreshTurnKeepsReaders(s: State, i: nat)
    requires ReadersFenced(s) && i < |s.readers|
    ensures ReadersFenced(NextRefreshTurn(s, i))
  {
    OneReaderChanges(s, NextRefreshTurn(s, i), i);
  }

  lemma ReaderStepKeepsReaders(s: State, e: Event)
    requires QueueOrdered(s) && ReadersFenced(s) && Enabled(s, e) && ReaderEvent(e)
    ensures ReadersFenced(Next(s, e))
  {
    if e.Load? {
      LoadKeepsReaders(s, e.index);
    } else if e.LoadFails? {
      OneReaderChanges(s, Next(s, e), e.index);
    } else if e.RefreshTurns? {
      RefreshTurnKeepsReaders(s, e.index);
    } else {
      ReaderStartsFit(s, e);
      ReadersAmong(s, Next(s, e));
    }
  }

  /** One reader goes, or moves on without keeping what it had read unless that is the store as it is. */
  lemma OneReaderChanges(s: State, t: State, i: nat)
    requires ReadersFenced(s) && SameQueue(s, t) && t.durable == s.durable && i < |s.readers|
    requires
      || t.readers == Without(s.readers, i)
      || (&& |t.readers| == |s.readers| && t.readers == s.readers[i := t.readers[i]]
          && t.readers[i] == s.readers[i].(awaited := t.readers[i].awaited, loaded := t.readers[i].loaded,
                                          stale := t.readers[i].stale, applied := t.readers[i].applied)
          && ((t.readers[i].loaded == s.readers[i].loaded && t.readers[i].stale == s.readers[i].stale)
              || t.readers[i].loaded.None?
              || (t.readers[i].loaded == Some(s.durable) && s.readers[i].barrier <= s.finished)))
    ensures ReadersFenced(t)
  {
    assert ReaderFits(s, s.readers[i]);
    ReadersAmong(s, t);
  }

  /** Readers, notifications and flushes are all that differs. */
  ghost predicate SameButReaders(s: State, t: State) {
    t == s.(readers := t.readers, notifications := t.notifications, refreshFailed := t.refreshFailed,
            flushes := t.flushes, observed := t.observed)
  }

  lemma OnlyReadersChange(s: State, t: State)
    requires MirrorInv(s) && ReadersFenced(t) && SameButReaders(s, t)
    ensures MirrorInv(t)
  {
    SameQueueKeepsOrder(s, t);
    SameMirrorKeeps(s, t);
  }

  lemma ReaderStepChangesReaders(s: State, e: Event)
    requires Enabled(s, e) && (ReaderEvent(e) || FlushEvent(e))
    ensures SameButReaders(s, Next(s, e)) && (FlushEvent(e) ==> Next(s, e).readers == s.readers)
  {
  }

  lemma ReaderStepKeeps(s: State, e: Event)
    requires MirrorInv(s) && Enabled(s, e) && ReaderEvent(e)
    ensures MirrorInv(Next(s, e))
  {
    ReaderStepKeepsReaders(s, e);
    ReaderStepChangesReaders(s, e);
    OnlyReadersChange(s, Next(s, e));
  }

  lemma FlushStepKeeps(s: State, e: Event)
    requires MirrorInv(s) && Enabled(s, e) && FlushEvent(e)
    ensures MirrorInv(Next(s, e))
  {
    var t := Next(s, e);
    ReaderStepChangesReaders(s, e);
    ReadersAmong(s, t);
    OnlyReadersChange(s, t);
  }

  lemma ApplyKeeps(s: State, i: nat)
    requires MirrorInv(s) && i < |s.readers| && s.readers[i].loaded.Some?
    ensures MirrorInv(NextApply(s, i))
  {
    SameQueueKeepsOrder(s, NextApply(s, i));
    ApplyKeepsReaders(s, i);
    ApplyKeepsShown(s, i);
    ApplyKeepsAgreement(s, i);
  }
}

/**
 How a page avoids the failures of aborted comparisons: it never calls a mutation of a key while a comparison of that key is
 queued. Then no abort leaves the mirror behind.
 */
module RecoverySerial {
  import opened Options
  import opened RecoveryMirror
  import opened RecoveryInvariants
  import opened RecoveryMirrorProofs
  import opened RecoveryReceiptProofs
  import opened RecoveryConvergence
  import opened RecoveryPeers

  predicate IsCall(e: Event) {
    e.SetItem? || e.RemoveItem? || e.Compare?
  }

  predicate Compares(s: State, k: Key) {
    exists i :: 0 <= i < |s.queue| && s.queue[i].Conditional? && s.queue[i].key == k
  }

  /** No peer changes the store, no failed removal fails to read the store back, and calls wait for comparisons. */
  predicate Serial(s: State, e: Event) {
    !PeerEvent(e) && !e.LoadBackFails? && (IsCall(e) ==> !Compares(s, e.key))
  }

  ghost predicate SerialRun(s: State, run: seq<Event>)
    requires Possible(s, run)
    decreases |run|
  {
    run != [] ==> Serial(s, run[0]) && SerialRun(Next(s, run[0]), run[1..])
  }

  // ----- the invariant -----

  /** A queued comparison is its key's newest mutation. */
  ghost predicate ComparisonsNewest(s: State) {
    forall i :: 0 <= i < |s.queue| && s.queue[i].Conditional? ==> s.queue[i].sequence == s.KeySequence(s.queue[i].key)
  }

  /** Only comparisons of its key are queued behind this write or removal. */
  ghost predicate VisibleLast(s: State, j: nat) {
    && j < |s.queue| && !s.queue[j].Conditional?
    && forall m :: j < m < |s.queue| && s.queue[m].key == s.queue[j].key ==> s.queue[m].Conditional?
  }

  ghost predicate LastShown(s: State) {
    forall j: nat :: VisibleLast(s, j) ==> Shown(s, s.queue[j])
  }

  /** Unless something else of its key is still ahead, a comparison finds the mirror right, or a draft. */
  ghost predicate ComparisonFits(s: State, i: nat)
    requires i < |s.queue|
  {
    || s.queue[i].key in s.uncommitted
    || s.Agrees(s.queue[i].key)
    || exists j :: 0 <= j < i && s.queue[j].key == s.queue[i].key
  }

  ghost predicate ComparisonsFit(s: State) {
    forall i :: 0 <= i < |s.queue| && s.queue[i].Conditional? && !(i == 0 && s.phase.Committed?) ==> ComparisonFits(s, i)
  }

  ghost predicate NothingStale(s: State) {
    forall j :: 0 <= j < |s.readers| ==> s.readers[j].stale == {}
  }

  ghost predicate SerialInv(s: State) {
    && s.disturbed == {} && NothingStale(s) && !s.phase.ReadBackFailed?
    && ComparisonsNewest(s) && LastShown(s) && ComparisonsFit(s)
  }

  // ----- calls -----

  /** A call adds its operation and leaves every other key alone. */
  ghost predicate Adds(s: State, t: State, op: Operation) {
    && Enqueues(s, t, op) && t.disturbed == s.disturbed
    && forall k :: k != op.key || op.Conditional? ==>
         Lookup(t.records, k) == Lookup(s.records, k) && Lookup(t.uncommitted, k) == Lookup(s.uncommitted, k)
         && Lookup(t.pendingDeletes, k) == Lookup(s.pendingDeletes, k)
  }

  lemma CallKeepsNewest(s: State, t: State, op: Operation)
    requires QueueOrdered(s) && ComparisonsNewest(s) && Adds(s, t, op) && !Compares(s, op.key)
    ensures ComparisonsNewest(t)
  {
  }

  lemma CallKeepsLastShown(s: State, t: State, op: Operation)
    requires LastShown(s) && Adds(s, t, op) && (!op.Conditional? ==> Shown(t, op))
    ensures LastShown(t)
  {
    forall j: nat | VisibleLast(t, j) ensures Shown(t, t.queue[j]) {
      if j < |s.queue| {
        assert t.queue[|s.queue|] == op && t.queue[j] == s.queue[j];
        assert VisibleLast(s, j) by {
          forall m | j < m < |s.queue| && s.queue[m].key == s.queue[j].key ensures s.queue[m].Conditional? {
            assert t.queue[m] == s.queue[m];
          }
        }
        var k := s.queue[j].key;
        assert Lookup(t.records, k) == Lookup(s.records, k) && Lookup(t.uncommitted, k) == Lookup(s.uncommitted, k)
               && Lookup(t.pendingDeletes, k) == Lookup(s.pendingDeletes, k);
      }
    }
  }

  lemma CallKeepsFit(s: State, t: State, op: Operation)
    requires Inv(s) && s.disturbed == {} && ComparisonsFit(s) && Adds(s, t, op) && !Compares(s, op.key)
    ensures ComparisonsFit(t)
  {
    var n := |s.queue|;
    forall i | 0 <= i < |t.queue| && t.queue[i].Conditional? && !(i == 0 && t.phase.Committed?)
      ensures ComparisonFits(t, i)
    {
      if i < n {
        assert t.queue[i] == s.queue[i] && s.queue[i].key != op.key;
        assert ComparisonFits(s, i);
        if j :| 0 <= j < i && s.queue[j].key == s.queue[i].key { assert t.queue[j] == s.queue[j]; }
      } else {
        assert t.queue[n] == op;
        if s.LatestPending(op.key) {
          var j :| 0 <= j < n && s.queue[j].key == op.key && s.queue[j].sequence == s.KeySequence(op.key);
          assert t.queue[j] == s.queue[j];
        } else {
          assert op.key in s.uncommitted || s.Agrees(op.key);
        }
      }
    }
  }

  lemma CallKeepsSerial(s: State, t: State, op: Operation)
    requires Inv(s) && SerialInv(s) && Adds(s, t, op) && !Compares(s, op.key) && (!op.Conditional? ==> Shown(t, op))
    ensures SerialInv(t)
  {
    CallKeepsNewest(s, t, op);
    CallKeepsLastShown(s, t, op);
    CallKeepsFit(s, t, op);
  }

  lemma CallAdds(s: State, e: Event)
    requires Inv(s) && IsCall(e)
    ensures var op := Next(s, e).queue[|s.queue|];
      Adds(s, Next(s, e), op) && op.key == e.key && (!op.Conditional? ==> Shown(Next(s, e), op))
  {
    CallIsCall(s, e);
    if e.RemoveItem? {
      RemovalAdds(s.(snapshots := CapturedSnapshots(s, e.key)), e.key, RemovalSnapshot(s, e.key));
    }
  }

  lemma RemovalAdds(s: State, k: Key, id: nat)
    ensures Adds(s, Hidden(s, k, id), Delete(k, s.mutations + 1, id))
    ensures Shown(Hidden(s, k, id), Delete(k, s.mutations + 1, id))
  {
  }

  // ----- transactions -----

  /** A transaction changes the store under the head's key alone, and its phase. */
  lemma MoveKeepsSerial(s: State, t: State)
    requires Inv(s) && SerialInv(s) && Moves(s, t) && t.disturbed == {} && !t.phase.ReadBackFailed?
    requires s.queue[0].Conditional? ==> t.phase.Committed? || t.durable == s.durable
    requires s.phase.Committed? ==> t.phase.Committed?
    ensures SerialInv(t)
  {
    forall j: nat | VisibleLast(t, j) ensures Shown(t, t.queue[j]) { assert VisibleLast(s, j); }
    MoveKeepsFit(s, t);
  }

  lemma MoveKeepsFit(s: State, t: State)
    requires ComparisonsFit(s) && Moves(s, t) && (s.phase.Committed? ==> t.phase.Committed?)
    requires s.queue[0].Conditional? ==> t.phase.Committed? || t.durable == s.durable
    ensures ComparisonsFit(t)
  {
    forall i | 0 <= i < |t.queue| && t.queue[i].Conditional? && !(i == 0 && t.phase.Committed?)
      ensures ComparisonFits(t, i)
    {
      assert ComparisonFits(s, i);
      if i > 0 && s.queue[i].key == s.queue[0].key { assert t.queue[0].key == t.queue[i].key; }
    }
  }

  lemma AbortDisturbsNothing(s: State)
    requires SerialInv(s) && Enabled(s, Abort)
    ensures NextAbort(s).disturbed == {}
  {
    if s.queue[0].Conditional? { assert ComparisonFits(s, 0); }
  }

  lemma PhaseStepKeepsSerial(s: State, e: Event)
    requires Inv(s) && SerialInv(s) && Enabled(s, e) && (e.Commit? || e.Abort? || e.LoadBack?)
    ensures SerialInv(Next(s, e))
  {
    PhaseStepMoves(s, e);
    if e.Abort? { AbortDisturbsNothing(s); }
    MoveKeepsSerial(s, Next(s, e));
  }

  // ----- continuations -----

  /** The end of a write or removal that is shown leaves its key right, or a draft. */
  lemma ShownContinues(s: State)
    requires Inv(s) && CanContinue(s) && !StartsReadBack(s) && s.disturbed == {} && !s.phase.ReadBackFailed?
    requires !s.queue[0].Conditional? && Shown(s, s.queue[0])
    ensures s.queue[0].key in NextContinue(s).uncommitted || NextContinue(s).Agrees(s.queue[0].key)
  {
    EndShows(s);
    ContinuePops(s);
    assert PhaseFits(s);
  }

  lemma CommittedKeepsLaterShown(s: State, i: nat)
    requires QueueOrdered(s) && s.queue != [] && s.phase.Committed? && !s.queue[0].Conditional?
    requires 1 <= i < |s.queue| && !s.queue[i].Conditional? && Shown(s, s.queue[i])
    ensures Shown(NextCommitted(s), s.queue[i])
  {
  }

  lemma RevealKeepsLaterShown(s: State, i: nat, visible: Option<Value>, draft: Option<WriteToken>)
    requires 1 <= i < |s.queue| && s.queue[i].key != s.queue[0].key && Shown(s, s.queue[i])
    ensures Shown(Revealed(s, visible, draft), s.queue[i])
  {
  }

  lemma OwnerRevealKeepsLaterShown(s: State, i: nat)
    requires Inv(s) && CanContinue(s) && !StartsReadBack(s) && !s.phase.Committed?
    requires s.queue[0].Delete? && Owns(s, s.queue[0])
    requires 1 <= i < |s.queue| && !s.queue[i].Conditional? && Shown(s, s.queue[i])
    ensures Shown(NextContinue(s), s.queue[i])
  {
    var op := s.queue[0];
    if s.queue[i].key == op.key { OwnerHidesNothing(s, i); }
    if s.phase.Aborted? {
      RevealKeepsLaterShown(s, i, Fallback(s, op), FallbackDraft(s, op));
    } else {
      RevealKeepsLaterShown(s, i, if s.phase.ReadBack? then s.phase.found else LastKnown(s, op), None);
    }
  }

  lemma FailedKeepsLaterShown(s: State, i: nat)
    requires Inv(s) && CanContinue(s) && !StartsReadBack(s) && !s.phase.Committed?
    requires 1 <= i < |s.queue| && !s.queue[i].Conditional? && Shown(s, s.queue[i])
    ensures Shown(NextContinue(s), s.queue[i])
  {
    if s.queue[0].Delete? && Owns(s, s.queue[0]) {
      OwnerRevealKeepsLaterShown(s, i);
    } else {
      OtherFailurePops(s);
    }
  }

  lemma OtherFailurePops(s: State)
    requires CanContinue(s) && !s.phase.Committed? && !(s.queue[0].Delete? && Owns(s, s.queue[0]))
    ensures NextContinue(s) == Popped(s, true)
  {
  }

  lemma ContinueKeepsLaterShown(s: State, i: nat)
    requires Inv(s) && ComparisonsNewest(s) && CanContinue(s) && !StartsReadBack(s)
    requires 1 <= i < |s.queue| && !s.queue[i].Conditional? && Shown(s, s.queue[i])
    ensures Shown(NextContinue(s), s.queue[i])
  {
    if !s.phase.Committed? {
      FailedKeepsLaterShown(s, i);
    } else if !s.queue[0].Conditional? {
      CommittedKeepsLaterShown(s, i);
    } else {
      assert s.queue[i].key != s.queue[0].key;
      ComparisonKeepsLaterShown(s, i);
    }
  }

  lemma ComparisonKeepsLaterShown(s: State, i: nat)
    requires s.queue != [] && s.phase.Committed? && s.queue[0].Conditional?
    requires 1 <= i < |s.queue| && s.queue[i].key != s.queue[0].key && Shown(s, s.queue[i])
    ensures Shown(NextCommitted(s), s.queue[i])
  {
  }

  lemma PopKeepsLastShown(s: State, t: State)
    requires LastShown(s) && Pops(s, t)
    requires forall i :: 1 <= i < |s.queue| && !s.queue[i].Conditional? && Shown(s, s.queue[i]) ==> Shown(t, s.queue[i])
    ensures LastShown(t)
  {
    forall j: nat | VisibleLast(t, j) ensures Shown(t, t.queue[j]) {
      assert t.queue[j] == s.queue[j + 1];
      assert VisibleLast(s, j + 1) by {
        forall m | j + 1 < m < |s.queue| && s.queue[m].key == s.queue[j + 1].key ensures s.queue[m].Conditional? {
          assert t.queue[m - 1] == s.queue[m];
        }
      }
    }
  }

  lemma PopKeepsFit(s: State, t: State, i: nat)
    requires QueueOrdered(s) && ComparisonsNewest(s) && ComparisonsFit(s) && Pops(s, t) && ContinueFrame(s, t)
    requires VisibleLast(s, 0) ==> s.queue[0].key in t.uncommitted || t.Agrees(s.queue[0].key)
    requires 1 <= i < |s.queue| && s.queue[i].Conditional?
    ensures ComparisonFits(t, i - 1)
  {
    var k := s.queue[i].key;
    assert t.queue[i - 1] == s.queue[i];
    if j :| 1 <= j < i && s.queue[j].key == k {
      assert t.queue[j - 1] == s.queue[j];
    } else if s.queue[0].key == k {
      assert VisibleLast(s, 0) by { OnlyComparisonIsLast(s, i); }
    } else {
      assert ComparisonFits(s, i);
    }
  }

  /** With nothing of its key between the head and a comparison, only comparisons of the key follow the head. */
  lemma OnlyComparisonIsLast(s: State, i: nat)
    requires QueueOrdered(s) && ComparisonsNewest(s) && 1 <= i < |s.queue| && s.queue[i].Conditional?
    requires s.queue[0].key == s.queue[i].key && forall j :: 1 <= j < i ==> s.queue[j].key != s.queue[i].key
    ensures VisibleLast(s, 0)
  {
  }

  lemma ContinueKeepsSerial(s: State)
    requires Inv(s) && SerialInv(s) && CanContinue(s)
    ensures SerialInv(NextContinue(s))
  {
    var t := NextContinue(s);
    if StartsReadBack(s) {
      ReadingBackStarts(s);
      MoveKeepsSerial(s, t);
    } else {
      ContinuePops(s);
      forall i | 1 <= i < |s.queue| && !s.queue[i].Conditional? && Shown(s, s.queue[i]) ensures Shown(t, s.queue[i]) {
        ContinueKeepsLaterShown(s, i);
      }
      PopKeepsLastShown(s, t);
      if VisibleLast(s, 0) { ShownContinues(s); }
      PopKeepsSerial(s, t);
    }
  }

  lemma PopKeepsSerial(s: State, t: State)
    requires QueueOrdered(s) && SerialInv(s) && Pops(s, t) && ContinueFrame(s, t) && LastShown(t)
    requires VisibleLast(s, 0) ==> s.queue[0].key in t.uncommitted || t.Agrees(s.queue[0].key)
    ensures SerialInv(t)
  {
    PopKeepsOrder(s, t);
    forall i | 0 <= i < |t.queue| && t.queue[i].Conditional? ensures ComparisonFits(t, i) { PopKeepsFit(s, t, i + 1); }
  }

  // ----- readers -----

  lemma ReaderStepKeepsSerial(s: State, e: Event)
    requires SerialInv(s) && Enabled(s, e) && (ReaderEvent(e) || FlushEvent(e))
    ensures SerialInv(Next(s, e))
  {
    var t := Next(s, e);
    ReaderStepChangesReaders(s, e);
    SmoothReadersStay(s, e);
    SameQueueKeepsSerial(s, t);
  }

  /** A reading leaves the keys of queued operations alone. */
  lemma ApplySparesQueue(s: State, i: nat, m: nat)
    requires Inv(s) && Enabled(s, Apply(i)) && m < |s.queue|
    ensures Lookup(NextApply(s, i).records, s.queue[m].key) == Lookup(s.records, s.queue[m].key)
  {
    var r := s.readers[i];
    assert ReaderFits(s, r);
    MergedLookup(s, r, s.queue[m].key);
    if Covers(s, r, s.queue[m].key) { CoveredKeysAreIdle(s, r, s.queue[m].key); }
  }

  lemma ApplyKeepsSerial(s: State, i: nat)
    requires Inv(s) && SerialInv(s) && Enabled(s, Apply(i))
    ensures SerialInv(NextApply(s, i))
  {
    var t := NextApply(s, i);
    SmoothReadersStay(s, Apply(i));
    assert Outrun(s, s.readers[i]) == {};
    forall m | 0 <= m < |s.queue| ensures Lookup(t.records, s.queue[m].key) == Lookup(s.records, s.queue[m].key) {
      ApplySparesQueue(s, i, m);
    }
    SameQueueKeepsSerial(s, t);
  }

  lemma SameQueueKeepsSerial(s: State, t: State)
    requires SerialInv(s) && t.queue == s.queue && t.keySequences == s.keySequences && t.phase == s.phase
    requires t.uncommitted == s.uncommitted && t.pendingDeletes == s.pendingDeletes && t.durable == s.durable
    requires t.disturbed == {} && NothingStale(t)
    requires forall m :: 0 <= m < |s.queue| ==> Lookup(t.records, s.queue[m].key) == Lookup(s.records, s.queue[m].key)
    ensures SerialInv(t)
  {
    forall j: nat | VisibleLast(t, j) ensures Shown(t, t.queue[j]) { assert VisibleLast(s, j); }
    forall m | 0 <= m < |t.queue| && t.queue[m].Conditional? && !(m == 0 && t.phase.Committed?)
      ensures ComparisonFits(t, m)
    {
      assert ComparisonFits(s, m);
    }
  }

  // ----- whole runs -----

  lemma StepKeepsSerial(s: State, e: Event)
    requires Inv(s) && SerialInv(s) && Enabled(s, e) && Serial(s, e)
    ensures SerialInv(Next(s, e))
  {
    if IsCall(e) {
      CallAdds(s, e);
      CallKeepsSerial(s, Next(s, e), Next(s, e).queue[|s.queue|]);
    } else if e.Continue? {
      ContinueKeepsSerial(s);
    } else if e.Apply? {
      ApplyKeepsSerial(s, e.index);
    } else if ReaderEvent(e) || FlushEvent(e) {
      ReaderStepKeepsSerial(s, e);
    } else {
      PhaseStepKeepsSerial(s, e);
    }
  }

  lemma {:induction false} SerialRunKeeps(s: State, run: seq<Event>)
    requires Inv(s) && SerialInv(s) && Possible(s, run) && SerialRun(s, run)
    ensures Inv(After(s, run)) && SerialInv(After(s, run))
    decreases |run|
  {
    if run != [] {
      StepKeeps(s, run[0]);
      StepKeepsSerial(s, run[0]);
      SerialRunKeeps(Next(s, run[0]), run[1..]);
    }
  }

  /**
   Without peers and failed read-backs, and with no mutation of a key called while a comparison of it is queued, whatever
   else aborts, comparisons included: a drained queue leaves every key stored as shown, or an uncommitted draft.
   */
  lemma SerialRunConverges(durable: map<Key, Value>, run: seq<Event>, k: Key)
    requires Possible(Start(durable), run) && SerialRun(Start(durable), run)
    ensures var s := After(Start(durable), run);
      s.queue == [] ==> k in s.uncommitted || Lookup(s.records, k) == Lookup(s.durable, k)
  {
    SerialRunKeeps(Start(durable), run);
    Converges(durable, run, k);
  }
}

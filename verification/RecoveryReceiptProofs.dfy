/** Every step keeps the receipt half of the invariant. */
module RecoveryReceiptProofs {
  import opened Options
  import opened RecoveryMirror
  import opened RecoveryInvariants
  import opened RecoveryMirrorProofs

  // ----- tokens -----

  /** Removals and comparisons only mark or clear the tokens of snapshots. */
  lemma SnapshotUpdateKeepsTokens(s: State, t: State)
    requires QueueOrdered(s) && TokensNamed(s) && Pops(s, t)
    requires t.committed == s.committed && t.uncommitted == s.uncommitted && t.snapshots.Keys == s.snapshots.Keys
    requires forall id :: id in s.snapshots ==>
      t.snapshots[id].key == s.snapshots[id].key
      && (t.snapshots[id].writeToken == s.snapshots[id].writeToken || t.snapshots[id].writeToken.None?)
    ensures TokensNamed(t)
  {
  }

  lemma DraftRestoredKeepsTokens(s: State)
    requires QueueOrdered(s) && TokensNamed(s) && s.queue != [] && s.phase.Aborted? && s.queue[0].Delete?
    requires RemovalFits(s, s.queue[0])
    requires Owns(s, s.queue[0]) && FallbackDraft(s, s.queue[0]).Some?
    ensures TokensNamed(NextAborted(s))
  {
  }

  lemma CommittedKeepsTokens(s: State)
    requires QueueOrdered(s) && TokensNamed(s) && s.queue != [] && s.phase.Committed?
    requires s.queue[0].Delete? ==> RemovalFits(s, s.queue[0])
    ensures TokensNamed(NextCommitted(s))
  {
  }

  lemma ReadBackStartKeepsTokens(s: State)
    requires TokensNamed(s) && StartsReadBack(s)
    ensures TokensNamed(NextContinue(s))
  {
    assert forall token :: TokenNamed(s, token) ==> TokenNamed(NextContinue(s), token);
  }

  lemma FailedKeepsTokens(s: State)
    requires QueueOrdered(s) && TokensNamed(s) && CanContinue(s) && !s.phase.Committed?
    requires s.queue[0].Delete? ==> RemovalFits(s, s.queue[0])
    ensures TokensNamed(NextContinue(s))
  {
    var t := NextContinue(s);
    var op := s.queue[0];
    if s.phase.Aborted? && op.Delete? && Owns(s, op) {
      if FallbackDraft(s, op).Some? {
        DraftRestoredKeepsTokens(s);
      } else {
        ReadBackStartKeepsTokens(s);
      }
    } else {
      SnapshotUpdateKeepsTokens(s, t);
    }
  }

  predicate QueueEvent(e: Event) {
    e.SetItem? || e.RemoveItem? || e.Compare? || e.Continue?
  }

  /** What all other events leave alone. */
  ghost predicate SameTokens(s: State, t: State) {
    && t.queue == s.queue && t.mutations == s.mutations
    && t.uncommitted == s.uncommitted && t.committed == s.committed
    && t.pendingDeletes == s.pendingDeletes && t.snapshots == s.snapshots
  }

  predicate PhaseEvent(e: Event) {
    e.Commit? || e.Abort? || e.LoadBack? || e.LoadBackFails?
  }

  /** The steps of a transaction move the phase, and the store under it. */
  lemma PhaseStepKeepsAll(s: State, e: Event)
    requires Enabled(s, e) && PhaseEvent(e)
    ensures SameTokens(s, Next(s, e)) && s.unsure <= Next(s, e).unsure
  {
    var t := Next(s, e);
    assert t == s.(phase := t.phase, durable := t.durable, disturbed := t.disturbed, unsure := t.unsure);
  }

  lemma OtherStepsKeepAll(s: State, e: Event)
    requires Enabled(s, e) && !QueueEvent(e)
    ensures SameTokens(s, Next(s, e))
  {
    if ReaderEvent(e) || FlushEvent(e) {
      ReaderStepChangesReaders(s, e);
    } else if PhaseEvent(e) {
      PhaseStepKeepsAll(s, e);
    }
  }

  lemma SameTokensStayNamed(s: State, t: State)
    requires TokensNamed(s) && SameTokens(s, t)
    ensures TokensNamed(t)
  {
  }

  lemma StepKeepsTokens(s: State, e: Event)
    requires QueueOrdered(s) && TokensNamed(s) && RemovalsFit(s) && Enabled(s, e)
    ensures TokensNamed(Next(s, e))
  {
    if e.Continue? {
      assert s.queue[0].Delete? ==> RemovalFits(s, s.queue[0]);
      if s.phase.Committed? { CommittedKeepsTokens(s); } else { FailedKeepsTokens(s); }
    } else if QueueEvent(e) {
      CallKeepsTokens(s, e);
    } else {
      OtherStepsKeepAll(s, e);
      SameTokensStayNamed(s, Next(s, e));
    }
  }

  lemma CallKeepsTokens(s: State, e: Event)
    requires QueueOrdered(s) && TokensNamed(s) && (e.SetItem? || e.RemoveItem? || e.Compare?)
    ensures TokensNamed(Next(s, e))
  {
  }

  // ----- the order of removals -----

  lemma EnqueueKeepsFollowed(s: State, t: State, op: Operation)
    requires RemovalsFollowed(s) && Enqueues(s, t, op)
    requires forall k :: k != op.key ==> Lookup(t.pendingDeletes, k) == Lookup(s.pendingDeletes, k)
    requires op.key in s.pendingDeletes && !op.Put? ==>
      op.key in t.pendingDeletes && t.pendingDeletes[op.key].snapshot == s.pendingDeletes[op.key].snapshot
    requires op.Delete? ==> op.key in t.pendingDeletes && t.pendingDeletes[op.key].snapshot == op.snapshot
    ensures RemovalsFollowed(t)
  {
    assert t.queue[|s.queue|] == op;
    forall i | 0 <= i < |t.queue| && t.queue[i].Delete?
      ensures Followed(t, i)
    {
      if i < |s.queue| {
        assert t.queue[i] == s.queue[i];
        assert Followed(s, i);
        assert t.queue[i].key != op.key ==>
          Lookup(t.pendingDeletes, t.queue[i].key) == Lookup(s.pendingDeletes, t.queue[i].key);
        if Overwritten(s, i) {
          var j :| i < j < |s.queue| && s.queue[j].key == s.queue[i].key && s.queue[j].Put?;
          assert t.queue[j] == s.queue[j];
        }
      }
    }
  }

  /** How each call changes who owns a key. */
  ghost predicate Reowns(s: State, t: State, op: Operation) {
    t.pendingDeletes ==
      match op
      case Put(k, _, _) => s.pendingDeletes - {k}
      case Delete(k, id, snapshot) => s.pendingDeletes[k := DeleteToken(id, snapshot)]
      case Conditional(_, _, _) => s.pendingDeletes
  }

  lemma EnqueueKeepsOwnersQueued(s: State, t: State, op: Operation)
    requires OwnersQueued(s) && Enqueues(s, t, op) && Reowns(s, t, op)
    ensures OwnersQueued(t)
  {
  }

  lemma EnqueueKeepsOwnersLast(s: State, t: State, op: Operation)
    requires QueueOrdered(s) && OwnersLast(s) && Enqueues(s, t, op) && Reowns(s, t, op)
    ensures OwnersLast(t)
  {
  }

  lemma EnqueueKeepsFit(s: State, t: State, op: Operation)
    requires RemovalsFit(s) && Enqueues(s, t, op) && t.snapshots == s.snapshots && !op.Delete?
    ensures RemovalsFit(t)
  {
  }

  lemma CompareKeepsRemovals(s: State, k: Key, c: Comparison)
    requires QueueOrdered(s) && RemovalsOrdered(s)
    ensures RemovalsOrdered(NextCompare(s, k, c))
  {
    var t := NextCompare(s, k, c);
    var op := Conditional(k, s.mutations + 1, c);
    EnqueueKeepsFollowed(s, t, op);
    EnqueueKeepsOwnersQueued(s, t, op);
    EnqueueKeepsOwnersLast(s, t, op);
    EnqueueKeepsFit(s, t, op);
  }

  lemma SetItemKeepsRemovals(s: State, k: Key, v: Value)
    requires QueueOrdered(s) && RemovalsOrdered(s)
    ensures RemovalsOrdered(NextSetItem(s, k, v))
  {
    var t := NextSetItem(s, k, v);
    var op := Put(k, s.mutations + 1, v);
    EnqueueKeepsFollowed(s, t, op);
    EnqueueKeepsOwnersQueued(s, t, op);
    EnqueueKeepsOwnersLast(s, t, op);
    EnqueueKeepsFit(s, t, op);
  }

  lemma RemoveItemKeepsFit(s: State, k: Key)
    requires QueueOrdered(s) && RemovalsFit(s) && OwnersQueued(s)
    ensures RemovalsFit(NextRemoveItem(s, k))
  {
  }

  lemma RemoveItemKeepsRemovals(s: State, k: Key)
    requires QueueOrdered(s) && RemovalsOrdered(s)
    ensures RemovalsOrdered(NextRemoveItem(s, k))
  {
    var t := NextRemoveItem(s, k);
    var op := t.queue[|s.queue|];
    EnqueueKeepsFollowed(s, t, op);
    EnqueueKeepsOwnersQueued(s, t, op);
    EnqueueKeepsOwnersLast(s, t, op);
    RemoveItemKeepsFit(s, k);
  }

  /** A continuation drops at most the ownership its own removal had, and keeps every snapshot's name. */
  ghost predicate KeepsRemovals(s: State, t: State) {
    && Pops(s, t)
    && t.snapshots.Keys == s.snapshots.Keys
    && (forall id :: id in s.snapshots ==>
          t.snapshots[id].key == s.snapshots[id].key && t.snapshots[id].sequence == s.snapshots[id].sequence)
    && t.pendingDeletes ==
         if s.queue[0].Delete? && Owns(s, s.queue[0]) then s.pendingDeletes - {s.queue[0].key} else s.pendingDeletes
  }

  lemma PopKeepsOwnersQueued(s: State, t: State)
    requires OwnersQueued(s) && KeepsRemovals(s, t)
    ensures OwnersQueued(t)
  {
  }

  lemma PopKeepsOwnersLast(s: State, t: State)
    requires OwnersLast(s) && KeepsRemovals(s, t)
    ensures OwnersLast(t)
  {
  }

  lemma PopKeepsFollowed(s: State, t: State)
    requires QueueOrdered(s) && OwnersLast(s) && RemovalsFollowed(s) && KeepsRemovals(s, t)
    ensures RemovalsFollowed(t)
  {
  }

  lemma PopKeepsRemovals(s: State, t: State)
    requires QueueOrdered(s) && RemovalsOrdered(s) && KeepsRemovals(s, t)
    ensures RemovalsOrdered(t)
  {
    PopKeepsOwnersQueued(s, t);
    PopKeepsOwnersLast(s, t);
    PopKeepsFollowed(s, t);
    forall i | 0 <= i < |t.queue| && t.queue[i].Delete?
      ensures RemovalFits(t, t.queue[i])
    {
      assert t.queue[i] == s.queue[i + 1];
      assert RemovalFits(s, s.queue[i + 1]);
    }
  }

  lemma CommittedDropsOwnRemoval(s: State)
    requires s.queue != [] && s.phase.Committed?
    requires s.queue[0].Delete? ==> RemovalFits(s, s.queue[0])
    ensures KeepsRemovals(s, NextCommitted(s))
  {
  }

  /** Taking the head off after a failure leaves tokens and snapshots as they are, but for the head's own key. */
  lemma FailurePops(s: State)
    requires s.queue != []
    ensures Pops(s, Popped(s, true)) && SameReceipts(s, Popped(s, true))
    ensures Popped(s, true).pendingDeletes == s.pendingDeletes
  {
  }

  predicate SameReceipts(s: State, t: State) {
    t.committed == s.committed && t.snapshots == s.snapshots
  }

  lemma RevealedPops(s: State, visible: Option<Value>, draft: Option<WriteToken>)
    requires s.queue != []
    ensures Pops(s, Revealed(s, visible, draft)) && SameReceipts(s, Revealed(s, visible, draft))
    ensures Revealed(s, visible, draft).pendingDeletes == s.pendingDeletes - {s.queue[0].key}
  {
  }

  lemma AbortedPops(s: State)
    requires s.queue != [] && s.phase.Aborted? && !StartsReadBack(s)
    ensures Pops(s, NextAborted(s)) && SameReceipts(s, NextAborted(s))
    ensures NextAborted(s).pendingDeletes ==
      if s.queue[0].Delete? && Owns(s, s.queue[0]) then s.pendingDeletes - {s.queue[0].key} else s.pendingDeletes
  {
    FailurePops(s);
    if s.queue[0].Delete? {
      RevealedPops(s, Fallback(s, s.queue[0]), FallbackDraft(s, s.queue[0]));
    }
  }

  lemma ReadBackPops(s: State)
    requires s.queue != [] && s.queue[0].Delete? && (s.phase.ReadBack? || s.phase.ReadBackFailed?)
    ensures Pops(s, NextReadBack(s)) && SameReceipts(s, NextReadBack(s))
    ensures NextReadBack(s).pendingDeletes ==
      if Owns(s, s.queue[0]) then s.pendingDeletes - {s.queue[0].key} else s.pendingDeletes
  {
    FailurePops(s);
    RevealedPops(s, if s.phase.ReadBack? then s.phase.found else LastKnown(s, s.queue[0]), None);
  }

  lemma ContinueDropsOwnRemoval(s: State)
    requires CanContinue(s) && !StartsReadBack(s)
    requires s.queue[0].Delete? ==> RemovalFits(s, s.queue[0])
    ensures KeepsRemovals(s, NextContinue(s))
  {
    match s.phase
    case Committed(_) => CommittedDropsOwnRemoval(s);
    case Aborted => AbortedPops(s);
    case _ => ReadBackPops(s);
  }

  lemma SameTokensStayOrdered(s: State, t: State)
    requires RemovalsOrdered(s) && SameTokens(s, t)
    ensures RemovalsOrdered(t)
  {
  }

  lemma ContinueKeepsRemovals(s: State)
    requires QueueOrdered(s) && RemovalsOrdered(s) && CanContinue(s)
    requires s.queue[0].Delete? ==> RemovalFits(s, s.queue[0])
    ensures RemovalsOrdered(NextContinue(s))
  {
    if !StartsReadBack(s) {
      ContinueDropsOwnRemoval(s);
      PopKeepsRemovals(s, NextContinue(s));
    } else {
      ReadingBackStarts(s);
      SameTokensStayOrdered(s, NextContinue(s));
    }
  }

  lemma StepKeepsRemovals(s: State, e: Event)
    requires QueueOrdered(s) && RemovalsOrdered(s) && Enabled(s, e)
    ensures RemovalsOrdered(Next(s, e))
  {
    if e.SetItem? {
      SetItemKeepsRemovals(s, e.key, e.value);
    } else if e.RemoveItem? {
      RemoveItemKeepsRemovals(s, e.key);
    } else if e.Compare? {
      CompareKeepsRemovals(s, e.key, e.comparison);
    } else if e.Continue? {
      assert s.queue[0].Delete? ==> RemovalFits(s, s.queue[0]);
      ContinueKeepsRemovals(s);
    } else {
      OtherStepsKeepAll(s, e);
      SameTokensStayOrdered(s, Next(s, e));
    }
  }

  // ----- receipts -----

  /** The token of the removal that owns a key points at that removal's own snapshot. */
  lemma OwnerIsQueued(s: State, i: nat)
    requires QueueOrdered(s) && OwnersQueued(s) && i < |s.queue| && s.queue[i].Delete? && Owns(s, s.queue[i])
    ensures s.pendingDeletes[s.queue[i].key] == DeleteToken(s.queue[i].sequence, s.queue[i].snapshot)
  {
  }

  /** Receipts of removals that were queued before the call. */
  lemma EnqueueKeepsReceipt(s: State, t: State, op: Operation, i: nat)
    requires Enqueues(s, t, op) && t.committed == s.committed
    requires i < |s.queue| && s.queue[i].Delete? && s.queue[i].snapshot in s.snapshots
    requires Lookup(t.snapshots, s.queue[i].snapshot) == Lookup(s.snapshots, s.queue[i].snapshot)
    requires ReceiptTrue(s, i)
    ensures ReceiptTrue(t, i)
  {
    assert forall j :: 0 <= j < |s.queue| ==> t.queue[j] == s.queue[j];
    assert forall j: nat :: j < i ==> OnlyRemovalsBetween(t, j, i) == OnlyRemovalsBetween(s, j, i);
    assert forall j: nat :: j < i ==> Decides(t, j, i) == Decides(s, j, i);
    assert Undecided(t, i) == Undecided(s, i) by {
      if Undecided(s, i) {
        var j :| 0 <= j < i && s.queue[j].key == s.queue[i].key && !s.queue[j].Delete?;
        assert t.queue[j].key == t.queue[i].key && !t.queue[j].Delete?;
      }
      if Undecided(t, i) {
        var j :| 0 <= j < i && t.queue[j].key == t.queue[i].key && !t.queue[j].Delete?;
        assert s.queue[j].key == s.queue[i].key && !s.queue[j].Delete?;
      }
    }
  }

  /** The first removal of a key takes its receipt from what the mirror shows. */
  lemma FreshReceiptTrue(s: State, k: Key)
    requires Inv(s) && k !in s.pendingDeletes && k !in s.disturbed
    ensures ReceiptTrue(NextRemoveItem(s, k), |s.queue|)
  {
    var t := NextRemoveItem(s, k);
    var n := |s.queue|;
    assert forall j :: 0 <= j < n ==> t.queue[j] == s.queue[j];
    FreshPutsPrecede(s, k);
    if s.LatestPending(k) {
      var m :| 0 <= m < n && s.queue[m].key == k && s.queue[m].sequence == s.KeySequence(k);
      FreshReceiptAfter(s, k, m);
    } else {
      assert forall j :: 0 <= j < n ==> s.queue[j].key != k;
      assert k in s.uncommitted ==> s.uncommitted[k].id !in s.committed;
      assert k in s.uncommitted || s.Agrees(k);
    }
  }

  lemma FreshPutsPrecede(s: State, k: Key)
    requires QueueOrdered(s) && k !in s.pendingDeletes
    ensures PutsPrecede(NextRemoveItem(s, k), |s.queue|)
  {
    assert forall j :: 0 <= j < |s.queue| ==> NextRemoveItem(s, k).queue[j] == s.queue[j];
    assert forall j :: 0 <= j < |s.queue| ==> s.queue[j].sequence <= s.KeySequence(s.queue[j].key) <= s.mutations;
  }

  /** ... and when an operation on the key is queued, that operation decides the receipt. */
  lemma FreshReceiptAfter(s: State, k: Key, m: nat)
    requires QueueOrdered(s) && DraftsVisible(s) && LatestShown(s) && k !in s.pendingDeletes
    requires m < |s.queue| && s.queue[m].key == k && s.queue[m].sequence == s.KeySequence(k)
    ensures DecidersKnown(NextRemoveItem(s, k), |s.queue|)
    ensures Undecided(NextRemoveItem(s, k), |s.queue|)
  {
    var t := NextRemoveItem(s, k);
    var n := |s.queue|;
    assert Shown(s, s.queue[m]);
    assert t.queue[m] == s.queue[m] && !s.queue[m].Delete?;
    forall j: nat | Decides(t, j, n)
      ensures j == m
    {
    }
  }

  lemma SharedDeciderKnown(s: State, k: Key, i: nat, j: nat)
    requires QueueOrdered(s)
    requires k in s.pendingDeletes && i < |s.queue| && s.queue[i] == Owner(s, k)
    requires RemovalFits(s, s.queue[i]) && DecidersKnown(s, i)
    requires forall m :: i < m < |s.queue| && s.queue[m].key == k ==> s.queue[m].Conditional?
    requires Decides(NextRemoveItem(s, k), j, |s.queue|)
    ensures DeciderKnown(s.queue[j], s.snapshots[s.queue[i].snapshot])
  {
    var t := NextRemoveItem(s, k);
    assert forall m :: 0 <= m < |s.queue| ==> t.queue[m] == s.queue[m];
    if i < j {
      assert s.queue[i].sequence < s.queue[j].sequence;
    } else {
      forall x | j < x < i && s.queue[x].key == k
        ensures s.queue[x].Delete?
      {
        assert t.queue[x] == s.queue[x];
      }
      assert Decides(s, j, i);
    }
  }

  lemma SharedPutsPrecede(s: State, k: Key, i: nat)
    requires k in s.pendingDeletes && i < |s.queue| && s.queue[i] == Owner(s, k)
    requires forall m :: i < m < |s.queue| && s.queue[m].key == k ==> s.queue[m].Conditional?
    requires PutsPrecede(s, i)
    ensures PutsPrecede(NextRemoveItem(s, k), |s.queue|)
  {
  }

  /** A further removal of the key shares the receipt of the one that owned it. */
  lemma SharedReceiptTrue(s: State, k: Key, i: nat)
    requires QueueOrdered(s) && OwnersLast(s)
    requires k in s.pendingDeletes && i < |s.queue| && s.queue[i] == Owner(s, k)
    requires RemovalFits(s, s.queue[i]) && ReceiptTrue(s, i)
    ensures ReceiptTrue(NextRemoveItem(s, k), |s.queue|)
  {
    var t := NextRemoveItem(s, k);
    var n := |s.queue|;
    assert forall j :: 0 <= j < n ==> t.queue[j] == s.queue[j];
    assert Owns(s, s.queue[i]);
    assert forall m :: i < m < n && s.queue[m].key == k ==> s.queue[m].Conditional?;
    SharedPutsPrecede(s, k, i);
    forall j: nat | Decides(t, j, n)
      ensures DeciderKnown(t.queue[j], t.snapshots[t.queue[n].snapshot])
    {
      SharedDeciderKnown(s, k, i, j);
    }
    assert t.queue[0] == s.queue[0];
  }

  /** The receipt of the removal that owns the key serves the next one too. */
  lemma OwnersReceiptTrue(s: State, k: Key)
    requires Inv(s) && k in s.pendingDeletes && k !in NextRemoveItem(s, k).unsure
    ensures ReceiptTrue(NextRemoveItem(s, k), |s.queue|)
  {
    assert Owner(s, k) in s.queue;
    var m :| 0 <= m < |s.queue| && s.queue[m] == Owner(s, k);
    assert RemovalFits(s, s.queue[m]);
    assert ReceiptTrue(s, m);
    SharedReceiptTrue(s, k, m);
  }

  lemma RemoveItemKeepsReceipts(s: State, k: Key)
    requires Inv(s)
    ensures ReceiptsTrue(NextRemoveItem(s, k))
  {
    var t := NextRemoveItem(s, k);
    var n := |s.queue|;
    var op := t.queue[n];
    forall i | 0 <= i < |t.queue| && t.queue[i].Delete? && t.queue[i].snapshot in t.snapshots
               && Owns(t, t.queue[i]) && t.queue[i].key !in t.unsure
      ensures ReceiptTrue(t, i)
    {
      if i < n {
        OldRemovalKeepsReceipt(s, k, i);
      } else if k in s.pendingDeletes {
        OwnersReceiptTrue(s, k);
      } else {
        FreshReceiptTrue(s, k);
      }
    }
  }

  lemma OldRemovalKeepsReceipt(s: State, k: Key, i: nat)
    requires QueueOrdered(s) && RemovalsFit(s) && ReceiptsTrue(s)
    requires i < |s.queue| && s.queue[i].Delete? && s.queue[i].key !in s.unsure
    requires Owns(NextRemoveItem(s, k), s.queue[i])
    ensures ReceiptTrue(NextRemoveItem(s, k), i)
  {
    var t := NextRemoveItem(s, k);
    assert RemovalFits(s, s.queue[i]);
    assert s.queue[i].sequence <= s.KeySequence(s.queue[i].key) <= s.mutations;
    assert Owns(s, s.queue[i]);
    assert ReceiptTrue(s, i);
    EnqueueKeepsReceipt(s, t, t.queue[|s.queue|], i);
  }

  lemma CallKeepsReceipts(s: State, e: Event)
    requires RemovalsFit(s) && ReceiptsTrue(s)
    requires e.SetItem? || e.Compare?
    ensures ReceiptsTrue(Next(s, e))
  {
    var t := Next(s, e);
    forall i | 0 <= i < |t.queue| && t.queue[i].Delete? && t.queue[i].snapshot in t.snapshots
               && Owns(t, t.queue[i]) && t.queue[i].key !in t.unsure
      ensures ReceiptTrue(t, i)
    {
      assert t.queue[i] == s.queue[i];
      assert Owns(s, s.queue[i]);
      EnqueueKeepsReceipt(s, t, t.queue[|s.queue|], i);
    }
  }

  /** Nothing after the head decides removal i. */
  ghost predicate HeadLastToDecide(s: State, i: nat)
    requires i < |s.queue|
  {
    forall j :: 1 <= j < i && s.queue[j].key == s.queue[i].key ==> s.queue[j].Delete?
  }

  /**
   When the head is taken off, a later owner's receipt stays true if it is
   unchanged while something still decides it, and settled once nothing does.
   */
  lemma PopKeepsReceipt(s: State, t: State, p: nat)
    requires Pops(s, t) && p < |t.queue| && t.queue[p].Delete?
    requires t.queue[p].snapshot in s.snapshots && t.queue[p].snapshot in t.snapshots
    requires ReceiptTrue(s, p + 1)
    requires t.snapshots[t.queue[p].snapshot].sequence == s.snapshots[t.queue[p].snapshot].sequence
    requires forall j: nat :: 1 <= j && Decides(s, j, p + 1) && s.queue[j].Put? ==>
      t.snapshots[t.queue[p].snapshot] == s.snapshots[t.queue[p].snapshot]
    requires HeadLastToDecide(s, p + 1) ==> ReceiptSettled(t, t.queue[p])
    ensures ReceiptTrue(t, p)
  {
  }

  /** What a continuation that finishes the head does to the committed set and the snapshots. */
  ghost predicate Settles(s: State, t: State) {
    && Pops(s, t)
    && t.committed == (if s.phase.Committed? && s.queue[0].Put? then s.committed + {s.queue[0].sequence} else s.committed)
    && t.snapshots == (if s.phase.Committed? then SettledSnapshots(s) else s.snapshots)
  }

  lemma ContinueSettles(s: State)
    requires CanContinue(s) && !StartsReadBack(s)
    ensures Settles(s, NextContinue(s))
  {
    match s.phase
    case Committed(_) =>
    case Aborted => AbortedPops(s);
    case _ => ReadBackPops(s);
  }

  /** The owner's receipt, at position p once the head is taken off. */
  ghost predicate LaterOwner(s: State, p: nat) {
    && p + 1 < |s.queue| && s.queue[p + 1].Delete?
    && RemovalFits(s, s.queue[p + 1])
    && Owns(s, s.queue[p + 1])
    && ReceiptTrue(s, p + 1)
  }

  /** A continuation keeps an owner's receipt when the head is on another key. */
  lemma OtherKeyPopped(s: State, t: State, p: nat)
    requires TokensNamed(s) && RemovalsFit(s) && OwnersQueued(s)
    requires Settles(s, t) && LaterOwner(s, p) && s.queue[p + 1].key != s.queue[0].key
    ensures s.queue[p + 1].snapshot in t.snapshots && ReceiptTrue(t, p)
  {
  }

  /** A put ahead of the removal: committed, it is what the receipt holds; aborted, its draft stays open. */
  lemma PutPopped(s: State, t: State, p: nat)
    requires TokensNamed(s) && PhaseFits(s) && s.queue != [] && s.queue[0].key !in s.unsure
    requires Settles(s, t) && LaterOwner(s, p) && s.queue[0].Put? && s.queue[p + 1].key == s.queue[0].key
    ensures s.queue[p + 1].snapshot in t.snapshots && ReceiptTrue(t, p)
  {
  }

  /** An earlier removal that shares the receipt marks it once its own transaction has committed. */
  lemma RemovalPopped(s: State, t: State, p: nat)
    requires QueueOrdered(s) && OwnersQueued(s) && OwnersLast(s) && RemovalsFollowed(s)
    requires PhaseFits(s) && s.queue != [] && s.queue[0].key !in s.unsure
    requires Settles(s, t) && LaterOwner(s, p) && s.queue[0].Delete? && s.queue[p + 1].key == s.queue[0].key
    requires RemovalFits(s, s.queue[0])
    ensures s.queue[p + 1].snapshot in t.snapshots && ReceiptTrue(t, p)
  {
    var op := s.queue[p + 1];
    forall j: nat | 1 <= j && Decides(s, j, p + 1) && s.queue[j].Put?
      ensures t.snapshots[op.snapshot] == s.snapshots[op.snapshot]
    {
      assert s.queue[0].sequence < s.queue[j].sequence < op.snapshot;
    }
    if HeadLastToDecide(s, p + 1) {
      SharedRemovalSettles(s, t, p);
    }
    PopKeepsReceipt(s, t, p);
  }

  /** With no put of the key between them, the head shares the owner's snapshot. */
  lemma HeadShares(s: State, p: nat)
    requires QueueOrdered(s) && OwnersQueued(s) && OwnersLast(s) && RemovalsFollowed(s)
    requires p + 1 < |s.queue| && s.queue[p + 1].Delete? && Owns(s, s.queue[p + 1])
    requires s.queue[0].Delete? && s.queue[0].key == s.queue[p + 1].key && HeadLastToDecide(s, p + 1)
    ensures s.queue[0].snapshot == s.queue[p + 1].snapshot
  {
  }

  lemma SharedRemovalSettles(s: State, t: State, p: nat)
    requires QueueOrdered(s) && OwnersQueued(s) && OwnersLast(s) && RemovalsFollowed(s)
    requires PhaseFits(s) && s.queue != [] && s.queue[0].key !in s.unsure
    requires Settles(s, t) && LaterOwner(s, p) && s.queue[0].Delete? && s.queue[p + 1].key == s.queue[0].key
    requires HeadLastToDecide(s, p + 1)
    ensures s.queue[p + 1].snapshot in t.snapshots && ReceiptSettled(t, s.queue[p + 1])
  {
    HeadShares(s, p);
  }

  /** A comparison ahead of the removal carries what it saw into the receipt. */
  lemma ComparisonPopped(s: State, t: State, p: nat)
    requires QueueOrdered(s) && OwnersQueued(s)
    requires PhaseFits(s) && s.phase.Committed? && s.queue[0].key !in s.unsure
    requires Settles(s, t) && LaterOwner(s, p) && s.queue[0].Conditional? && s.queue[p + 1].key == s.queue[0].key
    ensures s.queue[p + 1].snapshot in t.snapshots && ReceiptTrue(t, p)
  {
    var op := s.queue[p + 1];
    OwnerIsQueued(s, p + 1);
    forall j: nat | 1 <= j && Decides(s, j, p + 1) && s.queue[j].Put?
      ensures t.snapshots[op.snapshot] == s.snapshots[op.snapshot]
    {
      assert DeciderKnown(s.queue[j], s.snapshots[op.snapshot]);
      assert s.queue[0].sequence < s.queue[j].sequence;
    }
    if HeadLastToDecide(s, p + 1) {
      assert DeciderKnown(s.queue[0], s.snapshots[op.snapshot]);
    }
    PopKeepsReceipt(s, t, p);
  }

  /** A key left certain by taking the head off was certain before, when something else of it is queued. */
  lemma UnsureStays(s: State, t: State, p: nat)
    requires QueueOrdered(s) && Pops(s, t) && p < |t.queue| && t.queue[p].key !in t.unsure
    ensures t.queue[p] == s.queue[p + 1] && s.queue[p + 1].key !in s.unsure
  {
    PopKeepsOrder(s, t);
  }

  lemma LaterOwnerFound(s: State, t: State, p: nat)
    requires RemovalsFit(s) && ReceiptsTrue(s) && KeepsRemovals(s, t)
    requires p < |t.queue| && t.queue[p].Delete? && Owns(t, t.queue[p])
    requires t.queue[p] == s.queue[p + 1] && s.queue[p + 1].key !in s.unsure
    ensures LaterOwner(s, p)
  {
  }

  lemma LaterOwnerKept(s: State, t: State, p: nat)
    requires QueueOrdered(s) && TokensNamed(s) && RemovalsOrdered(s) && PhaseFits(s)
    requires CanContinue(s) && Settles(s, t) && LaterOwner(s, p) && s.queue[p + 1].key !in s.unsure
    ensures s.queue[p + 1].snapshot in t.snapshots && ReceiptTrue(t, p)
  {
    if s.queue[p + 1].key != s.queue[0].key {
      OtherKeyPopped(s, t, p);
    } else {
      match s.queue[0]
      case Put(_, _, _) => PutPopped(s, t, p);
      case Delete(_, _, _) => assert RemovalFits(s, s.queue[0]); RemovalPopped(s, t, p);
      case Conditional(_, _, _) => ComparisonPopped(s, t, p);
    }
  }

  lemma ContinueKeepsReceipts(s: State)
    requires Inv(s) && CanContinue(s) && !StartsReadBack(s)
    ensures ReceiptsTrue(NextContinue(s))
  {
    var t := NextContinue(s);
    if s.queue[0].Delete? { assert RemovalFits(s, s.queue[0]); }
    ContinueDropsOwnRemoval(s);
    ContinueSettles(s);
    forall p | 0 <= p < |t.queue| && t.queue[p].Delete? && t.queue[p].snapshot in t.snapshots
               && Owns(t, t.queue[p]) && t.queue[p].key !in t.unsure
      ensures ReceiptTrue(t, p)
    {
      UnsureStays(s, t, p);
      LaterOwnerFound(s, t, p);
      LaterOwnerKept(s, t, p);
    }
  }

  /** The transaction and read-back steps move the phase; a commit also changes the head's own key. */
  lemma PhaseStepKeepsReceipts(s: State, t: State)
    requires ReceiptsTrue(s) && SameTokens(s, t) && s.unsure <= t.unsure && s.queue != [] && !s.phase.Committed?
    requires forall k :: k != s.queue[0].key ==> Lookup(t.durable, k) == Lookup(s.durable, k)
    requires t.phase.Committed? || t.durable == s.durable
    ensures ReceiptsTrue(t)
  {
    forall i | 0 <= i < |t.queue| && t.queue[i].Delete? && t.queue[i].snapshot in t.snapshots
               && Owns(t, t.queue[i]) && t.queue[i].key !in t.unsure
      ensures ReceiptTrue(t, i)
    {
      assert Owns(s, s.queue[i]);
      assert ReceiptTrue(s, i);
      assert forall j: nat :: Decides(t, j, i) ==> Decides(s, j, i);
    }
  }

  lemma StoreStepKeepsReceipts(s: State, e: Event)
    requires ReceiptsTrue(s) && Enabled(s, e) && PhaseEvent(e)
    ensures ReceiptsTrue(Next(s, e))
  {
    PhaseStepKeepsAll(s, e);
    PhaseStepKeepsReceipts(s, Next(s, e));
  }

  lemma ReaderStepKeepsReceipts(s: State, e: Event)
    requires ReceiptsTrue(s) && Enabled(s, e) && (ReaderEvent(e) || FlushEvent(e) || e.Apply?)
    ensures ReceiptsTrue(Next(s, e))
  {
  }

  lemma PeerChangeKeepsReceipts(s: State, durable: map<Key, Value>, changed: set<Key>)
    requires ReceiptsTrue(s) && forall k :: k !in changed ==> Lookup(durable, k) == Lookup(s.durable, k)
    ensures ReceiptsTrue(NextPeerChange(s, durable, changed))
  {
    var t := NextPeerChange(s, durable, changed);
    forall i | 0 <= i < |t.queue| && t.queue[i].Delete? && t.queue[i].snapshot in t.snapshots
               && Owns(t, t.queue[i]) && t.queue[i].key !in t.unsure
      ensures ReceiptTrue(t, i)
    {
      assert s.IsQueued(s.queue[i].key);
      assert ReceiptTrue(s, i);
    }
  }

  lemma PeerStepKeepsReceipts(s: State, e: Event)
    requires ReceiptsTrue(s) && Enabled(s, e) && PeerEvent(e)
    ensures ReceiptsTrue(Next(s, e))
  {
    if e.PeerCommits? {
      PeerChangeKeepsReceipts(s, Assign(s.durable, e.key, e.stored), {e.key});
    } else {
      PeerChangeKeepsReceipts(s, map[], s.durable.Keys);
    }
  }

  lemma ReadingBackStarts(s: State)
    requires CanContinue(s) && StartsReadBack(s)
    ensures NextContinue(s) == s.(phase := ReadingBack)
  {
  }

  /** An aborted removal that goes on to read the store back changes only the phase. */
  lemma ReadingBackKeepsReceipts(s: State)
    requires ReceiptsTrue(s) && CanContinue(s) && StartsReadBack(s)
    ensures ReceiptsTrue(NextContinue(s))
  {
  }

  lemma StepKeepsReceipts(s: State, e: Event)
    requires Inv(s) && Enabled(s, e)
    ensures ReceiptsTrue(Next(s, e))
  {
    if e.SetItem? || e.Compare? {
      CallKeepsReceipts(s, e);
    } else if e.RemoveItem? {
      RemoveItemKeepsReceipts(s, e.key);
    } else if e.Continue? {
      if !StartsReadBack(s) { ContinueKeepsReceipts(s); } else { ReadingBackKeepsReceipts(s); }
    } else if PeerEvent(e) {
      PeerStepKeepsReceipts(s, e);
    } else if PhaseEvent(e) {
      StoreStepKeepsReceipts(s, e);
    } else {
      ReaderStepKeepsReceipts(s, e);
    }
  }
}

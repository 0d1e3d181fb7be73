/**
 The invariant of the recovery mirror, in two halves: what the mirror shows,
 and what the receipts of queued removals know.
 */
module RecoveryInvariants {
  import opened Options
  import opened RecoveryMirror

  /** Queue entries carry increasing key generations, and the newest one of a pending key is queued. */
  ghost predicate QueueOrdered(s: State) {
    && (forall i, j :: 0 <= i < j < |s.queue| ==> s.queue[i].sequence < s.queue[j].sequence)
    && (forall i :: 0 <= i < |s.queue| ==>
          s.queue[i].sequence <= s.KeySequence(s.queue[i].key) && s.LatestPending(s.queue[i].key))
    && (forall k :: k in s.keySequences ==> s.keySequences[k] <= s.mutations)
  }

  /** No peer has changed the key since its head operation settled. */
  predicate Certain(s: State, k: Key) {
    k !in s.disturbed || k !in s.unsure
  }

  /** An aborted comparison that was its key's newest mutation has left the mirror as right as it was. */
  predicate AbortFits(s: State, op: Operation)
    requires s.queue != []
  {
    op.Conditional? ==>
      && op.key in s.unsure
      && (HeadIsNewest(s) && op.key !in s.disturbed && op.key !in s.uncommitted ==> s.Agrees(op.key))
  }

  /** The phase says what the head transaction did to the store. */
  ghost predicate PhaseFits(s: State) {
    match s.phase
    case Waiting => true
    case Committed(after) =>
      && s.queue != []
      && (s.queue[0].Put? ==> after == Some(s.queue[0].value))
      && (s.queue[0].Delete? ==> after == None)
      && (Certain(s, s.queue[0].key) ==> Lookup(s.durable, s.queue[0].key) == after)
    case Aborted => s.queue != [] && AbortFits(s, s.queue[0])
    case ReadingBack =>
      && s.queue != [] && s.queue[0].Delete?
      && (Owns(s, s.queue[0]) ==> FallbackDraft(s, s.queue[0]).None?)
    case ReadBack(found) =>
      && s.queue != [] && s.queue[0].Delete?
      && (Certain(s, s.queue[0].key) ==> Lookup(s.durable, s.queue[0].key) == found)
    case ReadBackFailed =>
      && s.queue != [] && s.queue[0].Delete?
      && (s.queue[0].key !in s.disturbed && Owns(s, s.queue[0]) ==>
            LastKnown(s, s.queue[0]) == Lookup(s.durable, s.queue[0].key))
  }

  /** An uncommitted draft is what the mirror shows. */
  ghost predicate DraftsVisible(s: State) {
    forall k :: k in s.uncommitted ==> k in s.records && s.records[k] == s.uncommitted[k].value
  }

  /** A fallback that names an uncommitted draft holds that draft's value. */
  predicate FallbackKept(snapshot: Snapshot, committed: set<nat>) {
    TokenOpen(snapshot, committed) ==> snapshot.held == Some(snapshot.writeToken.value.value)
  }

  ghost predicate FallbacksKept(s: State) {
    forall id :: id in s.snapshots ==> FallbackKept(s.snapshots[id], s.committed)
  }

  ghost predicate RemovalsOwn(s: State) {
    forall k :: k in s.pendingDeletes ==> k !in s.uncommitted && s.pendingDeletes[k].snapshot in s.snapshots
  }

  /** The mirror shows the effect of an operation that is its key's newest mutation. */
  predicate Shown(s: State, op: Operation) {
    match op
    case Put(k, id, v) => k in s.uncommitted && s.uncommitted[k] == WriteToken(id, k, v)
    case Delete(k, id, snapshot) =>
      k in s.pendingDeletes && s.pendingDeletes[k] == DeleteToken(id, snapshot) && k !in s.records
    case Conditional(_, _, _) => true
  }

  ghost predicate LatestShown(s: State) {
    forall i :: 0 <= i < |s.queue| && s.queue[i].sequence == s.KeySequence(s.queue[i].key) ==> Shown(s, s.queue[i])
  }

  ghost predicate ReaderFits(s: State, r: Reader) {
    && r.barrier <= s.finished + |s.queue|
    && r.fence <= s.mutations
    && (r.scope.Single? ==> r.scope.sequence <= r.fence)
    && (forall i :: 0 <= i < |s.queue| && r.barrier <= s.finished + i ==> r.fence < s.queue[i].sequence)
    && (r.loaded.Some? ==>
          && r.barrier <= s.finished
          && forall k :: k !in r.stale && s.KeySequence(k) <= r.fence ==>
               Lookup(r.loaded.value, k) == Lookup(s.durable, k))
  }

  ghost predicate ReadersFenced(s: State) {
    forall i :: 0 <= i < |s.readers| ==> ReaderFits(s, s.readers[i])
  }

  /** An undisturbed key with nothing queued and no draft shows the durable value. */
  ghost predicate SettledKeysAgree(s: State) {
    forall k :: k !in s.disturbed && k !in s.uncommitted && !s.LatestPending(k) ==> s.Agrees(k)
  }

  /** A token stands for one write: the queued put with its number, if there is one. */
  ghost predicate TokenNamed(s: State, token: WriteToken) {
    && token.id <= s.mutations
    && forall i :: 0 <= i < |s.queue| && s.queue[i].sequence == token.id ==>
         s.queue[i] == Put(token.key, token.id, token.value)
  }

  ghost predicate TokensNamed(s: State) {
    && (forall k :: k in s.uncommitted ==>
          s.uncommitted[k].key == k && s.uncommitted[k].id !in s.committed && TokenNamed(s, s.uncommitted[k]))
    && (forall id :: id in s.snapshots && s.snapshots[id].writeToken.Some? ==>
          s.snapshots[id].writeToken.value.key == s.snapshots[id].key
          && TokenNamed(s, s.snapshots[id].writeToken.value))
    && (forall id :: id in s.committed ==> id <= s.mutations)
    && (forall id, i :: id in s.committed && 0 <= i < |s.queue| ==> id < s.queue[i].sequence)
  }

  /** A queued removal has its snapshot, taken for its key no later than the call itself. */
  predicate RemovalFits(s: State, op: Operation)
    requires op.Delete?
  {
    && op.snapshot in s.snapshots && op.snapshot <= op.sequence
    && s.snapshots[op.snapshot].key == op.key
    && s.snapshots[op.snapshot].sequence < op.snapshot
  }

  /** A put of the removed key is queued behind the removal. */
  ghost predicate Overwritten(s: State, i: nat)
    requires i < |s.queue|
  {
    exists j :: i < j < |s.queue| && s.queue[j].key == s.queue[i].key && s.queue[j].Put?
  }

  /** A queued removal is followed by a put of its key, or shares its snapshot with the owner of the key. */
  ghost predicate Followed(s: State, i: nat)
    requires i < |s.queue| && s.queue[i].Delete?
  {
    || Overwritten(s, i)
    || (&& s.queue[i].key in s.pendingDeletes
        && s.pendingDeletes[s.queue[i].key].snapshot == s.queue[i].snapshot)
  }

  ghost predicate RemovalsFit(s: State) {
    && (forall id :: id in s.snapshots ==> id <= s.mutations)
    && (forall i :: 0 <= i < |s.queue| && s.queue[i].Delete? ==> RemovalFits(s, s.queue[i]))
  }

  function Owner(s: State, k: Key): Operation
    requires k in s.pendingDeletes
  {
    Delete(k, s.pendingDeletes[k].id, s.pendingDeletes[k].snapshot)
  }

  ghost predicate OwnersQueued(s: State) {
    forall k :: k in s.pendingDeletes ==> Owner(s, k) in s.queue
  }

  /** Behind the removal that owns a key only comparisons of that key are queued. */
  ghost predicate OwnersLast(s: State) {
    forall i, j :: 0 <= i < j < |s.queue| && s.queue[i].Delete? && Owns(s, s.queue[i]) ==>
      s.queue[j].key == s.queue[i].key ==> s.queue[j].Conditional?
  }

  ghost predicate RemovalsFollowed(s: State) {
    forall i :: 0 <= i < |s.queue| && s.queue[i].Delete? ==> Followed(s, i)
  }

  /** Consecutive removals of a key share one snapshot, and the newest one owns the key. */
  ghost predicate RemovalsOrdered(s: State) {
    RemovalsFit(s) && OwnersQueued(s) && OwnersLast(s) && RemovalsFollowed(s)
  }

  ghost predicate OnlyRemovalsBetween(s: State, j: nat, i: nat)
    requires i < |s.queue|
  {
    forall m :: j < m < i && s.queue[m].key == s.queue[i].key ==> s.queue[m].Delete?
  }

  /** Operation j is the last one before removal i, on its key, that is not a removal. */
  ghost predicate Decides(s: State, j: nat, i: nat)
    requires i < |s.queue|
  {
    && j < i && s.queue[j].key == s.queue[i].key && !s.queue[j].Delete?
    && OnlyRemovalsBetween(s, j, i)
  }

  /** Something other than removals of the key is still queued before removal i. */
  ghost predicate Undecided(s: State, i: nat)
    requires i < |s.queue|
  {
    exists j :: 0 <= j < i && s.queue[j].key == s.queue[i].key && !s.queue[j].Delete?
  }

  ghost predicate PutsPrecede(s: State, i: nat)
    requires i < |s.queue| && s.queue[i].Delete?
  {
    forall j :: 0 <= j < i && s.queue[j].key == s.queue[i].key && s.queue[j].Put? ==>
      s.queue[j].sequence < s.queue[i].snapshot
  }

  /** The receipt a removal takes right after a put of its key. */
  function DraftReceipt(put: Operation): Snapshot
    requires put.Put?
  {
    Snapshot(put.key, false, put.sequence, Some(put.value), Some(WriteToken(put.sequence, put.key, put.value)))
  }

  /** The operation that decides a removal's receipt is no older than the receipt; a put wrote it. */
  predicate DeciderKnown(decider: Operation, snapshot: Snapshot) {
    && snapshot.sequence <= decider.sequence
    && (decider.Put? ==> snapshot == DraftReceipt(decider))
  }

  ghost predicate DecidersKnown(s: State, i: nat)
    requires i < |s.queue| && s.queue[i].Delete? && s.queue[i].snapshot in s.snapshots
  {
    forall j: nat :: Decides(s, j, i) ==> DeciderKnown(s.queue[j], s.snapshots[s.queue[i].snapshot])
  }

  /** With nothing left to decide it, a receipt names an open draft or holds the durable value. */
  predicate ReceiptSettled(s: State, op: Operation)
    requires op.Delete? && op.snapshot in s.snapshots
  {
    || TokenOpen(s.snapshots[op.snapshot], s.committed)
    || Fallback(s, op) == Lookup(s.durable, op.key)
    || (s.phase.Committed? && s.queue != [] && s.queue[0].key == op.key)
  }

  /**
   The receipt of the removal that owns its key. While another operation on the
   key is still ahead, the receipt was taken no later than that operation; once
   none is, the receipt is settled, or about to be updated by the removal whose
   transaction has just committed.
   */
  ghost predicate ReceiptTrue(s: State, i: nat)
    requires i < |s.queue| && s.queue[i].Delete? && s.queue[i].snapshot in s.snapshots
  {
    && PutsPrecede(s, i)
    && DecidersKnown(s, i)
    && (!Undecided(s, i) ==> ReceiptSettled(s, s.queue[i]))
  }

  ghost predicate ReceiptsTrue(s: State) {
    forall i :: 0 <= i < |s.queue| && s.queue[i].Delete? && s.queue[i].snapshot in s.snapshots ==>
      Owns(s, s.queue[i]) && s.queue[i].key !in s.unsure ==>
        ReceiptTrue(s, i)
  }

  /** What the mirror itself must satisfy. */
  ghost predicate MirrorInv(s: State) {
    && QueueOrdered(s)
    && PhaseFits(s)
    && DraftsVisible(s)
    && FallbacksKept(s)
    && RemovalsOwn(s)
    && LatestShown(s)
    && ReadersFenced(s)
    && SettledKeysAgree(s)
  }

  /** What the receipts of queued removals must satisfy. */
  ghost predicate ReceiptInv(s: State) {
    TokensNamed(s) && RemovalsOrdered(s) && ReceiptsTrue(s)
  }

  ghost predicate Inv(s: State) {
    MirrorInv(s) && ReceiptInv(s)
  }
}

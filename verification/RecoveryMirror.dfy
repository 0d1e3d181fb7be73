/**
 One tab's durable recovery storage: a synchronous mirror over a FIFO of atomic
 IndexedDB transactions, each of which may abort.

 A queued operation settles in two steps. Its transaction commits or aborts
 (the durable map changes at that instant), and only later does its
 continuation run in the tab; calls made by the page fall between the two.
 Every such step is an `Event`, so a sequence of events is one interleaving.
 */
module RecoveryMirror {
  import opened Options

  type Key = string
  type Value = string

  /** The receipt of one `setItem`, named by the write its transaction will make. */
  datatype WriteToken = WriteToken(id: nat, key: Key, value: Value)

  /** What a failed removal of the key falls back to, shared by consecutive removals. */
  datatype Snapshot = Snapshot(
    key: Key, removed: bool, sequence: nat, held: Option<Value>, writeToken: Option<WriteToken>)

  datatype DeleteToken = DeleteToken(id: nat, snapshot: nat)

  datatype Comparison =
    | ReplaceIf(next: Value)
    | RemoveIf
    | LegacyPut(legacy: Value)
    | LegacyRemove

  /** A queued operation; `sequence` is the key generation its call was given. */
  datatype Operation =
    | Put(key: Key, sequence: nat, value: Value)
    | Delete(key: Key, sequence: nat, snapshot: nat)
    | Conditional(key: Key, sequence: nat, comparison: Comparison)

  /** How far the operation at the head of the queue has come. */
  datatype Phase =
    | Waiting
    | Committed(after: Option<Value>)
    | Aborted
    | ReadingBack
    | ReadBack(found: Option<Value>)
    | ReadBackFailed

  /** A reading of the whole store, or of the key a peer's notification names. */
  datatype Scope = Everything | Single(key: Key, sequence: nat)

  /**
   A refresh, or the handling of a peer's notification, which carries its number. It waits for the operations queued
   before it (`barrier`) and for the notifications up to `awaited`, which a refresh sets at each turn. `stale` lists the
   keys a peer has changed since the store was read.
   */
  datatype Reader = Reader(
    scope: Scope,
    notification: Option<nat>,
    awaited: Option<nat>,
    fence: nat,
    barrier: nat,
    loaded: Option<map<Key, Value>>,
    stale: set<Key>,
    applied: bool)

  /**
   A waiting `flush()`: the failures already reported when it began, the operations and notifications it awaits in
   this turn, and all failures there were when it began.
   */
  datatype Flush = Flush(boundary: nat, tail: nat, external: nat, failures: nat)

  datatype Verdict = Again | WriteFailed | DraftsLeft | MirrorStale | Resolves

  /**
   `disturbed` and `unsure` only record what happened: keys whose mirror may be behind the store, and keys with a queued
   removal whose receipt may be.
   */
  datatype State = State(
    durable: map<Key, Value>,
    records: map<Key, Value>,
    uncommitted: map<Key, WriteToken>,
    committed: set<nat>,
    pendingDeletes: map<Key, DeleteToken>,
    snapshots: map<nat, Snapshot>,
    keySequences: map<Key, nat>,
    mutations: nat,
    queue: seq<Operation>,
    phase: Phase,
    finished: nat,
    failures: nat,
    readers: seq<Reader>,
    notifications: nat,
    refreshFailed: bool,
    observed: nat,
    flushes: seq<Flush>,
    disturbed: set<Key>,
    unsure: set<Key>)
  {
    function KeySequence(k: Key): nat {
      if k in keySequences then keySequences[k] else 0
    }

    /** Some operation still queued is the newest mutation of the key. */
    ghost predicate LatestPending(k: Key) {
      exists i :: 0 <= i < |queue| && queue[i].key == k && queue[i].sequence == KeySequence(k)
    }

    function Enqueued(): nat {
      finished + |queue|
    }

    predicate IsQueued(k: Key) {
      exists i :: 0 <= i < |queue| && queue[i].key == k
    }

    predicate Agrees(k: Key) {
      Lookup(records, k) == Lookup(durable, k)
    }
  }

  datatype Event =
    | SetItem(key: Key, value: Value)
    | RemoveItem(key: Key)
    | Compare(key: Key, comparison: Comparison)
    | Commit(matched: bool)
    | Abort
    | Continue
    | LoadBack
    | LoadBackFails
    | StartRefresh
    | Notified(key: Key)
    | NotifiedOfClear
    | Load(index: nat)
    | Apply(index: nat)
    | LoadFails(index: nat)
    | RefreshTurns(index: nat)
    | BeginFlush
    | FlushTurns(index: nat)
    | PeerCommits(key: Key, stored: Option<Value>)
    | PeerClears

  /** A tab that has just loaded the store. */
  function Start(durable: map<Key, Value>): State {
    State(durable, durable, map[], {}, map[], map[], map[], 0, [], Waiting, 0, 0, [], 0, false, 0, [], {}, {})
  }

  // ----- calls made by the page -----

  function NextSetItem(s: State, k: Key, v: Value): State {
    var q := s.mutations + 1;
    s.(mutations := q,
       keySequences := s.keySequences[k := q],
       uncommitted := s.uncommitted[k := WriteToken(q, k, v)],
       pendingDeletes := s.pendingDeletes - {k},
       records := s.records[k := v],
       queue := s.queue + [Put(k, q, v)])
  }

  /** Consecutive optimistic removals keep the first one's snapshot. */
  function RemovalSnapshot(s: State, k: Key): nat {
    if k in s.pendingDeletes then s.pendingDeletes[k].snapshot else s.mutations + 1
  }

  function CapturedSnapshots(s: State, k: Key): map<nat, Snapshot> {
    if k in s.pendingDeletes then s.snapshots
    else s.snapshots[s.mutations + 1 :=
           Snapshot(k, false, s.KeySequence(k), Lookup(s.records, k), Lookup(s.uncommitted, k))]
  }

  /** Hides the key at once and queues its removal, which falls back to snapshot `id`. */
  function Hidden(s: State, k: Key, id: nat): State {
    var q := s.mutations + 1;
    s.(mutations := q,
       keySequences := s.keySequences[k := q],
       uncommitted := s.uncommitted - {k},
       pendingDeletes := s.pendingDeletes[k := DeleteToken(q, id)],
       records := s.records - {k},
       queue := s.queue + [Delete(k, q, id)],
       unsure := if k in s.disturbed then s.unsure + {k} else s.unsure)
  }

  function NextRemoveItem(s: State, k: Key): State {
    Hidden(s.(snapshots := CapturedSnapshots(s, k)), k, RemovalSnapshot(s, k))
  }

  function NextCompare(s: State, k: Key, c: Comparison): State {
    var q := s.mutations + 1;
    s.(mutations := q,
       keySequences := s.keySequences[k := q],
       queue := s.queue + [Conditional(k, q, c)])
  }

  // ----- the transaction at the head of the queue -----

  /** What a comparison leaves in the store, given its verdict. */
  function Outcome(c: Comparison, current: Option<Value>, matched: bool): Option<Value> {
    if !matched then current
    else match c
      case ReplaceIf(next) => Some(next)
      case LegacyPut(legacy) => Some(legacy)
      case RemoveIf => None
      case LegacyRemove => None
  }

  /** Only a legacy put may match where the store holds nothing. */
  predicate VerdictPossible(s: State, matched: bool)
    requires s.queue != []
  {
    var op := s.queue[0];
    matched && op.Conditional? && !op.comparison.LegacyPut? ==> op.key in s.durable
  }

  function NextCommit(s: State, matched: bool): State
    requires s.queue != []
  {
    var op := s.queue[0];
    var after := match op
      case Put(_, _, value) => Some(value)
      case Delete(_, _, _) => None
      case Conditional(k, _, c) => Outcome(c, Lookup(s.durable, k), matched);
    s.(durable := Assign(s.durable, op.key, after), phase := Committed(after))
  }

  function NextAbort(s: State): State
    requires s.queue != []
  {
    var k := s.queue[0].key;
    var compares := s.queue[0].Conditional?;
    var behind := compares && HeadIsNewest(s) && k !in s.uncommitted && !s.Agrees(k);
    s.(phase := Aborted,
       unsure := if compares then s.unsure + {k} else s.unsure,
       disturbed := if behind then s.disturbed + {k} else s.disturbed)
  }

  // ----- continuations -----

  /** The head is the newest mutation of its key, so nothing else of that key is queued. */
  predicate HeadIsNewest(s: State)
    requires s.queue != []
  {
    s.queue[0].sequence == s.KeySequence(s.queue[0].key)
  }

  /** The newest mutation of a key ends knowing what the store holds, and no peer has changed that since. */
  predicate Repairs(s: State)
    requires s.queue != []
  {
    && HeadIsNewest(s)
    && match s.phase
       case Committed(after) => Lookup(s.durable, s.queue[0].key) == after
       case ReadBack(found) => s.queue[0].Delete? && Lookup(s.durable, s.queue[0].key) == found
       case _ => false
  }

  function Popped(s: State, failed: bool): State
    requires s.queue != []
  {
    var k := s.queue[0].key;
    s.(queue := s.queue[1..],
       phase := Waiting,
       finished := s.finished + 1,
       failures := if failed then s.failures + 1 else s.failures,
       disturbed := if Repairs(s) then s.disturbed - {k} else s.disturbed,
       unsure := if HeadIsNewest(s) then s.unsure - {k} else s.unsure)
  }

  function Owns(s: State, op: Operation): bool {
    op.key in s.pendingDeletes && s.pendingDeletes[op.key].id == op.sequence
  }

  /** Carries what a conditional transaction saw into a queued removal's fallback. */
  function Reconciled(s: State, k: Key, sequence: nat, after: Option<Value>): map<nat, Snapshot> {
    if k !in s.pendingDeletes || s.pendingDeletes[k].snapshot !in s.snapshots then s.snapshots
    else
      var id := s.pendingDeletes[k].snapshot;
      var snapshot := s.snapshots[id];
      if snapshot.sequence > sequence || TokenOpen(snapshot, s.committed)
      then s.snapshots
      else s.snapshots[id := snapshot.(removed := after.None?, held := after, writeToken := None)]
  }

  /** A committed removal marks its snapshot; a comparison carries what it saw into the pending one. */
  function SettledSnapshots(s: State): map<nat, Snapshot>
    requires s.queue != [] && s.phase.Committed?
  {
    var op := s.queue[0];
    match op
    case Put(_, _, _) => s.snapshots
    case Delete(_, _, id) =>
      if id in s.snapshots then s.snapshots[id := s.snapshots[id].(removed := true)] else s.snapshots
    case Conditional(k, sequence, _) => Reconciled(s, k, sequence, s.phase.after)
  }

  /** The continuation of a committed transaction. */
  function NextCommitted(s: State): State
    requires s.queue != [] && s.phase.Committed?
  {
    var op := s.queue[0];
    var k := op.key;
    var releases := op.Put? && k in s.uncommitted && s.uncommitted[k].id == op.sequence;
    var drops := op.Delete? && Owns(s, op);
    var shows := op.Conditional? && k !in s.uncommitted && s.KeySequence(k) == op.sequence;
    Popped(s.(committed := if op.Put? then s.committed + {op.sequence} else s.committed,
              uncommitted := if releases then s.uncommitted - {k} else s.uncommitted,
              snapshots := SettledSnapshots(s),
              pendingDeletes := if drops then s.pendingDeletes - {k} else s.pendingDeletes,
              records := if shows then Assign(s.records, k, s.phase.after) else s.records),
           false)
  }

  /** The snapshot still names a draft whose write has not committed. */
  predicate TokenOpen(snapshot: Snapshot, committed: set<nat>) {
    snapshot.writeToken.Some? && snapshot.writeToken.value.id !in committed
  }

  /** The draft a failed removal puts back without asking the store. */
  function FallbackDraft(s: State, op: Operation): Option<WriteToken>
    requires op.Delete?
  {
    if op.snapshot in s.snapshots && !s.snapshots[op.snapshot].removed
       && TokenOpen(s.snapshots[op.snapshot], s.committed)
    then s.snapshots[op.snapshot].writeToken
    else None
  }

  /** The last known copy a failed removal shows when the store cannot be read. */
  function Fallback(s: State, op: Operation): Option<Value>
    requires op.Delete?
  {
    if op.snapshot in s.snapshots && !s.snapshots[op.snapshot].removed
    then s.snapshots[op.snapshot].held
    else None
  }

  function LastKnown(s: State, op: Operation): Option<Value>
    requires op.Delete?
  {
    if Fallback(s, op).Some? then Fallback(s, op) else Lookup(s.records, op.key)
  }

  /** The one continuation that does not finish the head: a failed removal without a draft reads the store back. */
  predicate StartsReadBack(s: State) {
    && s.queue != [] && s.phase.Aborted? && s.queue[0].Delete?
    && Owns(s, s.queue[0]) && FallbackDraft(s, s.queue[0]).None?
  }

  /** The end of a failed removal that owns its key: the key is shown again, as a draft if there is one. */
  function Revealed(s: State, visible: Option<Value>, draft: Option<WriteToken>): State
    requires s.queue != []
  {
    var k := s.queue[0].key;
    Popped(s.(records := Assign(s.records, k, visible),
              uncommitted := if draft.Some? then s.uncommitted[k := draft.value] else s.uncommitted,
              pendingDeletes := s.pendingDeletes - {k}), true)
  }

  function NextAborted(s: State): State
    requires s.queue != [] && s.phase.Aborted?
  {
    var op := s.queue[0];
    if !op.Delete? || !Owns(s, op) then Popped(s, true)
    else if FallbackDraft(s, op).Some? then Revealed(s, Fallback(s, op), FallbackDraft(s, op))
    else s.(phase := ReadingBack)
  }

  function NextReadBack(s: State): State
    requires s.queue != [] && s.queue[0].Delete? && (s.phase.ReadBack? || s.phase.ReadBackFailed?)
  {
    var op := s.queue[0];
    if !Owns(s, op) then Popped(s, true)
    else Revealed(s, if s.phase.ReadBack? then s.phase.found else LastKnown(s, op), None)
  }

  /**
   A removal's receipt is out of date when an earlier removal of the same draft
   committed and something was then stored again: the draft's open token kept
   that later store from being carried into the receipt.
   */
  predicate ReceiptOutdated(s: State, op: Operation)
    requires op.Delete?
  {
    && Owns(s, op) && op.snapshot in s.snapshots
    && s.snapshots[op.snapshot].removed && TokenOpen(s.snapshots[op.snapshot], s.committed)
    && op.key in s.durable
  }

  function NextLoadBackFails(s: State): State
    requires s.queue != []
  {
    var op := s.queue[0];
    var wrong := op.Delete? && Owns(s, op) && LastKnown(s, op) != Lookup(s.durable, op.key);
    s.(phase := ReadBackFailed, disturbed := if wrong then s.disturbed + {op.key} else s.disturbed)
  }

  function NextContinue(s: State): State
    requires CanContinue(s)
  {
    match s.phase
    case Committed(_) => NextCommitted(s)
    case Aborted => NextAborted(s)
    case _ => NextReadBack(s)
  }

  predicate CanContinue(s: State) {
    s.queue != []
    && (s.phase.Committed? || s.phase.Aborted?
        || (s.queue[0].Delete? && (s.phase.ReadBack? || s.phase.ReadBackFailed?)))
  }

  // ----- refreshes and notifications -----

  function NextRefresh(s: State): State {
    s.(readers := s.readers + [Reader(Everything, None, None, s.mutations, s.Enqueued(), None, {}, false)])
  }

  /** A notification waits for all earlier ones. */
  function NextNotified(s: State, scope: Scope): State {
    var n := s.notifications + 1;
    s.(notifications := n,
       readers := s.readers + [Reader(scope, Some(n), Some(s.notifications), s.mutations, s.Enqueued(), None, {}, false)])
  }

  predicate NotificationsDone(s: State, awaited: nat) {
    forall j :: 0 <= j < |s.readers| && s.readers[j].notification.Some? ==> awaited < s.readers[j].notification.value
  }

  function Without<T>(s: seq<T>, i: nat): seq<T>
    requires i < |s|
  {
    s[..i] + s[i + 1..]
  }

  /** Whether a reader may still decide the key when its snapshot arrives. */
  predicate Covers(s: State, r: Reader, k: Key) {
    k !in s.uncommitted
    && match r.scope
       case Everything => s.KeySequence(k) <= r.fence
       case Single(key, sequence) => k == key && s.KeySequence(k) == sequence
  }

  function Merged(s: State, r: Reader): map<Key, Value>
    requires r.loaded.Some?
  {
    map k | k in s.records.Keys + r.loaded.value.Keys
            && (if Covers(s, r, k) then k in r.loaded.value else k in s.records)
    :: if Covers(s, r, k) then r.loaded.value[k] else s.records[k]
  }

  /** The keys the reader decides. */
  function Repaired(s: State, r: Reader): set<Key> {
    set k | k in s.disturbed && Covers(s, r, k)
  }

  /** The keys a peer has changed since the store was read, so that the mirror takes over an older value. */
  function Outrun(s: State, r: Reader): set<Key>
    requires r.loaded.Some?
  {
    set k | k in r.stale && Covers(s, r, k) && Lookup(r.loaded.value, k) != Lookup(s.durable, k)
  }

  /** The mirror takes over what was read for the keys the reader covers. */
  function NextApply(s: State, i: nat): State
    requires i < |s.readers| && s.readers[i].loaded.Some?
  {
    var r := s.readers[i];
    s.(records := Merged(s, r),
       disturbed := s.disturbed - Repaired(s, r) + Outrun(s, r),
       readers := if r.notification.None? then s.readers[i := r.(loaded := None, applied := true)]
                  else Without(s.readers, i))
  }

  predicate RefreshCanTurn(s: State, r: Reader) {
    r.notification.None? && r.barrier <= s.finished && (r.awaited.None? || r.applied)
  }

  /** A refresh returns once no notification has come since it last waited for them, and reads the store otherwise. */
  function NextRefreshTurn(s: State, i: nat): State
    requires i < |s.readers|
  {
    var caughtUp := s.readers[i].awaited == Some(s.notifications);
    s.(readers := if caughtUp then Without(s.readers, i)
                  else s.readers[i := s.readers[i].(awaited := Some(s.notifications), applied := false)],
       refreshFailed := if caughtUp then false else s.refreshFailed)
  }

  // ----- peers -----

  /** Other tabs have changed these keys, after what any reader has already read. */
  function NextPeerChange(s: State, durable: map<Key, Value>, changed: set<Key>): State {
    s.(durable := durable,
       disturbed := s.disturbed + changed,
       unsure := s.unsure + (set k | k in changed && s.IsQueued(k)),
       readers := Mapped(s.readers, (r: Reader) => if r.loaded.Some? then r.(stale := r.stale + changed) else r))
  }

  // ----- flush -----

  function NextBeginFlush(s: State): State {
    s.(flushes := s.flushes + [Flush(s.observed, s.Enqueued(), s.notifications, s.failures)])
  }

  /** Both awaited promises have settled. */
  predicate FlushCanTurn(s: State, f: Flush) {
    f.tail <= s.finished && NotificationsDone(s, f.external)
  }

  /** What the flush finds when it goes on: another tail to await, something to report, or nothing. */
  function FlushVerdict(s: State, f: Flush): Verdict {
    if f.tail != s.Enqueued() || f.external != s.notifications then Again
    else if s.failures > f.boundary then WriteFailed
    else if s.uncommitted != map[] then DraftsLeft
    else if s.refreshFailed then MirrorStale
    else Resolves
  }

  function NextFlushTurn(s: State, i: nat): State
    requires i < |s.flushes|
  {
    var f := s.flushes[i];
    var verdict := FlushVerdict(s, f);
    s.(flushes := if verdict.Again? then s.flushes[i := f.(tail := s.Enqueued(), external := s.notifications)]
                  else Without(s.flushes, i),
       observed := if verdict.WriteFailed? then s.failures else s.observed)
  }

  predicate Enabled(s: State, e: Event) {
    match e
    case SetItem(_, _) => true
    case RemoveItem(_) => true
    case Compare(_, _) => true
    case Commit(matched) => s.queue != [] && s.phase.Waiting? && VerdictPossible(s, matched)
    case Abort => s.queue != [] && s.phase.Waiting?
    case Continue => CanContinue(s)
    case LoadBack => s.queue != [] && s.phase.ReadingBack?
    case LoadBackFails => s.queue != [] && s.phase.ReadingBack?
    case StartRefresh => true
    case Notified(_) => true
    case NotifiedOfClear => true
    case Load(i) => i < |s.readers| && CanLoad(s, s.readers[i])
    case Apply(i) => i < |s.readers| && s.readers[i].loaded.Some?
    case LoadFails(i) => i < |s.readers| && CanLoad(s, s.readers[i])
    case RefreshTurns(i) => i < |s.readers| && RefreshCanTurn(s, s.readers[i])
    case BeginFlush => true
    case FlushTurns(i) => i < |s.flushes| && FlushCanTurn(s, s.flushes[i])
    case PeerCommits(_, _) => true
    case PeerClears => true
  }

  predicate CanLoad(s: State, r: Reader) {
    && r.barrier <= s.finished && r.loaded.None? && !r.applied
    && r.awaited.Some? && NotificationsDone(s, r.awaited.value)
  }

  function Next(s: State, e: Event): State
    requires Enabled(s, e)
  {
    match e
    case SetItem(k, v) => NextSetItem(s, k, v)
    case RemoveItem(k) => NextRemoveItem(s, k)
    case Compare(k, c) => NextCompare(s, k, c)
    case Commit(matched) => NextCommit(s, matched)
    case Abort => NextAbort(s)
    case Continue => NextContinue(s)
    case LoadBack => s.(phase := ReadBack(Lookup(s.durable, s.queue[0].key)))
    case LoadBackFails => NextLoadBackFails(s)
    case StartRefresh => NextRefresh(s)
    case Notified(k) => NextNotified(s, Single(k, s.KeySequence(k)))
    case NotifiedOfClear => NextNotified(s, Everything)
    case Load(i) => s.(readers := s.readers[i := s.readers[i].(loaded := Some(s.durable), stale := {})])
    case Apply(i) => NextApply(s, i)
    case LoadFails(i) =>
      s.(readers := Without(s.readers, i), refreshFailed := s.refreshFailed || s.readers[i].notification.Some?)
    case RefreshTurns(i) => NextRefreshTurn(s, i)
    case BeginFlush => NextBeginFlush(s)
    case FlushTurns(i) => NextFlushTurn(s, i)
    case PeerCommits(k, stored) => NextPeerChange(s, Assign(s.durable, k, stored), {k})
    case PeerClears => NextPeerChange(s, map[], s.durable.Keys)
  }
}

/**
 Several tabs on one store. A peer's change puts this tab's mirror behind until the peer's notification has arrived and
 been worked off. Whatever else happens, no key then stays behind, except one that a failure of this tab has left there.
 */
module RecoveryPeers {
  import opened Options
  import opened RecoveryMirror
  import opened RecoveryInvariants
  import opened RecoveryMirrorProofs
  import opened RecoveryReceiptProofs
  import opened RecoveryConvergence

  // ----- what is still to come for a key -----

  /** No mutation of the key has been called since the reader began. */
  predicate InScope(s: State, r: Reader, k: Key) {
    match r.scope
    case Everything => s.KeySequence(k) <= r.fence
    case Single(key, sequence) => k == key && s.KeySequence(k) == sequence
  }

  /** A refresh that will read the store once more. */
  predicate TurnsAgain(s: State, r: Reader) {
    r.notification.None? && (!r.applied || r.awaited != Some(s.notifications))
  }

  /** The reader will still show what the store holds, unless a draft or a newer mutation comes first. */
  predicate WillDecide(s: State, r: Reader, k: Key) {
    && InScope(s, r, k)
    && ((r.loaded.Some? && k !in r.stale)
        || (r.loaded.None? && (r.notification.Some? || TurnsAgain(s, r)))
        || (r.notification.None? && r.awaited != Some(s.notifications)))
  }

  ghost predicate Awaited(s: State, k: Key) {
    exists r :: r in s.readers && WillDecide(s, r, k)
  }

  /** Keys that peers have changed since their last notification (`owed`), and keys left behind by this tab's failures. */
  datatype Peers = Peers(owed: set<Key>, excused: set<Key>)

  function NextOwed(s: State, owed: set<Key>, e: Event): set<Key> {
    match e
    case PeerCommits(k, _) => owed + {k}
    case PeerClears => owed + s.durable.Keys
    case Notified(k) => owed - {k}
    case NotifiedOfClear => {}
    case _ => owed
  }

  /** The keys a reading that fails would have put right. */
  function Unread(s: State, r: Reader): set<Key> {
    set k | k in s.records.Keys + s.durable.Keys && InScope(s, r, k) && !s.Agrees(k)
  }

  ghost function Failed(s: State, e: Event): set<Key>
    requires Enabled(s, e)
  {
    if e.LoadFails? then Unread(s, s.readers[e.index])
    else if (e.Abort? || e.LoadBackFails?) && Disturbs(s, e, s.queue[0].key) then {s.queue[0].key}
    else {}
  }

  ghost function NextExcused(s: State, excused: set<Key>, e: Event): set<Key>
    requires Enabled(s, e)
  {
    (set k | k in excused && !(Restores(s, e, k) && !Disturbs(s, e, k))) + Failed(s, e)
  }

  ghost function NextPeers(s: State, p: Peers, e: Event): Peers
    requires Enabled(s, e)
  {
    Peers(NextOwed(s, p.owed, e), NextExcused(s, p.excused, e))
  }

  // ----- the invariant -----

  ghost predicate KeyFits(s: State, p: Peers, k: Key) {
    k in p.excused || k in p.owed || k in s.uncommitted || s.LatestPending(k) || s.Agrees(k) || Awaited(s, k)
  }

  /** What the end of the head will make its key show, if that is not a draft. */
  function ShownAfter(s: State): Option<Option<Value>>
    requires s.queue != []
  {
    var op := s.queue[0];
    match s.phase
    case Committed(after) => Some(after)
    case Aborted => if op.Conditional? && op.key !in s.uncommitted then Some(Lookup(s.records, op.key)) else None
    case ReadBack(found) => Some(found)
    case ReadBackFailed => if op.Delete? then Some(LastKnown(s, op)) else None
    case _ => None
  }

  /** A reader that began after the head was queued, and so has not read the store yet. */
  ghost predicate AwaitedLater(s: State, k: Key) {
    exists r :: r in s.readers && s.finished < r.barrier && r.loaded.None? && !r.applied && InScope(s, r, k)
  }

  /** The head shows what is stored, or a peer has come in between. */
  ghost predicate HeadFits(s: State, p: Peers) {
    HeadShowsOther(s) ==>
      s.queue[0].key in p.excused || s.queue[0].key in p.owed || AwaitedLater(s, s.queue[0].key)
  }

  /** The end of a key's newest mutation is about to show something else than what is stored. */
  predicate HeadShowsOther(s: State) {
    s.queue != [] && HeadIsNewest(s) && ShownAfter(s).Some? && ShownAfter(s).value != Lookup(s.durable, s.queue[0].key)
  }

  /** A reading that a peer has outrun is followed by another one. */
  ghost predicate StaleFits(s: State, p: Peers, r: Reader, k: Key) {
    r.loaded.Some? && k in r.stale && InScope(s, r, k) ==>
      || k in p.owed
      || (r.notification.None? && r.awaited != Some(s.notifications))
      || (r.notification.Some? && FollowedUp(s, r.notification.value, k))
  }

  ghost predicate FollowedUp(s: State, n: nat, k: Key) {
    exists r :: r in s.readers && r.notification.Some? && n < r.notification.value && r.loaded.None? && InScope(s, r, k)
  }

  predicate ReaderOrdered(s: State, r: Reader) {
    && (r.awaited.Some? ==> r.awaited.value <= s.notifications)
    && (r.notification.Some? ==> !r.applied && r.notification.value <= s.notifications
                                 && r.awaited == Some(r.notification.value - 1) && r.notification.value > 0)
    && (r.loaded.Some? ==> r.awaited.Some? && !r.applied)
  }

  ghost predicate PeersInv(s: State, p: Peers) {
    && (forall k :: KeyFits(s, p, k))
    && HeadFits(s, p)
    && (forall r :: r in s.readers ==> ReaderOrdered(s, r))
    && (forall r, k :: r in s.readers && k in r.stale ==> StaleFits(s, p, r, k))
  }

  // ----- lists of readers -----

  lemma WithoutKeeps<T>(s: seq<T>, i: nat)
    requires i < |s|
    ensures forall x :: x in Without(s, i) ==> x in s
    ensures forall x :: x in s && x != s[i] ==> x in Without(s, i)
  {
  }

  lemma UpdateKeeps<T>(s: seq<T>, i: nat, y: T)
    requires i < |s|
    ensures forall x :: x in s[i := y] ==> x == y || x in s
    ensures forall x :: x in s && x != s[i] ==> x in s[i := y]
    ensures y in s[i := y]
  {
    assert s[i := y][i] == y;
    assert forall j :: 0 <= j < |s| && j != i ==> s[i := y][j] == s[j];
  }

  // ----- calls -----

  /** A call only adds an operation of its own key, and leaves all other keys and every reader alone. */
  ghost predicate Calls(s: State, t: State, op: Operation) {
    && Enqueues(s, t, op) && t.notifications == s.notifications
    && (forall k :: k != op.key ==>
          Lookup(t.records, k) == Lookup(s.records, k) && Lookup(t.uncommitted, k) == Lookup(s.uncommitted, k))
    && (s.queue != [] && s.queue[0].Delete? ==>
          Lookup(t.snapshots, s.queue[0].snapshot) == Lookup(s.snapshots, s.queue[0].snapshot))
  }

  lemma RemovalKeepsSnapshot(s: State, k: Key)
    requires Inv(s) && s.queue != [] && s.queue[0].Delete?
    ensures Lookup(CapturedSnapshots(s, k), s.queue[0].snapshot) == Lookup(s.snapshots, s.queue[0].snapshot)
  {
    assert RemovalFits(s, s.queue[0]);
    assert s.queue[0].sequence <= s.KeySequence(s.queue[0].key) <= s.mutations;
  }

  lemma HidingIsCall(s: State, k: Key, id: nat)
    ensures var t := Hidden(s, k, id);
      && Enqueues(s, t, Delete(k, s.mutations + 1, id)) && t.notifications == s.notifications && t.snapshots == s.snapshots
      && forall other :: other != k ==>
           Lookup(t.records, other) == Lookup(s.records, other)
           && Lookup(t.uncommitted, other) == Lookup(s.uncommitted, other)
  {
  }

  lemma RemovalIsCall(s: State, k: Key)
    requires Inv(s)
    ensures var op := Delete(k, s.mutations + 1, RemovalSnapshot(s, k));
      NextRemoveItem(s, k).queue[|s.queue|] == op && Calls(s, NextRemoveItem(s, k), op)
  {
    var u := s.(snapshots := CapturedSnapshots(s, k));
    HidingIsCall(u, k, RemovalSnapshot(s, k));
    if s.queue != [] && s.queue[0].Delete? { RemovalKeepsSnapshot(s, k); }
  }

  lemma CallIsCall(s: State, e: Event)
    requires Inv(s) && (e.SetItem? || e.RemoveItem? || e.Compare?)
    ensures Calls(s, Next(s, e), Next(s, e).queue[|s.queue|]) && Next(s, e).queue[|s.queue|].key == e.key
  {
    if e.RemoveItem? {
      RemovalIsCall(s, e.key);
    } else if e.SetItem? {
      assert NextSetItem(s, e.key, e.value).queue[|s.queue|] == Put(e.key, s.mutations + 1, e.value);
    } else {
      assert NextCompare(s, e.key, e.comparison).queue[|s.queue|] == Conditional(e.key, s.mutations + 1, e.comparison);
    }
  }

  lemma CallKeepsKeys(s: State, t: State, op: Operation, p: Peers)
    requires Inv(s) && PeersInv(s, p) && Calls(s, t, op)
    ensures forall k :: KeyFits(t, p, k)
  {
    EnqueueKeepsPending(s, t, op);
    forall k ensures KeyFits(t, p, k) {
      assert KeyFits(s, p, k);
      if k != op.key && Awaited(s, k) {
        var r :| r in s.readers && WillDecide(s, r, k);
        assert WillDecide(t, r, k);
      }
    }
  }

  lemma CallKeepsHead(s: State, t: State, op: Operation, p: Peers)
    requires Inv(s) && PeersInv(s, p) && Calls(s, t, op)
    ensures HeadFits(t, p)
  {
    if s.queue != [] {
      assert t.queue[0] == s.queue[0];
      if s.queue[0].key != op.key && AwaitedLater(s, s.queue[0].key) {
        var r :| r in s.readers && s.finished < r.barrier && r.loaded.None? && !r.applied && InScope(s, r, s.queue[0].key);
        assert InScope(t, r, s.queue[0].key);
      }
    }
  }

  lemma CallKeepsStale(s: State, t: State, op: Operation, p: Peers, r: Reader, k: Key)
    requires Inv(s) && Calls(s, t, op) && r in s.readers && StaleFits(s, p, r, k)
    ensures StaleFits(t, p, r, k)
  {
    assert ReaderFits(s, r);
    if k != op.key && r.notification.Some? && FollowedUp(s, r.notification.value, k) {
      var later :| later in s.readers && later.notification.Some? && r.notification.value < later.notification.value
                   && later.loaded.None? && InScope(s, later, k);
      assert InScope(t, later, k);
    }
  }

  lemma CallKeepsPeers(s: State, e: Event, p: Peers)
    requires Inv(s) && PeersInv(s, p) && (e.SetItem? || e.RemoveItem? || e.Compare?)
    ensures PeersInv(Next(s, e), NextPeers(s, p, e))
  {
    var t := Next(s, e);
    var op := t.queue[|s.queue|];
    CallIsCall(s, e);
    assert NextPeers(s, p, e) == p;
    CallKeepsKeys(s, t, op, p);
    CallKeepsHead(s, t, op, p);
    forall r, k | r in t.readers && k in r.stale ensures StaleFits(t, p, r, k) {
      CallKeepsStale(s, t, op, p, r, k);
    }
  }

  // ----- transactions -----

  /** The store changes at most under the head's key, and the phase moves. */
  ghost predicate Moves(s: State, t: State) {
    && s.queue != [] && t == s.(phase := t.phase, durable := t.durable, disturbed := t.disturbed, unsure := t.unsure)
    && forall k :: k != s.queue[0].key ==> Lookup(t.durable, k) == Lookup(s.durable, k)
  }

  lemma MoveKeepsPeers(s: State, t: State, p: Peers, q: Peers)
    requires Inv(s) && PeersInv(s, p) && Moves(s, t) && q.owed == p.owed && p.excused <= q.excused && HeadFits(t, q)
    ensures PeersInv(t, q)
  {
    SameQueueKeepsOrder(s, t);
    assert s.LatestPending(s.queue[0].key);
    forall k ensures KeyFits(t, q, k) {
      assert KeyFits(s, p, k);
      if k != s.queue[0].key && Awaited(s, k) {
        var r :| r in s.readers && WillDecide(s, r, k);
        assert WillDecide(t, r, k);
      }
    }
    forall r, k | r in t.readers && k in r.stale ensures StaleFits(t, q, r, k) {
      assert StaleFits(s, p, r, k);
      SameReadersStale(s, t, p, q, r, k);
    }
  }

  /** Where readers, notifications and generations are the same, so is what follows a stale reading. */
  lemma SameReadersStale(s: State, t: State, p: Peers, q: Peers, r: Reader, k: Key)
    requires StaleFits(s, p, r, k) && p.owed <= q.owed
    requires t.readers == s.readers && t.notifications == s.notifications && t.KeySequence(k) == s.KeySequence(k)
    ensures StaleFits(t, q, r, k)
  {
    if r.notification.Some? && FollowedUp(s, r.notification.value, k) {
      var later :| later in s.readers && later.notification.Some? && r.notification.value < later.notification.value
                   && later.loaded.None? && InScope(s, later, k);
      assert InScope(t, later, k);
    }
  }

  lemma PhaseStepMoves(s: State, e: Event)
    requires Inv(s) && Enabled(s, e) && PhaseEvent(e)
    ensures Moves(s, Next(s, e))
  {
  }

  lemma AbortHeadFits(s: State, p: Peers)
    requires Inv(s) && Enabled(s, Abort)
    ensures HeadFits(NextAbort(s), NextPeers(s, p, Abort))
  {
  }

  /** A failed read-back that will show something else than what is stored excuses its key. */
  lemma LoadBackFailsExcuses(s: State, p: Peers)
    requires Inv(s) && Enabled(s, LoadBackFails) && s.queue[0].Delete? && HeadIsNewest(s)
    requires LastKnown(s, s.queue[0]) != Lookup(s.durable, s.queue[0].key)
    ensures s.queue[0].key in NextExcused(s, p.excused, LoadBackFails)
  {
    assert Shown(s, s.queue[0]);
    assert Disturbs(s, LoadBackFails, s.queue[0].key);
  }

  lemma LoadBackFailsShows(s: State)
    requires Enabled(s, LoadBackFails) && HeadShowsOther(NextLoadBackFails(s))
    ensures s.queue[0].Delete? && HeadIsNewest(s) && LastKnown(s, s.queue[0]) != Lookup(s.durable, s.queue[0].key)
  {
  }

  lemma LoadBackFailsHeadFits(s: State, p: Peers)
    requires Inv(s) && Enabled(s, LoadBackFails)
    ensures HeadFits(NextLoadBackFails(s), NextPeers(s, p, LoadBackFails))
  {
    if HeadShowsOther(NextLoadBackFails(s)) {
      LoadBackFailsShows(s);
      LoadBackFailsExcuses(s, p);
    }
  }

  lemma PhaseStepHeadFits(s: State, e: Event, p: Peers)
    requires Inv(s) && Enabled(s, e) && PhaseEvent(e)
    ensures HeadFits(Next(s, e), NextPeers(s, p, e))
  {
    if e.Abort? {
      AbortHeadFits(s, p);
    } else if e.LoadBackFails? {
      LoadBackFailsHeadFits(s, p);
    } else {
      StoreStepHeadFits(s, e, p);
    }
  }

  /** A commit and a reading back know what is stored. */
  lemma StoreStepHeadFits(s: State, e: Event, p: Peers)
    requires Enabled(s, e) && (e.Commit? || e.LoadBack?)
    ensures HeadFits(Next(s, e), NextPeers(s, p, e))
  {
  }

  lemma PhaseStepKeepsPeers(s: State, e: Event, p: Peers)
    requires Inv(s) && PeersInv(s, p) && Enabled(s, e) && PhaseEvent(e)
    ensures PeersInv(Next(s, e), NextPeers(s, p, e))
  {
    PhaseStepMoves(s, e);
    PhaseStepHeadFits(s, e, p);
    MoveKeepsPeers(s, Next(s, e), p, NextPeers(s, p, e));
  }

  // ----- continuations -----

  /** The end of a key's newest mutation shows what it knows, or leaves a draft. */
  lemma ContinueShows(s: State)
    requires Inv(s) && CanContinue(s) && !StartsReadBack(s) && HeadIsNewest(s)
    ensures var k := s.queue[0].key;
            var t := NextContinue(s);
            k in t.uncommitted || (ShownAfter(s).Some? && Lookup(t.records, k) == ShownAfter(s).value)
  {
    assert Shown(s, s.queue[0]);
    EndShows(s);
  }

  /** So does the end of any write or removal that is shown. */
  lemma EndShows(s: State)
    requires Inv(s) && CanContinue(s) && !StartsReadBack(s) && Shown(s, s.queue[0])
    requires s.queue[0].Conditional? ==> HeadIsNewest(s)
    ensures var k := s.queue[0].key;
            var t := NextContinue(s);
            k in t.uncommitted || (ShownAfter(s).Some? && Lookup(t.records, k) == ShownAfter(s).value)
  {
    if s.queue[0].Delete? {
      assert RemovalFits(s, s.queue[0]);
      RemovalEndShows(s);
    } else if s.queue[0].Put? {
      WriteEndShows(s);
    } else {
      ComparisonEndShows(s);
    }
  }

  lemma RemovalEndShows(s: State)
    requires CanContinue(s) && !StartsReadBack(s) && PhaseFits(s)
    requires s.queue[0].Delete? && Shown(s, s.queue[0]) && RemovalFits(s, s.queue[0])
    ensures var k := s.queue[0].key;
            var t := NextContinue(s);
            k in t.uncommitted || (ShownAfter(s).Some? && Lookup(t.records, k) == ShownAfter(s).value)
  {
    if s.phase.Aborted? {
    } else if s.phase.Committed? {
    } else {
    }
  }

  lemma WriteEndShows(s: State)
    requires CanContinue(s) && PhaseFits(s) && DraftsVisible(s) && s.queue[0].Put? && Shown(s, s.queue[0])
    ensures var k := s.queue[0].key;
            var t := NextContinue(s);
            k in t.uncommitted || (ShownAfter(s).Some? && Lookup(t.records, k) == ShownAfter(s).value)
  {
    assert s.phase.Committed? || s.phase.Aborted?;
  }

  lemma ComparisonEndShows(s: State)
    requires CanContinue(s) && s.queue[0].Conditional? && HeadIsNewest(s)
    ensures var k := s.queue[0].key;
            var t := NextContinue(s);
            k in t.uncommitted || (ShownAfter(s).Some? && Lookup(t.records, k) == ShownAfter(s).value)
  {
    assert s.phase.Committed? || s.phase.Aborted?;
  }

  /**
   When a step leaves a key behind, that is idle, no draft, and not shown as it is stored. A call on the key never does. A
   reading that decides it does if it read something else than is stored by now, a peer's change if it stores something else
   than is shown, and the end of its newest mutation if it knows something else than is stored and there is no draft. In all
   other steps the key is behind if it was.
   */
  ghost predicate BehindAfter(s: State, e: Event, k: Key)
    requires Enabled(s, e)
  {
    if Mutates(e, k) then false
    else if e.Apply? && Covers(s, s.readers[e.index], k) then
      Lookup(s.readers[e.index].loaded.value, k) != Lookup(s.durable, k)
    else if e.PeerCommits? && e.key == k then !s.LatestPending(k) && k !in s.uncommitted && Lookup(s.records, k) != e.stored
    else if e.PeerClears? then !s.LatestPending(k) && k !in s.uncommitted && k in s.records
    else if e.Continue? && s.queue[0].key == k && HeadIsNewest(s) && !StartsReadBack(s) then
      && !(s.queue[0].Conditional? && k in s.uncommitted)
      && ShownAfter(s).Some? && ShownAfter(s).value != Lookup(s.durable, k)
    else Behind(s, k)
  }

  lemma BehindExactly(s: State, e: Event, k: Key)
    requires Inv(s) && Enabled(s, e)
    ensures Behind(Next(s, e), k) <==> BehindAfter(s, e, k)
  {
    if e.SetItem? || e.RemoveItem? || e.Compare? {
      CallLeavesBehind(s, e, k);
    } else if e.Continue? {
      ContinueLeavesBehind(s, k);
    } else if e.Apply? {
      ApplyLeavesBehind(s, e.index, k);
    } else if PeerEvent(e) {
      PeerLeavesBehind(s, e, k);
    } else if PhaseEvent(e) {
      PhaseLeavesBehind(s, e, k);
    } else {
      ReaderStepChangesReaders(s, e);
      assert Next(s, e).LatestPending(k) == s.LatestPending(k);
    }
  }

  lemma CallLeavesBehind(s: State, e: Event, k: Key)
    requires Inv(s) && (e.SetItem? || e.RemoveItem? || e.Compare?)
    ensures Behind(Next(s, e), k) <==> BehindAfter(s, e, k)
  {
    CallIsCall(s, e);
    EnqueueKeepsPending(s, Next(s, e), Next(s, e).queue[|s.queue|]);
  }

  lemma PhaseLeavesBehind(s: State, e: Event, k: Key)
    requires Inv(s) && Enabled(s, e) && PhaseEvent(e)
    ensures Behind(Next(s, e), k) <==> BehindAfter(s, e, k)
  {
    PhaseStepMoves(s, e);
    assert s.LatestPending(s.queue[0].key);
    assert Next(s, e).LatestPending(k) == s.LatestPending(k);
  }

  lemma ApplyLeavesBehind(s: State, i: nat, k: Key)
    requires Inv(s) && Enabled(s, Apply(i))
    ensures Behind(NextApply(s, i), k) <==> BehindAfter(s, Apply(i), k)
  {
    assert ReaderFits(s, s.readers[i]);
    SameQueueKeepsOrder(s, NextApply(s, i));
    MergedLookup(s, s.readers[i], k);
    if Covers(s, s.readers[i], k) { CoveredKeysAreIdle(s, s.readers[i], k); }
  }

  lemma PeerLeavesBehind(s: State, e: Event, k: Key)
    requires Enabled(s, e) && PeerEvent(e)
    ensures Behind(Next(s, e), k) <==> BehindAfter(s, e, k)
  {
    assert Next(s, e).LatestPending(k) == s.LatestPending(k);
  }

  lemma ContinueLeavesBehind(s: State, k: Key)
    requires Inv(s) && CanContinue(s)
    ensures Behind(NextContinue(s), k) <==> BehindAfter(s, Continue, k)
  {
    if StartsReadBack(s) {
      ReadingBackStarts(s);
      assert NextContinue(s).LatestPending(k) == s.LatestPending(k);
    } else {
      ContinuePops(s);
      if k == s.queue[0].key && HeadIsNewest(s) {
        PopKeepsOrder(s, NextContinue(s));
        ContinueShows(s);
        ContinueLeavesDraft(s);
      } else {
        assert s.LatestPending(s.queue[0].key);
        PopLeavesOthers(s, NextContinue(s), k);
      }
    }
  }

  lemma PopLeavesOthers(s: State, t: State, k: Key)
    requires QueueOrdered(s) && Pops(s, t) && ContinueFrame(s, t) && s.LatestPending(s.queue[0].key)
    requires k != s.queue[0].key || !HeadIsNewest(s)
    ensures Behind(t, k) <==> Behind(s, k)
  {
    PopKeepsOrder(s, t);
  }

  /** The newest mutation of a key ends in a draft if it wrote and failed, or compared under one. */
  lemma ContinueLeavesDraft(s: State)
    requires Inv(s) && CanContinue(s) && !StartsReadBack(s) && HeadIsNewest(s)
    ensures var k := s.queue[0].key;
      k in NextContinue(s).uncommitted <==> ShownAfter(s).None? || (s.queue[0].Conditional? && k in s.uncommitted)
  {
    assert Shown(s, s.queue[0]);
    if s.queue[0].Delete? {
      assert RemovalFits(s, s.queue[0]);
      RemovalLeavesDraft(s);
    }
  }

  lemma RemovalLeavesDraft(s: State)
    requires CanContinue(s) && !StartsReadBack(s) && PhaseFits(s) && RemovalsOwn(s)
    requires s.queue[0].Delete? && Shown(s, s.queue[0]) && RemovalFits(s, s.queue[0])
    ensures s.queue[0].key in NextContinue(s).uncommitted <==> ShownAfter(s).None?
  {
  }

  /** The head has gone, and nothing else of the queue, the readers or the store has changed. */
  lemma ContinuePops(s: State)
    requires Inv(s) && CanContinue(s) && !StartsReadBack(s)
    ensures Pops(s, NextContinue(s)) && ContinueFrame(s, NextContinue(s))
    ensures NextContinue(s).notifications == s.notifications
  {
    ContinueTouchesOwnKey(s);
    assert s.queue[0].Delete? ==> RemovalFits(s, s.queue[0]);
    ContinueDropsOwnRemoval(s);
  }

  /** A continuation leaves every other key and every reader alone. */
  lemma PopKeepsOthers(s: State, t: State, p: Peers, q: Peers, k: Key)
    requires QueueOrdered(s) && Pops(s, t) && ContinueFrame(s, t) && t.notifications == s.notifications
    requires KeyFits(s, p, k) && k != s.queue[0].key && q.owed == p.owed && (k in p.excused ==> k in q.excused)
    ensures KeyFits(t, q, k)
  {
    PopKeepsOrder(s, t);
    if Awaited(s, k) {
      var r :| r in s.readers && WillDecide(s, r, k);
      assert WillDecide(t, r, k);
    }
  }

  lemma ContinueKeepsHeadKey(s: State, p: Peers)
    requires Inv(s) && CanContinue(s) && !StartsReadBack(s) && HeadFits(s, p)
    ensures KeyFits(NextContinue(s), NextPeers(s, p, Continue), s.queue[0].key)
  {
    var t := NextContinue(s);
    var k := s.queue[0].key;
    ContinuePops(s);
    PopKeepsOrder(s, t);
    if !HeadIsNewest(s) {
      assert s.LatestPending(k);
    } else {
      ContinueShows(s);
      if AwaitedLater(s, k) {
        var r :| r in s.readers && s.finished < r.barrier && r.loaded.None? && !r.applied && InScope(s, r, k);
        assert WillDecide(t, r, k);
      }
    }
  }

  lemma ReadBackKeepsPeers(s: State, p: Peers)
    requires Inv(s) && PeersInv(s, p) && CanContinue(s) && StartsReadBack(s)
    ensures PeersInv(NextContinue(s), NextPeers(s, p, Continue))
  {
    ReadingBackStarts(s);
    assert NextPeers(s, p, Continue) == p;
    MoveKeepsPeers(s, NextContinue(s), p, p);
  }

  lemma PopKeepsKeys(s: State, p: Peers)
    requires Inv(s) && PeersInv(s, p) && CanContinue(s) && !StartsReadBack(s)
    ensures forall k :: KeyFits(NextContinue(s), NextPeers(s, p, Continue), k)
  {
    forall k ensures KeyFits(NextContinue(s), NextPeers(s, p, Continue), k) {
      assert KeyFits(s, p, k);
      if k == s.queue[0].key {
        ContinueKeepsHeadKey(s, p);
      } else {
        ContinuePops(s);
        PopKeepsOthers(s, NextContinue(s), p, NextPeers(s, p, Continue), k);
      }
    }
  }

  lemma PopKeepsStale(s: State, t: State, p: Peers, q: Peers)
    requires PeersInv(s, p) && Pops(s, t) && t.notifications == s.notifications && q.owed == p.owed
    ensures forall r, k :: r in t.readers && k in r.stale ==> StaleFits(t, q, r, k)
    ensures forall r :: r in t.readers ==> ReaderOrdered(t, r)
  {
    forall r, k | r in t.readers && k in r.stale ensures StaleFits(t, q, r, k) {
      SameReadersStale(s, t, p, q, r, k);
    }
  }

  lemma ContinueKeepsPeers(s: State, p: Peers)
    requires Inv(s) && PeersInv(s, p) && CanContinue(s)
    ensures PeersInv(NextContinue(s), NextPeers(s, p, Continue))
  {
    if StartsReadBack(s) {
      ReadBackKeepsPeers(s, p);
    } else {
      ContinuePops(s);
      PopKeepsKeys(s, p);
      PopKeepsStale(s, NextContinue(s), p, NextPeers(s, p, Continue));
    }
  }

  // ----- notifications and refreshes -----

  lemma StartKeepsPeers(s: State, e: Event, p: Peers)
    requires Inv(s) && PeersInv(s, p) && (e.StartRefresh? || e.Notified? || e.NotifiedOfClear?)
    ensures PeersInv(Next(s, e), NextPeers(s, p, e))
  {
    var t := Next(s, e);
    StartAddsReader(s, e);
    forall k ensures KeyFits(t, NextPeers(s, p, e), k) {
      StartKeepsKey(s, e, p, k);
    }
    StartKeepsHead(s, e, p);
    forall r, k | r in t.readers && k in r.stale ensures StaleFits(t, NextPeers(s, p, e), r, k) {
      StartKeepsStale(s, e, p, r, k);
    }
  }

  /** The reader that a message or a call starts: for a message, it decides every key the message is about. */
  lemma StartAddsReader(s: State, e: Event)
    requires Inv(s) && (e.StartRefresh? || e.Notified? || e.NotifiedOfClear?)
    ensures var t := Next(s, e);
      && |t.readers| == |s.readers| + 1 && t.readers[..|s.readers|] == s.readers
      && (forall r :: r in t.readers ==> r in s.readers || r == t.readers[|s.readers|])
      && (forall r :: r in s.readers ==> r in t.readers)
      && t == s.(readers := t.readers, notifications := t.notifications)
      && t.notifications == (if e.StartRefresh? then s.notifications else s.notifications + 1)
    ensures var added := Next(s, e).readers[|s.readers|];
      && added in Next(s, e).readers && added.loaded.None? && !added.applied && added.stale == {}
      && added.barrier == s.Enqueued()
      && added.notification == (if e.StartRefresh? then None else Some(s.notifications + 1))
      && added.awaited == (if e.StartRefresh? then None else Some(s.notifications))
      && (forall k :: (e.Notified? && e.key == k) || e.NotifiedOfClear? || e.StartRefresh? ==> InScope(s, added, k))
  {
    var t := Next(s, e);
    assert t.readers == s.readers + [t.readers[|s.readers|]];
  }

  lemma StartKeepsKey(s: State, e: Event, p: Peers, k: Key)
    requires Inv(s) && PeersInv(s, p) && (e.StartRefresh? || e.Notified? || e.NotifiedOfClear?)
    ensures KeyFits(Next(s, e), NextPeers(s, p, e), k)
  {
    var t := Next(s, e);
    StartAddsReader(s, e);
    SameQueueKeepsOrder(s, t);
    assert KeyFits(s, p, k);
    var added := t.readers[|s.readers|];
    if Awaited(s, k) {
      var r :| r in s.readers && WillDecide(s, r, k);
      assert ReaderOrdered(s, r);
      assert WillDecide(t, r, k);
    } else if k in p.owed && k !in NextOwed(s, p.owed, e) {
      assert WillDecide(t, added, k);
    }
  }

  lemma StartKeepsHead(s: State, e: Event, p: Peers)
    requires Inv(s) && HeadFits(s, p) && (e.StartRefresh? || e.Notified? || e.NotifiedOfClear?)
    ensures HeadFits(Next(s, e), NextPeers(s, p, e))
  {
    StartAddsReader(s, e);
    if s.queue != [] {
      StartIsAwaitedLater(s, e, p, s.queue[0].key);
      SameHeadShown(s, Next(s, e));
    }
  }

  lemma StartIsAwaitedLater(s: State, e: Event, p: Peers, k: Key)
    requires Inv(s) && s.queue != [] && (e.StartRefresh? || e.Notified? || e.NotifiedOfClear?)
    ensures AwaitedLater(s, k) ==> AwaitedLater(Next(s, e), k)
    ensures k in p.owed && k !in NextOwed(s, p.owed, e) ==> AwaitedLater(Next(s, e), k)
  {
    var t := Next(s, e);
    StartAddsReader(s, e);
    var added := t.readers[|s.readers|];
    assert InScope(s, added, k) ==> InScope(t, added, k);
    if AwaitedLater(s, k) {
      var r :| r in s.readers && s.finished < r.barrier && r.loaded.None? && !r.applied && InScope(s, r, k);
      assert InScope(t, r, k);
    }
  }

  lemma StartKeepsStale(s: State, e: Event, p: Peers, r: Reader, k: Key)
    requires Inv(s) && PeersInv(s, p) && (e.StartRefresh? || e.Notified? || e.NotifiedOfClear?)
    requires r in Next(s, e).readers && k in r.stale
    ensures StaleFits(Next(s, e), NextPeers(s, p, e), r, k)
  {
    var t := Next(s, e);
    StartAddsReader(s, e);
    var added := t.readers[|s.readers|];
    assert r in s.readers && ReaderOrdered(s, r) && StaleFits(s, p, r, k);
    assert forall other :: InScope(t, other, k) == InScope(s, other, k);
    if r.notification.Some? && FollowedUp(s, r.notification.value, k) {
      var later :| later in s.readers && later.notification.Some? && r.notification.value < later.notification.value
                   && later.loaded.None? && InScope(s, later, k);
      assert later in t.readers;
    }
  }

  // ----- one reader goes on or goes -----

  /** All that differs is the i-th reader, which has gone or become `next`. */
  ghost predicate OneReader(s: State, t: State, i: nat, next: Option<Reader>) {
    && i < |s.readers|
    && t == s.(readers := t.readers, refreshFailed := t.refreshFailed)
    && t.readers == match next case Some(r) => s.readers[i := r] case None => Without(s.readers, i)
  }

  lemma OneReaderMembers(s: State, t: State, i: nat, next: Option<Reader>)
    requires OneReader(s, t, i, next)
    ensures forall r :: r in t.readers ==> r in s.readers || next == Some(r)
    ensures forall r :: r in s.readers && r != s.readers[i] ==> r in t.readers
    ensures next.Some? ==> next.value in t.readers
  {
    if next.Some? { UpdateKeeps(s.readers, i, next.value); } else { WithoutKeeps(s.readers, i); }
  }

  /** The other readers still justify what they did; the i-th one must be replaced, or its keys excused. */
  lemma OneReaderKeepsKeys(s: State, t: State, i: nat, next: Option<Reader>, p: Peers, q: Peers)
    requires Inv(s) && PeersInv(s, p) && OneReader(s, t, i, next) && p.owed == q.owed && p.excused <= q.excused
    requires forall k :: WillDecide(s, s.readers[i], k) && !s.Agrees(k) ==>
      k in q.excused || (next.Some? && WillDecide(t, next.value, k))
    ensures forall k :: KeyFits(t, q, k)
  {
    OneReaderMembers(s, t, i, next);
    SameQueueKeepsOrder(s, t);
    forall k ensures KeyFits(t, q, k) {
      assert KeyFits(s, p, k);
      if Awaited(s, k) {
        var r :| r in s.readers && WillDecide(s, r, k);
        if r != s.readers[i] { assert WillDecide(t, r, k); }
      }
    }
  }

  /** A reader that could read the store, or turn, was not waiting for the head. */
  lemma OneReaderKeepsHead(s: State, t: State, i: nat, next: Option<Reader>, p: Peers, q: Peers)
    requires PeersInv(s, p) && OneReader(s, t, i, next) && p.owed == q.owed && p.excused <= q.excused
    requires s.readers[i].barrier <= s.finished
    ensures HeadFits(t, q)
  {
    OneReaderMembers(s, t, i, next);
    if s.queue != [] && AwaitedLater(s, s.queue[0].key) {
      var k := s.queue[0].key;
      var r :| r in s.readers && s.finished < r.barrier && r.loaded.None? && !r.applied && InScope(s, r, k);
      assert InScope(t, r, k);
    }
  }

  /** Nobody relies on a reader that has waited for all earlier notifications to follow a stale one. */
  lemma OneReaderKeepsStale(s: State, t: State, i: nat, next: Option<Reader>, p: Peers, q: Peers)
    requires PeersInv(s, p) && OneReader(s, t, i, next) && p.owed == q.owed
    requires s.readers[i].notification.Some? && s.readers[i].loaded.None? ==>
      s.readers[i].notification.value > 0 && NotificationsDone(s, s.readers[i].notification.value - 1)
    requires next.Some? ==> next.value.stale == {} || next.value == s.readers[i] || next.value.loaded.None?
    ensures forall r, k :: r in t.readers && k in r.stale ==> StaleFits(t, q, r, k)
  {
    OneReaderMembers(s, t, i, next);
    forall r, k | r in t.readers && k in r.stale ensures StaleFits(t, q, r, k) {
      if r in s.readers {
        assert StaleFits(s, p, r, k);
        assert forall other :: InScope(t, other, k) == InScope(s, other, k);
        var j :| 0 <= j < |s.readers| && s.readers[j] == r;
        if r.notification.Some? && FollowedUp(s, r.notification.value, k) {
          var later :| later in s.readers && later.notification.Some? && r.notification.value < later.notification.value
                       && later.loaded.None? && InScope(s, later, k);
        }
      }
    }
  }

  lemma OneReaderKeepsPeers(s: State, t: State, i: nat, next: Option<Reader>, p: Peers, q: Peers)
    requires Inv(s) && PeersInv(s, p) && OneReader(s, t, i, next) && p.owed == q.owed && p.excused <= q.excused
    requires forall k :: WillDecide(s, s.readers[i], k) && !s.Agrees(k) ==>
      k in q.excused || (next.Some? && WillDecide(t, next.value, k))
    requires s.readers[i].barrier <= s.finished
    requires s.readers[i].notification.Some? && s.readers[i].loaded.None? ==>
      s.readers[i].notification.value > 0 && NotificationsDone(s, s.readers[i].notification.value - 1)
    requires next.Some? ==> ReaderOrdered(t, next.value) && (next.value.stale == {} || next.value.loaded.None?)
    ensures PeersInv(t, q)
  {
    OneReaderMembers(s, t, i, next);
    OneReaderKeepsKeys(s, t, i, next, p, q);
    OneReaderKeepsHead(s, t, i, next, p, q);
    OneReaderKeepsStale(s, t, i, next, p, q);
  }

  lemma LoadKeepsPeers(s: State, i: nat, p: Peers)
    requires Inv(s) && PeersInv(s, p) && Enabled(s, Load(i))
    ensures PeersInv(Next(s, Load(i)), NextPeers(s, p, Load(i)))
  {
    var t := Next(s, Load(i));
    assert NextPeers(s, p, Load(i)) == p;
    assert ReaderOrdered(s, s.readers[i]);
    OneReaderKeepsPeers(s, t, i, Some(t.readers[i]), p, p);
  }

  lemma LoadFailsKeepsPeers(s: State, i: nat, p: Peers)
    requires Inv(s) && PeersInv(s, p) && Enabled(s, LoadFails(i))
    ensures PeersInv(Next(s, LoadFails(i)), NextPeers(s, p, LoadFails(i)))
  {
    assert ReaderOrdered(s, s.readers[i]);
    OneReaderKeepsPeers(s, Next(s, LoadFails(i)), i, None, p, NextPeers(s, p, LoadFails(i)));
  }

  lemma RefreshTurnKeepsPeers(s: State, i: nat, p: Peers)
    requires Inv(s) && PeersInv(s, p) && Enabled(s, RefreshTurns(i))
    ensures PeersInv(Next(s, RefreshTurns(i)), NextPeers(s, p, RefreshTurns(i)))
  {
    var t := Next(s, RefreshTurns(i));
    assert NextPeers(s, p, RefreshTurns(i)) == p;
    assert ReaderOrdered(s, s.readers[i]);
    if s.readers[i].awaited == Some(s.notifications) {
      OneReaderKeepsPeers(s, t, i, None, p, p);
    } else {
      OneReaderKeepsPeers(s, t, i, Some(t.readers[i]), p, p);
    }
  }

  // ----- a reading is applied -----

  lemma AppliedKeyAgrees(s: State, i: nat, k: Key)
    requires Inv(s) && Enabled(s, Apply(i)) && Covers(s, s.readers[i], k) && k !in Outrun(s, s.readers[i])
    ensures NextApply(s, i).Agrees(k)
  {
    assert ReaderFits(s, s.readers[i]);
    CoveredKeysAreIdle(s, s.readers[i], k);
    MergedLookup(s, s.readers[i], k);
  }

  lemma ApplyKeepsKey(s: State, i: nat, p: Peers, k: Key)
    requires Inv(s) && PeersInv(s, p) && Enabled(s, Apply(i))
    ensures KeyFits(NextApply(s, i), NextPeers(s, p, Apply(i)), k)
  {
    var t := NextApply(s, i);
    var r := s.readers[i];
    var next := if r.notification.None? then Some(t.readers[i]) else None;
    ApplyChangesOne(s, i, next);
    SameQueueKeepsOrder(s, t);
    assert KeyFits(s, p, k) && ReaderOrdered(s, r);
    if Covers(s, r, k) {
      if k !in Outrun(s, r) {
        AppliedKeyAgrees(s, i, k);
      } else {
        assert StaleFits(s, p, r, k);
        OutrunIsFollowed(s, i, p, k);
      }
    } else {
      MergedLookup(s, r, k);
      if Awaited(s, k) {
        var other :| other in s.readers && WillDecide(s, other, k);
        assert other != r ==> WillDecide(t, other, k);
      }
    }
  }

  /** Readers, mirror and marks are all that an applied reading changes. */
  lemma ApplyChangesOne(s: State, i: nat, next: Option<Reader>)
    requires Enabled(s, Apply(i))
    requires next == if s.readers[i].notification.None? then Some(NextApply(s, i).readers[i]) else None
    ensures var t := NextApply(s, i);
      && t == s.(records := t.records, disturbed := t.disturbed, readers := t.readers)
      && (next.Some? ==> next.value == s.readers[i].(loaded := None, applied := true))
    ensures forall r :: r in NextApply(s, i).readers ==> r in s.readers || next == Some(r)
    ensures forall r :: r in s.readers && r != s.readers[i] ==> r in NextApply(s, i).readers
    ensures next.Some? ==> next.value in NextApply(s, i).readers
  {
    if next.Some? { UpdateKeeps(s.readers, i, next.value); } else { WithoutKeeps(s.readers, i); }
  }

  lemma OutrunIsFollowed(s: State, i: nat, p: Peers, k: Key)
    requires Inv(s) && PeersInv(s, p) && Enabled(s, Apply(i)) && Covers(s, s.readers[i], k) && k in Outrun(s, s.readers[i])
    requires StaleFits(s, p, s.readers[i], k)
    ensures k in p.owed || Awaited(NextApply(s, i), k)
  {
    var t := NextApply(s, i);
    var r := s.readers[i];
    var next := if r.notification.None? then Some(t.readers[i]) else None;
    ApplyChangesOne(s, i, next);
    if k !in p.owed {
      if r.notification.None? {
        assert WillDecide(t, next.value, k);
      } else {
        var later :| later in s.readers && later.notification.Some? && r.notification.value < later.notification.value
                     && later.loaded.None? && InScope(s, later, k);
        assert WillDecide(t, later, k);
      }
    }
  }

  /** The head's key is under way, so the reading leaves it alone. */
  lemma ApplySparesHead(s: State, i: nat)
    requires Inv(s) && Enabled(s, Apply(i)) && s.queue != []
    ensures HeadIsNewest(s) ==> Lookup(NextApply(s, i).records, s.queue[0].key) == Lookup(s.records, s.queue[0].key)
    ensures HeadIsNewest(s) ==> !Covers(s, s.readers[i], s.queue[0].key)
  {
    var r := s.readers[i];
    assert ReaderFits(s, r);
    if Covers(s, r, s.queue[0].key) { CoveredKeysAreIdle(s, r, s.queue[0].key); }
    MergedLookup(s, r, s.queue[0].key);
  }

  lemma ApplyKeepsAwaitedLater(s: State, i: nat, k: Key)
    requires Enabled(s, Apply(i)) && AwaitedLater(s, k)
    ensures AwaitedLater(NextApply(s, i), k)
  {
    var t := NextApply(s, i);
    ApplyChangesOne(s, i, if s.readers[i].notification.None? then Some(t.readers[i]) else None);
    var later :| later in s.readers && s.finished < later.barrier && later.loaded.None? && !later.applied
                 && InScope(s, later, k);
    assert InScope(t, later, k);
  }

  lemma ApplyKeepsHeadShown(s: State, i: nat)
    requires Inv(s) && Enabled(s, Apply(i)) && s.queue != [] && HeadIsNewest(s)
    ensures ShownAfter(NextApply(s, i)) == ShownAfter(s)
  {
    ApplySparesHead(s, i);
    SameHeadShown(s, NextApply(s, i));
  }

  lemma SameHeadShown(s: State, t: State)
    requires s.queue != [] && t.queue == s.queue && t.phase == s.phase && t.uncommitted == s.uncommitted
    requires t.snapshots == s.snapshots && Lookup(t.records, s.queue[0].key) == Lookup(s.records, s.queue[0].key)
    ensures ShownAfter(t) == ShownAfter(s)
  {
  }

  lemma ApplyKeepsHead(s: State, i: nat, p: Peers)
    requires Inv(s) && PeersInv(s, p) && Enabled(s, Apply(i))
    ensures HeadFits(NextApply(s, i), NextPeers(s, p, Apply(i)))
  {
    if HeadShowsOther(NextApply(s, i)) {
      ApplySparesHead(s, i);
      ApplyKeepsHeadShown(s, i);
      if AwaitedLater(s, s.queue[0].key) { ApplyKeepsAwaitedLater(s, i, s.queue[0].key); }
    }
  }

  lemma ApplyKeepsPeers(s: State, i: nat, p: Peers)
    requires Inv(s) && PeersInv(s, p) && Enabled(s, Apply(i))
    ensures PeersInv(NextApply(s, i), NextPeers(s, p, Apply(i)))
  {
    var t := NextApply(s, i);
    var q := NextPeers(s, p, Apply(i));
    var next := if s.readers[i].notification.None? then Some(t.readers[i]) else None;
    ApplyChangesOne(s, i, next);
    assert ReaderOrdered(s, s.readers[i]);
    forall k ensures KeyFits(t, q, k) { ApplyKeepsKey(s, i, p, k); }
    ApplyKeepsHead(s, i, p);
    forall r, k | r in t.readers && k in r.stale ensures StaleFits(t, q, r, k) {
      if r in s.readers {
        assert StaleFits(s, p, r, k);
        ApplyKeepsFollowed(s, i, p, r, k);
      }
    }
  }

  lemma ApplyKeepsFollowed(s: State, i: nat, p: Peers, r: Reader, k: Key)
    requires Enabled(s, Apply(i)) && StaleFits(s, p, r, k)
    ensures StaleFits(NextApply(s, i), NextPeers(s, p, Apply(i)), r, k)
  {
    var t := NextApply(s, i);
    ApplyChangesOne(s, i, if s.readers[i].notification.None? then Some(t.readers[i]) else None);
    if r.notification.Some? && FollowedUp(s, r.notification.value, k) {
      var later :| later in s.readers && later.notification.Some? && r.notification.value < later.notification.value
                   && later.loaded.None? && InScope(s, later, k);
      assert InScope(t, later, k);
    }
  }

  // ----- peers -----

  function Staled(r: Reader, changed: set<Key>): Reader {
    if r.loaded.Some? then r.(stale := r.stale + changed) else r
  }

  lemma PeerChangeMembers(s: State, durable: map<Key, Value>, changed: set<Key>)
    ensures forall r :: r in NextPeerChange(s, durable, changed).readers ==>
      exists before :: before in s.readers && r == Staled(before, changed)
    ensures forall r :: r in s.readers ==> Staled(r, changed) in NextPeerChange(s, durable, changed).readers
  {
    var t := NextPeerChange(s, durable, changed);
    forall r | r in t.readers ensures exists before :: before in s.readers && r == Staled(before, changed) {
      var j :| 0 <= j < |t.readers| && t.readers[j] == r;
      assert s.readers[j] in s.readers && r == Staled(s.readers[j], changed);
    }
    forall r | r in s.readers ensures Staled(r, changed) in t.readers {
      var j :| 0 <= j < |s.readers| && s.readers[j] == r;
      assert t.readers[j] == Staled(r, changed);
    }
  }

  lemma PeerChangeKeepsKey(s: State, durable: map<Key, Value>, changed: set<Key>, p: Peers, q: Peers, k: Key)
    requires PeersInv(s, p) && KeyFits(s, p, k) && q.owed == p.owed + changed && q.excused == p.excused
    requires forall other :: other !in changed ==> Lookup(durable, other) == Lookup(s.durable, other)
    ensures KeyFits(NextPeerChange(s, durable, changed), q, k)
  {
    var t := NextPeerChange(s, durable, changed);
    PeerChangeMembers(s, durable, changed);
    assert t.LatestPending(k) == s.LatestPending(k);
    if k !in changed && Awaited(s, k) {
      var r :| r in s.readers && WillDecide(s, r, k);
      assert WillDecide(t, Staled(r, changed), k);
    }
  }

  lemma PeerChangeKeepsHead(s: State, durable: map<Key, Value>, changed: set<Key>, p: Peers, q: Peers)
    requires PeersInv(s, p) && q.owed == p.owed + changed && q.excused == p.excused
    requires forall other :: other !in changed ==> Lookup(durable, other) == Lookup(s.durable, other)
    ensures HeadFits(NextPeerChange(s, durable, changed), q)
  {
    var t := NextPeerChange(s, durable, changed);
    PeerChangeMembers(s, durable, changed);
    if s.queue != [] && AwaitedLater(s, s.queue[0].key) {
      var r :| r in s.readers && s.finished < r.barrier && r.loaded.None? && !r.applied && InScope(s, r, s.queue[0].key);
      assert Staled(r, changed) == r && InScope(t, r, s.queue[0].key);
    }
  }

  lemma PeerChangeKeepsStale(s: State, durable: map<Key, Value>, changed: set<Key>, p: Peers, q: Peers, r: Reader, k: Key)
    requires PeersInv(s, p) && q.owed == p.owed + changed
    requires r in NextPeerChange(s, durable, changed).readers && k in r.stale
    ensures StaleFits(NextPeerChange(s, durable, changed), q, r, k)
  {
    var t := NextPeerChange(s, durable, changed);
    PeerChangeMembers(s, durable, changed);
    var before :| before in s.readers && r == Staled(before, changed);
    if k !in changed {
      assert StaleFits(s, p, before, k);
      if r.notification.Some? && FollowedUp(s, r.notification.value, k) {
        var later :| later in s.readers && later.notification.Some? && r.notification.value < later.notification.value
                     && later.loaded.None? && InScope(s, later, k);
        assert Staled(later, changed) == later && InScope(t, later, k);
      }
    }
  }

  lemma PeerChangeKeepsPeers(s: State, durable: map<Key, Value>, changed: set<Key>, p: Peers, q: Peers)
    requires PeersInv(s, p) && q.owed == p.owed + changed && q.excused == p.excused
    requires forall other :: other !in changed ==> Lookup(durable, other) == Lookup(s.durable, other)
    ensures PeersInv(NextPeerChange(s, durable, changed), q)
  {
    var t := NextPeerChange(s, durable, changed);
    forall k ensures KeyFits(t, q, k) {
      assert KeyFits(s, p, k);
      PeerChangeKeepsKey(s, durable, changed, p, q, k);
    }
    PeerChangeKeepsHead(s, durable, changed, p, q);
    PeerChangeMembers(s, durable, changed);
    forall r | r in t.readers ensures ReaderOrdered(t, r) {
      var before :| before in s.readers && r == Staled(before, changed);
      assert ReaderOrdered(s, before);
    }
    forall r, k | r in t.readers && k in r.stale ensures StaleFits(t, q, r, k) {
      PeerChangeKeepsStale(s, durable, changed, p, q, r, k);
    }
  }

  lemma PeerStepKeepsPeers(s: State, e: Event, p: Peers)
    requires PeersInv(s, p) && PeerEvent(e)
    ensures PeersInv(Next(s, e), NextPeers(s, p, e))
  {
    assert NextPeers(s, p, e).excused == p.excused;
    if e.PeerCommits? {
      PeerChangeKeepsPeers(s, Assign(s.durable, e.key, e.stored), {e.key}, p, NextPeers(s, p, e));
    } else {
      PeerChangeKeepsPeers(s, map[], s.durable.Keys, p, NextPeers(s, p, e));
    }
  }

  // ----- whole runs -----

  lemma FlushStepKeepsPeers(s: State, e: Event, p: Peers)
    requires PeersInv(s, p) && Enabled(s, e) && FlushEvent(e)
    ensures PeersInv(Next(s, e), NextPeers(s, p, e))
  {
    var t := Next(s, e);
    ReaderStepChangesReaders(s, e);
    assert NextPeers(s, p, e) == p;
    assert t == s.(refreshFailed := t.refreshFailed, flushes := t.flushes, observed := t.observed);
    OnlyFlushesChange(s, t, p);
  }

  lemma OnlyFlushesChange(s: State, t: State, p: Peers)
    requires PeersInv(s, p) && t == s.(refreshFailed := t.refreshFailed, flushes := t.flushes, observed := t.observed)
    ensures PeersInv(t, p)
  {
    forall k ensures KeyFits(t, p, k) {
      assert KeyFits(s, p, k);
      assert t.LatestPending(k) == s.LatestPending(k);
      if Awaited(s, k) {
        var r :| r in s.readers && WillDecide(s, r, k);
        assert WillDecide(t, r, k);
      }
    }
    if s.queue != [] && AwaitedLater(s, s.queue[0].key) {
      var r :| r in s.readers && s.finished < r.barrier && r.loaded.None? && !r.applied && InScope(s, r, s.queue[0].key);
      assert InScope(t, r, s.queue[0].key);
    }
    forall r, k | r in t.readers && k in r.stale ensures StaleFits(t, p, r, k) {
      SameReadersStale(s, t, p, p, r, k);
    }
  }

  lemma StepKeepsPeers(s: State, e: Event, p: Peers)
    requires Inv(s) && PeersInv(s, p) && Enabled(s, e)
    ensures PeersInv(Next(s, e), NextPeers(s, p, e))
  {
    if e.SetItem? || e.RemoveItem? || e.Compare? {
      CallKeepsPeers(s, e, p);
    } else if e.Continue? {
      ContinueKeepsPeers(s, p);
    } else if PhaseEvent(e) {
      PhaseStepKeepsPeers(s, e, p);
    } else if PeerEvent(e) {
      PeerStepKeepsPeers(s, e, p);
    } else if FlushEvent(e) {
      FlushStepKeepsPeers(s, e, p);
    } else if e.Apply? {
      ApplyKeepsPeers(s, e.index, p);
    } else if e.Load? {
      LoadKeepsPeers(s, e.index, p);
    } else if e.LoadFails? {
      LoadFailsKeepsPeers(s, e.index, p);
    } else if e.RefreshTurns? {
      RefreshTurnKeepsPeers(s, e.index, p);
    } else {
      StartKeepsPeers(s, e, p);
    }
  }

  /** What is owed and excused after a run. */
  ghost function PeersAfter(s: State, p: Peers, run: seq<Event>): Peers
    requires Possible(s, run)
    decreases |run|
  {
    if run == [] then p else PeersAfter(Next(s, run[0]), NextPeers(s, p, run[0]), run[1..])
  }

  lemma {:induction false} PeersRunKeeps(s: State, p: Peers, run: seq<Event>)
    requires Inv(s) && PeersInv(s, p) && Possible(s, run)
    ensures PeersInv(After(s, run), PeersAfter(s, p, run))
    decreases |run|
  {
    if run != [] {
      StepKeeps(s, run[0]);
      StepKeepsPeers(s, run[0], p);
      PeersRunKeeps(Next(s, run[0]), NextPeers(s, p, run[0]), run[1..]);
    }
  }

  /**
   Convergence across tabs: once the queue has drained and no reading is under way, and a notification has followed every
   change of a peer, each key shows what is stored, unless it is an uncommitted draft or a failure of this tab has left it
   behind and nothing has brought it back since.
   */
  lemma TabsConverge(durable: map<Key, Value>, run: seq<Event>, k: Key)
    requires Possible(Start(durable), run)
    ensures var s := After(Start(durable), run);
            var p := PeersAfter(Start(durable), Peers({}, {}), run);
      s.queue == [] && s.readers == [] && k !in p.owed && k !in p.excused && k !in s.uncommitted ==>
        Lookup(s.records, k) == Lookup(s.durable, k)
  {
    var s0 := Start(durable);
    assert forall other :: s0.Agrees(other);
    RunKeeps(s0, run);
    PeersRunKeeps(s0, Peers({}, {}), run);
    assert KeyFits(After(s0, run), PeersAfter(s0, Peers({}, {}), run), k);
  }
}

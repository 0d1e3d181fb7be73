/**
 What a refresh repairs. Its readings decide exactly the keys that have not been mutated since it was called, and its return
 clears the mark of notifications that could not be read, whatever keys it has spared.
 */
module RecoveryRefresh {
  import opened Options
  import opened RecoveryMirror
  import opened RecoveryInvariants
  import opened RecoveryMirrorProofs
  import opened RecoveryReceiptProofs
  import opened RecoveryConvergence
  import opened RecoveryPeers

  // ----- one reading -----

  predicate IsRefresh(r: Reader) {
    r.notification.None? && r.scope.Everything?
  }

  /** The refresh returns: no notification has come since it last waited for them. */
  predicate Returns(s: State, e: Event)
    requires Enabled(s, e)
  {
    e.RefreshTurns? && s.readers[e.index].awaited == Some(s.notifications)
  }

  /** What a refresh read is still stored: then it repairs the key if and only if nothing mutated it after the call. */
  lemma ReadingDecidesExactly(s: State, i: nat, k: Key)
    requires Inv(s) && Enabled(s, Apply(i)) && IsRefresh(s.readers[i]) && k !in s.uncommitted
    requires Lookup(s.readers[i].loaded.value, k) == Lookup(s.durable, k)
    ensures Next(s, Apply(i)).Agrees(k) <==> s.KeySequence(k) <= s.readers[i].fence || s.Agrees(k)
  {
    MergedLookup(s, s.readers[i], k);
  }

  // ----- who has left a key behind -----

  /**
   Keys that peers have changed since their last notification (`owed`); keys left behind by this tab's own transactions
   (`failed`), by a refresh that could not read the store and was refused (`refused`), and by a notification that could not
   (`unread`); and the fence of the refresh that returned last.
   */
  datatype History = History(
    owed: set<Key>, failed: set<Key>, refused: set<Key>, unread: set<Key>, returned: Option<nat>)

  ghost function Kept(s: State, keys: set<Key>, e: Event): set<Key>
    requires Enabled(s, e)
  {
    set k | k in keys && !(Restores(s, e, k) && !Disturbs(s, e, k))
  }

  predicate Refuses(s: State, e: Event)
    requires Enabled(s, e)
  {
    e.LoadFails? && s.readers[e.index].notification.None?
  }

  predicate LosesNotification(s: State, e: Event)
    requires Enabled(s, e)
  {
    e.LoadFails? && s.readers[e.index].notification.Some?
  }

  ghost function NextHistory(s: State, h: History, e: Event): History
    requires Enabled(s, e)
  {
    History(
      NextOwed(s, h.owed, e),
      Kept(s, h.failed, e) + (if e.LoadFails? then {} else Failed(s, e)),
      Kept(s, h.refused, e) + (if Refuses(s, e) then Failed(s, e) else {}),
      Kept(s, h.unread, e) + (if LosesNotification(s, e) then Failed(s, e) else {}),
      if Returns(s, e) then Some(s.readers[e.index].fence) else h.returned)
  }

  /** Those of the keys that have been mutated after generation `fence`. */
  function Newer(s: State, keys: set<Key>, fence: nat): set<Key> {
    set k | k in keys && fence < s.KeySequence(k)
  }

  /** What the last refresh to return has cleared the mark of, but has spared. */
  function Forgotten(s: State, h: History): set<Key> {
    match h.returned
    case None => {}
    case Some(fence) => Newer(s, h.unread, fence)
  }

  // ----- the invariant -----

  /** Nothing but these keys is behind without a peer's notification or a reading still to come. */
  ghost predicate OnlyBehind(s: State, h: History, keys: set<Key>) {
    PeersInv(s, Peers(h.owed, keys))
  }

  /** The refresh has taken over its last reading. */
  predicate HasCaughtUp(s: State, r: Reader) {
    IsRefresh(r) && r.applied && r.awaited == Some(s.notifications)
  }

  predicate Waited(s: State, r: Reader) {
    && (r.notification.None? ==> r.scope.Everything?)
    && (r.loaded.Some? || r.applied ==>
          r.barrier <= s.finished && r.awaited.Some? && (r.notification.None? ==> NotificationsDone(s, r.awaited.value)))
  }

  ghost predicate ReadersWaited(s: State) {
    forall r :: r in s.readers ==> Waited(s, r)
  }

  ghost predicate CaughtUpFits(s: State, h: History) {
    forall r :: r in s.readers && HasCaughtUp(s, r) ==>
      OnlyBehind(s, h, h.refused + Newer(s, h.failed + h.unread, r.fence))
  }

  ghost predicate HistoryInv(s: State, h: History) {
    && OnlyBehind(s, h, h.failed + h.refused + h.unread)
    && (!s.refreshFailed ==> OnlyBehind(s, h, h.failed + h.refused + Forgotten(s, h)))
    && CaughtUpFits(s, h)
    && ReadersWaited(s)
  }

  // ----- readers have waited -----

  /** The numbers of the notifications that are not worked off. */
  function Numbers(s: State): set<nat> {
    set r | r in s.readers && r.notification.Some? :: r.notification.value
  }

  lemma DoneMeans(s: State, n: nat)
    ensures NotificationsDone(s, n) <==> forall m :: m in Numbers(s) ==> n < m
  {
    if NotificationsDone(s, n) {
      forall m | m in Numbers(s) ensures n < m {
        var r :| r in s.readers && r.notification == Some(m);
        var j :| 0 <= j < |s.readers| && s.readers[j] == r;
      }
    }
    if forall m :: m in Numbers(s) ==> n < m {
      forall j | 0 <= j < |s.readers| && s.readers[j].notification.Some? ensures n < s.readers[j].notification.value {
        assert s.readers[j] in s.readers;
        assert s.readers[j].notification.value in Numbers(s);
      }
    }
  }

  /** Nothing that a reader has waited for comes back. */
  ghost predicate Advances(s: State, t: State) {
    s.finished <= t.finished && Numbers(t) <= Numbers(s) + {s.notifications + 1}
  }

  lemma WaitedStays(s: State, t: State, r: Reader)
    requires Waited(s, r) && ReaderOrdered(s, r) && Advances(s, t)
    ensures Waited(t, r)
  {
    if (r.loaded.Some? || r.applied) && r.notification.None? {
      DoneMeans(s, r.awaited.value);
      DoneMeans(t, r.awaited.value);
    }
  }

  /** Steps that leave the readers alone. */
  lemma SameReadersWaited(s: State, t: State)
    requires ReadersWaited(s) && (forall r :: r in s.readers ==> ReaderOrdered(s, r))
    requires t.readers == s.readers && s.finished <= t.finished
    ensures ReadersWaited(t)
  {
    forall r | r in t.readers ensures Waited(t, r) { WaitedStays(s, t, r); }
  }

  lemma StartWaits(s: State, e: Event)
    requires Inv(s) && ReadersWaited(s) && (forall r :: r in s.readers ==> ReaderOrdered(s, r))
    requires e.StartRefresh? || e.Notified? || e.NotifiedOfClear?
    ensures ReadersWaited(Next(s, e))
  {
    var t := Next(s, e);
    StartAddsReader(s, e);
    forall r | r in t.readers ensures Waited(t, r) {
      if r in s.readers { WaitedStays(s, t, r); }
    }
  }

  lemma OneReaderWaits(s: State, e: Event)
    requires ReadersWaited(s) && (forall r :: r in s.readers ==> ReaderOrdered(s, r)) && Enabled(s, e)
    requires e.Load? || e.LoadFails? || e.RefreshTurns? || e.Apply?
    ensures ReadersWaited(Next(s, e))
  {
    var t := Next(s, e);
    var i := e.index;
    assert Waited(s, s.readers[i]) && ReaderOrdered(s, s.readers[i]);
    var replaced := if |t.readers| == |s.readers| then Some(t.readers[i]) else None;
    assert t.readers == if replaced.Some? then s.readers[i := replaced.value] else Without(s.readers, i);
    OneReaderAdvances(s, t, i, replaced);
    forall r | r in t.readers ensures Waited(t, r) {
      if r in s.readers {
        WaitedStays(s, t, r);
      } else {
        assert replaced == Some(r);
        DoneStays(s, t, r);
      }
    }
  }

  lemma OneReaderAdvances(s: State, t: State, i: nat, next: Option<Reader>)
    requires i < |s.readers| && s.finished <= t.finished
    requires t.readers == if next.Some? then s.readers[i := next.value] else Without(s.readers, i)
    requires next.Some? ==> next.value.notification == s.readers[i].notification
    ensures Advances(s, t)
    ensures forall r :: r in t.readers ==> r in s.readers || next == Some(r)
  {
    if next.Some? { UpdateKeeps(s.readers, i, next.value); } else { WithoutKeeps(s.readers, i); }
  }

  lemma DoneStays(s: State, t: State, r: Reader)
    requires Advances(s, t) && r.awaited.Some? && r.awaited.value <= s.notifications
    ensures NotificationsDone(s, r.awaited.value) ==> NotificationsDone(t, r.awaited.value)
  {
    DoneMeans(s, r.awaited.value);
    DoneMeans(t, r.awaited.value);
  }

  lemma PeersKeepNumbers(s: State, durable: map<Key, Value>, changed: set<Key>)
    ensures Numbers(NextPeerChange(s, durable, changed)) <= Numbers(s)
  {
    var t := NextPeerChange(s, durable, changed);
    PeerChangeMembers(s, durable, changed);
    forall n | n in Numbers(t) ensures n in Numbers(s) {
      var r :| r in t.readers && r.notification == Some(n);
      var before :| before in s.readers && r == Staled(before, changed);
      assert before.notification == Some(n);
    }
  }

  lemma PeersWait(s: State, e: Event)
    requires ReadersWaited(s) && (forall r :: r in s.readers ==> ReaderOrdered(s, r)) && PeerEvent(e)
    ensures ReadersWaited(Next(s, e))
  {
    var t := Next(s, e);
    var changed := if e.PeerCommits? then {e.key} else s.durable.Keys;
    PeerChangeMembers(s, t.durable, changed);
    PeersKeepNumbers(s, t.durable, changed);
    forall r | r in t.readers ensures Waited(t, r) {
      var before :| before in s.readers && r == Staled(before, changed);
      WaitedStays(s, t, before);
    }
  }

  lemma StepKeepsWaited(s: State, e: Event)
    requires Inv(s) && ReadersWaited(s) && (forall r :: r in s.readers ==> ReaderOrdered(s, r)) && Enabled(s, e)
    ensures ReadersWaited(Next(s, e))
  {
    if e.StartRefresh? || e.Notified? || e.NotifiedOfClear? {
      StartWaits(s, e);
    } else if e.Load? || e.LoadFails? || e.RefreshTurns? || e.Apply? {
      OneReaderWaits(s, e);
    } else if PeerEvent(e) {
      PeersWait(s, e);
    } else {
      OtherStepsKeepReaders(s, e);
      SameReadersWaited(s, Next(s, e));
    }
  }

  /** Neither a reader's step nor a peer's. */
  predicate TabEvent(e: Event) {
    !ReaderEvent(e) && !e.Apply? && !PeerEvent(e)
  }

  lemma OtherStepsKeepReaders(s: State, e: Event)
    requires Inv(s) && Enabled(s, e) && TabEvent(e)
    ensures var t := Next(s, e);
      t.readers == s.readers && t.notifications == s.notifications && s.finished <= t.finished
  {
    if e.Continue? {
      ContinueTouchesOwnKey(s);
      if !StartsReadBack(s) { ContinuePops(s); } else { ReadingBackStarts(s); }
    } else if FlushEvent(e) {
      ReaderStepChangesReaders(s, e);
    } else if e.SetItem? || e.RemoveItem? || e.Compare? {
      CallIsCall(s, e);
    } else {
      PhaseStepMoves(s, e);
    }
  }

  // ----- excuses -----

  lemma ExcusingMoreKeeps(s: State, p: Peers, q: Peers)
    requires PeersInv(s, p) && p.owed == q.owed && p.excused <= q.excused
    ensures PeersInv(s, q)
  {
    forall k ensures KeyFits(s, q, k) { assert KeyFits(s, p, k); }
    forall r, k | r in s.readers && k in r.stale ensures StaleFits(s, q, r, k) { assert StaleFits(s, p, r, k); }
  }

  lemma SequencesGrow(s: State, e: Event)
    requires Inv(s) && Enabled(s, e)
    ensures forall k :: s.KeySequence(k) <= Next(s, e).KeySequence(k)
    ensures forall k :: !Mutates(e, k) ==> Next(s, e).KeySequence(k) == s.KeySequence(k)
  {
    if e.SetItem? || e.RemoveItem? || e.Compare? {
      CallIsCall(s, e);
    } else {
      OnlyCallsMutate(s, e);
    }
  }

  lemma OnlyCallsMutate(s: State, e: Event)
    requires Enabled(s, e) && !e.SetItem? && !e.RemoveItem? && !e.Compare?
    ensures Next(s, e).keySequences == s.keySequences
  {
    if e.Continue? {
      ContinueTouchesOwnKey(s);
    } else if ReaderEvent(e) || FlushEvent(e) {
      ReaderStepChangesReaders(s, e);
    }
  }

  /**
   Whatever excuses keys, before and after a step, as always or only when they are newer than a fence: nothing else is
   behind.
   */
  lemma ExcusesStay(s: State, h: History, e: Event, fence: nat,
                    always: set<Key>, sometimes: set<Key>, always2: set<Key>, sometimes2: set<Key>)
    requires Inv(s) && Enabled(s, e) && OnlyBehind(s, h, always + Newer(s, sometimes, fence))
    requires Kept(s, always, e) <= always2 && Kept(s, sometimes, e) <= sometimes2
    requires Failed(s, e) <= always2 + Newer(Next(s, e), sometimes2, fence)
    ensures OnlyBehind(Next(s, e), NextHistory(s, h, e), always2 + Newer(Next(s, e), sometimes2, fence))
  {
    var p := Peers(h.owed, always + Newer(s, sometimes, fence));
    StepKeepsPeers(s, e, p);
    SequencesGrow(s, e);
    forall k | k in NextExcused(s, p.excused, e) ensures k in always2 + Newer(Next(s, e), sometimes2, fence) {
      if k !in Failed(s, e) {
        if k in always { assert k in Kept(s, always, e); } else { assert k in Kept(s, sometimes, e); }
      }
    }
    ExcusingMoreKeeps(Next(s, e), NextPeers(s, p, e),
                      Peers(NextOwed(s, h.owed, e), always2 + Newer(Next(s, e), sometimes2, fence)));
  }

  /** The head of the queue has been called after every refresh that has read the store. */
  lemma HeadIsNewer(s: State, r: Reader)
    requires Inv(s) && r in s.readers && Waited(s, r) && r.applied && s.queue != []
    ensures r.fence < s.KeySequence(s.queue[0].key)
  {
    assert ReaderFits(s, r);
  }

  // ----- a refresh that has caught up -----

  /** A refresh that has caught up was there before, or takes over its reading in this step. */
  lemma CaughtUpBefore(s: State, h: History, e: Event, r: Reader)
    requires Inv(s) && HistoryInv(s, h) && Enabled(s, e)
    requires r in Next(s, e).readers && HasCaughtUp(Next(s, e), r)
    ensures !e.Notified? && !e.NotifiedOfClear? && Next(s, e).notifications == s.notifications
    ensures (r in s.readers && HasCaughtUp(s, r))
      || (e.Apply? && r == s.readers[e.index].(loaded := None, applied := true) && r.notification.None?)
  {
    var t := Next(s, e);
    if e.StartRefresh? || e.Notified? || e.NotifiedOfClear? {
      StartsNotCaughtUp(s, e, r);
    } else if e.Load? || e.LoadFails? || e.RefreshTurns? || e.Apply? {
      assert Waited(s, s.readers[e.index]) && ReaderOrdered(s, s.readers[e.index]);
      OneReaderFlows(s, e, r);
    } else if PeerEvent(e) {
      var changed := if e.PeerCommits? then {e.key} else s.durable.Keys;
      PeerChangeMembers(s, t.durable, changed);
      var before :| before in s.readers && r == Staled(before, changed);
      assert ReaderOrdered(s, before);
    } else {
      OtherStepsKeepReaders(s, e);
    }
  }

  lemma StartsNotCaughtUp(s: State, e: Event, r: Reader)
    requires Inv(s) && (e.StartRefresh? || e.Notified? || e.NotifiedOfClear?)
    requires forall before :: before in s.readers ==> ReaderOrdered(s, before)
    requires r in Next(s, e).readers && HasCaughtUp(Next(s, e), r)
    ensures e.StartRefresh? && r in s.readers && HasCaughtUp(s, r) && Next(s, e).notifications == s.notifications
  {
    StartAddsReader(s, e);
    assert r in s.readers && ReaderOrdered(s, r);
  }

  lemma OneReaderFlows(s: State, e: Event, r: Reader)
    requires Enabled(s, e) && (e.Load? || e.LoadFails? || e.RefreshTurns? || e.Apply?)
    requires r in Next(s, e).readers && r.applied
    ensures Next(s, e).notifications == s.notifications
    ensures r in s.readers
      || (e.Apply? && r == s.readers[e.index].(loaded := None, applied := true) && r.notification.None?)
  {
    var t := Next(s, e);
    var i := e.index;
    var replaced := if |t.readers| == |s.readers| then Some(t.readers[i]) else None;
    assert t.readers == if replaced.Some? then s.readers[i := replaced.value] else Without(s.readers, i);
    OneReaderAdvances(s, t, i, replaced);
  }

  /** The last reading of a refresh leaves behind only what was mutated after its call, or what a refused one had left. */
  lemma ReadingSettles(s: State, h: History, i: nat)
    requires Inv(s) && HistoryInv(s, h) && Enabled(s, Apply(i)) && IsRefresh(s.readers[i])
    requires s.readers[i].awaited == Some(s.notifications)
    ensures var t := Next(s, Apply(i));
            var g := NextHistory(s, h, Apply(i));
      OnlyBehind(t, g, g.refused + Newer(t, g.failed + g.unread, s.readers[i].fence))
  {
    var t := Next(s, Apply(i));
    var g := NextHistory(s, h, Apply(i));
    var r := s.readers[i];
    var p := Peers(h.owed, h.failed + h.refused + h.unread);
    var q := Peers(g.owed, g.refused + Newer(t, g.failed + g.unread, r.fence));
    StepKeepsPeers(s, Apply(i), p);
    assert NextPeers(s, p, Apply(i)) == Peers(g.owed, g.failed + g.refused + g.unread);
    forall k ensures KeyFits(t, q, k) {
      assert KeyFits(t, NextPeers(s, p, Apply(i)), k);
      if k in g.failed + g.unread && t.KeySequence(k) <= r.fence && k !in t.uncommitted {
        ReadingSettlesKey(s, p, i, k);
      }
    }
    if s.queue != [] {
      assert ReaderFits(s, r);
      assert r.fence < s.KeySequence(s.queue[0].key);
    }
    forall x, k | x in t.readers && k in x.stale ensures StaleFits(t, q, x, k) {
      assert StaleFits(t, NextPeers(s, p, Apply(i)), x, k);
    }
  }

  /** The last reading of a refresh shows what is stored, unless a peer has not yet notified this tab. */
  lemma ReadingSettlesKey(s: State, p: Peers, i: nat, k: Key)
    requires Inv(s) && PeersInv(s, p) && Enabled(s, Apply(i)) && IsRefresh(s.readers[i])
    requires s.readers[i].awaited == Some(s.notifications)
    requires s.KeySequence(k) <= s.readers[i].fence && k !in s.uncommitted
    ensures k in p.owed || Next(s, Apply(i)).Agrees(k)
  {
    var r := s.readers[i];
    if k in r.stale {
      assert StaleFits(s, p, r, k);
    } else {
      AppliedKeyAgrees(s, i, k);
    }
  }

  // ----- every step -----

  lemma StepKeepsBehind(s: State, h: History, e: Event)
    requires Inv(s) && HistoryInv(s, h) && Enabled(s, e)
    ensures var g := NextHistory(s, h, e); OnlyBehind(Next(s, e), g, g.failed + g.refused + g.unread)
  {
    var g := NextHistory(s, h, e);
    var p := Peers(h.owed, h.failed + h.refused + h.unread);
    StepKeepsPeers(s, e, p);
    ExcusingMoreKeeps(Next(s, e), NextPeers(s, p, e), Peers(g.owed, g.failed + g.refused + g.unread));
  }

  /** A notification that cannot be read has numbers in the way of every refresh that would have caught up. */
  lemma LostNotificationMeansNoneCaughtUp(s: State, h: History, e: Event, r: Reader)
    requires HistoryInv(s, h) && Enabled(s, e) && LosesNotification(s, e) && r in s.readers
    ensures !HasCaughtUp(s, r)
  {
    assert Waited(s, r) && ReaderOrdered(s, s.readers[e.index]);
    assert s.readers[e.index].notification.value in Numbers(s);
    DoneMeans(s, s.notifications);
  }

  /** A refresh that has caught up excuses no failure but those of newer keys and of other refreshes. */
  lemma FailureIsNewer(s: State, h: History, e: Event, r: Reader)
    requires Inv(s) && HistoryInv(s, h) && Enabled(s, e) && r in s.readers && HasCaughtUp(s, r)
    requires forall k :: s.KeySequence(k) <= Next(s, e).KeySequence(k)
    ensures var g := NextHistory(s, h, e); Failed(s, e) <= g.refused + Newer(Next(s, e), g.failed + g.unread, r.fence)
  {
    if e.LoadFails? {
      if LosesNotification(s, e) { LostNotificationMeansNoneCaughtUp(s, h, e, r); }
    } else if e.Abort? || e.LoadBackFails? {
      HeadIsNewer(s, r);
    }
  }

  lemma StepKeepsCaughtUp(s: State, h: History, e: Event, r: Reader)
    requires Inv(s) && HistoryInv(s, h) && Enabled(s, e)
    requires r in Next(s, e).readers && HasCaughtUp(Next(s, e), r)
    ensures var g := NextHistory(s, h, e);
      OnlyBehind(Next(s, e), g, g.refused + Newer(Next(s, e), g.failed + g.unread, r.fence))
  {
    var g := NextHistory(s, h, e);
    CaughtUpBefore(s, h, e, r);
    if r in s.readers && HasCaughtUp(s, r) {
      SequencesGrow(s, e);
      FailureIsNewer(s, h, e, r);
      ExcusesStay(s, h, e, r.fence, h.refused, h.failed + h.unread, g.refused, g.failed + g.unread);
    } else {
      ReadingSettles(s, h, e.index);
    }
  }

  lemma StepKeepsForgotten(s: State, h: History, e: Event)
    requires Inv(s) && HistoryInv(s, h) && Enabled(s, e) && !Next(s, e).refreshFailed
    ensures var g := NextHistory(s, h, e); OnlyBehind(Next(s, e), g, g.failed + g.refused + Forgotten(Next(s, e), g))
  {
    var g := NextHistory(s, h, e);
    if Returns(s, e) {
      ReturnForgets(s, h, e);
    } else {
      MarkStays(s, e);
      match h.returned
      case None =>
        assert Newer(Next(s, e), {}, 0) == {} == Newer(s, {}, 0);
        ExcusesStay(s, h, e, 0, h.failed + h.refused, {}, g.failed + g.refused, {});
      case Some(fence) =>
        ExcusesStay(s, h, e, fence, h.failed + h.refused, h.unread, g.failed + g.refused, g.unread);
    }
  }

  /** The mark of a failed notification goes only by the return of a refresh. */
  lemma MarkStays(s: State, e: Event)
    requires Enabled(s, e) && !Returns(s, e) && !Next(s, e).refreshFailed
    ensures !s.refreshFailed && !LosesNotification(s, e)
  {
    if e.Continue? {
      ContinueTouchesOwnKey(s);
    } else if !e.LoadFails? && !e.RefreshTurns? {
      OthersKeepMark(s, e);
    }
  }

  lemma OthersKeepMark(s: State, e: Event)
    requires Enabled(s, e) && !e.Continue? && !e.LoadFails? && !e.RefreshTurns?
    ensures Next(s, e).refreshFailed == s.refreshFailed
  {
  }

  lemma ReturnForgets(s: State, h: History, e: Event)
    requires Inv(s) && HistoryInv(s, h) && Enabled(s, e) && Returns(s, e)
    ensures var g := NextHistory(s, h, e); OnlyBehind(Next(s, e), g, g.failed + g.refused + Forgotten(Next(s, e), g))
  {
    var g := NextHistory(s, h, e);
    var r := s.readers[e.index];
    assert Waited(s, r) && HasCaughtUp(s, r);
    var always := h.failed + h.refused;
    ExcusingMoreKeeps(s, Peers(h.owed, h.refused + Newer(s, h.failed + h.unread, r.fence)),
                      Peers(h.owed, always + Newer(s, h.unread, r.fence)));
    ExcusesStay(s, h, e, r.fence, always, h.unread, g.failed + g.refused, g.unread);
  }

  lemma StepKeepsHistory(s: State, h: History, e: Event)
    requires Inv(s) && HistoryInv(s, h) && Enabled(s, e)
    ensures HistoryInv(Next(s, e), NextHistory(s, h, e))
  {
    var t := Next(s, e);
    StepKeepsBehind(s, h, e);
    StepKeepsWaited(s, e);
    if !t.refreshFailed { StepKeepsForgotten(s, h, e); }
    forall r | r in t.readers && HasCaughtUp(t, r)
      ensures var g := NextHistory(s, h, e); OnlyBehind(t, g, g.refused + Newer(t, g.failed + g.unread, r.fence))
    {
      StepKeepsCaughtUp(s, h, e, r);
    }
  }

  // ----- whole runs -----

  ghost function HistoryAfter(s: State, h: History, run: seq<Event>): History
    requires Possible(s, run)
    decreases |run|
  {
    if run == [] then h else HistoryAfter(Next(s, run[0]), NextHistory(s, h, run[0]), run[1..])
  }

  const NO_HISTORY := History({}, {}, {}, {}, None)

  lemma {:induction false} HistoryRunKeeps(s: State, h: History, run: seq<Event>)
    requires Inv(s) && HistoryInv(s, h) && Possible(s, run)
    ensures Inv(After(s, run)) && HistoryInv(After(s, run), HistoryAfter(s, h, run))
    decreases |run|
  {
    if run != [] {
      StepKeeps(s, run[0]);
      StepKeepsHistory(s, h, run[0]);
      HistoryRunKeeps(Next(s, run[0]), NextHistory(s, h, run[0]), run[1..]);
    }
  }

  lemma ReachableHistory(durable: map<Key, Value>, run: seq<Event>)
    requires Possible(Start(durable), run)
    ensures var s := After(Start(durable), run); Inv(s) && HistoryInv(s, HistoryAfter(Start(durable), NO_HISTORY, run))
  {
    var s := Start(durable);
    assert forall k :: s.Agrees(k);
    HistoryRunKeeps(s, NO_HISTORY, run);
  }

  // ----- what a refresh repairs -----

  /**
   A refresh takes over its last reading and returns, no notification having come since it waited for them. A key that is no
   draft, and whose changes by peers have been notified, then shows what is stored if and only if it has not been mutated
   since the refresh was called, or has been right anyway.
   */
  lemma RefreshRepairsExactly(durable: map<Key, Value>, run: seq<Event>, i: nat, k: Key)
    requires Possible(Start(durable), run) && Enabled(After(Start(durable), run), Apply(i))
    requires var s := After(Start(durable), run);
      IsRefresh(s.readers[i]) && s.readers[i].awaited == Some(s.notifications) && k !in s.uncommitted
    requires k !in HistoryAfter(Start(durable), NO_HISTORY, run).owed
    ensures var s := After(Start(durable), run);
            var t := Next(s, Apply(i));
      && Enabled(t, RefreshTurns(i)) && Returns(t, RefreshTurns(i))
      && (Next(t, RefreshTurns(i)).Agrees(k) <==> s.KeySequence(k) <= s.readers[i].fence || s.Agrees(k))
  {
    var s := After(Start(durable), run);
    var h := HistoryAfter(Start(durable), NO_HISTORY, run);
    ReachableHistory(durable, run);
    assert ReaderFits(s, s.readers[i]);
    if s.KeySequence(k) <= s.readers[i].fence {
      ReadingSettlesKey(s, Peers(h.owed, h.failed + h.refused + h.unread), i, k);
    } else {
      MergedLookup(s, s.readers[i], k);
    }
  }

  /**
   The same however long the refresh takes to return: alone, it leaves no key behind that has not been mutated since it was
   called, but drafts, keys whose peers have not notified this tab, and keys that another refresh has since failed to read.
   */
  lemma ReturnedRefreshLeavesOnlyNewer(durable: map<Key, Value>, run: seq<Event>, k: Key)
    requires Possible(Start(durable), run) && Enabled(After(Start(durable), run), RefreshTurns(0))
    requires Returns(After(Start(durable), run), RefreshTurns(0)) && |After(Start(durable), run).readers| == 1
    ensures var s := After(Start(durable), run);
            var h := HistoryAfter(Start(durable), NO_HISTORY, run);
      !Next(s, RefreshTurns(0)).Agrees(k) && k !in s.uncommitted && k !in h.owed && k !in h.refused ==>
        s.readers[0].fence < s.KeySequence(k) && (k in h.failed || k in h.unread || s.LatestPending(k))
  {
    var s := After(Start(durable), run);
    var h := HistoryAfter(Start(durable), NO_HISTORY, run);
    ReachableHistory(durable, run);
    var r := s.readers[0];
    assert Waited(s, r) && HasCaughtUp(s, r);
    assert ReaderFits(s, r);
    assert KeyFits(s, Peers(h.owed, h.refused + Newer(s, h.failed + h.unread, r.fence)), k);
  }

  /** Nothing here writes the key, changes it for a peer, or starts a reading that is new enough for it. */
  predicate LeavesAlone(e: Event, k: Key) {
    && !Mutates(e, k) && !((e.PeerCommits? || e.Notified?) && e.key == k)
    && !e.PeerClears? && !e.StartRefresh? && !e.NotifiedOfClear?
  }

  lemma StepSpares(s: State, e: Event, k: Key)
    requires Inv(s) && Enabled(s, e) && Behind(s, k) && LeavesAlone(e, k)
    requires forall r :: r in s.readers ==> !InScope(s, r, k)
    ensures Behind(Next(s, e), k)
    ensures forall r :: r in Next(s, e).readers ==> !InScope(Next(s, e), r, k)
  {
    assert !Touches(s, e, k) by {
      if e.Apply? { assert !InScope(s, s.readers[e.index], k); }
    }
    BehindStays(s, e, k);
    SequencesGrow(s, e);
    assert !Mutates(e, k);
    ReadersSpare(s, e, k);
  }

  lemma ReadersSpare(s: State, e: Event, k: Key)
    requires Inv(s) && Enabled(s, e) && LeavesAlone(e, k) && Next(s, e).KeySequence(k) == s.KeySequence(k)
    requires forall r :: r in s.readers ==> !InScope(s, r, k)
    ensures forall r :: r in Next(s, e).readers ==> !InScope(Next(s, e), r, k)
  {
    if e.Notified? {
      StartAddsReader(s, e);
    } else if e.Load? || e.LoadFails? || e.RefreshTurns? || e.Apply? {
      OneReaderSpares(s, e, k);
    } else if e.PeerCommits? {
      PeerChangeMembers(s, Next(s, e).durable, {e.key});
    } else {
      OtherStepsKeepReaders(s, e);
    }
  }

  lemma OneReaderSpares(s: State, e: Event, k: Key)
    requires Enabled(s, e) && (e.Load? || e.LoadFails? || e.RefreshTurns? || e.Apply?)
    requires forall r :: r in s.readers ==> !InScope(s, r, k)
    ensures forall r :: r in Next(s, e).readers ==> !InScope(Next(s, e), r, k)
  {
    var t := Next(s, e);
    var i := e.index;
    var replaced := if |t.readers| == |s.readers| then Some(t.readers[i]) else None;
    assert t.readers == if replaced.Some? then s.readers[i := replaced.value] else Without(s.readers, i);
    OneReaderAdvances(s, t, i, replaced);
    assert !InScope(s, s.readers[i], k);
  }

  /**
   The converse: a key that is behind, and was mutated after every reading under way was asked for, stays behind through
   all their readings and returns.
   */
  lemma {:induction false} OlderReadingsSpare(s: State, run: seq<Event>, k: Key)
    requires Inv(s) && Possible(s, run) && Behind(s, k)
    requires forall r :: r in s.readers ==> !InScope(s, r, k)
    requires forall j :: 0 <= j < |run| ==> LeavesAlone(run[j], k)
    ensures Behind(After(s, run), k)
    decreases |run|
  {
    if run != [] {
      StepKeeps(s, run[0]);
      StepSpares(s, run[0], k);
      OlderReadingsSpare(Next(s, run[0]), run[1..], k);
    }
  }

  // ----- what a flush may leave behind -----

  /**
   A flush resolves although a key is behind, with no reading under way and none of this tab's own failures to blame, only
   if the key's notification could not be read, a refresh has returned since, and the key was mutated after that refresh
   was called.
   */
  lemma FlushLeavesForgotten(durable: map<Key, Value>, run: seq<Event>, i: nat, k: Key)
    requires Possible(Start(durable), run) && Enabled(After(Start(durable), run), FlushTurns(i))
    requires FlushVerdict(After(Start(durable), run), After(Start(durable), run).flushes[i]).Resolves?
    ensures var s := After(Start(durable), run);
            var h := HistoryAfter(Start(durable), NO_HISTORY, run);
      s.readers == [] && !s.Agrees(k) && k !in h.owed && k !in h.failed && k !in h.refused ==>
        k in h.unread && h.returned.Some? && h.returned.value < s.KeySequence(k)
  {
    var s := After(Start(durable), run);
    var h := HistoryAfter(Start(durable), NO_HISTORY, run);
    ReachableHistory(durable, run);
    FlushMeansStored(durable, run, i);
    assert KeyFits(s, Peers(h.owed, h.failed + h.refused + Forgotten(s, h)), k);
  }

  // ----- a run in which a failed reading is forgotten -----

  /** After a comparison of the key, called when the refresh had begun. */
  function Scene(stored: Value, readers: seq<Reader>, notifications: nat, refreshFailed: bool, disturbed: set<Key>): State {
    Start(map["k" := "b"]).(
      mutations := 1, keySequences := map["k" := 1], finished := 1, durable := map["k" := stored], readers := readers,
      notifications := notifications, refreshFailed := refreshFailed, disturbed := disturbed)
  }

  function Refresh(awaited: nat, loaded: Option<map<Key, Value>>, stale: set<Key>, applied: bool): Reader {
    Reader(Everything, None, Some(awaited), 0, 0, loaded, stale, applied)
  }

  const NOTIFICATION := Reader(Single("k", 1), Some(1), Some(0), 1, 1, None, {}, false)

  /**
   A refresh does not touch keys that were mutated after it began, and yet its return clears the mark that a notification
   could not be read. The mirror is then behind, everything is idle, and a flush resolves.
   */
  lemma RefreshForgetsFailedReading() returns (run: seq<Event>)
    ensures Possible(Start(map["k" := "a"]), run)
    ensures var s := After(Start(map["k" := "a"]), run);
      && s.queue == [] && s.readers == [] && s.uncommitted == map[] && !s.refreshFailed
      && s.durable == map["k" := "c"] && s.records == map["k" := "b"]
      && s.flushes == [Flush(0, 1, 1, 0)] && FlushCanTurn(s, s.flushes[0]) && FlushVerdict(s, s.flushes[0]).Resolves?
  {
    var first := ComparedAfterRefreshBegan();
    var second := PeerOutrunsRefresh();
    var third := NotificationFails();
    var last := RefreshReturns();
    RunsJoin(Scene("c", [Refresh(0, Some(map["k" := "b"]), {"k"}, false), NOTIFICATION], 1, false, {"k"}), third, last);
    RunsJoin(Scene("b", [Refresh(0, None, {}, false)], 0, false, {}), second, third + last);
    RunsJoin(Start(map["k" := "a"]), first, second + (third + last));
    run := first + (second + (third + last));
  }

  /** The refresh waits for no notification; its caller then compares, and that transaction comes first. */
  lemma ComparedAfterRefreshBegan() returns (run: seq<Event>)
    ensures Possible(Start(map["k" := "a"]), run)
    ensures After(Start(map["k" := "a"]), run) == Scene("b", [Refresh(0, None, {}, false)], 0, false, {})
  {
    var s := Start(map["k" := "a"]);
    var u := s.(readers := [Refresh(0, None, {}, false)]);
    RunOfTwo(s, StartRefresh, RefreshTurns(0));
    assert Next(Next(s, StartRefresh), RefreshTurns(0)) == u;
    var rest := Compared(u);
    run := [StartRefresh, RefreshTurns(0)] + rest;
    RunsJoin(s, [StartRefresh, RefreshTurns(0)], rest);
  }

  lemma Compared(s: State) returns (run: seq<Event>)
    requires s == Start(map["k" := "a"]).(readers := [Refresh(0, None, {}, false)])
    ensures Possible(s, run) && After(s, run) == Scene("b", [Refresh(0, None, {}, false)], 0, false, {})
  {
    var t := Next(Next(s, Compare("k", ReplaceIf("b"))), Commit(true));
    RunOfTwo(s, Compare("k", ReplaceIf("b")), Commit(true));
    run := [Continue];
    RunExtends(t, Continue, []);
    assert [Continue] + [] == run;
    RunsJoin(s, [Compare("k", ReplaceIf("b")), Commit(true)], run);
    run := [Compare("k", ReplaceIf("b")), Commit(true)] + run;
  }

  /** A peer stores, and notifies, while the refresh is reading. */
  lemma PeerOutrunsRefresh() returns (run: seq<Event>)
    ensures var s := Scene("b", [Refresh(0, None, {}, false)], 0, false, {});
      && Possible(s, run)
      && After(s, run) == Scene("c", [Refresh(0, Some(map["k" := "b"]), {"k"}, false), NOTIFICATION], 1, false, {"k"})
  {
    var s := Scene("b", [Refresh(0, None, {}, false)], 0, false, {});
    ReadsStore(s);
    run := PeerNotifies(Next(s, Load(0)));
    RunExtends(s, Load(0), run);
    run := [Load(0)] + run;
  }

  lemma PeerNotifies(u: State) returns (run: seq<Event>)
    requires u == Scene("b", [Refresh(0, Some(map["k" := "b"]), {}, false)], 0, false, {})
    ensures Possible(u, run)
    ensures After(u, run) == Scene("c", [Refresh(0, Some(map["k" := "b"]), {"k"}, false), NOTIFICATION], 1, false, {"k"})
  {
    PeerOutruns(u);
    run := [PeerCommits("k", Some("c")), Notified("k")];
    RunOfTwo(u, PeerCommits("k", Some("c")), Notified("k"));
  }

  lemma PeerOutruns(u: State)
    requires u == Scene("b", [Refresh(0, Some(map["k" := "b"]), {}, false)], 0, false, {})
    ensures Next(u, PeerCommits("k", Some("c")))
         == Scene("c", [Refresh(0, Some(map["k" := "b"]), {"k"}, false)], 0, false, {"k"})
  {
    var t := Next(u, PeerCommits("k", Some("c")));
    assert {} + {"k"} == {"k"};
    assert Staled(u.readers[0], {"k"}) == Refresh(0, Some(map["k" := "b"]), {"k"}, false);
    assert t.readers == [Staled(u.readers[0], {"k"})];
    assert t.unsure == {};
    assert t.durable == map["k" := "c"];
  }

  /** The refresh takes over its reading, and turns again; the notification cannot be read. */
  lemma NotificationFails() returns (run: seq<Event>)
    ensures var s := Scene("c", [Refresh(0, Some(map["k" := "b"]), {"k"}, false), NOTIFICATION], 1, false, {"k"});
      Possible(s, run) && After(s, run) == Scene("c", [Refresh(1, None, {"k"}, false)], 1, true, {"k"})
  {
    var s := Scene("c", [Refresh(0, Some(map["k" := "b"]), {"k"}, false), NOTIFICATION], 1, false, {"k"});
    var u := Scene("c", [Refresh(1, None, {"k"}, false), NOTIFICATION], 1, false, {"k"});
    ReadingSpares(s);
    RunOfTwo(s, Apply(0), RefreshTurns(0));
    assert Next(Next(s, Apply(0)), RefreshTurns(0)) == u;
    RunExtends(u, LoadFails(1), []);
    assert [LoadFails(1)] + [] == [LoadFails(1)];
    run := [Apply(0), RefreshTurns(0)] + [LoadFails(1)];
    RunsJoin(s, [Apply(0), RefreshTurns(0)], [LoadFails(1)]);
  }

  lemma ReadingSpares(s: State)
    requires s == Scene("c", s.readers, 1, s.refreshFailed, {"k"})
    requires s.readers != [] && IsRefresh(s.readers[0]) && s.readers[0].loaded.Some? && s.readers[0].fence == 0
    requires s.readers[0].loaded.value.Keys == {"k"}
    ensures Next(s, Apply(0)) == s.(readers := s.readers[0 := s.readers[0].(loaded := None, applied := true)])
  {
    assert Merged(s, s.readers[0]) == s.records;
  }

  /** The refresh reads once more, spares the key again, and returns. */
  lemma RefreshReturns() returns (run: seq<Event>)
    ensures var s := Scene("c", [Refresh(1, None, {"k"}, false)], 1, true, {"k"});
      && Possible(s, run)
      && After(s, run) == Scene("c", [], 1, false, {"k"}).(flushes := [Flush(0, 1, 1, 0)])
  {
    var s := Scene("c", [Refresh(1, None, {"k"}, false)], 1, true, {"k"});
    var v := Scene("c", [Refresh(1, None, {}, true)], 1, true, {"k"});
    ReadsAgain();
    ReturnsThenFlushes(v);
    run := [Load(0), Apply(0)] + [RefreshTurns(0), BeginFlush];
    RunsJoin(s, [Load(0), Apply(0)], [RefreshTurns(0), BeginFlush]);
  }

  lemma ReturnsThenFlushes(v: State)
    requires v == Scene("c", [Refresh(1, None, {}, true)], 1, true, {"k"})
    ensures Possible(v, [RefreshTurns(0), BeginFlush])
    ensures After(v, [RefreshTurns(0), BeginFlush]) == Scene("c", [], 1, false, {"k"}).(flushes := [Flush(0, 1, 1, 0)])
  {
    RunOfTwo(v, RefreshTurns(0), BeginFlush);
  }

  lemma ReadsAgain()
    ensures var s := Scene("c", [Refresh(1, None, {"k"}, false)], 1, true, {"k"});
      && Possible(s, [Load(0), Apply(0)])
      && After(s, [Load(0), Apply(0)]) == Scene("c", [Refresh(1, None, {}, true)], 1, true, {"k"})
  {
    var s := Scene("c", [Refresh(1, None, {"k"}, false)], 1, true, {"k"});
    ReadsStore(s);
    ReadingSpares(Scene("c", [Refresh(1, Some(map["k" := "c"]), {}, false)], 1, true, {"k"}));
    RunOfTwo(s, Load(0), Apply(0));
  }

  lemma ReadsStore(s: State)
    requires |s.readers| == 1 && s.readers[0].loaded.None? && CanLoad(s, s.readers[0])
    ensures Next(s, Load(0)) == s.(readers := [s.readers[0].(loaded := Some(s.durable), stale := {})])
  {
  }

  lemma RunOfTwo(s: State, a: Event, b: Event)
    requires Enabled(s, a) && Enabled(Next(s, a), b)
    ensures Possible(s, [a, b]) && After(s, [a, b]) == Next(Next(s, a), b)
  {
    RunExtends(Next(s, a), b, []);
    assert [b] + [] == [b] && [a] + [b] == [a, b];
    RunExtends(s, a, [b]);
  }
}

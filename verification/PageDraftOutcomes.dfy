/**
 What each call of the draft store answers and leaves behind, told by its arguments and the record it read: the named
 part of the new record, every other part, and where the new record goes. Over runs: what a save typed becomes durable.
 */
module PageDraftOutcomes {
  import opened Options
  import opened PageDrafts

  // ----- one call -----

  /** What a call reads: the record, or one without parts. */
  function Seen(cell: Cell): Record {
    if cell.Readable? then cell.record else Record(None, map[], None, 0)
  }

  /** The new content of the key: these parts, dated now, or nothing if there are none. */
  predicate Leaves(next: Cell, title: Option<Draft>, blocks: map<BlockId, Draft>, order: Option<Order>, now: int) {
    if title == None && blocks == map[] && order == None then next == Absent
    else next == Readable(Record(title, blocks, order, now))
  }

  predicate ValidArguments(a: Action) {
    match a
    case SaveTitle(_, version, revision) => version >= 1 && revision >= 1
    case SaveBlock(id, _, version, revision) => id != "" && version >= 1 && revision >= 1
    case AcknowledgeTitle(revision, version) => version >= 1 && revision >= 1
    case AcknowledgeBlock(_, revision, version) => version >= 1 && revision >= 1
    case AcknowledgeBlockOrder(mutationId) => mutationId != ""
    case RemoveTitleIfUnchanged(_, version, revision) => version >= 1 && revision >= 1
    case RemoveBlockIfUnchanged(id, _, version, revision) => id != "" && version >= 1 && revision >= 1
    case _ => true
  }

  /** The part the call is about is not there, or not the one it names. */
  predicate NothingToDo(cell: Cell, a: Action) {
    var r := Seen(cell);
    match a
    case SaveTitle(_, _, _) => false
    case SaveBlock(_, _, _, _) => false
    case SaveBlockOrder(_) => false
    case AcknowledgeTitle(_, _) => r.title == None
    case AcknowledgeBlock(id, _, _) => id !in r.blocks
    case AcknowledgeBlockOrder(mutationId) => r.blockOrder.None? || r.blockOrder.value.mutationId != mutationId
    case RemoveTitleIfUnchanged(value, version, revision) =>
      r.title.None? || r.title.value.edit.value != value || r.title.value.edit.revision != revision
      || r.title.value.expectedVersion != version
    case RemoveBlockIfUnchanged(id, value, version, revision) =>
      id !in r.blocks || r.blocks[id].edit.value != value || r.blocks[id].edit.revision != revision
      || r.blocks[id].expectedVersion != version
    case _ => cell.Absent?
  }

  /** The order goes when it names one of the blocks that go. */
  predicate OrderLeft(before: Option<Order>, now: Option<Order>, gone: set<BlockId>) {
    if before.Some? && (exists id :: id in before.value.orderedIds && id in gone) then now == None else now == before
  }

  /** What the call makes of the record: the part it names becomes what the arguments say, and no other changes. */
  ghost predicate Does(a: Action, r: Record, next: Cell, now: int) {
    match a
    case SaveTitle(value, version, revision) =>
      Leaves(next, Some(Draft(Edit(value, revision, now), version)), r.blocks, r.blockOrder, now)
    case SaveBlock(id, value, version, revision) =>
      Leaves(next, r.title, r.blocks[id := Draft(Edit(value, revision, now), version)], r.blockOrder, now)
    case SaveBlockOrder(order) =>
      Leaves(next, r.title, r.blocks, Some(Order(order.mutationId, order.orderedIds, order.items, now)), now)
    case AcknowledgeTitle(revision, version) =>
      && r.title.Some?
      && if r.title.value.edit.revision <= revision then Leaves(next, None, r.blocks, r.blockOrder, now)
         else Leaves(next, Some(Draft(r.title.value.edit, version)), r.blocks, r.blockOrder, now)
    case AcknowledgeBlock(id, revision, version) =>
      && id in r.blocks
      && if r.blocks[id].edit.revision <= revision then Leaves(next, r.title, r.blocks - {id}, r.blockOrder, now)
         else Leaves(next, r.title, r.blocks[id := Draft(r.blocks[id].edit, version)], r.blockOrder, now)
    case AcknowledgeBlockOrder(_) => Leaves(next, r.title, r.blocks, None, now)
    case RemoveTitleIfUnchanged(_, _, _) => Leaves(next, None, r.blocks, r.blockOrder, now)
    case RemoveBlockIfUnchanged(id, _, _, _) => Leaves(next, r.title, r.blocks - {id}, r.blockOrder, now)
    case RemoveTitle => Leaves(next, None, r.blocks, r.blockOrder, now)
    case RemoveBlock(id) =>
      exists order :: OrderLeft(r.blockOrder, order, {id}) && Leaves(next, r.title, r.blocks - {id}, order, now)
    case RemovePage => next == Absent
    case RemovePageIfUnchanged(_) => next == Absent
    case ClearBlocks(ids) =>
      exists order :: OrderLeft(r.blockOrder, order, ids) && Leaves(next, r.title, r.blocks - ids, order, now)
  }

  /** The owner's copy becomes the new record, which is queued; a guest only queues it, compared with what it read. */
  predicate Queues(tab: Tab, t: Tab, own: bool, next: Cell) {
    if own then t == Tab(next, tab.queue + [Put(next)])
    else tab.mirror.Readable? && t == Tab(tab.mirror, tab.queue + [CompareAndSet(tab.mirror.record, next)])
  }

  /** The new record a call has left. */
  function NewRecordOf(t: Tab): Cell
    requires t.queue != []
  {
    var last := t.queue[|t.queue| - 1];
    if last.Put? then last.cell else last.next
  }

  /**
   A call answers true exactly when its arguments are valid and the key is readable, except that only the owner may
   begin a record, and that a page is only removed as the record given. If it has nothing to do it does nothing.
   */
  ghost predicate Answers(tab: Tab, t: Tab, own: bool, ok: bool, a: Action, now: int) {
    && (ok <==> && ValidArguments(a) && !tab.mirror.Unreadable? && (IsSave(a) && !own ==> tab.mirror.Readable?)
                && (a.RemovePageIfUnchanged? && tab.mirror.Readable? ==> tab.mirror.record == a.expected))
    && (!ok || NothingToDo(tab.mirror, a) ==> t == tab)
    && (ok && !NothingToDo(tab.mirror, a) ==>
          && t.queue != [] && Queues(tab, t, own, NewRecordOf(t))
          && Does(a, Seen(tab.mirror), NewRecordOf(t), now))
  }

  lemma CallAnswers(tab: Tab, own: bool, a: Action, now: int)
    ensures var (t, ok) := Called(tab, own, a, now); Answers(tab, t, own, ok, a, now)
  {
    if tab.mirror.Readable? {
      if IsSave(a) {
        SaveChanges(tab.mirror, a, now);
      } else if a.AcknowledgeTitle? || a.AcknowledgeBlock? || a.AcknowledgeBlockOrder? {
        AcknowledgementChanges(tab.mirror.record, a, now);
      } else {
        RemovalChanges(tab.mirror.record, a, now);
      }
    } else if IsSave(a) && tab.mirror.Absent? {
      SaveChanges(tab.mirror, a, now);
    }
  }

  /** The call writes what it is to do, or leaves the record as it is, or fails. */
  ghost predicate Changes(cell: Cell, outcome: Outcome, a: Action, now: int) {
    match outcome
    case Fail => !ValidArguments(a) || (a.RemovePageIfUnchanged? && cell.Readable? && cell.record != a.expected)
    case Done => ValidArguments(a) && NothingToDo(cell, a) && !a.RemovePageIfUnchanged?
    case Write(r) =>
      && ValidArguments(a) && !NothingToDo(cell, a) && Does(a, Seen(cell), Stored(r, now), now)
      && (a.RemovePageIfUnchanged? ==> Seen(cell) == a.expected)
  }

  lemma SaveChanges(cell: Cell, a: Action, now: int)
    requires IsSave(a) && !cell.Unreadable?
    ensures Changes(cell, Changed(cell, a, now), a, now)
  {
  }

  lemma AcknowledgementChanges(r: Record, a: Action, now: int)
    requires a.AcknowledgeTitle? || a.AcknowledgeBlock? || a.AcknowledgeBlockOrder?
    ensures Changes(Readable(r), Changed(Readable(r), a, now), a, now)
  {
  }

  lemma RemovalChanges(r: Record, a: Action, now: int)
    requires !IsSave(a) && !a.AcknowledgeTitle? && !a.AcknowledgeBlock? && !a.AcknowledgeBlockOrder?
    ensures Changes(Readable(r), Changed(Readable(r), a, now), a, now)
  {
    if a.RemoveBlock? {
      BlocksGo(r, {a.id}, now);
    } else if a.ClearBlocks? {
      BlocksGo(r, a.ids, now);
    }
  }

  lemma BlocksGo(r: Record, ids: set<BlockId>, now: int)
    ensures var w := WithoutBlocks(r, ids);
      && OrderLeft(r.blockOrder, w.blockOrder, ids)
      && Leaves(Stored(w, now), r.title, r.blocks - ids, w.blockOrder, now)
  {
  }

  // ----- several calls -----

  /**
   What was typed after the edit that the server has saved survives its acknowledgement, in the same words, and expects
   the version that edit has made; what was typed before it is gone.
   */
  lemma NewerEditSurvivesAcknowledgement(tab: Tab, id: BlockId, value: string, seen: nat, revision: nat, saved: nat,
                                         now: int, made: nat, later: int)
    requires !tab.mirror.Unreadable? && id != "" && seen >= 1 && revision >= 1 && saved >= 1 && made >= 1
    ensures var (typed, ok) := Called(tab, true, SaveBlock(id, value, seen, revision), now);
            var (t, done) := Called(typed, true, AcknowledgeBlock(id, saved, made), later);
      && ok && done
      && (revision > saved ==> t.mirror.Readable? && id in t.mirror.record.blocks
                               && t.mirror.record.blocks[id] == Draft(Edit(value, revision, now), made))
      && (revision <= saved ==> t.mirror.Readable? ==> id !in t.mirror.record.blocks)
  {
    var (typed, ok) := Called(tab, true, SaveBlock(id, value, seen, revision), now);
    CallAnswers(tab, true, SaveBlock(id, value, seen, revision), now);
    CallAnswers(typed, true, AcknowledgeBlock(id, saved, made), later);
  }

  // ----- what is saved becomes durable -----

  /** How many transactions of the tab end during the run. */
  function Ends(events: seq<Event>, id: TabId): nat
    decreases |events|
  {
    if events == [] then 0
    else
      var last := events[|events| - 1];
      Ends(events[..|events| - 1], id) + if (last.Settle? || last.Abort?) && last.tab == id then 1 else 0
  }

  predicate StaysOpen(events: seq<Event>, id: TabId) {
    forall i :: 0 <= i < |events| ==> events[i] != Open(id)
  }

  /** A tab's transactions end in the order they were queued; its calls only add to the end. */
  ghost predicate QueuedAfter(before: seq<Transaction>, now: seq<Transaction>, ended: nat) {
    ended <= |before| ==> before[ended..] <= now
  }

  lemma StepQueues(s: State, e: Event, id: TabId, ended: nat)
    requires id in s.tabs && e != Open(id)
    requires ended == if (e.Settle? || e.Abort?) && e.tab == id then 1 else 0
    ensures id in Next(s, e).tabs
    ensures QueuedAfter(s.tabs[id].queue, Next(s, e).tabs[id].queue, ended)
  {
    if e.tab != id {
      assert Next(s, e).tabs[id] == s.tabs[id];
    } else if e.Call? {
      CallQueues(s.tabs[id], id == s.owner, e.action, e.now);
    } else if e.Settle? || e.Abort? {
      EndQueues(s, e);
    }
  }

  lemma EndQueues(s: State, e: Event)
    requires (e.Settle? || e.Abort?) && e.tab in s.tabs
    ensures e.tab in Next(s, e).tabs
    ensures QueuedAfter(s.tabs[e.tab].queue, Next(s, e).tabs[e.tab].queue, 1)
  {
  }

  lemma CallQueues(tab: Tab, own: bool, a: Action, now: int)
    ensures QueuedAfter(tab.queue, Called(tab, own, a, now).0.queue, 0)
  {
  }

  lemma QueuedOn(first: seq<Transaction>, next: seq<Transaction>, last: seq<Transaction>, m: nat, n: nat)
    requires QueuedAfter(first, next, m) && QueuedAfter(next, last, n)
    ensures QueuedAfter(first, last, m + n)
  {
    if m + n <= |first| {
      assert first[m + n..] == first[m..][n..];
      assert first[m..][n..] <= next[n..];
    }
  }

  lemma {:induction false} RunQueues(s: State, events: seq<Event>, id: TabId, t: State, ended: nat)
    requires id in s.tabs && StaysOpen(events, id) && t == Run(s, events) && ended == Ends(events, id)
    ensures id in t.tabs && QueuedAfter(s.tabs[id].queue, t.tabs[id].queue, ended)
    decreases |events|
  {
    if events != [] {
      var last := events[|events| - 1];
      var before := Run(s, events[..|events| - 1]);
      var endedBefore := Ends(events[..|events| - 1], id);
      RunQueues(s, events[..|events| - 1], id, before, endedBefore);
      assert t == Next(before, last);
      LastQueues(before, last, id, s.tabs[id].queue, endedBefore, ended - endedBefore);
    }
  }

  lemma LastQueues(s: State, e: Event, id: TabId, first: seq<Transaction>, m: nat, ended: nat)
    requires id in s.tabs && e != Open(id) && QueuedAfter(first, s.tabs[id].queue, m)
    requires ended == if (e.Settle? || e.Abort?) && e.tab == id then 1 else 0
    ensures id in Next(s, e).tabs && QueuedAfter(first, Next(s, e).tabs[id].queue, m + ended)
  {
    StepQueues(s, e, id, ended);
    QueuedOn(first, s.tabs[id].queue, Next(s, e).tabs[id].queue, m, ended);
  }

  /** The transaction settles on the record it expects: a plain write expects any. */
  predicate Matches(durable: Cell, own: bool, read: Cell) {
    own || durable == read
  }

  /**
   A save that answers true becomes durable: once the transactions queued before it have ended, with whatever else has
   happened in any tab, its own settles. On the record it expects it leaves exactly the part it saved beside what it had
   read, and on any other record it changes nothing.
   */
  lemma SaveBecomesDurable(s: State, id: TabId, a: Action, now: int, between: seq<Event>)
    requires id in s.tabs && IsSave(a) && Called(s.tabs[id], id == s.owner, a, now).1
    requires StaysOpen(between, id) && Ends(between, id) == |s.tabs[id].queue|
    ensures var u := Run(Next(s, Call(id, a, now)), between);
            var read := s.tabs[id].mirror;
      && (Matches(u.durable, id == s.owner, read) ==> Does(a, Seen(read), Next(u, Settle(id)).durable, now))
      && (!Matches(u.durable, id == s.owner, read) ==> Next(u, Settle(id)).durable == u.durable)
  {
    CallAnswers(s.tabs[id], id == s.owner, a, now);
    var called := Next(s, Call(id, a, now));
    RunQueues(called, between, id, Run(called, between), |s.tabs[id].queue|);
    assert Run(called, between).tabs[id].queue[0] == called.tabs[id].queue[|s.tabs[id].queue|];
  }

  /** A durable discard takes the record given away, once its turn has come, and no other record. */
  lemma DiscardBecomesDurable(s: State, id: TabId, expected: Record, between: seq<Event>)
    requires id in s.tabs && StaysOpen(between, id) && Ends(between, id) == |s.tabs[id].queue|
    ensures var u := Run(Next(s, DiscardDurably(id, expected)), between);
      && (u.durable == Readable(expected) ==> Next(u, Settle(id)).durable == Absent)
      && (u.durable != Readable(expected) ==> Next(u, Settle(id)).durable == u.durable)
  {
    var asked := Next(s, DiscardDurably(id, expected));
    var u := Run(asked, between);
    assert asked.tabs[id].queue == s.tabs[id].queue + [CompareAndSet(expected, Absent)];
    RunQueues(asked, between, id, u, |s.tabs[id].queue|);
    assert u.tabs[id].queue[0] == asked.tabs[id].queue[|s.tabs[id].queue|];
  }

  /**
   What else happens to a tab: it opens with the durable record; an end takes the oldest transaction off, and one that
   aborts stores nothing; its copy is refreshed with the durable record, except the owner's while it has work queued.
   */
  lemma TabEventDoes(s: State, e: Event)
    requires e.Open? || e.Settle? || e.Abort? || e.Refresh?
    ensures var t := Next(s, e);
      && (e.Open? ==> e.tab in t.tabs && t.tabs[e.tab] == Tab(s.durable, []) && t.durable == s.durable)
      && (forall other :: other in s.tabs && other != e.tab ==> other in t.tabs && t.tabs[other] == s.tabs[other])
    ensures e.tab in s.tabs ==>
      var tab := s.tabs[e.tab];
      var t := Next(s, e);
      && e.tab in t.tabs
      && ((e.Settle? || e.Abort?) && tab.queue != [] ==> t.tabs[e.tab] == tab.(queue := tab.queue[1..]))
      && (e.Abort? || e.Refresh? ==> t.durable == s.durable)
      && (e.Refresh? && (tab.queue == [] || e.tab != s.owner) ==> t.tabs[e.tab] == tab.(mirror := s.durable))
      && (e.Refresh? && tab.queue != [] && e.tab == s.owner ==> t.tabs[e.tab] == tab)
  {
  }
}

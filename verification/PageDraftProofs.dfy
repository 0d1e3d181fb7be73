/** No draft leaves the durable record unless some call saw it and was entitled to end it. */
module PageDraftProofs {
  import opened Options
  import opened PageDrafts

  // ----- what every run keeps -----

  /** Whoever replaces `a` by `b` loses only parts that were superseded. */
  predicate Covers(a: set<Part>, b: set<Part>, superseded: set<Part>) {
    a <= b + superseded
  }

  /** A comparison takes away only what its call superseded. */
  predicate FairComparison(t: Transaction, superseded: set<Part>) {
    t.CompareAndSet? ==> Covers(PartsOf(t.expected), Parts(t.next), superseded)
  }

  predicate QueueFair(queue: seq<Transaction>, superseded: set<Part>) {
    forall i :: 0 <= i < |queue| ==> FairComparison(queue[i], superseded)
  }

  predicate NoPuts(queue: seq<Transaction>) {
    forall i :: 0 <= i < |queue| ==> !queue[i].Put?
  }

  predicate Inv(s: State) {
    && Parts(s.durable) <= s.stored
    && (forall id :: id in s.tabs ==> QueueFair(s.tabs[id].queue, s.superseded))
    && (forall id :: id in s.tabs && id != s.owner ==> NoPuts(s.tabs[id].queue))
  }

  /** A written record covers the one the call read. */
  lemma WrittenCovers(cell: Cell, a: Action, now: int)
    requires Changed(cell, a, now).Write?
    ensures var r := Changed(cell, a, now).record;
            && Parts(Stored(r, now)) == PartsOf(r)
            && Parts(cell) <= PartsOf(r) + TakenOut(cell, a, now)
  {
  }

  lemma QueueFairGrows(queue: seq<Transaction>, superseded: set<Part>, more: set<Part>)
    requires QueueFair(queue, superseded) && superseded <= more
    ensures QueueFair(queue, more)
  {
  }

  lemma HeadGone(queue: seq<Transaction>, superseded: set<Part>)
    requires queue != []
    ensures QueueFair(queue, superseded) ==> QueueFair(queue[1..], superseded)
    ensures NoPuts(queue) ==> NoPuts(queue[1..])
  {
  }

  lemma CallKeeps(s: State, id: TabId, a: Action, now: int)
    requires Inv(s) && id in s.tabs
    ensures Inv(AfterCall(s, id, a, now))
  {
    var n := AfterCall(s, id, a, now);
    forall other | other in s.tabs ensures QueueFair(s.tabs[other].queue, n.superseded) {
      QueueFairGrows(s.tabs[other].queue, s.superseded, n.superseded);
    }
    if Changed(s.tabs[id].mirror, a, now).Write? {
      WrittenCovers(s.tabs[id].mirror, a, now);
    }
  }

  lemma DiscardKeeps(s: State, id: TabId, expected: Record)
    requires Inv(s)
    ensures Inv(Next(s, DiscardDurably(id, expected)))
  {
    var n := Next(s, DiscardDurably(id, expected));
    forall other | other in s.tabs ensures QueueFair(s.tabs[other].queue, n.superseded) {
      QueueFairGrows(s.tabs[other].queue, s.superseded, n.superseded);
    }
  }

  lemma StepKeeps(s: State, e: Event)
    requires Inv(s)
    ensures Inv(Next(s, e))
  {
    match e
    case Call(id, a, now) => if id in s.tabs { CallKeeps(s, id, a, now); }
    case DiscardDurably(id, expected) => DiscardKeeps(s, id, expected);
    case Settle(id) => if id in s.tabs && s.tabs[id].queue != [] { HeadGone(s.tabs[id].queue, s.superseded); }
    case Abort(id) => if id in s.tabs && s.tabs[id].queue != [] { HeadGone(s.tabs[id].queue, s.superseded); }
    case _ =>
  }

  ghost predicate Reachable(s: State) {
    exists owner, durable, events :: s == Run(Init(owner, durable), events)
  }

  lemma {:induction false} RunKeeps(owner: TabId, durable: Cell, events: seq<Event>)
    ensures Inv(Run(Init(owner, durable), events))
    decreases |events|
  {
    if events != [] {
      RunKeeps(owner, durable, events[..|events| - 1]);
      StepKeeps(Run(Init(owner, durable), events[..|events| - 1]), events[|events| - 1]);
    }
  }

  lemma ReachableKeeps(s: State)
    requires Reachable(s)
    ensures Inv(s)
  {
    var owner, durable, events :| s == Run(Init(owner, durable), events);
    RunKeeps(owner, durable, events);
  }

  // ----- when a draft is lost -----

  /** Durable drafts that this event removes although no call has superseded them. */
  function LostBy(s: State, e: Event): set<Part> {
    Parts(s.durable) - Parts(Next(s, e).durable) - Next(s, e).superseded
  }

  /** The owner's transaction that an event settles. */
  predicate SettlesPut(s: State, e: Event) {
    e.Settle? && e.tab in s.tabs && s.tabs[e.tab].queue != [] && s.tabs[e.tab].queue[0].Put?
  }

  /**
   In every reachable state an event loses a draft if and only if it settles a plain write of the owner, and the durable
   record then holds a part that is neither in what was written nor superseded. No comparison ever loses one.
   */
  lemma DraftsAreLostExactly(s: State, e: Event)
    requires Reachable(s)
    ensures LostBy(s, e) != {} <==>
      && SettlesPut(s, e) && e.tab == s.owner
      && Parts(s.durable) - Parts(s.tabs[e.tab].queue[0].cell) - s.superseded != {}
  {
    ReachableKeeps(s);
    if e.Settle? && e.tab in s.tabs && s.tabs[e.tab].queue != [] {
      assert FairComparison(s.tabs[e.tab].queue[0], s.superseded);
    } else {
      assert Next(s, e).durable == s.durable;
    }
  }

  /**
   The owner writes from its copy with nothing else under way. Once that write settles, a draft is lost if and only if
   the durable record held a part that the copy did not show, that no call had superseded, and that the call does not
   write itself.
   */
  lemma WriteLosesWhatCopyMisses(s: State, a: Action, now: int)
    requires Reachable(s) && s.owner in s.tabs && s.tabs[s.owner].queue == []
    requires Changed(s.tabs[s.owner].mirror, a, now).Write?
    ensures var called := Next(s, Call(s.owner, a, now));
            var r := Changed(s.tabs[s.owner].mirror, a, now).record;
            LostBy(called, Settle(s.owner)) == Parts(s.durable) - Parts(s.tabs[s.owner].mirror) - s.superseded - PartsOf(r)
  {
    var mirror := s.tabs[s.owner].mirror;
    WrittenCovers(mirror, a, now);
    var called := Next(s, Call(s.owner, a, now));
    assert called.tabs[s.owner].queue == [Put(Stored(Changed(mirror, a, now).record, now))];
    assert called.superseded == s.superseded + (Parts(mirror) - PartsOf(Changed(mirror, a, now).record));
  }

  /** A guest's save that settles while a plain write is queued is lost by that write, save what the write holds itself. */
  lemma GuestSaveInBetweenIsLost(s: State, guest: TabId)
    requires Reachable(s) && s.owner in s.tabs && guest in s.tabs && guest != s.owner
    requires s.tabs[s.owner].queue != [] && s.tabs[s.owner].queue[0].Put?
    requires s.tabs[guest].queue != [] && s.tabs[guest].queue[0].CompareAndSet?
    requires s.durable == Readable(s.tabs[guest].queue[0].expected)
    ensures LostBy(Next(s, Settle(guest)), Settle(s.owner))
         == Parts(s.tabs[guest].queue[0].next) - Parts(s.tabs[s.owner].queue[0].cell) - s.superseded
  {
  }

  // ----- runs in which none is -----

  /**
   What the owner and the guests would have to check: the owner calls only while its copy covers the durable record, and
   no guest's save settles while a plain write of the owner is queued.
   */
  predicate Careful(s: State, e: Event) {
    match e
    case Call(id, a, now) =>
      (id in s.tabs && id == s.owner && Changed(s.tabs[id].mirror, a, now).Write?) ==>
        Covers(Parts(s.durable), Parts(s.tabs[id].mirror), s.superseded)
    case Settle(id) =>
      (id in s.tabs && s.tabs[id].queue != [] && s.tabs[id].queue[0].CompareAndSet?) ==>
        || Parts(Settled(s.durable, s.tabs[id].queue[0])) <= Parts(s.durable)
        || s.owner !in s.tabs || NoPuts(s.tabs[s.owner].queue)
    case _ => true
  }

  predicate CarefulRun(s: State, events: seq<Event>)
    decreases |events|
  {
    events != [] ==>
      CarefulRun(s, events[..|events| - 1]) && Careful(Run(s, events[..|events| - 1]), events[|events| - 1])
  }

  /** The durable record, then each queued write of the owner: each covers the one before, and the copy covers all writes. */
  predicate Chained(durable: Cell, tab: Tab, superseded: set<Part>) {
    && (forall i :: 0 <= i < |tab.queue| && tab.queue[i].Put? ==>
          && Covers(Parts(durable), Parts(tab.queue[i].cell), superseded)
          && Covers(Parts(tab.queue[i].cell), Parts(tab.mirror), superseded))
    && (forall i, j :: 0 <= i < j < |tab.queue| && tab.queue[i].Put? && tab.queue[j].Put? ==>
          Covers(Parts(tab.queue[i].cell), Parts(tab.queue[j].cell), superseded))
  }

  predicate Kept(s: State) {
    && Inv(s)
    && Covers(s.stored, Parts(s.durable), s.superseded)
    && (s.owner in s.tabs ==> Chained(s.durable, s.tabs[s.owner], s.superseded))
  }

  lemma ChainedGrows(durable: Cell, tab: Tab, superseded: set<Part>, more: set<Part>)
    requires Chained(durable, tab, superseded) && superseded <= more
    ensures Chained(durable, tab, more)
  {
  }

  /** The owner's next write joins the chain at its end. */
  lemma ChainedWrite(durable: Cell, tab: Tab, superseded: set<Part>, next: Cell)
    requires Chained(durable, tab, superseded) && Covers(Parts(tab.mirror), Parts(next), superseded)
    requires Covers(Parts(durable), Parts(tab.mirror), superseded)
    ensures Chained(durable, Tab(next, tab.queue + [Put(next)]), superseded)
  {
  }

  lemma ChainedComparison(durable: Cell, tab: Tab, superseded: set<Part>, t: Transaction)
    requires Chained(durable, tab, superseded) && t.CompareAndSet?
    ensures Chained(durable, tab.(queue := tab.queue + [t]), superseded)
  {
  }

  lemma ChainedHeadGone(durable: Cell, tab: Tab, superseded: set<Part>)
    requires Chained(durable, tab, superseded) && tab.queue != []
    ensures Chained(durable, tab.(queue := tab.queue[1..]), superseded)
    ensures tab.queue[0].Put? ==> Chained(tab.queue[0].cell, tab.(queue := tab.queue[1..]), superseded)
  {
  }

  lemma ChainedStore(durable: Cell, now: Cell, tab: Tab, superseded: set<Part>)
    requires Chained(durable, tab, superseded) && (Parts(now) <= Parts(durable) || NoPuts(tab.queue))
    ensures Chained(now, tab, superseded)
  {
  }

  lemma CallStaysKept(s: State, id: TabId, a: Action, now: int)
    requires Kept(s) && id in s.tabs && Careful(s, Call(id, a, now))
    ensures Kept(AfterCall(s, id, a, now))
  {
    var n := AfterCall(s, id, a, now);
    CallKeeps(s, id, a, now);
    if s.owner in s.tabs {
      ChainedGrows(s.durable, s.tabs[s.owner], s.superseded, n.superseded);
    }
    if id == s.owner && Changed(s.tabs[id].mirror, a, now).Write? {
      WrittenCovers(s.tabs[id].mirror, a, now);
      ChainedWrite(s.durable, s.tabs[id], n.superseded, Stored(Changed(s.tabs[id].mirror, a, now).record, now));
    }
  }

  lemma SettleStaysKept(s: State, id: TabId)
    requires Kept(s) && id in s.tabs && s.tabs[id].queue != [] && Careful(s, Settle(id))
    ensures Kept(Next(s, Settle(id)))
  {
    var head := s.tabs[id].queue[0];
    var n := Next(s, Settle(id));
    StepKeeps(s, Settle(id));
    assert FairComparison(head, s.superseded);
    if s.owner in s.tabs {
      var tab := s.tabs[s.owner];
      if head.CompareAndSet? {
        ChainedStore(s.durable, n.durable, tab, s.superseded);
      }
      if id == s.owner {
        ChainedHeadGone(if head.Put? then s.durable else n.durable, tab, s.superseded);
      }
    }
  }

  lemma StepStaysKept(s: State, e: Event)
    requires Kept(s) && Careful(s, e)
    ensures Kept(Next(s, e))
  {
    StepKeeps(s, e);
    match e
    case Call(id, a, now) => if id in s.tabs { CallStaysKept(s, id, a, now); }
    case DiscardDurably(id, expected) =>
      if id in s.tabs && s.owner in s.tabs {
        ChainedGrows(s.durable, s.tabs[s.owner], s.superseded, Next(s, e).superseded);
        ChainedComparison(s.durable, s.tabs[s.owner], Next(s, e).superseded, CompareAndSet(expected, Absent));
      }
    case Settle(id) => if id in s.tabs && s.tabs[id].queue != [] { SettleStaysKept(s, id); }
    case Abort(id) =>
      if id in s.tabs && s.tabs[id].queue != [] && id == s.owner {
        ChainedHeadGone(s.durable, s.tabs[id], s.superseded);
      }
    case _ =>
  }

  lemma {:induction false} CarefulRunStaysKept(owner: TabId, durable: Cell, events: seq<Event>)
    requires CarefulRun(Init(owner, durable), events)
    ensures Kept(Run(Init(owner, durable), events))
    decreases |events|
  {
    if events != [] {
      CarefulRunStaysKept(owner, durable, events[..|events| - 1]);
      StepStaysKept(Run(Init(owner, durable), events[..|events| - 1]), events[|events| - 1]);
    }
  }

  /**
   After every careful run, with any number of tabs that work from stale copies, abort, close and open again: a draft
   that was ever durable is still durable, or a call saw it and superseded it. What a run loses without that care is said
   exactly by `WriteLosesWhatCopyMisses` and `GuestSaveInBetweenIsLost`.
   */
  lemma DraftsAreKeptOrSuperseded(owner: TabId, durable: Cell, events: seq<Event>)
    requires CarefulRun(Init(owner, durable), events)
    ensures var s := Run(Init(owner, durable), events); s.stored <= Parts(s.durable) + s.superseded
  {
    CarefulRunStaysKept(owner, durable, events);
  }

  /** Nothing counts as superseded but by a call that saw the part in its own copy, or was given it, and may end it. */
  lemma SupersededPartsWereSeen(s: State, e: Event, part: Part)
    requires part in Next(s, e).superseded && part !in s.superseded
    ensures match e
            case Call(id, a, _) => id in s.tabs && part in Parts(s.tabs[id].mirror) && Authorises(a, part)
            case DiscardDurably(_, expected) => part in PartsOf(expected)
            case _ => false
  {
    if e.Call? && e.tab in s.tabs {
      TakenOutIsAuthorised(s.tabs[e.tab].mirror, e.action, e.now, part);
    }
  }

  predicate UnreadableKept(s: State, bytes: string) {
    && s.durable == Unreadable(bytes)
    && (s.owner in s.tabs ==> s.tabs[s.owner].mirror == s.durable)
    && (forall id :: id in s.tabs ==> NoPuts(s.tabs[id].queue))
  }

  lemma UnreadableStep(s: State, e: Event, bytes: string)
    requires UnreadableKept(s, bytes)
    ensures UnreadableKept(Next(s, e), bytes)
  {
  }

  /** A present record that cannot be decoded is never replaced or removed, whatever the tabs do. */
  lemma {:induction false} UnreadableRecordIsKept(owner: TabId, bytes: string, events: seq<Event>)
    ensures UnreadableKept(Run(Init(owner, Unreadable(bytes)), events), bytes)
    decreases |events|
  {
    if events != [] {
      UnreadableRecordIsKept(owner, bytes, events[..|events| - 1]);
      UnreadableStep(Run(Init(owner, Unreadable(bytes)), events[..|events| - 1]), events[|events| - 1], bytes);
    }
  }

  /** What acknowledging, removing or clearing takes out: exactly the parts the arguments name, and no other. */
  lemma TakesOutExactly(cell: Cell, a: Action, now: int, part: Part)
    requires !IsSave(a) && !a.RemoveTitleIfUnchanged? && !a.RemoveBlockIfUnchanged? && Changed(cell, a, now) != Fail
    ensures part in TakenOut(cell, a, now) <==> part in Parts(cell) && Authorises(a, part)
  {
    if part in TakenOut(cell, a, now) {
      TakenOutIsAuthorised(cell, a, now, part);
    } else if part in Parts(cell) {
      PartsAreHad(cell.record, part);
      if Changed(cell, a, now).Write? {
        PartsAreHad(Changed(cell, a, now).record, part);
      }
    }
  }

  /** The removals that compare take out the draft exactly when value, version and revision are the expected ones. */
  lemma RemovesOnlyUnchanged(r: Record, id: BlockId, value: string, version: nat, revision: nat, now: int)
    requires id != "" && version >= 1 && revision >= 1
    ensures TakenOut(Readable(r), RemoveTitleIfUnchanged(value, version, revision), now)
         == if r.title.Some? && IsUnchanged(r.title.value, value, version, revision)
            then {TitlePart(r.title.value.edit)} else {}
    ensures TakenOut(Readable(r), RemoveBlockIfUnchanged(id, value, version, revision), now)
         == if id in r.blocks && IsUnchanged(r.blocks[id], value, version, revision)
            then {BlockPart(id, r.blocks[id].edit)} else {}
  {
    forall part | part in PartsOf(r)
      ensures part in PartsOf(r.(blocks := r.blocks - {id})) <==> !(part.BlockPart? && part.id == id)
      ensures part in PartsOf(r.(title := None)) <==> !part.TitlePart?
    {
      PartsAreHad(r, part);
      PartsAreHad(r.(blocks := r.blocks - {id}), part);
      PartsAreHad(r.(title := None), part);
    }
    if id in r.blocks {
      PartsAreHad(r, BlockPart(id, r.blocks[id].edit));
    }
    forall part | part in PartsOf(r) && part.BlockPart? && part.id == id ensures part == BlockPart(id, r.blocks[id].edit) {
      PartsAreHad(r, part);
    }
    forall part | part in PartsOf(r) && part.TitlePart? ensures part == TitlePart(r.title.value.edit) {
      PartsAreHad(r, part);
    }
  }

  lemma RunStep(s: State, events: seq<Event>, n: nat)
    requires n < |events|
    ensures Run(s, events[..n + 1]) == Next(Run(s, events[..n]), events[n])
  {
    assert events[..n + 1][..n] == events[..n];
  }

  const SEEN := Record(Some(Draft(Edit("old", 1, 1), 1)), map[], None, 1)
  const GUEST := Record(Some(Draft(Edit("guest", 2, 2), 1)), map[], None, 2)
  const OWN := Record(Some(Draft(Edit("old", 1, 1), 1)), map["b" := Draft(Edit("own", 1, 3), 1)], None, 3)
  const RACE := [Open(0), Open(1), Call(1, SaveTitle("guest", 1, 2), 2), Settle(1),
                 Call(0, SaveBlock("b", "own", 1, 1), 3), Settle(0)]

  lemma GuestHasSaved()
    ensures var s := Run(Init(0, Readable(SEEN)), RACE[..4]);
            && 0 in s.tabs && s.tabs[0] == Tab(Readable(SEEN), []) && s.owner == 0
            && PartsOf(GUEST) <= s.stored && s.superseded <= PartsOf(SEEN)
  {
    var s0 := Init(0, Readable(SEEN));
    RunStep(s0, RACE, 0);
    RunStep(s0, RACE, 1);
    RunStep(s0, RACE, 2);
    RunStep(s0, RACE, 3);
    assert Changed(Readable(SEEN), RACE[2].action, 2) == Write(GUEST);
    var s3 := Run(s0, RACE[..3]);
    assert s3.tabs[1].queue == [CompareAndSet(SEEN, Readable(GUEST))];
  }

  /**
   Without that care a draft can go unseen: a tab that recovered the record saves into it, and the owner, whose copy is
   older, then writes plainly.
   */
  lemma GuestSaveCanBeLost()
    ensures var s := Run(Init(0, Readable(SEEN)), RACE);
            var lost := TitlePart(Edit("guest", 2, 2));
            lost in s.stored && lost !in Parts(s.durable) && lost !in s.superseded
    ensures !CarefulRun(Init(0, Readable(SEEN)), RACE)
  {
    var s0 := Init(0, Readable(SEEN));
    GuestHasSaved();
    assert Changed(Readable(SEEN), RACE[4].action, 3) == Write(OWN);
    RunStep(s0, RACE, 4);
    RunStep(s0, RACE, 5);
    assert RACE[..6] == RACE;
    var lost := TitlePart(Edit("guest", 2, 2));
    PartsAreHad(GUEST, lost);
    PartsAreHad(OWN, lost);
    PartsAreHad(SEEN, lost);
    if CarefulRun(s0, RACE) {
      DraftsAreKeptOrSuperseded(0, Readable(SEEN), RACE);
    }
  }
}

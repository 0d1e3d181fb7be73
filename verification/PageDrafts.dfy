/**
 Recovery drafts of one page and one source: the record that every tab may change, each from its own, possibly stale,
 copy. The tab that owns the source writes plainly; every other tab compares with the record it saw before it writes.
 */
module PageDrafts {
  import opened Options

  type TabId = nat

  type BlockId = string

  /** What was typed. The version a draft expects is not part of it: an acknowledgement moves that on. */
  datatype Edit = Edit(value: string, revision: nat, updatedAt: int)

  datatype Draft = Draft(edit: Edit, expectedVersion: nat)

  datatype Order = Order(mutationId: string, orderedIds: seq<BlockId>, items: string, updatedAt: int)

  datatype Record = Record(title: Option<Draft>, blocks: map<BlockId, Draft>, blockOrder: Option<Order>, updatedAt: int)

  /** What a key holds; a present value that fails validation is unreadable. */
  datatype Cell = Absent | Unreadable(bytes: string) | Readable(record: Record)

  datatype Part = TitlePart(edit: Edit) | BlockPart(id: BlockId, edit: Edit) | OrderPart(order: Order)

  datatype Action =
    | SaveTitle(value: string, expectedVersion: nat, revision: nat)
    | SaveBlock(id: BlockId, value: string, expectedVersion: nat, revision: nat)
    | SaveBlockOrder(order: Order)
    | AcknowledgeTitle(revision: nat, nextExpectedVersion: nat)
    | AcknowledgeBlock(id: BlockId, revision: nat, nextExpectedVersion: nat)
    | AcknowledgeBlockOrder(mutationId: string)
    | RemoveTitleIfUnchanged(value: string, expectedVersion: nat, revision: nat)
    | RemoveBlockIfUnchanged(id: BlockId, value: string, expectedVersion: nat, revision: nat)
    | RemoveTitle
    | RemoveBlock(id: BlockId)
    | RemovePage
    | RemovePageIfUnchanged(expected: Record)
    | ClearBlocks(ids: set<BlockId>)

  /** What a call does to the record it read: give up, leave it, or write another one. */
  datatype Outcome = Fail | Done | Write(record: Record)

  /** A queued transaction: a plain write, or one that compares first. Absent stands for a removal. */
  datatype Transaction = Put(cell: Cell) | CompareAndSet(expected: Record, next: Cell)

  /** One tab's synchronous copy of the key, and its transactions that have not settled. */
  datatype Tab = Tab(mirror: Cell, queue: seq<Transaction>)

  // ----- the calls -----

  function NewRecord(now: int): Record {
    Record(None, map[], None, now)
  }

  predicate IsEmpty(r: Record) {
    r.title.None? && r.blocks == map[] && r.blockOrder.None?
  }

  predicate OrderNames(r: Record, ids: set<BlockId>) {
    r.blockOrder.Some? && exists i :: 0 <= i < |r.blockOrder.value.orderedIds| && r.blockOrder.value.orderedIds[i] in ids
  }

  function WithoutBlocks(r: Record, ids: set<BlockId>): Record {
    r.(blocks := r.blocks - ids, blockOrder := if OrderNames(r, ids) then None else r.blockOrder)
  }

  function Emptied(r: Record): Record {
    Record(None, map[], None, r.updatedAt)
  }

  function Saved(r: Record, a: Action, now: int): Outcome
    requires IsSave(a)
  {
    match a
    case SaveTitle(value, version, revision) =>
      if version < 1 || revision < 1 then Fail
      else Write(r.(title := Some(Draft(Edit(value, revision, now), version)), updatedAt := now))
    case SaveBlock(id, value, version, revision) =>
      if id == "" || version < 1 || revision < 1 then Fail
      else Write(r.(blocks := r.blocks[id := Draft(Edit(value, revision, now), version)], updatedAt := now))
    case SaveBlockOrder(order) =>
      Write(r.(blockOrder := Some(order.(updatedAt := now)), updatedAt := now))
  }

  predicate IsSave(a: Action) {
    a.SaveTitle? || a.SaveBlock? || a.SaveBlockOrder?
  }

  function Acknowledged(r: Record, a: Action): Outcome
    requires a.AcknowledgeTitle? || a.AcknowledgeBlock? || a.AcknowledgeBlockOrder?
  {
    match a
    case AcknowledgeTitle(revision, version) =>
      if revision < 1 || version < 1 then Fail
      else if r.title.None? then Done
      else if r.title.value.edit.revision <= revision then Write(r.(title := None))
      else Write(r.(title := Some(r.title.value.(expectedVersion := version))))
    case AcknowledgeBlock(id, revision, version) =>
      if revision < 1 || version < 1 then Fail
      else if id !in r.blocks then Done
      else if r.blocks[id].edit.revision <= revision then Write(r.(blocks := r.blocks - {id}))
      else Write(r.(blocks := r.blocks[id := r.blocks[id].(expectedVersion := version)]))
    case AcknowledgeBlockOrder(mutationId) =>
      if mutationId == "" then Fail
      else if r.blockOrder.None? || r.blockOrder.value.mutationId != mutationId then Done
      else Write(r.(blockOrder := None))
  }

  predicate IsUnchanged(d: Draft, value: string, version: nat, revision: nat) {
    d.expectedVersion == version && d.edit.revision == revision && d.edit.value == value
  }

  function Removed(r: Record, a: Action): Outcome
    requires !IsSave(a) && !a.AcknowledgeTitle? && !a.AcknowledgeBlock? && !a.AcknowledgeBlockOrder?
  {
    match a
    case RemoveTitleIfUnchanged(value, version, revision) =>
      if version < 1 || revision < 1 then Fail
      else if r.title.None? || !IsUnchanged(r.title.value, value, version, revision) then Done
      else Write(r.(title := None))
    case RemoveBlockIfUnchanged(id, value, version, revision) =>
      if id == "" || version < 1 || revision < 1 then Fail
      else if id !in r.blocks || !IsUnchanged(r.blocks[id], value, version, revision) then Done
      else Write(r.(blocks := r.blocks - {id}))
    case RemoveTitle => Write(r.(title := None))
    case RemoveBlock(id) => Write(WithoutBlocks(r, {id}))
    case RemovePage => Write(Emptied(r))
    case RemovePageIfUnchanged(expected) => if r != expected then Fail else Write(Emptied(r))
    case ClearBlocks(ids) => Write(WithoutBlocks(r, ids))
  }

  /** Without a record there is nothing to acknowledge or remove, and every such call says so. */
  function WithoutRecord(a: Action): Outcome {
    match a
    case AcknowledgeTitle(revision, version) => if revision < 1 || version < 1 then Fail else Done
    case AcknowledgeBlock(_, revision, version) => if revision < 1 || version < 1 then Fail else Done
    case AcknowledgeBlockOrder(mutationId) => if mutationId == "" then Fail else Done
    case RemoveTitleIfUnchanged(_, version, revision) => if version < 1 || revision < 1 then Fail else Done
    case RemoveBlockIfUnchanged(id, _, version, revision) => if id == "" || version < 1 || revision < 1 then Fail else Done
    case _ => Done
  }

  function Changed(cell: Cell, a: Action, now: int): Outcome {
    match cell
    case Unreadable(_) => Fail
    case Absent => if IsSave(a) then Saved(NewRecord(now), a, now) else WithoutRecord(a)
    case Readable(r) =>
      if IsSave(a) then Saved(r, a, now)
      else if a.AcknowledgeTitle? || a.AcknowledgeBlock? || a.AcknowledgeBlockOrder? then Acknowledged(r, a)
      else Removed(r, a)
  }

  function Stored(r: Record, now: int): Cell {
    if IsEmpty(r) then Absent else Readable(r.(updatedAt := now))
  }

  /** `writePage` after its checks: the owner writes, another tab compares with the record it saw. */
  function Written(tab: Tab, own: bool, r: Record, now: int): (Tab, bool) {
    if own then (Tab(Stored(r, now), tab.queue + [Put(Stored(r, now))]), true)
    else if tab.mirror.Readable? then (tab.(queue := tab.queue + [CompareAndSet(tab.mirror.record, Stored(r, now))]), true)
    else (tab, false)
  }

  function Called(tab: Tab, own: bool, a: Action, now: int): (Tab, bool) {
    match Changed(tab.mirror, a, now)
    case Fail => (tab, false)
    case Done => (tab, true)
    case Write(r) => Written(tab, own, r, now)
  }

  // ----- all tabs -----

  /**
   The durable record, the tabs, and what happened so far: the parts that were ever durable, and the parts some call
   saw and superseded.
   */
  datatype State = State(
    owner: TabId,
    durable: Cell,
    tabs: map<TabId, Tab>,
    stored: set<Part>,
    superseded: set<Part>)

  datatype Event =
    | Open(tab: TabId)
    | Call(tab: TabId, action: Action, now: int)
    | DiscardDurably(tab: TabId, expected: Record)
    | Settle(tab: TabId)
    | Abort(tab: TabId)
    | Refresh(tab: TabId)

  function PartsOf(r: Record): set<Part> {
    (if r.title.Some? then {TitlePart(r.title.value.edit)} else {})
    + (set id | id in r.blocks :: BlockPart(id, r.blocks[id].edit))
    + (if r.blockOrder.Some? then {OrderPart(r.blockOrder.value)} else {})
  }

  function Parts(cell: Cell): set<Part> {
    if cell.Readable? then PartsOf(cell.record) else {}
  }

  function Init(owner: TabId, durable: Cell): State {
    State(owner, durable, map[], Parts(durable), {})
  }

  function Settled(durable: Cell, t: Transaction): Cell {
    match t
    case Put(cell) => cell
    case CompareAndSet(expected, next) => if durable == Readable(expected) then next else durable
  }

  /** The parts a call took out of the record it saw. */
  function TakenOut(cell: Cell, a: Action, now: int): set<Part> {
    match Changed(cell, a, now)
    case Write(r) => Parts(cell) - PartsOf(r)
    case _ => {}
  }

  function AfterCall(s: State, id: TabId, a: Action, now: int): State
    requires id in s.tabs
  {
    var tab := s.tabs[id];
    var own := id == s.owner;
    s.(tabs := s.tabs[id := Called(tab, own, a, now).0],
       superseded := s.superseded + TakenOut(tab.mirror, a, now))
  }

  function Dequeued(s: State, id: TabId): State
    requires id in s.tabs && s.tabs[id].queue != []
  {
    s.(tabs := s.tabs[id := s.tabs[id].(queue := s.tabs[id].queue[1..])])
  }

  function Next(s: State, e: Event): State {
    match e
    case Open(id) => s.(tabs := s.tabs[id := Tab(s.durable, [])])
    case Call(id, a, now) => if id in s.tabs then AfterCall(s, id, a, now) else s
    case DiscardDurably(id, expected) =>
      if id in s.tabs
      then s.(tabs := s.tabs[id := s.tabs[id].(queue := s.tabs[id].queue + [CompareAndSet(expected, Absent)])],
              superseded := s.superseded + PartsOf(expected))
      else s
    case Settle(id) =>
      if id in s.tabs && s.tabs[id].queue != []
      then var now := Settled(s.durable, s.tabs[id].queue[0]);
           Dequeued(s, id).(durable := now, stored := s.stored + Parts(now))
      else s
    case Abort(id) => if id in s.tabs && s.tabs[id].queue != [] then Dequeued(s, id) else s
    case Refresh(id) =>
      if id in s.tabs && (s.tabs[id].queue == [] || id != s.owner)
      then s.(tabs := s.tabs[id := s.tabs[id].(mirror := s.durable)])
      else s
  }

  function Run(s: State, events: seq<Event>): State
    decreases |events|
  {
    if events == [] then s else Next(Run(s, events[..|events| - 1]), events[|events| - 1])
  }

  // ----- what a call may supersede -----

  /** Whether the caller may end this part, judged by the arguments of the call alone. */
  predicate Authorises(a: Action, part: Part) {
    match part
    case TitlePart(edit) =>
      (match a
       case SaveTitle(_, _, _) => true
       case AcknowledgeTitle(revision, _) => edit.revision <= revision
       case RemoveTitleIfUnchanged(value, _, revision) => edit.value == value && edit.revision == revision
       case RemoveTitle => true
       case RemovePage => true
       case RemovePageIfUnchanged(expected) => part in PartsOf(expected)
       case _ => false)
    case BlockPart(id, edit) =>
      (match a
       case SaveBlock(other, _, _, _) => other == id
       case AcknowledgeBlock(other, revision, _) => other == id && edit.revision <= revision
       case RemoveBlockIfUnchanged(other, value, _, revision) =>
          other == id && edit.value == value && edit.revision == revision
       case RemoveBlock(other) => other == id
       case RemovePage => true
       case RemovePageIfUnchanged(expected) => part in PartsOf(expected)
       case ClearBlocks(ids) => id in ids
       case _ => false)
    case OrderPart(order) =>
      (match a
       case SaveBlockOrder(_) => true
       case AcknowledgeBlockOrder(mutationId) => order.mutationId == mutationId
       case RemoveBlock(id) => id in order.orderedIds
       case RemovePage => true
       case RemovePageIfUnchanged(expected) => part in PartsOf(expected)
       case ClearBlocks(ids) => exists i :: 0 <= i < |order.orderedIds| && order.orderedIds[i] in ids
       case _ => false)
  }

  predicate HasPart(r: Record, part: Part) {
    match part
    case TitlePart(edit) => r.title.Some? && r.title.value.edit == edit
    case BlockPart(id, edit) => id in r.blocks && r.blocks[id].edit == edit
    case OrderPart(order) => r.blockOrder == Some(order)
  }

  lemma PartsAreHad(r: Record, part: Part)
    ensures part in PartsOf(r) <==> HasPart(r, part)
  {
    if part.BlockPart? && HasPart(r, part) {
      assert part == BlockPart(part.id, r.blocks[part.id].edit);
    }
  }

  /** A call takes out only parts it saw and may end. */
  lemma TakenOutIsAuthorised(cell: Cell, a: Action, now: int, part: Part)
    requires part in TakenOut(cell, a, now)
    ensures part in Parts(cell) && Authorises(a, part)
  {
    var r := Changed(cell, a, now).record;
    PartsAreHad(cell.record, part);
    PartsAreHad(r, part);
    if a.RemovePageIfUnchanged? {
      PartsAreHad(a.expected, part);
    }
  }

  /** An acknowledgement or a removal brings no part in. */
  lemma OnlySavesBringPartsIn(cell: Cell, a: Action, now: int)
    requires Changed(cell, a, now).Write? && !IsSave(a)
    ensures PartsOf(Changed(cell, a, now).record) <= Parts(cell)
  {
    var r := Changed(cell, a, now).record;
    forall part | part in PartsOf(r) ensures part in Parts(cell) {
      PartsAreHad(cell.record, part);
      PartsAreHad(r, part);
    }
  }
}

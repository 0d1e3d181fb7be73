/** The draft store over one key: each call prepares a record from the tab's copy, changes it, and writes it back. */
module PageDraftStores {
  import opened Options
  import opened PageDrafts
  import opened PageDraftOutcomes

  class PageDraftStore {
    /** Whether the key's source is this store's own. */
    const own: bool
    /** The recovery storage of this tab: its copy of the key, and the transactions it has queued. */
    var mirror: Cell
    var queue: seq<Transaction>

    constructor (own: bool, stored: Cell)
      ensures this.own == own && View() == Tab(stored, [])
    {
      this.own, mirror, queue := own, stored, [];
    }

    function View(): Tab
      reads this
    {
      Tab(mirror, queue)
    }

    /** `prepareRecordMutation` */
    method PrepareRecordMutation(createIfMissing: bool, now: int)
      returns (record: Option<Record>, expectedRecord: Option<Record>, writable: bool)
      ensures writable <==> !mirror.Unreadable?
      ensures mirror.Unreadable? ==> record == None && expectedRecord == None
      ensures mirror.Absent? ==> record == (if createIfMissing then Some(NewRecord(now)) else None) && expectedRecord == None
      ensures mirror.Readable? ==> record == expectedRecord == Some(mirror.record)
    {
      match mirror
      case Unreadable(_) => return None, None, false;
      case Absent => return if createIfMissing then Some(NewRecord(now)) else None, None, true;
      case Readable(r) => return Some(r), Some(r), true;
    }

    /** `writePage`: refuses unless the copy still is the expected record. */
    method WritePage(record: Record, expectedRecord: Option<Record>, now: int) returns (ok: bool)
      modifies this
      ensures if IsExpected(old(mirror), expectedRecord) then (View(), ok) == Written(old(View()), own, record, now)
              else View() == old(View()) && !ok
    {
      if mirror.Unreadable? {
        return false;
      }
      if expectedRecord.None? {
        if mirror.Readable? {
          return false;
        }
      } else if mirror != Readable(expectedRecord.value) {
        return false;
      }
      var next := if IsEmpty(record) then Absent else Readable(record.(updatedAt := now));
      if !own {
        if expectedRecord.None? {
          return false;
        }
        queue := queue + [CompareAndSet(expectedRecord.value, next)];
        return true;
      }
      mirror, queue := next, queue + [Put(next)];
      return true;
    }

    method SaveTitle(value: string, expectedVersion: nat, revision: nat, now: int) returns (ok: bool)
      modifies this
      ensures (View(), ok) == Called(old(View()), own, Action.SaveTitle(value, expectedVersion, revision), now)
      ensures Answers(old(View()), View(), own, ok, Action.SaveTitle(value, expectedVersion, revision), now)
    {
      CallAnswers(View(), own, Action.SaveTitle(value, expectedVersion, revision), now);
      if expectedVersion < 1 || revision < 1 {
        return false;
      }
      var record, expectedRecord, writable := PrepareRecordMutation(true, now);
      if !writable || record.None? {
        return false;
      }
      var title := Draft(Edit(value, revision, now), expectedVersion);
      ok := WritePage(record.value.(title := Some(title), updatedAt := now), expectedRecord, now);
    }

    method SaveBlock(id: BlockId, value: string, expectedVersion: nat, revision: nat, now: int) returns (ok: bool)
      modifies this
      ensures (View(), ok) == Called(old(View()), own, Action.SaveBlock(id, value, expectedVersion, revision), now)
      ensures Answers(old(View()), View(), own, ok, Action.SaveBlock(id, value, expectedVersion, revision), now)
    {
      CallAnswers(View(), own, Action.SaveBlock(id, value, expectedVersion, revision), now);
      if id == "" || expectedVersion < 1 || revision < 1 {
        return false;
      }
      var record, expectedRecord, writable := PrepareRecordMutation(true, now);
      if !writable || record.None? {
        return false;
      }
      var draft := Draft(Edit(value, revision, now), expectedVersion);
      ok := WritePage(record.value.(blocks := record.value.blocks[id := draft], updatedAt := now), expectedRecord, now);
    }

    method SaveBlockOrder(order: Order, now: int) returns (ok: bool)
      modifies this
      ensures (View(), ok) == Called(old(View()), own, Action.SaveBlockOrder(order), now)
      ensures Answers(old(View()), View(), own, ok, Action.SaveBlockOrder(order), now)
    {
      CallAnswers(View(), own, Action.SaveBlockOrder(order), now);
      var record, expectedRecord, writable := PrepareRecordMutation(true, now);
      if !writable || record.None? {
        return false;
      }
      ok := WritePage(record.value.(blockOrder := Some(order.(updatedAt := now)), updatedAt := now), expectedRecord, now);
    }

    method AcknowledgeTitle(revision: nat, nextExpectedVersion: nat, now: int) returns (ok: bool)
      modifies this
      ensures (View(), ok) == Called(old(View()), own, Action.AcknowledgeTitle(revision, nextExpectedVersion), now)
      ensures Answers(old(View()), View(), own, ok, Action.AcknowledgeTitle(revision, nextExpectedVersion), now)
    {
      CallAnswers(View(), own, Action.AcknowledgeTitle(revision, nextExpectedVersion), now);
      var record, expectedRecord, writable := PrepareRecordMutation(false, now);
      if !writable || revision < 1 || nextExpectedVersion < 1 {
        return false;
      }
      if record.None? || record.value.title.None? {
        return true;
      }
      var next := record.value;
      if next.title.value.edit.revision <= revision {
        next := next.(title := None);
      } else {
        next := next.(title := Some(next.title.value.(expectedVersion := nextExpectedVersion)));
      }
      ok := WritePage(next, expectedRecord, now);
    }

    method AcknowledgeBlock(id: BlockId, revision: nat, nextExpectedVersion: nat, now: int) returns (ok: bool)
      modifies this
      ensures (View(), ok) == Called(old(View()), own, Action.AcknowledgeBlock(id, revision, nextExpectedVersion), now)
      ensures Answers(old(View()), View(), own, ok, Action.AcknowledgeBlock(id, revision, nextExpectedVersion), now)
    {
      CallAnswers(View(), own, Action.AcknowledgeBlock(id, revision, nextExpectedVersion), now);
      var record, expectedRecord, writable := PrepareRecordMutation(false, now);
      if !writable || revision < 1 || nextExpectedVersion < 1 {
        return false;
      }
      if record.None? || id !in record.value.blocks {
        return true;
      }
      var next := record.value;
      var draft := next.blocks[id];
      if draft.edit.revision <= revision {
        next := next.(blocks := next.blocks - {id});
      } else {
        next := next.(blocks := next.blocks[id := draft.(expectedVersion := nextExpectedVersion)]);
      }
      ok := WritePage(next, expectedRecord, now);
    }

    method AcknowledgeBlockOrder(mutationId: string, now: int) returns (ok: bool)
      modifies this
      ensures (View(), ok) == Called(old(View()), own, Action.AcknowledgeBlockOrder(mutationId), now)
      ensures Answers(old(View()), View(), own, ok, Action.AcknowledgeBlockOrder(mutationId), now)
    {
      CallAnswers(View(), own, Action.AcknowledgeBlockOrder(mutationId), now);
      if mutationId == "" {
        return false;
      }
      var record, expectedRecord, writable := PrepareRecordMutation(false, now);
      if !writable {
        return false;
      }
      if record.None? || record.value.blockOrder.None? || record.value.blockOrder.value.mutationId != mutationId {
        return true;
      }
      ok := WritePage(record.value.(blockOrder := None), expectedRecord, now);
    }

    method RemoveTitleIfUnchanged(value: string, expectedVersion: nat, revision: nat, now: int) returns (ok: bool)
      modifies this
      ensures (View(), ok) == Called(old(View()), own, Action.RemoveTitleIfUnchanged(value, expectedVersion, revision), now)
      ensures Answers(old(View()), View(), own, ok, Action.RemoveTitleIfUnchanged(value, expectedVersion, revision), now)
    {
      CallAnswers(View(), own, Action.RemoveTitleIfUnchanged(value, expectedVersion, revision), now);
      if expectedVersion < 1 || revision < 1 {
        return false;
      }
      var record, expectedRecord, writable := PrepareRecordMutation(false, now);
      if !writable {
        return false;
      }
      if record.None? || record.value.title.None? {
        return true;
      }
      if !IsUnchanged(record.value.title.value, value, expectedVersion, revision) {
        return true;
      }
      ok := WritePage(record.value.(title := None), expectedRecord, now);
    }

    method RemoveBlockIfUnchanged(id: BlockId, value: string, expectedVersion: nat, revision: nat, now: int)
      returns (ok: bool)
      modifies this
      ensures (View(), ok)
           == Called(old(View()), own, Action.RemoveBlockIfUnchanged(id, value, expectedVersion, revision), now)
      ensures Answers(old(View()), View(), own, ok, Action.RemoveBlockIfUnchanged(id, value, expectedVersion, revision), now)
    {
      CallAnswers(View(), own, Action.RemoveBlockIfUnchanged(id, value, expectedVersion, revision), now);
      if id == "" || expectedVersion < 1 || revision < 1 {
        return false;
      }
      var record, expectedRecord, writable := PrepareRecordMutation(false, now);
      if !writable {
        return false;
      }
      if record.None? || id !in record.value.blocks {
        return true;
      }
      if !IsUnchanged(record.value.blocks[id], value, expectedVersion, revision) {
        return true;
      }
      ok := WritePage(record.value.(blocks := record.value.blocks - {id}), expectedRecord, now);
    }

    method RemoveTitle(now: int) returns (ok: bool)
      modifies this
      ensures (View(), ok) == Called(old(View()), own, Action.RemoveTitle, now)
      ensures Answers(old(View()), View(), own, ok, Action.RemoveTitle, now)
    {
      CallAnswers(View(), own, Action.RemoveTitle, now);
      var record, expectedRecord, writable := PrepareRecordMutation(false, now);
      if !writable {
        return false;
      }
      if record.None? {
        return true;
      }
      ok := WritePage(record.value.(title := None), expectedRecord, now);
    }

    method RemoveBlock(id: BlockId, now: int) returns (ok: bool)
      modifies this
      ensures (View(), ok) == Called(old(View()), own, Action.RemoveBlock(id), now)
      ensures Answers(old(View()), View(), own, ok, Action.RemoveBlock(id), now)
    {
      CallAnswers(View(), own, Action.RemoveBlock(id), now);
      var record, expectedRecord, writable := PrepareRecordMutation(false, now);
      if !writable {
        return false;
      }
      if record.None? {
        return true;
      }
      var next := record.value.(blocks := record.value.blocks - {id});
      if next.blockOrder.Some? && id in next.blockOrder.value.orderedIds {
        next := next.(blockOrder := None);
      }
      ok := WritePage(next, expectedRecord, now);
    }

    method RemovePage(now: int) returns (ok: bool)
      modifies this
      ensures (View(), ok) == Called(old(View()), own, Action.RemovePage, now)
      ensures Answers(old(View()), View(), own, ok, Action.RemovePage, now)
    {
      CallAnswers(View(), own, Action.RemovePage, now);
      var record, expectedRecord, writable := PrepareRecordMutation(false, now);
      if !writable {
        return false;
      }
      if record.None? {
        return true;
      }
      ok := WritePage(record.value.(title := None, blocks := map[], blockOrder := None), expectedRecord, now);
    }

    method RemovePageIfUnchanged(expected: Record, now: int) returns (ok: bool)
      modifies this
      ensures (View(), ok) == Called(old(View()), own, Action.RemovePageIfUnchanged(expected), now)
      ensures Answers(old(View()), View(), own, ok, Action.RemovePageIfUnchanged(expected), now)
    {
      CallAnswers(View(), own, Action.RemovePageIfUnchanged(expected), now);
      var record, expectedRecord, writable := PrepareRecordMutation(false, now);
      if !writable {
        return false;
      }
      if record.None? {
        return true;
      }
      if record.value != expected {
        return false;
      }
      ok := WritePage(record.value.(title := None, blocks := map[], blockOrder := None), expectedRecord, now);
    }

    /** What `clearBlocks` does to one of the records it enumerated. */
    method ClearBlocks(ids: set<BlockId>, now: int) returns (ok: bool)
      modifies this
      ensures (View(), ok) == Called(old(View()), own, Action.ClearBlocks(ids), now)
      ensures Answers(old(View()), View(), own, ok, Action.ClearBlocks(ids), now)
    {
      CallAnswers(View(), own, Action.ClearBlocks(ids), now);
      match mirror
      case Unreadable(_) => return false;
      case Absent => return true;
      case Readable(r) =>
        var next := r.(blocks := r.blocks - ids);
        if OrderNames(next, ids) {
          next := next.(blockOrder := None);
        }
        ok := WritePage(next, Some(r), now);
    }
  }

  /** The copy is what the caller prepared from. */
  predicate IsExpected(mirror: Cell, expectedRecord: Option<Record>) {
    match mirror
    case Unreadable(_) => false
    case Absent => expectedRecord.None?
    case Readable(r) => expectedRecord == Some(r)
  }
}

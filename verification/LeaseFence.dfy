/**
 Durable transition leases: records in storage shared by all tabs, fenced by an
 exclusive lock that the lease names. Each operation of a tab is one step; the
 clock is a parameter of every step and may say anything.
 */
module LeaseFence {
  import opened Options

  type PageId = string

  type LockId = string

  type TabId = nat

  /** `exclusiveId` is absent in leases written before leases named their lock. */
  datatype Lease = Lease(
    pageId: PageId, sourceId: TabId, token: nat, kind: string, exclusiveId: Option<LockId>, expiresAt: int)

  /** What a key holds: a lease that passes validation, or text that does not. */
  datatype Raw = Decoded(lease: Lease) | Unreadable

  datatype Inspection = Missing | Invalid | Active(lease: Lease) | Expired(lease: Lease)

  type Store = map<PageId, Raw>

  /** How often each exclusive lock is held by this tab's nested callbacks. */
  type Held = map<LockId, nat>

  function Inspect(store: Store, page: PageId, now: int): Inspection {
    if page !in store then Missing
    else match store[page]
      case Unreadable => Invalid
      case Decoded(lease) =>
        if lease.pageId != page then Invalid
        else if lease.expiresAt <= now then Expired(lease)
        else Active(lease)
  }

  predicate IsExclusiveHeld(held: Held, id: LockId) {
    id in held && held[id] > 0
  }

  /** The lease a successful acquire writes. */
  function NewLease(page: PageId, source: TabId, token: nat, kind: string, id: LockId, expiresAt: int): Lease {
    Lease(page, source, token, kind, Some(id), expiresAt)
  }

  predicate MayAcquire(store: Store, held: Held, page: PageId, kind: string, id: LockId, now: int) {
    page != "" && kind != "" && id != "" && IsExclusiveHeld(held, id) && Inspect(store, page, now).Missing?
  }

  predicate Owns(store: Store, page: PageId, token: nat, now: int) {
    var inspection := Inspect(store, page, now);
    (inspection.Active? || inspection.Expired?) && inspection.lease.token == token
  }

  predicate MayRenew(store: Store, held: Held, lease: Lease, now: int) {
    IsExclusiveHeld(held, if lease.exclusiveId.Some? then lease.exclusiveId.value else lease.pageId)
    && Owns(store, lease.pageId, lease.token, now)
  }

  /** The token check of a removal reads the raw record, valid or not. */
  predicate HasToken(store: Store, page: PageId, token: nat) {
    page in store && store[page].Decoded? && store[page].lease.token == token
  }

  function WithoutOwned(store: Store, page: PageId, token: nat): Store {
    if HasToken(store, page, token) then store - {page} else store
  }

  predicate MayReleaseExpired(store: Store, held: Held, page: PageId, now: int) {
    var inspection := Inspect(store, page, now);
    inspection.Expired?
    && IsExclusiveHeld(held, if inspection.lease.exclusiveId.Some? then inspection.lease.exclusiveId.value else page)
  }

  // ----- one tab's object over the shared storage -----

  class SharedStorage {
    var items: Store
    constructor ()
      ensures items == map[]
    {
      items := map[];
    }
  }

  class PageTransitionLock {
    const storage: SharedStorage
    const sourceId: TabId
    const ttlMs: int
    var heldExclusiveIds: Held

    constructor (storage: SharedStorage, sourceId: TabId, ttlMs: int)
      ensures this.storage == storage && this.sourceId == sourceId && heldExclusiveIds == map[]
      ensures this.ttlMs == if ttlMs >= 1_000 then ttlMs else 120_000
    {
      this.storage := storage;
      this.sourceId := sourceId;
      this.ttlMs := if ttlMs >= 1_000 then ttlMs else 120_000;
      heldExclusiveIds := map[];
    }

    /** A lease appears only where there was none and only under a held lock; nothing else changes. */
    method Acquire(page: PageId, kind: string, exclusiveId: LockId, token: nat, now: int) returns (r: Option<Lease>)
      requires ttlMs > 0
      modifies storage
      ensures r.Some? <==> MayAcquire(old(storage.items), heldExclusiveIds, page, kind, exclusiveId, now)
      ensures r.None? ==> storage.items == old(storage.items)
      ensures r.Some? ==>
        r.value == NewLease(page, sourceId, token, kind, exclusiveId, now + ttlMs)
        && storage.items == old(storage.items)[page := Decoded(r.value)]
    {
      if page == "" || kind == "" || exclusiveId == "" || !IsExclusiveHeld(heldExclusiveIds, exclusiveId) {
        return None;
      }
      if Inspect(storage.items, page, now) != Missing {
        return None;
      }
      var record := Lease(page, sourceId, token, kind, Some(exclusiveId), now + ttlMs);
      storage.items := storage.items[page := Decoded(record)];
      var verified := Inspect(storage.items, page, now);
      r := if verified.Active? && verified.lease.token == token then Some(verified.lease) else None;
    }

    method Renew(lease: Lease, now: int) returns (r: Option<Lease>)
      modifies storage
      ensures r.Some? <==> MayRenew(old(storage.items), heldExclusiveIds, lease, now)
      ensures r.None? ==> storage.items == old(storage.items)
      ensures r.Some? ==>
        r.value == lease.(expiresAt := now + ttlMs)
        && storage.items == old(storage.items)[lease.pageId := Decoded(r.value)]
    {
      var exclusiveId := if lease.exclusiveId.Some? then lease.exclusiveId.value else lease.pageId;
      if !IsExclusiveHeld(heldExclusiveIds, exclusiveId) || !Owns(storage.items, lease.pageId, lease.token, now) {
        return None;
      }
      var renewed := lease.(expiresAt := now + ttlMs);
      storage.items := storage.items[lease.pageId := Decoded(renewed)];
      r := if Owns(storage.items, renewed.pageId, renewed.token, now) then Some(renewed) else None;
    }

    /** True when no lease with this token remains. */
    method RemoveIfOwned(page: PageId, token: nat) returns (removed: bool)
      modifies storage
      ensures storage.items == WithoutOwned(old(storage.items), page, token)
      ensures removed <==> (page !in storage.items)
    {
      if page !in storage.items {
        return true;
      }
      if !HasToken(storage.items, page, token) {
        return false;
      }
      storage.items := storage.items - {page};
      removed := true;
    }

    method ReleaseExpired(page: PageId, now: int) returns (released: bool)
      modifies storage
      ensures MayReleaseExpired(old(storage.items), heldExclusiveIds, page, now) ==>
        released && storage.items == old(storage.items) - {page}
      ensures !MayReleaseExpired(old(storage.items), heldExclusiveIds, page, now) ==>
        storage.items == old(storage.items) && (released <==> page !in storage.items)
    {
      var inspection := Inspect(storage.items, page, now);
      if inspection.Missing? {
        return true;
      }
      if !inspection.Expired? {
        return false;
      }
      var exclusiveId := inspection.lease.exclusiveId;
      var lockId := if exclusiveId.Some? then exclusiveId.value else page;
      if !IsExclusiveHeld(heldExclusiveIds, lockId) {
        return false;
      }
      released := RemoveIfOwned(page, inspection.lease.token);
    }

    /** Entering and leaving the callback of a granted exclusive lock. */
    method EnterExclusive(id: LockId)
      modifies this
      ensures heldExclusiveIds == Entered(old(heldExclusiveIds), id)
    {
      heldExclusiveIds := heldExclusiveIds[id := (if id in heldExclusiveIds then heldExclusiveIds[id] else 0) + 1];
    }

    method LeaveExclusive(id: LockId)
      modifies this
      ensures heldExclusiveIds == Left(old(heldExclusiveIds), id)
    {
      var count: int := if id in heldExclusiveIds then heldExclusiveIds[id] else 1;
      var remaining := count - 1;
      if remaining > 0 {
        heldExclusiveIds := heldExclusiveIds[id := remaining];
      } else {
        heldExclusiveIds := heldExclusiveIds - {id};
      }
    }
  }

  function Entered(held: Held, id: LockId): Held {
    held[id := (if id in held then held[id] else 0) + 1]
  }

  function Left(held: Held, id: LockId): Held {
    var count: int := if id in held then held[id] else 1;
    var remaining := count - 1;
    if remaining > 0 then held[id := remaining] else held - {id}
  }

  // ----- many tabs -----

  /** A tab: its lock counts and the leases it got back from acquire and renew. */
  datatype Tab = Tab(held: Held, leases: set<Lease>)

  datatype State = State(store: Store, locks: map<LockId, TabId>, tabs: TabId -> Tab, nextToken: nat)

  datatype Event =
    | Grant(tab: TabId, id: LockId)
    | Leave(tab: TabId, id: LockId)
    | Unlock(tab: TabId, id: LockId)
    | Crash(tab: TabId)
    | Acquire(tab: TabId, page: PageId, kind: string, id: LockId, now: int, ttl: int)
    | Renew(tab: TabId, lease: Lease, now: int, ttl: int)
    | Release(tab: TabId, lease: Lease)
    | ReleaseExpired(tab: TabId, page: PageId, now: int)

  function SetTab(tabs: TabId -> Tab, tab: TabId, value: Tab): TabId -> Tab {
    (t: TabId) => if t == tab then value else tabs(t)
  }

  /**
   One step. Exclusive locks are granted only when free, given back only after
   their callback has left, and all lost when a tab crashes. A tab renews and
   releases only leases it acquired; tokens are never drawn twice.
   */
  function Next(s: State, e: Event): State {
    match e
    case Grant(tab, id) =>
      if id in s.locks then s
      else
        var t := s.tabs(tab);
        s.(locks := s.locks[id := tab], tabs := SetTab(s.tabs, tab, t.(held := Entered(t.held, id))))
    case Leave(tab, id) =>
      var t := s.tabs(tab);
      if IsExclusiveHeld(t.held, id) then s.(tabs := SetTab(s.tabs, tab, t.(held := Left(t.held, id)))) else s
    case Unlock(tab, id) =>
      if Lookup(s.locks, id) == Some(tab) && !IsExclusiveHeld(s.tabs(tab).held, id) then s.(locks := s.locks - {id}) else s
    case Crash(tab) =>
      s.(locks := map id | id in s.locks && s.locks[id] != tab :: s.locks[id],
         tabs := SetTab(s.tabs, tab, Tab(map[], {})))
    case Acquire(tab, page, kind, id, now, ttl) =>
      var t := s.tabs(tab);
      if !MayAcquire(s.store, t.held, page, kind, id, now) then s
      else
        var lease := NewLease(page, tab, s.nextToken, kind, id, now + ttl);
        s.(store := s.store[page := Decoded(lease)], nextToken := s.nextToken + 1,
           tabs := SetTab(s.tabs, tab, t.(leases := t.leases + {lease})))
    case Renew(tab, lease, now, ttl) =>
      var t := s.tabs(tab);
      if lease !in t.leases || !MayRenew(s.store, t.held, lease, now) then s
      else
        var renewed := lease.(expiresAt := now + ttl);
        s.(store := s.store[lease.pageId := Decoded(renewed)],
           tabs := SetTab(s.tabs, tab, t.(leases := t.leases + {renewed})))
    case Release(tab, lease) =>
      if lease in s.tabs(tab).leases then s.(store := WithoutOwned(s.store, lease.pageId, lease.token)) else s
    case ReleaseExpired(tab, page, now) =>
      if MayReleaseExpired(s.store, s.tabs(tab).held, page, now) then s.(store := s.store - {page}) else s
  }

  function Run(s: State, events: seq<Event>): State
    decreases |events|
  {
    if events == [] then s else Run(Next(s, events[0]), events[1..])
  }

  /** Storage may hold leases of earlier sessions; their tokens are below `nextToken`. */
  ghost predicate Initial(s: State) {
    && s.locks == map[] && (forall t :: s.tabs(t) == Tab(map[], {}))
    && forall p :: p in s.store && s.store[p].Decoded? ==> s.store[p].lease.token < s.nextToken
  }

  ghost predicate Reachable(s: State) {
    exists init, events :: Initial(init) && Run(init, events) == s
  }

  // ----- invariants -----

  /** A tab inside the callback of an exclusive lock has that lock. */
  ghost predicate LocksFit(s: State) {
    forall t: TabId, id :: IsExclusiveHeld(s.tabs(t).held, id) ==> Lookup(s.locks, id) == Some(t)
  }

  /** A token is used by at most one tab, and names one page and one lock. */
  ghost predicate TokensFit(s: State) {
    && (forall t: TabId, l :: l in s.tabs(t).leases ==> l.token < s.nextToken)
    && (forall t: TabId, u: TabId, l, k :: (l in s.tabs(t).leases && k in s.tabs(u).leases && l.token == k.token) ==> t == u)
    && (forall p :: p in s.store && s.store[p].Decoded? ==> s.store[p].lease.token < s.nextToken)
  }

  ghost predicate Inv(s: State) {
    LocksFit(s) && TokensFit(s)
  }

  lemma LocksStayFit(s: State, e: Event)
    requires LocksFit(s)
    ensures LocksFit(Next(s, e))
  {
    var u := Next(s, e);
    forall t: TabId, id | IsExclusiveHeld(u.tabs(t).held, id)
      ensures Lookup(u.locks, id) == Some(t)
    {
      if IsExclusiveHeld(s.tabs(t).held, id) {
        assert Lookup(s.locks, id) == Some(t);
      } else {
        assert e.Grant? && e.tab == t && e.id == id && id !in s.locks;
      }
    }
  }

  /** A tab receives a lease with a fresh token, or with a token it already has, and stores it. */
  ghost predicate Writes(s: State, u: State, t: TabId, lease: Lease) {
    && (lease.token == s.nextToken < u.nextToken
        || (u.nextToken == s.nextToken && exists l :: l in s.tabs(t).leases && l.token == lease.token))
    && (forall x: TabId, l :: l in u.tabs(x).leases ==> l in s.tabs(x).leases || (x == t && l == lease))
    && (forall p :: p in u.store ==> u.store[p] == Decoded(lease) || (p in s.store && u.store[p] == s.store[p]))
  }

  lemma WritesKeepTokens(s: State, u: State, t: TabId, lease: Lease)
    requires TokensFit(s) && Writes(s, u, t, lease)
    ensures TokensFit(u)
  {
  }

  lemma AcquireWrites(s: State, e: Event)
    requires TokensFit(s) && e.Acquire? && MayAcquire(s.store, s.tabs(e.tab).held, e.page, e.kind, e.id, e.now)
    ensures TokensFit(Next(s, e))
  {
    var u := Next(s, e);
    var lease := NewLease(e.page, e.tab, s.nextToken, e.kind, e.id, e.now + e.ttl);
    assert Writes(s, u, e.tab, lease);
    WritesKeepTokens(s, u, e.tab, lease);
  }

  lemma RenewWrites(s: State, e: Event)
    requires TokensFit(s) && e.Renew? && e.lease in s.tabs(e.tab).leases
    requires MayRenew(s.store, s.tabs(e.tab).held, e.lease, e.now)
    ensures TokensFit(Next(s, e))
  {
    var u := Next(s, e);
    var lease := e.lease.(expiresAt := e.now + e.ttl);
    assert Writes(s, u, e.tab, lease);
    WritesKeepTokens(s, u, e.tab, lease);
  }

  /** No tab has a lease, and the store no entry, that was not there before. */
  ghost predicate Shrinks(s: State, t: State) {
    && t.nextToken == s.nextToken
    && (forall x: TabId :: t.tabs(x).leases <= s.tabs(x).leases)
    && (forall p :: p in t.store ==> p in s.store && t.store[p] == s.store[p])
  }

  lemma LockStepShrinks(s: State, e: Event)
    requires e.Grant? || e.Leave? || e.Unlock? || e.Crash?
    ensures Shrinks(s, Next(s, e))
  {
  }

  lemma ReleaseShrinks(s: State, e: Event)
    requires e.Release? || e.ReleaseExpired?
    ensures Shrinks(s, Next(s, e))
  {
  }

  lemma RemovalsStayFit(s: State, t: State)
    requires TokensFit(s) && Shrinks(s, t)
    ensures TokensFit(t)
  {
  }

  lemma TokensStayFit(s: State, e: Event)
    requires TokensFit(s)
    ensures TokensFit(Next(s, e))
  {
    if e.Acquire? {
      if MayAcquire(s.store, s.tabs(e.tab).held, e.page, e.kind, e.id, e.now) { AcquireWrites(s, e); }
    } else if e.Renew? {
      if e.lease in s.tabs(e.tab).leases && MayRenew(s.store, s.tabs(e.tab).held, e.lease, e.now) { RenewWrites(s, e); }
    } else {
      if e.Release? || e.ReleaseExpired? { ReleaseShrinks(s, e); } else { LockStepShrinks(s, e); }
      RemovalsStayFit(s, Next(s, e));
    }
  }

  lemma NextKeeps(s: State, e: Event)
    requires Inv(s)
    ensures Inv(Next(s, e))
  {
    LocksStayFit(s, e);
    TokensStayFit(s, e);
  }

  lemma {:induction false} RunKeeps(s: State, events: seq<Event>)
    requires Inv(s)
    ensures Inv(Run(s, events))
    decreases |events|
  {
    if events != [] {
      NextKeeps(s, events[0]);
      RunKeeps(Next(s, events[0]), events[1..]);
    }
  }

  lemma ReachableKeeps(s: State)
    requires Reachable(s)
    ensures Inv(s)
  {
    var init, events :| Initial(init) && Run(init, events) == s;
    RunKeeps(init, events);
  }

  // ----- the fence -----

  /** Tab `t` is inside exclusive lock `id`, and its lease on `page` names that lock. */
  ghost predicate Fenced(s: State, t: TabId, page: PageId, id: LockId) {
    && IsExclusiveHeld(s.tabs(t).held, id)
    && page in s.store && s.store[page].Decoded?
    && s.store[page].lease in s.tabs(t).leases
    && s.store[page].lease.pageId == page && s.store[page].lease.exclusiveId == Some(id)
  }

  lemma OthersKeepFence(s: State, t: TabId, page: PageId, id: LockId, e: Event)
    requires Inv(s) && Fenced(s, t, page, id) && e.tab != t
    ensures Fenced(Next(s, e), t, page, id) && Next(s, e).store[page] == s.store[page]
  {
    if e.ReleaseExpired? && e.page == page {
      assert Lookup(s.locks, id) == Some(t);
    }
  }

  /** However long the others act and whatever their clocks say, the lease stays as it is. */
  lemma {:induction false} FenceHolds(s: State, t: TabId, page: PageId, id: LockId, events: seq<Event>)
    requires Reachable(s) && Fenced(s, t, page, id)
    requires forall i :: 0 <= i < |events| ==> events[i].tab != t
    ensures Fenced(Run(s, events), t, page, id)
    ensures Run(s, events).store[page] == s.store[page]
  {
    ReachableKeeps(s);
    FenceHoldsFrom(s, t, page, id, events);
  }

  lemma {:induction false} FenceHoldsFrom(s: State, t: TabId, page: PageId, id: LockId, events: seq<Event>)
    requires Inv(s) && Fenced(s, t, page, id)
    requires forall i :: 0 <= i < |events| ==> events[i].tab != t
    ensures Fenced(Run(s, events), t, page, id)
    ensures Run(s, events).store[page] == s.store[page]
    decreases |events|
  {
    if events != [] {
      NextKeeps(s, events[0]);
      OthersKeepFence(s, t, page, id, events[0]);
      FenceHoldsFrom(Next(s, events[0]), t, page, id, events[1..]);
    }
  }

  /** The owner may renew meanwhile: the token stays, so the fence stays too. */
  lemma RenewalKeepsFence(s: State, t: TabId, page: PageId, id: LockId, now: int, ttl: int)
    requires Reachable(s) && Fenced(s, t, page, id)
    ensures var u := Next(s, Renew(t, s.store[page].lease, now, ttl));
      Fenced(u, t, page, id) && u.store[page] == Decoded(s.store[page].lease.(expiresAt := now + ttl))
  {
  }

  /** Exactly when a foreign step changes a lease on its page in any reachable state. */
  lemma ForeignRemovalNeedsItsLock(s: State, page: PageId, e: Event)
    requires Reachable(s) && page in s.store && s.store[page].Decoded?
    requires s.store[page].lease !in s.tabs(e.tab).leases
    requires forall l :: l in s.tabs(e.tab).leases ==> l.token != s.store[page].lease.token
    ensures Lookup(Next(s, e).store, page) != Some(s.store[page]) <==>
      e.ReleaseExpired? && e.page == page && MayReleaseExpired(s.store, s.tabs(e.tab).held, page, e.now)
  {
  }
}

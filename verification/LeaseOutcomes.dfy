/**
 What each step on the page transition leases does, told by what is stored and who holds which lock: when a lease is
 found, taken, renewed and removed, and how an expired one changes hands.
 */
module LeaseOutcomes {
  import opened Options
  import opened LeaseFence

  // ----- what is found -----

  /** A stored lease counts until its time has come; anything else under the key is no lease. */
  lemma InspectionExactly(store: Store, page: PageId, now: int)
    ensures var found := Inspect(store, page, now);
      && (found.Missing? <==> page !in store)
      && (page in store && store[page].Decoded? && store[page].lease.pageId == page ==>
            && (found.Active? <==> now < store[page].lease.expiresAt)
            && (found.Expired? <==> store[page].lease.expiresAt <= now)
            && (found.Active? || found.Expired?) && found.lease == store[page].lease)
      && (found.Invalid? <==> page in store && (store[page].Unreadable? || store[page].lease.pageId != page))
  {
  }

  /** A lease is stored under its page. */
  predicate Stored(store: Store, lease: Lease) {
    lease.pageId in store && store[lease.pageId] == Decoded(lease)
  }

  ghost predicate OnlyPage(before: Store, now: Store, page: PageId) {
    forall other :: other != page ==> Lookup(now, other) == Lookup(before, other)
  }

  /** The lock a lease is fenced by: the one it names, or that of its page. */
  function FenceOf(lease: Lease): LockId {
    if lease.exclusiveId.Some? then lease.exclusiveId.value else lease.pageId
  }

  predicate Inside(s: State, t: TabId, id: LockId) {
    id in s.tabs(t).held && s.tabs(t).held[id] >= 1
  }

  function Times(held: Held, id: LockId): nat {
    if id in held then held[id] else 0
  }

  /** Entering counts one more for the lock, and leaving takes exactly that one back. */
  lemma LeavingUndoesEntering(held: Held, id: LockId, other: LockId)
    ensures Times(Entered(held, id), other) == Times(held, other) + if other == id then 1 else 0
    ensures Times(Left(Entered(held, id), id), other) == Times(held, other)
    ensures IsExclusiveHeld(Entered(held, id), id)
  {
  }

  // ----- one step -----

  /** A lease is taken exactly where none is stored, and only inside the lock it names; the tab has it then. */
  lemma AcquireDoes(s: State, t: TabId, page: PageId, kind: string, id: LockId, now: int, ttl: int)
    ensures var u := Next(s, Acquire(t, page, kind, id, now, ttl));
            var takes := page != "" && kind != "" && id != "" && Inside(s, t, id) && page !in s.store;
      && (!takes ==> u == s)
      && (takes ==>
            && Stored(u.store, Lease(page, t, s.nextToken, kind, Some(id), now + ttl))
            && Lease(page, t, s.nextToken, kind, Some(id), now + ttl) in u.tabs(t).leases
            && u.nextToken == s.nextToken + 1 && OnlyPage(s.store, u.store, page) && u.tabs(t).held == s.tabs(t).held
            && u.locks == s.locks && forall x: TabId :: x != t ==> u.tabs(x) == s.tabs(x))
  {
  }

  /** A tab renews a lease it has, inside its lock, while the store still has that lease, whether it has expired or not. */
  lemma RenewDoes(s: State, t: TabId, lease: Lease, now: int, ttl: int)
    ensures var u := Next(s, Renew(t, lease, now, ttl));
            var renews := lease in s.tabs(t).leases && Inside(s, t, FenceOf(lease))
                          && lease.pageId in s.store && s.store[lease.pageId].Decoded?
                          && s.store[lease.pageId].lease.pageId == lease.pageId
                          && s.store[lease.pageId].lease.token == lease.token;
      && (!renews ==> u == s)
      && (renews ==>
            && Stored(u.store, lease.(expiresAt := now + ttl)) && lease.(expiresAt := now + ttl) in u.tabs(t).leases
            && OnlyPage(s.store, u.store, lease.pageId) && u.locks == s.locks && u.tabs(t).held == s.tabs(t).held)
  {
  }

  /** A tab removes the stored lease whose token it has, and an expired one inside the lock that fences it. */
  lemma RemovalDoes(s: State, e: Event)
    requires e.Release? || e.ReleaseExpired?
    ensures var u := Next(s, e);
            var page := if e.Release? then e.lease.pageId else e.page;
            var removes := page in s.store && s.store[page].Decoded?
              && (if e.Release? then e.lease in s.tabs(e.tab).leases && s.store[page].lease.token == e.lease.token
                  else s.store[page].lease.pageId == page && s.store[page].lease.expiresAt <= e.now
                       && Inside(s, e.tab, FenceOf(s.store[page].lease)));
      && (removes ==> page !in u.store) && (!removes ==> u.store == s.store)
      && OnlyPage(s.store, u.store, page) && u == s.(store := u.store)
  {
  }

  /** A free lock is granted to one tab, which is inside it then; a taken one is not. */
  lemma GrantDoes(s: State, t: TabId, id: LockId)
    ensures var u := Next(s, Grant(t, id));
      && (id in s.locks ==> u == s)
      && (id !in s.locks ==>
            && Lookup(u.locks, id) == Some(t) && Inside(u, t, id) && u.store == s.store && u.nextToken == s.nextToken
            && u.tabs(t).leases == s.tabs(t).leases && (forall x: TabId :: x != t ==> u.tabs(x) == s.tabs(x)))
  {
  }

  /** A tab leaves as often as it entered, gives the lock back outside, and loses all locks and leases in a crash. */
  lemma LeaveDoes(s: State, e: Event)
    requires e.Leave? || e.Unlock? || e.Crash?
    ensures var u := Next(s, e);
            var held := s.tabs(e.tab).held;
      && u.store == s.store && u.nextToken == s.nextToken && (forall x: TabId :: x != e.tab ==> u.tabs(x) == s.tabs(x))
      && (e.Leave? && Inside(s, e.tab, e.id) ==>
            (if held[e.id] == 1 then e.id !in u.tabs(e.tab).held
             else e.id in u.tabs(e.tab).held && u.tabs(e.tab).held[e.id] == held[e.id] - 1))
      && (e.Leave? && !Inside(s, e.tab, e.id) ==> u == s)
      && (e.Leave? ==> u.locks == s.locks && u.tabs(e.tab).leases == s.tabs(e.tab).leases)
      && (e.Unlock? && Lookup(s.locks, e.id) == Some(e.tab) && !Inside(s, e.tab, e.id) ==> e.id !in u.locks)
      && (e.Unlock? && (Lookup(s.locks, e.id) != Some(e.tab) || Inside(s, e.tab, e.id)) ==> u == s)
      && (e.Crash? ==> u.tabs(e.tab) == Tab(map[], {}) && forall id :: Lookup(u.locks, id) != Some(e.tab))
      && (e.Crash? ==> forall id :: id in s.locks && s.locks[id] != e.tab ==> Lookup(u.locks, id) == Lookup(s.locks, id))
  {
  }

  // ----- a lease from its taking to its end -----

  /**
   A tab that takes a lease inside its lock has it until it gives it back, however long the others act meanwhile; and
   then the page is free again.
   */
  lemma LeaseLastsUntilReleased(s: State, t: TabId, page: PageId, kind: string, id: LockId, now: int, ttl: int,
                                others: seq<Event>)
    requires Reachable(s) && page != "" && kind != "" && id != "" && Inside(s, t, id) && page !in s.store
    requires forall i :: 0 <= i < |others| ==> others[i].tab != t
    ensures var lease := Lease(page, t, s.nextToken, kind, Some(id), now + ttl);
            var later := Run(Next(s, Acquire(t, page, kind, id, now, ttl)), others);
      Stored(later.store, lease) && page !in Next(later, Release(t, lease)).store
  {
    var lease := Lease(page, t, s.nextToken, kind, Some(id), now + ttl);
    AcquireDoes(s, t, page, kind, id, now, ttl);
    var u := Next(s, Acquire(t, page, kind, id, now, ttl));
    StepIsReachable(s, Acquire(t, page, kind, id, now, ttl));
    FenceHolds(u, t, page, id, others);
    OthersKeepTab(u, t, others);
    RemovalDoes(Run(u, others), Release(t, lease));
  }

  lemma {:induction false} OthersKeepTab(s: State, t: TabId, others: seq<Event>)
    requires forall i :: 0 <= i < |others| ==> others[i].tab != t
    ensures Run(s, others).tabs(t) == s.tabs(t)
    decreases |others|
  {
    if others != [] {
      assert others[0].tab != t;
      OthersKeepTab(Next(s, others[0]), t, others[1..]);
    }
  }

  lemma {:induction false} RunJoins(s: State, events: seq<Event>, e: Event)
    ensures Run(s, events + [e]) == Next(Run(s, events), e)
    decreases |events|
  {
    if events == [] {
      assert events + [e] == [e] && Run(Next(s, e), []) == Next(s, e);
    } else {
      assert (events + [e])[1..] == events[1..] + [e];
      RunJoins(Next(s, events[0]), events[1..], e);
    }
  }

  lemma StepIsReachable(s: State, e: Event)
    requires Reachable(s)
    ensures Reachable(Next(s, e))
  {
    var init, events :| Initial(init) && Run(init, events) == s;
    RunJoins(init, events, e);
    assert Run(init, events + [e]) == Next(s, e);
  }

  /** The lease of a tab that is gone changes hands once it has expired: another enters its lock and takes over. */
  lemma ExpiredLeaseChangesHands(s: State, t: TabId, lease: Lease, kind: string, now: int, ttl: int)
    requires Stored(s.store, lease) && lease.expiresAt <= now && FenceOf(lease) !in s.locks
    requires lease.pageId != "" && kind != "" && FenceOf(lease) != ""
    ensures var inside := Next(s, Grant(t, FenceOf(lease)));
            var freed := Next(inside, ReleaseExpired(t, lease.pageId, now));
            var taken := Next(freed, Acquire(t, lease.pageId, kind, FenceOf(lease), now, ttl));
      && lease.pageId !in freed.store
      && Stored(taken.store, Lease(lease.pageId, t, s.nextToken, kind, Some(FenceOf(lease)), now + ttl))
  {
    var inside := Next(s, Grant(t, FenceOf(lease)));
    GrantDoes(s, t, FenceOf(lease));
    RemovalDoes(inside, ReleaseExpired(t, lease.pageId, now));
    var freed := Next(inside, ReleaseExpired(t, lease.pageId, now));
    AcquireDoes(freed, t, lease.pageId, kind, FenceOf(lease), now, ttl);
  }
}

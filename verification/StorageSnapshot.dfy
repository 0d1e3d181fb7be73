/**
 Enumerating the keys of storage that other contexts change meanwhile. Storage
 is what it holds at each successive access: anything may happen between two
 accesses, and any access may throw.
 */
module StorageSnapshot {
  import opened Options

  type Key = string

  /** The key list seen by the access of each tick, or nothing when that access throws. */
  type Storage = nat -> Option<seq<Key>>

  const DEFAULT_MAX_PASSES: nat := 64
  const DEFAULT_STABLE_PASSES: nat := 3

  // ----- interference -----

  function Kept(keys: seq<Key>, removed: set<Key>): seq<Key> {
    if keys == [] then []
    else (if keys[0] in removed then [] else [keys[0]]) + Kept(keys[1..], removed)
  }

  /** What others leave is what they do not remove. */
  lemma {:induction false} KeptExactly(keys: seq<Key>, removed: set<Key>, k: Key)
    ensures k in Kept(keys, removed) <==> k in keys && k !in removed
  {
    if keys != [] {
      assert keys == [keys[0]] + keys[1..];
      KeptExactly(keys[1..], removed, k);
    }
  }

  /** Between two accesses other contexts removed keys, not this one, and appended keys. */
  ghost predicate Survives(k: Key, before: seq<Key>, after: seq<Key>) {
    exists removed: set<Key>, appended: seq<Key> :: k !in removed && after == Kept(before, removed) + appended
  }

  /** The key is there throughout, while others only remove or append. */
  ghost predicate Persists(storage: Storage, k: Key, from: nat, to: nat) {
    && storage(from).Some? && k in storage(from).value
    && forall t: nat :: from <= t < to ==> SurvivesTick(storage, k, t)
  }

  ghost predicate SurvivesTick(storage: Storage, k: Key, t: nat) {
    storage(t).Some? && storage(t + 1).Some? && Survives(k, storage(t).value, storage(t + 1).value)
  }

  /** The key stands among the first `n`. */
  ghost predicate Within(keys: seq<Key>, k: Key, n: int) {
    exists i :: 0 <= i < |keys| && i < n && keys[i] == k
  }

  lemma {:induction false} KeptStaysWithin(keys: seq<Key>, removed: set<Key>, k: Key, n: int)
    requires k !in removed && Within(keys, k, n)
    ensures Within(Kept(keys, removed), k, n)
  {
    var i :| 0 <= i < |keys| && i < n && keys[i] == k;
    var rest := Kept(keys[1..], removed);
    if i == 0 {
      assert Kept(keys, removed)[0] == k;
    } else {
      assert keys[1..][i - 1] == k;
      KeptStaysWithin(keys[1..], removed, k, n - 1);
      var j :| 0 <= j < |rest| && j < n - 1 && rest[j] == k;
      assert Kept(keys, removed)[if keys[0] in removed then j else j + 1] == k;
    }
  }

  /** A surviving key never moves right. */
  lemma SurvivorStaysWithin(k: Key, before: seq<Key>, after: seq<Key>, n: int)
    requires Survives(k, before, after) && Within(before, k, n)
    ensures Within(after, k, n)
  {
    var removed, appended :| k !in removed && after == Kept(before, removed) + appended;
    KeptStaysWithin(before, removed, k, n);
    var i :| 0 <= i < |Kept(before, removed)| && i < n && Kept(before, removed)[i] == k;
    assert after[i] == k;
  }

  lemma PersistsTick(storage: Storage, k: Key, from: nat, t: nat, n: int)
    requires Persists(storage, k, from, t + 1) && from <= t && storage(t).Some? && Within(storage(t).value, k, n)
    ensures storage(t + 1).Some? && Within(storage(t + 1).value, k, n)
  {
    assert SurvivesTick(storage, k, t);
    SurvivorStaysWithin(k, storage(t).value, storage(t + 1).value, n);
  }

  lemma {:induction false} PersistsIsThere(storage: Storage, k: Key, from: nat, t: nat)
    requires Persists(storage, k, from, t) && from <= t
    ensures storage(t).Some? && k in storage(t).value
    decreases t - from
  {
    if from < t {
      PersistsIsThere(storage, k, from, t - 1);
      var keys := storage(t - 1).value;
      var i :| 0 <= i < |keys| && keys[i] == k;
      assert Within(keys, k, |keys|);
      assert SurvivesTick(storage, k, t - 1);
      SurvivorStaysWithin(k, keys, storage(t).value, |keys|);
    }
  }

  lemma PersistsPart(storage: Storage, k: Key, from: nat, to: nat, a: nat, b: nat)
    requires Persists(storage, k, from, to) && from <= a <= b <= to
    ensures Persists(storage, k, a, b)
  {
    PersistsIsThere(storage, k, from, a);
  }

  // ----- the scans -----

  /** What an access of `key(index)` adds: the key, unless it is missing or empty. */
  function KeyAt(keys: seq<Key>, index: int): set<Key> {
    if 0 <= index < |keys| && keys[index] != "" then {keys[index]} else {}
  }

  function NonEmpty(keys: seq<Key>): set<Key> {
    set i | 0 <= i < |keys| && keys[i] != "" :: keys[i]
  }

  lemma NonEmptyExactly(keys: seq<Key>, k: Key)
    ensures k in NonEmpty(keys) <==> k in keys && k != ""
  {
  }

  function KeyAtTick(storage: Storage, t: nat, index: int): set<Key> {
    if storage(t).Some? then KeyAt(storage(t).value, index) else {}
  }

  /** The keys that the first `n` accesses of a scan find, from the first index on. */
  function ForwardKeys(storage: Storage, start: nat, n: nat): set<Key> {
    if n == 0 then {} else ForwardKeys(storage, start, n - 1) + KeyAtTick(storage, start + n - 1, n - 1)
  }

  /** And from the last index of `length` down. */
  function ReverseKeys(storage: Storage, start: nat, length: nat, n: nat): set<Key> {
    if n == 0 then {} else ReverseKeys(storage, start, length, n - 1) + KeyAtTick(storage, start + n - 1, length - n)
  }

  ghost predicate NoThrow(storage: Storage, from: nat, to: nat) {
    forall t: nat :: from <= t <= to ==> storage(t).Some?
  }

  /**
   One pass, as its accesses go: the length, every index up, the length again, every index down, and the length. It is
   complete if both lengths agree with the number of keys it has found.
   */
  ghost predicate IsPass(storage: Storage, start: nat, end: nat, keys: set<Key>, complete: bool) {
    && start <= end && NoThrow(storage, start, end)
    && var n := |storage(start).value|;
       var during := start + n + 1;
       && during <= end
       && var m := |storage(during).value|;
          && end == during + m + 1
          && keys == ForwardKeys(storage, start + 1, n) + ReverseKeys(storage, during + 1, m, m)
          && (complete <==> n == |storage(end).value| == |keys|)
  }

  /** So many passes in a row up to this access were complete and found the same keys. */
  ghost predicate Agree(storage: Storage, count: nat, end: nat, keys: set<Key>)
    decreases count
  {
    count > 0 ==> exists start: nat, last: nat ::
      last + 1 == end && IsPass(storage, start, last, keys, true) && Agree(storage, count - 1, start, keys)
  }

  ghost predicate StoredSometime(storage: Storage, k: Key) {
    exists t: nat :: storage(t).Some? && k in storage(t).value
  }

  /** Every one of the keys was stored at some access. */
  ghost predicate AllStored(storage: Storage, keys: set<Key>) {
    forall k :: k in keys ==> k != "" && StoredSometime(storage, k)
  }

  ghost predicate Throws(storage: Storage) {
    exists t: nat :: storage(t).None?
  }

  lemma {:induction false} ForwardStored(storage: Storage, start: nat, n: nat)
    ensures AllStored(storage, ForwardKeys(storage, start, n))
  {
    if n > 0 {
      ForwardStored(storage, start, n - 1);
      KeyStored(storage, start + n - 1, n - 1);
    }
  }

  lemma {:induction false} ReverseStored(storage: Storage, start: nat, length: nat, n: nat)
    ensures AllStored(storage, ReverseKeys(storage, start, length, n))
  {
    if n > 0 {
      ReverseStored(storage, start, length, n - 1);
      KeyStored(storage, start + n - 1, length - n);
    }
  }

  lemma KeyStored(storage: Storage, t: nat, index: int)
    ensures AllStored(storage, KeyAtTick(storage, t, index))
  {
    forall k | k in KeyAtTick(storage, t, index) ensures k != "" && StoredSometime(storage, k) {
      assert storage(t).Some? && k in storage(t).value;
    }
  }

  ghost predicate Unchanged(storage: Storage, keys: seq<Key>) {
    forall t: nat :: storage(t) == Some(keys)
  }

  lemma NonEmptyCons(k: Key, rest: seq<Key>)
    ensures NonEmpty([k] + rest) == (if k != "" then {k} else {}) + NonEmpty(rest)
  {
    var all := [k] + rest;
    forall x | x in NonEmpty(rest) ensures x in NonEmpty(all) {
      var i :| 0 <= i < |rest| && rest[i] == x;
      assert all[i + 1] == x;
    }
    assert all[0] == k;
  }

  /** Whatever persisted so far was seen or still stands among the first `n`. */
  ghost predicate Covered(storage: Storage, from: nat, tick: nat, keys: set<Key>, n: int) {
    forall k :: k != "" && Persists(storage, k, from, tick) ==>
      k in keys || (storage(tick).Some? && Within(storage(tick).value, k, n))
  }

  lemma CoveredFromLength(storage: Storage, from: nat, keys: set<Key>)
    requires storage(from).Some?
    ensures Covered(storage, from, from + 1, keys, |storage(from).value|)
  {
    var now, next := storage(from).value, from + 1;
    forall k | Persists(storage, k, from, next)
      ensures storage(next).Some? && Within(storage(next).value, k, |now|)
    {
      var i :| 0 <= i < |now| && now[i] == k;
      PersistsTick(storage, k, from, from, |now|);
    }
  }

  lemma CoveredStep(storage: Storage, from: nat, tick: nat, keys: set<Key>, index: nat)
    requires from <= tick && storage(tick).Some? && Covered(storage, from, tick, keys, index + 1)
    ensures Covered(storage, from, tick + 1, keys + KeyAt(storage(tick).value, index), index)
  {
    forall k | k != "" && Persists(storage, k, from, tick + 1) && k !in keys + KeyAt(storage(tick).value, index)
      ensures storage(tick + 1).Some? && Within(storage(tick + 1).value, k, index)
    {
      PersistsPart(storage, k, from, tick + 1, from, tick);
      PersistsTick(storage, k, from, tick, index);
    }
  }

  // ----- what a pass finds -----

  lemma {:induction false} ForwardOfUnchanged(storage: Storage, start: nat, s: seq<Key>, n: nat)
    requires Unchanged(storage, s) && n <= |s|
    ensures ForwardKeys(storage, start, n) == NonEmpty(s[..n])
  {
    if n > 0 {
      ForwardOfUnchanged(storage, start, s, n - 1);
      assert s[..n] == s[..n - 1] + [s[n - 1]];
      NonEmptySnoc(s[..n - 1], s[n - 1]);
    }
  }

  lemma {:induction false} ReverseOfUnchanged(storage: Storage, start: nat, s: seq<Key>, n: nat)
    requires Unchanged(storage, s) && n <= |s|
    ensures ReverseKeys(storage, start, |s|, n) == NonEmpty(s[|s| - n..])
  {
    if n > 0 {
      ReverseOfUnchanged(storage, start, s, n - 1);
      assert s[|s| - n..] == [s[|s| - n]] + s[|s| - (n - 1)..];
      NonEmptyCons(s[|s| - n], s[|s| - (n - 1)..]);
    }
  }

  lemma NonEmptySnoc(front: seq<Key>, k: Key)
    ensures NonEmpty(front + [k]) == NonEmpty(front) + (if k != "" then {k} else {})
  {
    var all := front + [k];
    forall x | x in NonEmpty(front) ensures x in NonEmpty(all) {
      var i :| 0 <= i < |front| && front[i] == x;
      assert all[i] == x;
    }
    assert all[|front|] == k;
  }

  /** The reverse scan sees whatever persists from the reading of the length on. */
  lemma {:induction false} ReverseCovers(storage: Storage, start: nat, length: nat, n: nat)
    requires start > 0 && n <= length && NoThrow(storage, start - 1, start + n)
    requires length == |storage(start - 1).value|
    ensures Covered(storage, start - 1, start + n, ReverseKeys(storage, start, length, n), length - n)
  {
    if n == 0 {
      CoveredFromLength(storage, start - 1, {});
    } else {
      ReverseCovers(storage, start, length, n - 1);
      CoveredStep(storage, start - 1, start + n - 1, ReverseKeys(storage, start, length, n - 1), length - n);
    }
  }

  /** A pass finds every key that is there throughout it. */
  lemma PassFindsPersisting(storage: Storage, start: nat, end: nat, keys: set<Key>, complete: bool, k: Key)
    requires IsPass(storage, start, end, keys, complete) && k != "" && Persists(storage, k, start, end)
    ensures k in keys
  {
    var during := start + |storage(start).value| + 1;
    var m := |storage(during).value|;
    PersistsPart(storage, k, start, end, during, end);
    ReverseCovers(storage, during + 1, m, m);
  }

  lemma ScansOfUnchanged(storage: Storage, forward: nat, reverse: nat, n: nat, m: nat, keys: set<Key>, s: seq<Key>)
    requires Unchanged(storage, s) && n == m == |s|
    requires keys == ForwardKeys(storage, forward, n) + ReverseKeys(storage, reverse, m, m)
    ensures keys == NonEmpty(s)
  {
    ForwardOfUnchanged(storage, forward, s, |s|);
    ReverseOfUnchanged(storage, reverse, s, |s|);
    assert s[..|s|] == s && s[|s| - |s|..] == s;
  }

  /** On unchanged storage it finds exactly the non-empty keys. */
  lemma PassOfUnchanged(storage: Storage, start: nat, end: nat, keys: set<Key>, complete: bool, s: seq<Key>)
    requires IsPass(storage, start, end, keys, complete) && Unchanged(storage, s)
    ensures keys == NonEmpty(s)
  {
    var n := |storage(start).value|;
    var during := start + n + 1;
    ScansOfUnchanged(storage, start + 1, during + 1, n, |storage(during).value|, keys, s);
  }

  /** And it is complete if it has found as many as there are entries. */
  lemma CompleteOfUnchanged(storage: Storage, start: nat, end: nat, keys: set<Key>, complete: bool, s: seq<Key>)
    requires IsPass(storage, start, end, keys, complete) && Unchanged(storage, s)
    ensures complete <==> |keys| == |s|
  {
    assert storage(start) == storage(end) == Some(s);
  }

  lemma PassFindsStored(storage: Storage, start: nat, end: nat, keys: set<Key>, complete: bool)
    requires IsPass(storage, start, end, keys, complete)
    ensures AllStored(storage, keys)
  {
    var during := start + |storage(start).value| + 1;
    ForwardStored(storage, start + 1, |storage(start).value|);
    ReverseStored(storage, during + 1, |storage(during).value|, |storage(during).value|);
  }

  lemma BothStored(storage: Storage, a: set<Key>, b: set<Key>)
    requires AllStored(storage, a) && AllStored(storage, b)
    ensures AllStored(storage, a + b)
  {
  }

  lemma ReverseFinds(storage: Storage, start: nat, length: nat, n: nat, seen: set<Key>)
    requires AllStored(storage, seen)
    ensures AllStored(storage, seen + ReverseKeys(storage, start, length, n))
  {
    ReverseStored(storage, start, length, n);
    BothStored(storage, seen, ReverseKeys(storage, start, length, n));
  }

  // ----- passes -----

  /** The forward scan of a pass; without success `tick` is the access that threw. */
  method ScanForward(storage: Storage, start: nat, length: nat) returns (ok: bool, tick: nat, keys: set<Key>)
    ensures tick >= start && keys == ForwardKeys(storage, start, tick - start) && AllStored(storage, keys)
    ensures ok ==> tick == start + length && forall t: nat :: start <= t < tick ==> storage(t).Some?
    ensures !ok ==> storage(tick).None?
  {
    tick, keys := start, {};
    for index := 0 to length
      invariant tick == start + index && keys == ForwardKeys(storage, start, index)
      invariant forall t: nat :: start <= t < tick ==> storage(t).Some?
    {
      var access := storage(tick);
      if access.None? {
        ForwardStored(storage, start, index);
        return false, tick, keys;
      }
      keys := keys + KeyAt(access.value, index);
      tick := tick + 1;
    }
    ForwardStored(storage, start, length);
    ok := true;
  }

  /** The reverse scan, on top of what was seen. */
  method ScanReverse(storage: Storage, start: nat, length: nat, seen: set<Key>)
    returns (ok: bool, tick: nat, keys: set<Key>)
    requires AllStored(storage, seen)
    ensures tick >= start && keys == seen + ReverseKeys(storage, start, length, tick - start) && AllStored(storage, keys)
    ensures ok ==> tick == start + length && forall t: nat :: start <= t < tick ==> storage(t).Some?
    ensures !ok ==> storage(tick).None?
  {
    tick, keys := start, seen;
    var index: int := length - 1;
    while index >= 0
      invariant -1 <= index < length && tick == start + (length - 1 - index)
      invariant keys == seen + ReverseKeys(storage, start, length, length - 1 - index)
      invariant forall t: nat :: start <= t < tick ==> storage(t).Some?
      decreases index
    {
      var access := storage(tick);
      if access.None? {
        ReverseFinds(storage, start, length, length - 1 - index, seen);
        return false, tick, keys;
      }
      keys := keys + KeyAt(access.value, index);
      tick := tick + 1;
      index := index - 1;
    }
    ReverseFinds(storage, start, length, length, seen);
    ok := true;
  }

  lemma ThrownAt(storage: Storage, t: nat)
    requires storage(t).None?
    ensures Throws(storage)
  {
  }

  lemma ScansArePass(storage: Storage, start: nat, during: nat, end: nat, keys: set<Key>, complete: bool)
    requires start <= during <= end && NoThrow(storage, start, end)
    requires during == start + |storage(start).value| + 1 && end == during + |storage(during).value| + 1
    requires keys == ForwardKeys(storage, start + 1, |storage(start).value|)
                     + ReverseKeys(storage, during + 1, |storage(during).value|, |storage(during).value|)
    requires complete <==> |storage(start).value| == |storage(end).value| == |keys|
    ensures IsPass(storage, start, end, keys, complete)
  {
  }

  /** One pass. If an access throws, what was found by then remains. */
  method Pass(storage: Storage, start: nat) returns (ok: bool, end: nat, keys: set<Key>, complete: bool)
    ensures ok ==> IsPass(storage, start, end, keys, complete)
    ensures !ok ==> Throws(storage)
    ensures AllStored(storage, keys)
  {
    var before := storage(start);
    keys, complete, end := {}, false, start;
    if before.None? {
      ThrownAt(storage, start);
      return false, start, keys, false;
    }
    var tick;
    ok, tick, keys := ScanForward(storage, start + 1, |before.value|);
    if !ok || storage(tick).None? {
      ThrownAt(storage, tick);
      return false, start, keys, false;
    }
    var during := tick;
    ok, tick, keys := ScanReverse(storage, during + 1, |storage(during).value|, keys);
    if !ok || storage(tick).None? {
      ThrownAt(storage, tick);
      return false, start, keys, false;
    }
    end := tick;
    complete := |before.value| == |storage(end).value| && |keys| == |storage(end).value|;
    ScansArePass(storage, start, during, end, keys, complete);
  }

  const MAX_SAFE_INTEGER := 9007199254740991

  function NormalizePositiveInteger(value: int, fallback: nat): (n: nat)
    requires fallback >= 1
    ensures n >= 1
  {
    if 1 <= value <= MAX_SAFE_INTEGER then value else fallback
  }

  /** A limit that is no positive safe integer is replaced by its default. */
  lemma LimitsAre(value: int)
    ensures var given := 1 <= value <= 9007199254740991;
      && NormalizePositiveInteger(value, DEFAULT_MAX_PASSES) == (if given then value else 64)
      && NormalizePositiveInteger(value, DEFAULT_STABLE_PASSES) == (if given then value else 3)
  {
  }

  datatype Inspection = Inspection(keys: set<Key>, reliable: bool, failed: bool)

  /** What unchanged storage makes of the variables of the pass loop. */
  ghost predicate Steady(storage: Storage, pass: nat, observed: set<Key>, previous: Option<set<Key>>, stable: nat) {
    forall s :: Unchanged(storage, s) ==>
      && observed == (if pass == 0 then {} else NonEmpty(s))
      && previous == (if pass > 0 && |NonEmpty(s)| == |s| then Some(NonEmpty(s)) else None)
      && stable == (if |NonEmpty(s)| == |s| then pass else 0)
  }

  /** Whatever has persisted through all passes was found, and nothing that was never stored. */
  ghost predicate Found(storage: Storage, pass: nat, end: nat, observed: set<Key>) {
    && AllStored(storage, observed)
    && (pass > 0 ==> forall k :: k != "" && Persists(storage, k, 0, end) ==> k in observed)
  }

  /** The passes counted as stable were complete, one after the other, and found the same keys. */
  ghost predicate Counted(storage: Storage, end: nat, observed: set<Key>, previous: Option<set<Key>>, stable: nat) {
    stable > 0 ==> previous.Some? && previous.value <= observed && Agree(storage, stable, end, previous.value)
  }

  /** The last passes have agreed on keys that are all in the result. */
  ghost predicate Settled(storage: Storage, wanted: nat, end: nat, found: set<Key>) {
    exists keys :: keys <= found && Agree(storage, wanted, end, keys)
  }

  function CountedOn(stable: nat, previous: Option<set<Key>>, keys: set<Key>, complete: bool): nat {
    if complete && previous == Some(keys) then stable + 1 else if complete then 1 else 0
  }

  lemma PassKeepsSteady(
      storage: Storage, pass: nat, start: nat, last: nat, observed: set<Key>, previous: Option<set<Key>>, stable: nat,
      keys: set<Key>, complete: bool)
    requires Steady(storage, pass, observed, previous, stable) && IsPass(storage, start, last, keys, complete)
    ensures Steady(storage, pass + 1, observed + keys, if complete then Some(keys) else None,
                   CountedOn(stable, previous, keys, complete))
  {
    forall s | Unchanged(storage, s) ensures keys == NonEmpty(s) && (complete <==> |NonEmpty(s)| == |s|) {
      PassOfUnchanged(storage, start, last, keys, complete, s);
      CompleteOfUnchanged(storage, start, last, keys, complete, s);
    }
  }

  lemma PassKeepsFound(
      storage: Storage, pass: nat, start: nat, last: nat, observed: set<Key>, keys: set<Key>, complete: bool)
    requires Found(storage, pass, start, observed) && IsPass(storage, start, last, keys, complete)
    ensures Found(storage, pass + 1, last + 1, observed + keys)
  {
    PassFindsStored(storage, start, last, keys, complete);
    forall k | k != "" && Persists(storage, k, 0, last + 1) ensures k in observed + keys {
      PersistsPart(storage, k, 0, last + 1, start, last);
      PassFindsPersisting(storage, start, last, keys, complete, k);
    }
  }

  lemma OneMoreAgrees(storage: Storage, count: nat, start: nat, last: nat, keys: set<Key>)
    requires IsPass(storage, start, last, keys, true) && Agree(storage, count, start, keys)
    ensures Agree(storage, count + 1, last + 1, keys)
  {
  }

  lemma PassKeepsCounted(
      storage: Storage, start: nat, last: nat, observed: set<Key>, previous: Option<set<Key>>, stable: nat,
      keys: set<Key>, complete: bool)
    requires Counted(storage, start, observed, previous, stable) && IsPass(storage, start, last, keys, complete)
    requires previous.Some? ==> stable > 0
    ensures Counted(storage, last + 1, observed + keys, if complete then Some(keys) else None,
                    CountedOn(stable, previous, keys, complete))
  {
    if complete {
      OneMoreAgrees(storage, if previous == Some(keys) then stable else 0, start, last, keys);
    }
  }

  /** The variables of the pass loop. */
  datatype Progress = Progress(pass: nat, end: nat, observed: set<Key>, previous: Option<set<Key>>, stable: nat)

  ghost predicate Fits(storage: Storage, p: Progress) {
    && Steady(storage, p.pass, p.observed, p.previous, p.stable)
    && Found(storage, p.pass, p.end, p.observed)
    && Counted(storage, p.end, p.observed, p.previous, p.stable) && (p.previous.Some? ==> p.stable > 0)
  }

  function PassedOn(p: Progress, last: nat, keys: set<Key>, complete: bool): Progress {
    Progress(p.pass + 1, last + 1, p.observed + keys, if complete then Some(keys) else None,
             CountedOn(p.stable, p.previous, keys, complete))
  }

  lemma PassKeeps(storage: Storage, p: Progress, last: nat, keys: set<Key>, complete: bool)
    requires Fits(storage, p) && IsPass(storage, p.end, last, keys, complete)
    ensures Fits(storage, PassedOn(p, last, keys, complete))
  {
    PassKeepsSteady(storage, p.pass, p.end, last, p.observed, p.previous, p.stable, keys, complete);
    PassKeepsFound(storage, p.pass, p.end, last, p.observed, keys, complete);
    PassKeepsCounted(storage, p.end, last, p.observed, p.previous, p.stable, keys, complete);
  }

  /** On unchanged storage the result is exact. */
  ghost predicate TellsExactly(storage: Storage, r: Inspection, wanted: nat, limit: nat) {
    forall s :: Unchanged(storage, s) ==>
      !r.failed && r.keys == NonEmpty(s) && (r.reliable <==> |NonEmpty(s)| == |s| && wanted <= limit)
  }

  /** What persisted is in the result, and all that is was stored. */
  ghost predicate TellsPersisting(storage: Storage, r: Inspection, end: nat) {
    && AllStored(storage, r.keys)
    && (!r.failed ==> forall k :: k != "" && Persists(storage, k, 0, end) ==> k in r.keys)
  }

  lemma CountedSettles(storage: Storage, end: nat, observed: set<Key>, previous: Option<set<Key>>, stable: nat)
    requires Counted(storage, end, observed, previous, stable) && stable > 0
    ensures Settled(storage, stable, end, observed)
  {
    assert previous.value <= observed && Agree(storage, stable, end, previous.value);
  }

  lemma SteadyTells(storage: Storage, p: Progress, wanted: nat, limit: nat, s: seq<Key>)
    requires Steady(storage, p.pass, p.observed, p.previous, p.stable) && 0 < p.pass <= limit && wanted >= 1
    requires p.stable == wanted || (p.stable < wanted && p.pass == limit)
    requires Unchanged(storage, s)
    ensures p.observed == NonEmpty(s) && (p.stable == wanted <==> |NonEmpty(s)| == |s| && wanted <= limit)
  {
  }

  lemma LoopTellsExactly(storage: Storage, p: Progress, wanted: nat, limit: nat)
    requires Steady(storage, p.pass, p.observed, p.previous, p.stable) && 0 < p.pass <= limit && wanted >= 1
    requires p.stable == wanted || (p.stable < wanted && p.pass == limit)
    ensures TellsExactly(storage, Inspection(p.observed, p.stable == wanted, false), wanted, limit)
  {
    forall s | Unchanged(storage, s)
      ensures p.observed == NonEmpty(s) && (p.stable == wanted <==> |NonEmpty(s)| == |s| && wanted <= limit)
    {
      SteadyTells(storage, p, wanted, limit, s);
    }
  }

  lemma LoopTellsPersisting(storage: Storage, p: Progress, reliable: bool)
    requires Found(storage, p.pass, p.end, p.observed) && p.pass > 0
    ensures TellsPersisting(storage, Inspection(p.observed, reliable, false), p.end)
  {
  }

  lemma FailureTellsExactly(storage: Storage, r: Inspection, wanted: nat, limit: nat)
    requires Throws(storage)
    ensures TellsExactly(storage, r, wanted, limit)
  {
  }

  /**
   The result holds every non-empty key that persisted from the first access to
   the last, unless an access threw, and none that was never stored. It is
   reliable only after enough complete passes in a row that found the same
   keys. On unchanged storage it is exact, and reliable if and only if all keys
   are non-empty and distinct and enough passes are allowed.
   */
  method InspectStorageKeys(storage: Storage, maxPasses: int, stablePasses: int)
    returns (r: Inspection, end: nat)
    ensures r.reliable ==> !r.failed
    ensures r.reliable ==> Settled(storage, NormalizePositiveInteger(stablePasses, DEFAULT_STABLE_PASSES), end, r.keys)
    ensures r.failed ==> Throws(storage)
    ensures TellsPersisting(storage, r, end)
    ensures TellsExactly(storage, r, NormalizePositiveInteger(stablePasses, DEFAULT_STABLE_PASSES),
                         NormalizePositiveInteger(maxPasses, DEFAULT_MAX_PASSES))
  {
    var limit := NormalizePositiveInteger(maxPasses, DEFAULT_MAX_PASSES);
    var wanted := NormalizePositiveInteger(stablePasses, DEFAULT_STABLE_PASSES);
    var observed: set<Key> := {};
    var previous: Option<set<Key>> := None;
    var stable: nat := 0;
    end := 0;
    for pass := 0 to limit
      invariant Fits(storage, Progress(pass, end, observed, previous, stable)) && stable < wanted
    {
      var ok, tick, keys, complete := Pass(storage, end);
      if !ok {
        BothStored(storage, observed, keys);
        r := Inspection(observed + keys, false, true);
        FailureTellsExactly(storage, r, wanted, limit);
        return;
      }
      PassKeeps(storage, Progress(pass, end, observed, previous, stable), tick, keys, complete);
      end := tick + 1;
      observed := observed + keys;
      stable := if complete && previous == Some(keys) then stable + 1 else if complete then 1 else 0;
      previous := if complete then Some(keys) else None;
      if stable >= wanted {
        CountedSettles(storage, end, observed, previous, stable);
        LoopTellsPersisting(storage, Progress(pass + 1, end, observed, previous, stable), true);
        LoopTellsExactly(storage, Progress(pass + 1, end, observed, previous, stable), wanted, limit);
        return Inspection(observed, true, false), end;
      }
    }
    LoopTellsPersisting(storage, Progress(limit, end, observed, previous, stable), false);
    LoopTellsExactly(storage, Progress(limit, end, observed, previous, stable), wanted, limit);
    r := Inspection(observed, false, false);
  }

  ghost predicate Distinct(keys: seq<Key>) {
    forall i, j :: 0 <= i < j < |keys| ==> keys[i] != keys[j]
  }

  /** The size test of a pass on unchanged storage: all keys are there, non-empty and once. */
  lemma {:induction false} CompleteMeansDistinct(keys: seq<Key>)
    ensures |NonEmpty(keys)| <= |keys|
    ensures |NonEmpty(keys)| == |keys| <==> "" !in keys && Distinct(keys)
  {
    if keys == [] {
      assert NonEmpty(keys) == {};
    } else {
      var first, rest := keys[0], keys[1..];
      assert keys == [first] + rest;
      NonEmptyCons(first, rest);
      CompleteMeansDistinct(rest);
      assert first in rest && first != "" ==> first in NonEmpty(rest);
      assert Distinct(keys) <==> first !in rest && Distinct(rest) by {
        assert forall i :: 1 <= i < |keys| ==> keys[i] == rest[i - 1];
        if first in rest {
          var i :| 0 <= i < |rest| && rest[i] == first;
          assert keys[i + 1] == keys[0];
        }
      }
    }
  }
}

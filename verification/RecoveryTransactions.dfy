/** What the transaction of a call leaves in the store, told by the call's arguments and by what was stored. */
module RecoveryTransactions {
  import opened Options
  import opened RecoveryMirror

  /** The stored map differs at most in this key, which holds the value, or nothing. */
  ghost predicate OnlyKeyHolds(before: map<Key, Value>, now: map<Key, Value>, k: Key, value: Option<Value>) {
    && (if value.Some? then k in now && now[k] == value.value else k !in now)
    && forall other :: other != k ==> (other in now <==> other in before) && (other in now ==> now[other] == before[other])
  }

  /** The store after a comparison that matched, in the words of its caller. */
  ghost predicate ComparisonDone(before: map<Key, Value>, now: map<Key, Value>, k: Key, c: Comparison) {
    match c
    case ReplaceIf(next) => OnlyKeyHolds(before, now, k, Some(next))
    case RemoveIf => OnlyKeyHolds(before, now, k, None)
    case LegacyPut(legacy) => OnlyKeyHolds(before, now, k, Some(legacy))
    case LegacyRemove => OnlyKeyHolds(before, now, k, None)
  }

  /** A comparison may match anything that is stored; a legacy put also where nothing is. */
  lemma ComparisonMayMatch(s: State)
    requires s.queue != [] && s.phase.Waiting? && s.queue[0].Conditional?
    ensures Enabled(s, Commit(false)) && Enabled(s, Abort)
    ensures Enabled(s, Commit(true)) <==> s.queue[0].key in s.durable || s.queue[0].comparison.LegacyPut?
  {
  }

  /** What the transaction of a comparison does to the store, and what its continuation is told. */
  lemma ComparisonCommits(s: State, matched: bool)
    requires Enabled(s, Commit(matched)) && s.queue[0].Conditional?
    ensures var t := Next(s, Commit(matched));
            var k := s.queue[0].key;
      && (matched ==> ComparisonDone(s.durable, t.durable, k, s.queue[0].comparison))
      && (!matched ==> t.durable == s.durable)
      && t.phase == Committed(if k in t.durable then Some(t.durable[k]) else None)
      && t == s.(durable := t.durable, phase := t.phase)
  {
    AssignHolds(s.durable, s.queue[0].key);
  }

  lemma AssignHolds(m: map<Key, Value>, k: Key)
    ensures Assign(m, k, Lookup(m, k)) == m
  {
  }

  /** What the transactions of a set and of a removal do to it. */
  lemma WriteCommits(s: State, matched: bool)
    requires Enabled(s, Commit(matched)) && !s.queue[0].Conditional?
    ensures var t := Next(s, Commit(matched));
            var value := if s.queue[0].Put? then Some(s.queue[0].value) else None;
      && OnlyKeyHolds(s.durable, t.durable, s.queue[0].key, value)
      && t == s.(durable := t.durable, phase := Committed(value))
  {
    assert forall other :: Lookup(NextCommit(s, matched).durable, other).Some? <==> other in NextCommit(s, matched).durable;
  }

  /** A transaction that aborts changes nothing that is stored. */
  lemma AbortChangesNothing(s: State)
    requires Enabled(s, Abort)
    ensures Next(s, Abort).durable == s.durable && Next(s, Abort).queue == s.queue && Next(s, Abort).phase == Aborted
  {
  }
}

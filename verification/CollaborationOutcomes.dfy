/**
 What each event of the collaboration protocol does to a page session, told by the event and by what it finds, and what
 a live document contains after whole runs: exactly what arrived, was merged, bootstrapped or applied.
 */
module CollaborationOutcomes {
  import opened Options
  import opened CollaborationDurability

  // ----- synchronization -----

  /** A page that is opened for the first time: nothing to recover, and an empty document. */
  predicate Blank(x: Session) {
    x.recovered == {} && x.live == {}
  }

  /** The message with the whole document is the newest one of the connection, and is counted. */
  ghost predicate SendsAll(x: Session, y: Session) {
    && y.inFlight == x.inFlight + [Message(y.live, false, false)] && y.pending == x.pending + 1
    && !y.needsRecovery && y.startupPending
  }

  /**
   The first synchronization of a blank page fills it with the bootstrap; no other changes the document. The whole
   document is then sent after a bootstrap and after anything that may not have reached the server, and nothing else is;
   if the socket does not take it, it stays to be resent.
   */
  lemma SyncDoes(s: State, a: Source, bootstrap: Option<set<Update>>, queues: bool)
    requires Enabled(s, SyncCompletes(a, bootstrap, queues))
    ensures var x := s.sessions[a];
            var y := Next(s, SyncCompletes(a, bootstrap, queues)).sessions[a];
            var all := bootstrap.Some? || x.needsRecovery;
      && y.synced
      && (bootstrap.Some? && Blank(x) ==> y.live == bootstrap.value)
      && (bootstrap.None? || !Blank(x) ==> y.live == x.live)
      && (all && queues ==> SendsAll(x, y))
      && (all && !queues ==> y.inFlight == x.inFlight && y.pending == x.pending && y.needsRecovery && !y.startupPending)
      && (!all ==> y.inFlight == x.inFlight && y.pending == x.pending && !y.needsRecovery
                   && (y.startupPending <==> x.startupPending || x.pending > 0))
      && y == x.(synced := true, live := y.live, inFlight := y.inFlight, pending := y.pending,
                 startupPending := y.startupPending, needsRecovery := y.needsRecovery)
  {
  }

  // ----- the connection -----

  /** A first connection merges every record it reads and must send the result; a later one merges none. */
  lemma ConnectDoes(s: State, a: Source, view: map<Source, Generation>)
    requires Enabled(s, Connects(a, view))
    ensures var x := s.sessions[a];
            var y := Next(s, Connects(a, view)).sessions[a];
            var merges := !x.loaded && view != map[];
      && y.connected && !y.synced && y.loaded && y.epochKnown
      && (merges ==> forall b :: b in view ==> s.contents[view[b]] <= y.live && Entry(b, view[b]) in y.recovered)
      && (merges ==> y.needsRecovery && x.live <= y.live)
      && (!merges ==> y.live == x.live && y.recovered == x.recovered && y.needsRecovery == x.needsRecovery)
      && y.inFlight == x.inFlight && y.pending == x.pending && y.stage == x.stage && y.phase == x.phase
      && y.prepared == x.prepared && y.current == x.current && y.cleanup == x.cleanup
  {
  }

  /** What arrives or is kept changes one thing each: the document, the server. */
  lemma TrafficDoes(s: State, e: Event)
    requires Enabled(s, e) && (e.RemoteArrives? || e.ServerKeeps? || e.RequestsCompaction?)
    ensures var x := s.sessions[e.a];
            var t := Next(s, e);
      && (e.RemoteArrives? ==> t.sessions[e.a] == x.(live := x.live + e.content) && t.server == s.server)
      && (e.ServerKeeps? ==>
            && t.server == s.server + x.inFlight[e.index].content
            && |t.sessions[e.a].inFlight| == |x.inFlight| && t.sessions[e.a].inFlight[e.index].kept)
      && (e.RequestsCompaction? ==> t.sessions[e.a].inFlight == x.inFlight + [Message(x.live, true, false)]
                                    && t.sessions[e.a].pending == x.pending + 1 && t.server == s.server)
  {
  }

  /** An answer takes the oldest message off; the last one ends the start, unless something must still be resent. */
  lemma AnswerDoes(s: State, e: Event)
    requires Enabled(s, e) && (e.AckArrives? || e.SnapshotRefused?) && LiveCovered(s, s.sessions[e.a])
    ensures var x := s.sessions[e.a];
            var y := Next(s, e).sessions[e.a];
      && y.inFlight == x.inFlight[1..] && y.pending == x.pending - 1
      && (e.AckArrives? && y.pending == 0 && !x.needsRecovery ==> !y.startupPending)
      && (e.SnapshotRefused? || y.pending > 0 || x.needsRecovery ==> y.startupPending == x.startupPending)
      && y == x.(inFlight := y.inFlight, pending := y.pending, startupPending := y.startupPending)
  {
  }

  /** A close forgets the connection and remembers exactly whether anything may be missing on the server. */
  lemma CloseDoes(s: State, a: Source)
    requires Enabled(s, Closes(a))
    ensures var x := s.sessions[a];
            var y := Next(s, Closes(a)).sessions[a];
      && !y.connected && !y.synced && y.inFlight == [] && y.pending == 0 && !y.startupPending
      && (y.needsRecovery <==> x.needsRecovery || x.pending > 0 || x.startupPending)
      && y == x.(connected := false, synced := false, inFlight := [], pending := 0, startupPending := false,
                 needsRecovery := y.needsRecovery)
  {
  }

  // ----- mutations -----

  /** What is saved for a mutation is the whole live document with its update, under a new generation. */
  lemma BeginDoes(s: State, a: Source, u: Update)
    requires GenerationsKnown(s) && Enabled(s, Begins(a, u))
    ensures var x := s.sessions[a];
            var t := Next(s, Begins(a, u));
            var y := t.sessions[a];
      && y.phase == Saving(u, s.nextGeneration) && s.nextGeneration !in s.contents
      && x.live + {u} <= t.contents[s.nextGeneration] == y.stage == x.stage + x.live + {u}
      && (forall g :: g in s.contents ==> g in t.contents && t.contents[g] == s.contents[g])
      && y.live == x.live && t.durable == s.durable && t.server == s.server
  {
  }

  /** The save stores its generation under the tab's key, then becomes current; nothing is live yet. */
  lemma SaveDoes(s: State, e: Event)
    requires Enabled(s, e) && (e.SaveCommits? || e.SaveResolves?)
    ensures var x := s.sessions[e.a];
            var t := Next(s, e);
            var y := t.sessions[e.a];
      && y.live == x.live && t.contents == s.contents && t.server == s.server
      && (e.SaveCommits? ==> y.phase == Saved(x.phase.update, x.phase.generation)
                             && t.durable == s.durable[e.a := x.phase.generation] && y.current == x.current)
      && (e.SaveResolves? ==> y.phase == Durable(x.phase.update, x.phase.generation) && t.durable == s.durable
                              && y.current == Some(x.phase.generation))
  {
  }

  /** An update goes out and is counted on a synchronized connection that takes it; otherwise all must be resent. */
  ghost predicate Sends(x: Session, y: Session, content: set<Update>, queues: bool) {
    && (x.synced && queues ==> y.inFlight == x.inFlight + [Message(content, false, false)] && y.pending == x.pending + 1
                               && y.needsRecovery == x.needsRecovery)
    && (!(x.synced && queues) ==> y.inFlight == x.inFlight && y.pending == x.pending && y.needsRecovery)
  }

  lemma SendDoes(x: Session, content: set<Update>, queues: bool)
    ensures Sends(x, SendUpdate(x, content, queues), content, queues)
  {
  }

  /** The durable update joins the document and is sent. */
  lemma ApplyDoes(s: State, a: Source, queues: bool)
    requires Enabled(s, Applies(a, queues))
    ensures var x := s.sessions[a];
            var y := Next(s, Applies(a, queues)).sessions[a];
      && y.live == x.live + {x.phase.update} && y.phase.Applied? && Sends(x, y, {x.phase.update}, queues)
      && y.prepared == x.prepared && y.stage == x.stage && y.current == x.current
  {
    var x := s.sessions[a];
    SendDoes(x.(live := x.live + {x.phase.update}), {x.phase.update}, queues);
  }

  /** And it is promised from then on. */
  lemma ApplyPromises(s: State, a: Source, queues: bool)
    requires Enabled(s, Applies(a, queues))
    ensures var t := Next(s, Applies(a, queues));
      t.promised == s.promised[a := s.Promised(a) + {s.sessions[a].phase.update}]
  {
  }

  /** A mutation that ends, skips or fails gives up its place; a failure drops the staged document, not the live one. */
  lemma MutationEndDoes(s: State, e: Event)
    requires Enabled(s, e) && SessionSafe(s, e.a)
    requires e.Enqueues? || e.Skips? || e.SaveFails? || e.ApplyFails? || e.Ends?
    ensures var x := s.sessions[e.a];
            var y := Next(s, e).sessions[e.a];
      && y.live == x.live && y.inFlight == x.inFlight && y.pending == x.pending
      && y.prepared == (if e.Enqueues? then x.prepared + 1 else x.prepared - 1)
      && (if e.Enqueues? then y.phase == x.phase else y.phase.Idle?)
      && (e.SaveFails? || e.ApplyFails? ==> y.stage == {})
      && (e.ApplyFails? ==> y.needsRecovery && !y.synced && !y.loaded)
      && (!e.ApplyFails? ==> y.needsRecovery == x.needsRecovery && y.synced == x.synced && y.loaded == x.loaded)
  {
  }

  // ----- cleanup -----

  /**
   Cleanup is possible exactly when nothing is counted, prepared or to be resent; it asks for the exact generations the
   tab has read or saved.
   */
  lemma ClearDoes(s: State, a: Source)
    ensures Enabled(s, Clears(a)) <==>
      a in s.sessions && s.sessions[a].pending == 0 && s.sessions[a].prepared == 0 && !s.sessions[a].needsRecovery
    ensures Enabled(s, Clears(a)) ==>
      var x := s.sessions[a];
      var y := Next(s, Clears(a)).sessions[a];
      && x.cleanup <= y.cleanup && x.recovered <= y.cleanup
      && (x.current.Some? ==> Entry(a, x.current.value) in y.cleanup)
      && (forall entry :: entry in y.cleanup ==>
            entry in x.cleanup || entry in x.recovered || (entry.source == a && x.current == Some(entry.generation)))
      && y == x.(cleanup := y.cleanup)
  {
  }

  /** A removal takes the record exactly if it still is that generation; other sources keep theirs. */
  lemma RemovalDoes(s: State, e: Event)
    requires Enabled(s, e) && (e.RemovesDurably? || e.RemovalAborts?)
    ensures var t := Next(s, e);
            var y := t.sessions[e.a];
            var x := s.sessions[e.a];
            var takes := e.RemovesDurably? && Lookup(s.durable, e.entry.source) == Some(e.entry.generation);
      && Lookup(t.durable, e.entry.source) == (if takes then None else Lookup(s.durable, e.entry.source))
      && (forall b :: b != e.entry.source ==> Lookup(t.durable, b) == Lookup(s.durable, b))
      && e.entry !in y.cleanup && y.cleanup == x.cleanup - {e.entry}
      && y.recovered == (if e.RemovesDurably? then x.recovered - {e.entry} else x.recovered)
      && (y.current.None? <==> x.current.None? || (takes && e.entry == Entry(e.a, x.current.value)))
      && (y.current.Some? ==> y.current == x.current)
      && y.live == x.live && t.contents == s.contents && t.server == s.server
  {
  }

  // ----- what a live document contains -----

  /** What an event brings into the document of its tab. */
  ghost function Brings(s: State, x: Session, e: Event): set<Update>
    requires Ready(s, x, e)
  {
    if e.RemoteArrives? then e.content
    else if e.Connects? then if x.loaded then {} else ViewContents(s, e.view)
    else if e.SyncCompletes? then if e.bootstrap.Some? && Blank(x) then e.bootstrap.value else {}
    else if e.Applies? then {x.phase.update}
    else {}
  }

  ghost function Gain(s: State, e: Event, a: Source): set<Update>
    requires Enabled(s, e)
  {
    if e.a != a || e.Opens? then {} else Brings(s, s.sessions[a], e)
  }

  ghost function Gains(s: State, run: seq<Event>, a: Source): set<Update>
    requires Possible(s, run)
    decreases |run|
  {
    if run == [] then {} else Gain(s, run[0], a) + Gains(Next(s, run[0]), run[1..], a)
  }

  lemma StepGains(s: State, e: Event, a: Source)
    requires Enabled(s, e) && a in s.sessions && e != Opens(a)
    ensures a in Next(s, e).sessions && Next(s, e).sessions[a].live == s.sessions[a].live + Gain(s, e, a)
  {
    if e.a != a {
      assert Next(s, e).sessions[a] == s.sessions[a];
    } else {
      OwnStepGains(s, s.sessions[a], e);
    }
  }

  lemma OwnStepGains(s: State, x: Session, e: Event)
    requires Ready(s, x, e) && !e.Opens?
    ensures NextSession(s, x, e).live == x.live + Brings(s, x, e)
  {
    if e.SyncCompletes? {
      SyncGains(x, e.bootstrap, e.queues);
    } else if e.Connects? {
      ConnectGains(s, x, e.view);
    }
  }

  lemma SyncGains(x: Session, bootstrap: Option<set<Update>>, queues: bool)
    ensures Synchronized(x, bootstrap, queues).live == if bootstrap.Some? && Blank(x) then bootstrap.value else x.live
  {
  }

  lemma ConnectGains(s: State, x: Session, view: map<Source, Generation>)
    requires forall b :: b in view ==> view[b] in s.contents
    ensures Connected(s, x, view).live == x.live + if x.loaded then {} else ViewContents(s, view)
  {
    if view == map[] { assert ViewContents(s, view) == {}; }
  }

  /**
   Until the tab is opened anew its document contains what it did, and every update that arrived, was merged from the
   records it read, came with the bootstrap of a blank page, or was applied here; and nothing else.
   */
  lemma {:induction false} LiveIsGained(s: State, run: seq<Event>, a: Source)
    requires Possible(s, run) && a in s.sessions && forall i :: 0 <= i < |run| ==> run[i] != Opens(a)
    ensures a in After(s, run).sessions
    ensures After(s, run).sessions[a].live == s.sessions[a].live + Gains(s, run, a)
    decreases |run|
  {
    if run != [] {
      assert run[0] != Opens(a);
      StepGains(s, run[0], a);
      LiveIsGained(Next(s, run[0]), run[1..], a);
    }
  }

  /** The same from the moment a tab opens, whatever the page's history: its document is what this session brought in. */
  lemma OpenedTabHasGained(server: set<Update>, earlier: seq<Event>, a: Source, run: seq<Event>)
    requires Possible(Start(server), earlier) && Possible(Next(After(Start(server), earlier), Opens(a)), run)
    requires forall i :: 0 <= i < |run| ==> run[i] != Opens(a)
    ensures var first := Next(After(Start(server), earlier), Opens(a));
      a in After(first, run).sessions && After(first, run).sessions[a].live == Gains(first, run, a)
  {
    LiveIsGained(Next(After(Start(server), earlier), Opens(a)), run, a);
  }

  /** Once the server has kept all that is on its way, and nothing must be resent, it has the whole document. */
  lemma KeptMeansSaved(server: set<Update>, run: seq<Event>, a: Source)
    requires Possible(Start(server), run)
    ensures var s := After(Start(server), run);
      a in s.sessions && !s.sessions[a].needsRecovery && (forall m :: m in s.sessions[a].inFlight ==> m.kept) ==>
        s.sessions[a].live <= s.server
  {
    RunKeeps(Start(server), run);
    assert SessionSafe(After(Start(server), run), a);
  }

  /**
   A page opened for the first time, from any history of other tabs: it reads no records, is filled with the bootstrap,
   sends it, and once the server has kept that message the server has the page.
   */
  lemma FirstOpenReachesServer(s: State, a: Source, page: set<Update>)
    requires a !in s.durable
    ensures var connected := Next(Next(s, Opens(a)), Connects(a, map[]));
      Enabled(connected, SyncCompletes(a, Some(page), true))
    ensures var synced := Next(Next(Next(s, Opens(a)), Connects(a, map[])), SyncCompletes(a, Some(page), true));
      && synced.sessions[a].live == page
      && Enabled(synced, ServerKeeps(a, 0))
      && page <= Next(synced, ServerKeeps(a, 0)).server
  {
    var connected := Next(Next(s, Opens(a)), Connects(a, map[]));
    SyncDoes(connected, a, Some(page), true);
    var synced := Next(connected, SyncCompletes(a, Some(page), true));
    assert synced.sessions[a].inFlight[0] == Message(page, false, false);
  }

  // ----- the whole way of a mutation -----

  /** The run leads from one state to the other, event by event. */
  ghost predicate Leads(s: State, run: seq<Event>, t: State) {
    Possible(s, run) && After(s, run) == t
  }

  lemma {:induction false} LeadsOn(s: State, run: seq<Event>, t: State, e: Event)
    requires Leads(s, run, t) && Enabled(t, e)
    ensures Leads(s, run + [e], Next(t, e))
    decreases |run|
  {
    if run == [] {
      assert run + [e] == [e] && [e][1..] == [];
      assert After(Next(s, e), []) == Next(s, e);
    } else {
      LeadsOn(Next(s, run[0]), run[1..], t, e);
      assert (run + [e])[1..] == run[1..] + [e];
    }
  }

  /** A tab at rest: connected and synchronized, with nothing under way. */
  predicate AtRest(x: Session) {
    && x.connected && x.synced && x.epochKnown && x.phase.Idle? && x.prepared == 0
    && x.inFlight == [] && x.pending == 0 && !x.needsRecovery
  }

  lemma {:induction false} LeadsJoin(s: State, first: seq<Event>, t: State, rest: seq<Event>, u: State)
    requires Leads(s, first, t) && Leads(t, rest, u)
    ensures Leads(s, first + rest, u)
    decreases |first|
  {
    if first == [] {
      assert first + rest == rest;
    } else {
      LeadsJoin(Next(s, first[0]), first[1..], t, rest, u);
      assert (first + rest)[1..] == first[1..] + rest;
    }
  }

  /** Its mutation is prepared: a new generation has the document and the update. */
  lemma MutationBegins(s: State, a: Source, u: Update) returns (run: seq<Event>, t: State)
    requires GenerationsKnown(s) && a in s.sessions && AtRest(s.sessions[a])
    ensures Leads(s, run, t) && a in t.sessions && t.server == s.server
    ensures var x := s.sessions[a];
            var g := s.nextGeneration;
      && t.sessions[a] == x.(stage := x.stage + x.live + {u}, prepared := 1, phase := Saving(u, g))
      && g in t.contents && x.live + {u} <= t.contents[g]
  {
    run, t := [], s;
    LeadsOn(s, run, t, Enqueues(a));
    run, t := run + [Enqueues(a)], Next(t, Enqueues(a));
    LeadsOn(s, run, t, Begins(a, u));
    run, t := run + [Begins(a, u)], Next(t, Begins(a, u));
  }

  /** The save commits and resolves: the generation is stored under the tab's key. */
  lemma SaveGoesThrough(s: State, a: Source) returns (run: seq<Event>, t: State)
    requires a in s.sessions && s.sessions[a].phase.Saving? && s.sessions[a].phase.generation in s.contents
    ensures Leads(s, run, t) && a in t.sessions && t.server == s.server
    ensures var x := s.sessions[a];
            var g := x.phase.generation;
      && t.sessions[a] == x.(phase := Durable(x.phase.update, g), current := Some(g))
      && Lookup(t.durable, a) == Some(g) && t.Stored(a) == s.contents[g]
  {
    run, t := [], s;
    LeadsOn(s, run, t, SaveCommits(a));
    run, t := run + [SaveCommits(a)], Next(t, SaveCommits(a));
    LeadsOn(s, run, t, SaveResolves(a));
    run, t := run + [SaveResolves(a)], Next(t, SaveResolves(a));
  }

  /** The saved update becomes live, is sent, and the server keeps it. */
  lemma UpdateIsSent(s: State, a: Source) returns (run: seq<Event>, t: State)
    requires a in s.sessions && s.sessions[a].phase.Durable? && AtRest(s.sessions[a].(phase := Idle, prepared := 0))
    ensures Leads(s, run, t) && a in t.sessions && t.durable == s.durable
    ensures var x := s.sessions[a];
            var u := x.phase.update;
      && t.server == s.server + {u}
      && t.sessions[a] == x.(live := x.live + {u}, inFlight := [Message({u}, false, true)], pending := 1, phase := Applied)
  {
    run, t := [], s;
    LeadsOn(s, run, t, Applies(a, true));
    run, t := run + [Applies(a, true)], Next(t, Applies(a, true));
    LeadsOn(s, run, t, ServerKeeps(a, 0));
    run, t := run + [ServerKeeps(a, 0)], Next(t, ServerKeeps(a, 0));
  }

  /** The acknowledgement comes and the mutation ends. */
  lemma MutationEnds(s: State, a: Source) returns (run: seq<Event>, t: State)
    requires a in s.sessions && s.sessions[a].phase.Applied? && s.sessions[a].prepared == 1
    requires AtRest(s.sessions[a].(phase := Idle, prepared := 0, inFlight := [], pending := 0))
    requires s.sessions[a].pending == 1 == |s.sessions[a].inFlight| && s.sessions[a].inFlight[0].kept
    ensures Leads(s, run, t) && a in t.sessions && t.durable == s.durable && t.server == s.server
    ensures AtRest(t.sessions[a])
    ensures t.sessions[a].live == s.sessions[a].live && t.sessions[a].current == s.sessions[a].current
  {
    run, t := [], s;
    LeadsOn(s, run, t, AckArrives(a));
    run, t := run + [AckArrives(a)], Next(t, AckArrives(a));
    LeadsOn(s, run, t, Ends(a));
    run, t := run + [Ends(a)], Next(t, Ends(a));
  }

  /** A tab at rest removes its record, which is still the generation it saved. */
  lemma RecordIsRemoved(s: State, a: Source) returns (run: seq<Event>, t: State)
    requires a in s.sessions && AtRest(s.sessions[a])
    requires s.sessions[a].current.Some? && s.sessions[a].current == Lookup(s.durable, a)
    ensures Leads(s, run, t) && a in t.sessions && AtRest(t.sessions[a])
    ensures a !in t.durable && t.server == s.server && t.sessions[a].live == s.sessions[a].live
    ensures t.sessions[a].current == None
  {
    run, t := [], s;
    var entry := Entry(a, s.sessions[a].current.value);
    LeadsOn(s, run, t, Clears(a));
    run, t := run + [Clears(a)], Next(t, Clears(a));
    LeadsOn(s, run, t, RemovesDurably(a, entry));
    run, t := run + [RemovesDurably(a, entry)], Next(t, RemovesDurably(a, entry));
  }

  /**
   The way of every mutation that nothing disturbs, from any tab at rest: it is saved, made live, sent, kept and
   acknowledged; then its record goes, and the tab is at rest again, with the update on the server and in its document.
   */
  lemma MutationCompletes(s: State, a: Source, u: Update) returns (run: seq<Event>, t: State)
    requires GenerationsKnown(s) && a in s.sessions && AtRest(s.sessions[a])
    ensures Leads(s, run, t) && a in t.sessions && AtRest(t.sessions[a])
    ensures t.server == s.server + {u} && t.sessions[a].live == s.sessions[a].live + {u} && a !in t.durable
  {
    var beginning, begun := MutationBegins(s, a, u);
    var saving, saved := SaveGoesThrough(begun, a);
    var sending, sent := UpdateIsSent(saved, a);
    var ending, ended := MutationEnds(sent, a);
    var removing, removed := RecordIsRemoved(ended, a);
    LeadsJoin(s, beginning, begun, saving, saved);
    LeadsJoin(s, beginning + saving, saved, sending, sent);
    LeadsJoin(s, beginning + saving + sending, sent, ending, ended);
    LeadsJoin(s, beginning + saving + sending + ending, ended, removing, removed);
    run, t := beginning + saving + sending + ending + removing, removed;
  }

  // ----- a connection that breaks -----

  /** The connection breaks and another opens: something that may be missing on the server is to be resent. */
  lemma Reconnects(s: State, a: Source, view: map<Source, Generation>) returns (run: seq<Event>, t: State)
    requires a in s.sessions && s.sessions[a].connected && s.sessions[a].loaded && ViewPossible(s, a, view)
    ensures Leads(s, run, t) && a in t.sessions
    ensures var x := s.sessions[a];
            var y := t.sessions[a];
      && y.connected && !y.synced && y.inFlight == [] && y.pending == 0 && y.live == x.live
      && (y.needsRecovery <==> x.needsRecovery || x.pending > 0 || x.startupPending)
  {
    run, t := [], s;
    LeadsOn(s, run, t, Closes(a));
    run, t := run + [Closes(a)], Next(t, Closes(a));
    LeadsOn(s, run, t, Connects(a, view));
    run, t := run + [Connects(a, view)], Next(t, Connects(a, view));
  }

  /** The whole document is sent, kept and acknowledged. */
  lemma Resends(s: State, a: Source) returns (run: seq<Event>, t: State)
    requires a in s.sessions && s.sessions[a].connected && !s.sessions[a].synced && s.sessions[a].needsRecovery
    requires s.sessions[a].inFlight == [] && s.sessions[a].pending == 0
    ensures Leads(s, run, t) && a in t.sessions
    ensures t.sessions[a].live == s.sessions[a].live <= t.server
    ensures t.sessions[a].synced && t.sessions[a].pending == 0 && !t.sessions[a].needsRecovery
  {
    run, t := [], s;
    LeadsOn(s, run, t, SyncCompletes(a, None, true));
    run, t := run + [SyncCompletes(a, None, true)], Next(t, SyncCompletes(a, None, true));
    LeadsOn(s, run, t, ServerKeeps(a, 0));
    run, t := run + [ServerKeeps(a, 0)], Next(t, ServerKeeps(a, 0));
    LeadsOn(s, run, t, AckArrives(a));
    run, t := run + [AckArrives(a)], Next(t, AckArrives(a));
  }

  /** A tab whose connection breaks with something unacknowledged has all of its document saved by the next one. */
  lemma ReconnectResends(s: State, a: Source, view: map<Source, Generation>) returns (run: seq<Event>, t: State)
    requires a in s.sessions && s.sessions[a].connected && s.sessions[a].loaded && ViewPossible(s, a, view)
    requires s.sessions[a].needsRecovery || s.sessions[a].pending > 0
    ensures Leads(s, run, t) && a in t.sessions
    ensures t.sessions[a].live == s.sessions[a].live <= t.server
    ensures t.sessions[a].synced && t.sessions[a].pending == 0 && !t.sessions[a].needsRecovery
  {
    var breaking, broken := Reconnects(s, a, view);
    var sending, sent := Resends(broken, a);
    LeadsJoin(s, breaking, broken, sending, sent);
    run, t := breaking + sending, sent;
  }

  // ----- ways that end early -----

  /** A mutation that is skipped leaves the tab at rest, as it was. */
  lemma SkipLeavesAtRest(s: State, a: Source) returns (t: State)
    requires a in s.sessions && AtRest(s.sessions[a])
    ensures Leads(s, [Enqueues(a), Skips(a)], t) && a in t.sessions && t.sessions[a] == s.sessions[a]
  {
    t := s;
    LeadsOn(s, [], t, Enqueues(a));
    t := Next(t, Enqueues(a));
    LeadsOn(s, [Enqueues(a)], t, Skips(a));
    t := Next(t, Skips(a));
    assert [Enqueues(a)] + [Skips(a)] == [Enqueues(a), Skips(a)];
  }

  /** One whose save fails leaves the tab at rest with the same document, and nothing stored. */
  lemma FailedSaveLeavesAtRest(s: State, a: Source, u: Update) returns (t: State)
    requires GenerationsKnown(s) && a in s.sessions && AtRest(s.sessions[a])
    ensures Leads(s, [Enqueues(a), Begins(a, u), SaveFails(a)], t)
    ensures a in t.sessions && t.sessions[a] == s.sessions[a].(stage := {})
    ensures t.durable == s.durable && t.server == s.server
  {
    t := s;
    LeadsOn(s, [], t, Enqueues(a));
    t := Next(t, Enqueues(a));
    LeadsOn(s, [Enqueues(a)], t, Begins(a, u));
    t := Next(t, Begins(a, u));
    LeadsOn(s, [Enqueues(a)] + [Begins(a, u)], t, SaveFails(a));
    t := Next(t, SaveFails(a));
    assert [Enqueues(a)] + [Begins(a, u)] + [SaveFails(a)] == [Enqueues(a), Begins(a, u), SaveFails(a)];
  }

  /** An update that was saved but could not be applied comes into the document with the tab's next connection. */
  lemma FailedApplyReturns(s: State, a: Source) returns (run: seq<Event>, t: State)
    requires GenerationsKnown(s) && a in s.sessions && s.sessions[a].connected && s.sessions[a].phase.Durable?
    requires Lookup(s.durable, a) == Some(s.sessions[a].phase.generation)
    ensures Leads(s, run, t) && a in t.sessions
    ensures t.sessions[a].live == s.sessions[a].live + s.contents[s.sessions[a].phase.generation]
    ensures t.sessions[a].needsRecovery && t.sessions[a].phase.Idle?
  {
    var g := s.sessions[a].phase.generation;
    assert g in s.contents;
    run, t := [], s;
    LeadsOn(s, run, t, ApplyFails(a));
    run, t := run + [ApplyFails(a)], Next(t, ApplyFails(a));
    LeadsOn(s, run, t, Closes(a));
    run, t := run + [Closes(a)], Next(t, Closes(a));
    ReturnsWithRecord(t, a, g);
    LeadsOn(s, run, t, Connects(a, map[a := g]));
    run, t := run + [Connects(a, map[a := g])], Next(t, Connects(a, map[a := g]));
  }

  lemma ReturnsWithRecord(s: State, a: Source, g: Generation)
    requires a in s.sessions && !s.sessions[a].connected && !s.sessions[a].loaded && g in s.contents
    requires Lookup(s.durable, a) == Some(g)
    ensures Enabled(s, Connects(a, map[a := g]))
    ensures var y := Next(s, Connects(a, map[a := g])).sessions[a];
      y.live == s.sessions[a].live + s.contents[g] && y.needsRecovery && y.phase == s.sessions[a].phase
  {
    var view := map[a := g];
    assert forall u :: u in s.contents[view[a]] ==> u in ViewContents(s, view);
    assert view != map[];
  }

  /** A snapshot that the server refuses leaves the tab as it was; one that it keeps leaves the server with all of it. */
  lemma CompactionRound(s: State, a: Source) returns (refused: State, kept: State)
    requires a in s.sessions && AtRest(s.sessions[a])
    ensures Leads(s, [RequestsCompaction(a), SnapshotRefused(a)], refused)
    ensures a in refused.sessions && refused.sessions[a] == s.sessions[a]
    ensures Leads(s, [RequestsCompaction(a), ServerKeeps(a, 0), AckArrives(a)], kept)
    ensures a in kept.sessions && AtRest(kept.sessions[a]) && kept.server == s.server + s.sessions[a].live
  {
    var asked := Next(s, RequestsCompaction(a));
    LeadsOn(s, [], s, RequestsCompaction(a));
    LeadsOn(s, [RequestsCompaction(a)], asked, SnapshotRefused(a));
    refused := Next(asked, SnapshotRefused(a));
    assert [RequestsCompaction(a)] + [SnapshotRefused(a)] == [RequestsCompaction(a), SnapshotRefused(a)];
    kept := SnapshotKept(s, a, asked);
  }

  lemma SnapshotKept(s: State, a: Source, asked: State) returns (kept: State)
    requires a in s.sessions && AtRest(s.sessions[a]) && asked == Next(s, RequestsCompaction(a))
    ensures Leads(s, [RequestsCompaction(a), ServerKeeps(a, 0), AckArrives(a)], kept)
    ensures a in kept.sessions && AtRest(kept.sessions[a]) && kept.server == s.server + s.sessions[a].live
  {
    LeadsOn(s, [], s, RequestsCompaction(a));
    LeadsOn(s, [RequestsCompaction(a)], asked, ServerKeeps(a, 0));
    kept := Next(asked, ServerKeeps(a, 0));
    LeadsOn(s, [RequestsCompaction(a)] + [ServerKeeps(a, 0)], kept, AckArrives(a));
    kept := Next(kept, AckArrives(a));
    assert [RequestsCompaction(a)] + [ServerKeeps(a, 0)] + [AckArrives(a)]
        == [RequestsCompaction(a), ServerKeeps(a, 0), AckArrives(a)];
  }
}

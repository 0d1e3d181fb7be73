/**
 The collaboration durability protocol over any number of tabs of one page.

 A mutation is staged, saved with the whole staged document as a recovery
 record, applied to the live document, sent and acknowledged; once nothing is
 outstanding the record is removed by its exact generation. A Yjs document is
 the set of the updates it has integrated, and merging is union.

 Assumed, as README.md lists: constant edit permission, no veto of the restore,
 no canonical bootstrap retry, one document epoch, and no other local-origin
 update over the recovery key.
 */
module CollaborationDurability {
  import opened Options

  type Update = nat
  type Source = nat
  type Generation = nat

  /** A message on the current connection; `kept` once the server has persisted it. */
  datatype Message = Message(content: set<Update>, snapshot: bool, kept: bool)

  /** How far the mutation at the head of a session's queue has come. */
  datatype Phase =
    | Idle
    | Saving(update: Update, generation: Generation)
    | Saved(update: Update, generation: Generation)
    | Durable(update: Update, generation: Generation)
    | Applied

  datatype Entry = Entry(source: Source, generation: Generation)

  /** The fields of a page session; `prepared` is pendingPreparedLocalMutations. */
  datatype Session = Session(
    live: set<Update>,
    stage: set<Update>,
    prepared: nat,
    phase: Phase,
    connected: bool,
    synced: bool,
    inFlight: seq<Message>,
    pending: nat,
    startupPending: bool,
    needsRecovery: bool,
    loaded: bool,
    epochKnown: bool,
    current: Option<Generation>,
    recovered: set<Entry>,
    cleanup: set<Entry>)

  /**
   `durable` maps a source to the generation stored under its key, `latest` to the newest one its tab has tried to store,
   and `promised` is what its commits applied.
   */
  datatype State = State(
    server: set<Update>,
    contents: map<Generation, set<Update>>,
    durable: map<Source, Generation>,
    latest: map<Source, Generation>,
    sessions: map<Source, Session>,
    promised: map<Source, set<Update>>,
    nextGeneration: Generation)
  {
    /** What the durable recovery record of a source contains. */
    function Stored(a: Source): set<Update> {
      if a in durable && durable[a] in contents then contents[durable[a]] else {}
    }

    function Promised(a: Source): set<Update> {
      if a in promised then promised[a] else {}
    }
  }

  const FRESH: Session :=
    Session({}, {}, 0, Idle, false, false, [], 0, false, false, false, false, None, {}, {})

  // ----- what a session does on its own -----

  /** handleSocketClose, without the canonical bootstrap retry. */
  function Disconnected(x: Session): Session {
    x.(connected := false, synced := false, inFlight := [], pending := 0, startupPending := false,
       needsRecovery := x.needsRecovery || x.pending > 0 || x.startupPending)
  }

  /**
   sendDocumentUpdate: counted when queued; otherwise the whole state must be resent. A send that fails only asks for the
   close, so until the socket has closed later updates may still be queued.
   */
  function SendUpdate(x: Session, content: set<Update>, queues: bool): Session {
    if x.synced && queues then x.(inFlight := x.inFlight + [Message(content, false, false)], pending := x.pending + 1)
    else x.(needsRecovery := true)
  }

  function Synchronized(x: Session, bootstrap: Option<set<Update>>, queues: bool): Session {
    var live := if bootstrap.Some? && x.recovered == {} && x.live == {} then bootstrap.value else x.live;
    var y := x.(synced := true, live := live);
    if bootstrap.Some? || x.needsRecovery then
      if queues then SendUpdate(y, live, true).(startupPending := true, needsRecovery := false)
      else SendUpdate(y, live, false).(startupPending := false)
    else y.(startupPending := x.startupPending || x.pending > 0)
  }

  /** An acknowledgement takes the oldest message of this connection. */
  function AckReceived(x: Session): Session
    requires x.inFlight != []
  {
    var left := if x.pending > 0 then x.pending - 1 else 0;
    x.(inFlight := x.inFlight[1..], pending := left,
       startupPending := x.startupPending && (left > 0 || x.needsRecovery))
  }

  /** A rejected snapshot is uncounted and nothing more. */
  function SnapshotRejected(x: Session): Session
    requires x.inFlight != []
  {
    x.(inFlight := x.inFlight[1..], pending := if x.pending > 0 then x.pending - 1 else 0)
  }

  function MutationEnded(x: Session): Session {
    x.(phase := Idle, prepared := if x.prepared > 0 then x.prepared - 1 else 0)
  }

  predicate MayClear(x: Session) {
    x.pending == 0 && x.prepared == 0 && !x.needsRecovery
  }

  function OwnEntry(a: Source, x: Session): set<Entry> {
    if x.current.Some? then {Entry(a, x.current.value)} else {}
  }

  // ----- events -----

  datatype Event =
    | Opens(a: Source)
    | Connects(a: Source, view: map<Source, Generation>)
    | SyncCompletes(a: Source, bootstrap: Option<set<Update>>, queues: bool)
    | RemoteArrives(a: Source, content: set<Update>)
    | ServerKeeps(a: Source, index: nat)
    | AckArrives(a: Source)
    | SnapshotRefused(a: Source)
    | RequestsCompaction(a: Source)
    | Closes(a: Source)
    | Enqueues(a: Source)
    | Skips(a: Source)
    | Begins(a: Source, update: Update)
    | SaveCommits(a: Source)
    | SaveFails(a: Source)
    | SaveResolves(a: Source)
    | Applies(a: Source, queues: bool)
    | ApplyFails(a: Source)
    | Ends(a: Source)
    | Clears(a: Source)
    | RemovesDurably(a: Source, entry: Entry)
    | RemovalAborts(a: Source, entry: Entry)

  /**
   A tab reads its own record as it is stored, or as the draft it tried to store last, which its mirror shows even when
   that write has failed. Other sources' records may be stale or missing.
   */
  ghost predicate ViewPossible(s: State, a: Source, view: map<Source, Generation>) {
    && (forall b :: b in view ==> view[b] in s.contents)
    && (a in s.durable ==> a in view && (view[a] == s.durable[a] || Lookup(s.latest, a) == Some(view[a])))
  }

  ghost predicate Enabled(s: State, e: Event) {
    e.Opens? || (e.a in s.sessions && Ready(s, s.sessions[e.a], e))
  }

  ghost predicate Ready(s: State, x: Session, e: Event) {
    match e
    case Opens(_) => true
    case Connects(a, view) => !x.connected && ViewPossible(s, a, view)
    case SyncCompletes(_, _, _) => x.connected && !x.synced
    case RemoteArrives(_, content) => x.connected && content <= s.server
    case ServerKeeps(_, i) => i < |x.inFlight| && forall j :: 0 <= j < i ==> x.inFlight[j].kept
    case AckArrives(_) => x.inFlight != [] && x.inFlight[0].kept
    case SnapshotRefused(_) => x.inFlight != [] && x.inFlight[0].snapshot && !x.inFlight[0].kept
    case RequestsCompaction(_) => x.connected && x.synced && x.pending == 0
    case Closes(_) => x.connected
    case Enqueues(_) => true
    case Skips(_) => x.phase.Idle? && x.prepared > 0
    case Begins(_, _) => x.phase.Idle? && x.prepared > 0 && x.epochKnown
    case SaveCommits(_) => x.phase.Saving?
    case SaveFails(_) => x.phase.Saving? || x.phase.Saved?
    case SaveResolves(_) => x.phase.Saved?
    case Applies(_, _) => x.phase.Durable?
    case ApplyFails(_) => x.phase.Durable?
    case Ends(_) => x.phase.Applied?
    case Clears(_) => MayClear(x)
    case RemovesDurably(_, entry) => entry in x.cleanup
    case RemovalAborts(_, entry) => entry in x.cleanup
  }

  ghost function ViewEntries(view: map<Source, Generation>): set<Entry> {
    set b | b in view :: Entry(b, view[b])
  }

  ghost function ViewContents(s: State, view: map<Source, Generation>): set<Update>
    requires forall b :: b in view ==> view[b] in s.contents
  {
    set b, u | b in view && u in s.contents[view[b]] :: u
  }

  /** connect(): the records are merged once per loaded epoch, before the socket opens. */
  ghost function Connected(s: State, x: Session, view: map<Source, Generation>): Session
    requires forall b :: b in view ==> view[b] in s.contents
  {
    var y := x.(connected := true, synced := false, epochKnown := true, loaded := true);
    if x.loaded || view == map[] then y
    else y.(live := x.live + ViewContents(s, view), recovered := ViewEntries(view), needsRecovery := true)
  }

  /** A removal finds the exact generation it was queued for. */
  predicate StillStored(s: State, entry: Entry) {
    Lookup(s.durable, entry.source) == Some(entry.generation)
  }

  /** The tab's own fields after the event. */
  ghost function NextSession(s: State, x: Session, e: Event): Session
    requires Ready(s, x, e)
  {
    match e
    case Opens(_) => FRESH
    case Connects(_, view) => Connected(s, x, view)
    case SyncCompletes(_, bootstrap, queues) => Synchronized(x, bootstrap, queues)
    case RemoteArrives(_, content) => x.(live := x.live + content)
    case ServerKeeps(_, i) => x.(inFlight := x.inFlight[i := x.inFlight[i].(kept := true)])
    case AckArrives(_) => AckReceived(x)
    case SnapshotRefused(_) => SnapshotRejected(x)
    case RequestsCompaction(_) => x.(inFlight := x.inFlight + [Message(x.live, true, false)], pending := x.pending + 1)
    case Closes(_) => Disconnected(x)
    case Enqueues(_) => x.(prepared := x.prepared + 1)
    case Skips(_) => MutationEnded(x)
    case Begins(_, u) => x.(stage := x.stage + x.live + {u}, phase := Saving(u, s.nextGeneration))
    case SaveCommits(_) => x.(phase := Saved(x.phase.update, x.phase.generation))
    case SaveFails(_) => MutationEnded(x.(stage := {}))
    case SaveResolves(_) =>
      x.(phase := Durable(x.phase.update, x.phase.generation), current := Some(x.phase.generation))
    case Applies(_, queues) =>
      SendUpdate(x.(live := x.live + {x.phase.update}), {x.phase.update}, queues).(phase := Applied)
    case ApplyFails(_) => MutationEnded(x.(stage := {}, loaded := false, needsRecovery := true, synced := false))
    case Ends(_) => MutationEnded(x)
    case Clears(a) => x.(cleanup := x.cleanup + OwnEntry(a, x) + x.recovered)
    case RemovesDurably(a, entry) =>
      x.(cleanup := x.cleanup - {entry}, recovered := x.recovered - {entry},
         current := if StillStored(s, entry) && entry.source == a && x.current == Some(entry.generation)
                    then None else x.current)
    case RemovalAborts(_, entry) => x.(cleanup := x.cleanup - {entry})
  }

  ghost function Next(s: State, e: Event): State
    requires Enabled(s, e)
  {
    if e.Opens? then s.(sessions := s.sessions[e.a := FRESH])
    else
      var x := s.sessions[e.a];
      var t := s.(sessions := s.sessions[e.a := NextSession(s, x, e)]);
      match e
      case ServerKeeps(_, i) => t.(server := s.server + x.inFlight[i].content)
      case Begins(_, u) =>
        t.(contents := s.contents[s.nextGeneration := x.stage + x.live + {u}],
           latest := s.latest[e.a := s.nextGeneration], nextGeneration := s.nextGeneration + 1)
      case SaveCommits(a) => t.(durable := s.durable[a := x.phase.generation])
      case Applies(a, _) => t.(promised := s.promised[a := s.Promised(a) + {x.phase.update}])
      case RemovesDurably(_, entry) => if StillStored(s, entry) then t.(durable := s.durable - {entry.source}) else t
      case _ => t
  }

  ghost predicate Possible(s: State, run: seq<Event>)
    decreases |run|
  {
    run != [] ==> Enabled(s, run[0]) && Possible(Next(s, run[0]), run[1..])
  }

  ghost function After(s: State, run: seq<Event>): State
    requires Possible(s, run)
    decreases |run|
  {
    if run == [] then s else After(Next(s, run[0]), run[1..])
  }

  /** A page whose document the server has, before any tab opened it or promised anything. */
  function Start(server: set<Update>): State {
    State(server, map[], map[], map[], map[], map[], 0)
  }

  // ----- invariants -----

  /** Every generation that is named has its contents, and new ones are unused. */
  ghost predicate GenerationsKnown(s: State) {
    && (forall g: Generation :: g in s.contents <==> g < s.nextGeneration)
    && (forall a :: a in s.durable ==> s.durable[a] in s.contents)
    && (forall a :: a in s.sessions ==> SessionKnown(s, s.sessions[a]))
  }

  ghost predicate SessionKnown(s: State, x: Session) {
    && (x.phase.Saving? || x.phase.Saved? || x.phase.Durable? ==> x.phase.generation in s.contents)
    && (x.current.Some? ==> x.current.value in s.contents)
    && (forall entry :: entry in x.recovered + x.cleanup ==> entry.generation in s.contents)
  }

  /** The content of the updates that are on their way on this connection. */
  ghost function Carried(messages: seq<Message>): set<Update> {
    set m, u | m in messages && !m.snapshot && u in m.content :: u
  }

  /** Unless the whole state must be resent, the server has, or is being sent, all of the live document. */
  ghost predicate LiveCovered(s: State, x: Session) {
    && x.pending == |x.inFlight|
    && (!x.connected ==> x.inFlight == [] && !x.synced)
    && (forall m :: m in x.inFlight && m.kept ==> m.content <= s.server)
    && (!x.needsRecovery ==> x.live <= s.server + Carried(x.inFlight))
  }

  /** A mutation being saved carries everything promised so far, and its own update. */
  ghost predicate SaveCarriesAll(s: State, a: Source, x: Session) {
    && (!x.phase.Idle? ==> x.prepared > 0)
    && (x.phase.Saving? || x.phase.Saved? || x.phase.Durable? ==>
          && x.phase.generation in s.contents
          && Lookup(s.latest, a) == Some(x.phase.generation)
          && x.phase.update in s.contents[x.phase.generation]
          && s.Promised(a) <= s.server + s.contents[x.phase.generation])
    && (x.phase.Saving? ==> Lookup(s.durable, a) != Some(x.phase.generation))
    && (x.phase.Saved? || x.phase.Durable? ==>
          || Lookup(s.durable, a) == Some(x.phase.generation)
          || (a !in s.durable && s.contents[x.phase.generation] <= s.server))
  }

  /** Once it knows its document, a session's live document has what the server lacks of its promises. */
  ghost predicate LiveHasPromises(s: State, a: Source, x: Session) {
    && (x.epochKnown ==> s.Promised(a) <= s.server + x.live)
    && (!x.epochKnown ==> x.phase.Idle? && x.current == None && x.recovered == {} && !x.connected && !x.loaded)
    && (forall entry :: entry in x.recovered ==>
          entry.generation in s.contents && s.contents[entry.generation] <= x.live)
  }

  /** A queued removal is safe: the server has its contents, or has all its own source had promised. */
  ghost predicate RemovalSafe(s: State, a: Source, entry: Entry) {
    && entry.generation in s.contents
    && (|| s.contents[entry.generation] <= s.server
        || (&& entry.source == a
            && (a in s.sessions && !s.sessions[a].phase.Idle? && !s.sessions[a].phase.Applied? ==>
                  s.sessions[a].phase.generation != entry.generation)
            && (Lookup(s.durable, a) == Some(entry.generation) ==> s.Promised(a) <= s.server)))
  }

  ghost predicate SessionSafe(s: State, a: Source) {
    a in s.sessions ==>
      && LiveCovered(s, s.sessions[a])
      && SaveCarriesAll(s, a, s.sessions[a])
      && LiveHasPromises(s, a, s.sessions[a])
      && forall entry :: entry in s.sessions[a].cleanup ==> RemovalSafe(s, a, entry)
  }

  /** The claim: every applied mutation is on the server or in its source's recovery record. */
  ghost predicate PromiseKept(s: State, a: Source) {
    && s.Promised(a) <= s.server + s.Stored(a)
    && LatestCarries(s, a)
  }

  /** What the tab tried to store last has all promises too, stored or not. */
  ghost predicate LatestCarries(s: State, a: Source) {
    a in s.latest ==> s.latest[a] in s.contents && s.Promised(a) <= s.server + s.contents[s.latest[a]]
  }

  ghost predicate Inv(s: State) {
    && GenerationsKnown(s)
    && (forall a :: SessionSafe(s, a))
    && (forall a :: PromiseKept(s, a))
  }

  // ----- tabs that an event does not touch -----

  /** What the server and the recovery store know only grows, and tab b is left alone. */
  ghost predicate LeavesAlone(s: State, t: State, b: Source) {
    && s.server <= t.server
    && (forall g :: g in s.contents ==> g in t.contents && t.contents[g] == s.contents[g])
    && Lookup(t.sessions, b) == Lookup(s.sessions, b)
    && Lookup(t.durable, b) == Lookup(s.durable, b) && Lookup(t.latest, b) == Lookup(s.latest, b)
    && t.Promised(b) == s.Promised(b)
  }

  lemma UntouchedStaysSafe(s: State, t: State, b: Source)
    requires GenerationsKnown(s) && SessionSafe(s, b) && PromiseKept(s, b) && LeavesAlone(s, t, b)
    ensures SessionSafe(t, b) && PromiseKept(t, b)
  {
    if b in s.sessions {
      assert SessionKnown(s, s.sessions[b]);
      forall entry | entry in s.sessions[b].cleanup
        ensures RemovalSafe(t, b, entry)
      {
        assert RemovalSafe(s, b, entry);
      }
    }
  }

  /** The other tabs under an event of tab a that removes no record. */
  lemma OthersStaySafe(s: State, e: Event)
    requires Inv(s) && Enabled(s, e) && !e.RemovesDurably?
    ensures forall b :: b != e.a ==> SessionSafe(Next(s, e), b) && PromiseKept(Next(s, e), b)
  {
    forall b | b != e.a
      ensures SessionSafe(Next(s, e), b) && PromiseKept(Next(s, e), b)
    {
      assert SessionSafe(s, b) && PromiseKept(s, b);
      EventLeavesAlone(s, e, b);
      UntouchedStaysSafe(s, Next(s, e), b);
    }
  }

  lemma EventLeavesAlone(s: State, e: Event, b: Source)
    requires GenerationsKnown(s) && Enabled(s, e) && !e.RemovesDurably? && b != e.a
    ensures LeavesAlone(s, Next(s, e), b)
  {
    assert Lookup(Next(s, e).sessions, b) == Lookup(s.sessions, b);
  }

  // ----- the tab itself -----

  /** An event that changes only the session of tab a, and neither its save nor its removals. */
  ghost predicate OnlySession(s: State, t: State, a: Source) {
    && a in s.sessions && a in t.sessions
    && s.server <= t.server && t.contents == s.contents && t.durable == s.durable && t.latest == s.latest
    && t.promised == s.promised && t.nextGeneration == s.nextGeneration
    && t.sessions == s.sessions[a := t.sessions[a]]
  }

  ghost predicate KeepsSave(x: Session, y: Session) {
    && (y.phase == x.phase || (!y.phase.Saving? && !y.phase.Saved? && !y.phase.Durable?))
    && (!y.phase.Idle? ==> y.prepared > 0)
    && y.epochKnown == x.epochKnown && y.current == x.current
    && y.recovered == x.recovered && y.cleanup == x.cleanup
    && x.live <= y.live
    && (!x.epochKnown ==> !y.connected && !y.loaded && y.phase.Idle?)
  }

  lemma OnlySessionKeeps(s: State, t: State, a: Source)
    requires GenerationsKnown(s) && SessionSafe(s, a) && PromiseKept(s, a)
    requires OnlySession(s, t, a) && KeepsSave(s.sessions[a], t.sessions[a])
    requires LiveCovered(t, t.sessions[a])
    ensures GenerationsKnown(t) && SessionSafe(t, a) && PromiseKept(t, a)
  {
    assert SessionKnown(s, s.sessions[a]);
    assert SessionKnown(t, t.sessions[a]);
    forall b | b in t.sessions
      ensures SessionKnown(t, t.sessions[b])
    {
      assert SessionKnown(s, s.sessions[b]);
    }
    forall entry | entry in t.sessions[a].cleanup
      ensures RemovalSafe(t, a, entry)
    {
      assert RemovalSafe(s, a, entry);
    }
  }

  lemma CarriedByTail(messages: seq<Message>)
    requires messages != []
    ensures Carried(messages) == Carried(messages[1..]) + Carried([messages[0]])
  {
    assert messages == [messages[0]] + messages[1..];
  }

  lemma CarriedWithLast(messages: seq<Message>, m: Message)
    ensures Carried(messages) <= Carried(messages + [m])
    ensures !m.snapshot ==> m.content <= Carried(messages + [m])
  {
    assert forall before :: before in messages ==> before in messages + [m];
    assert m in messages + [m];
  }

  /** Sending what was just added to the live document keeps it covered. */
  lemma SendCovers(s: State, x: Session, content: set<Update>, queues: bool)
    requires LiveCovered(s, x.(live := x.live - content))
    ensures LiveCovered(s, SendUpdate(x, content, queues))
  {
    CarriedWithLast(x.inFlight, Message(content, false, false));
    assert x.live <= (x.live - content) + content;
  }

  lemma SyncCovers(s: State, x: Session, bootstrap: Option<set<Update>>, queues: bool)
    requires LiveCovered(s, x) && x.connected
    ensures LiveCovered(s, Synchronized(x, bootstrap, queues))
  {
    var live := if bootstrap.Some? && x.recovered == {} && x.live == {} then bootstrap.value else x.live;
    CarriedWithLast(x.inFlight, Message(live, false, false));
  }

  lemma AckCovers(s: State, x: Session)
    requires LiveCovered(s, x) && x.inFlight != []
    requires x.inFlight[0].kept || x.inFlight[0].snapshot
    ensures LiveCovered(s, AckReceived(x)) && LiveCovered(s, SnapshotRejected(x))
  {
    var first := x.inFlight[0];
    CarriedByTail(x.inFlight);
    assert first in x.inFlight;
    assert Carried([first]) <= s.server;
    assert forall m :: m in x.inFlight[1..] ==> m in x.inFlight;
  }

  /** Persisting a message changes which messages are kept, not what they carry. */
  lemma KeptCovers(s: State, t: State, x: Session, i: nat)
    requires LiveCovered(s, x) && i < |x.inFlight|
    requires t.server == s.server + x.inFlight[i].content
    ensures LiveCovered(t, x.(inFlight := x.inFlight[i := x.inFlight[i].(kept := true)]))
  {
    var messages := x.inFlight[i := x.inFlight[i].(kept := true)];
    forall u | u in Carried(x.inFlight)
      ensures u in Carried(messages)
    {
      var m :| m in x.inFlight && !m.snapshot && u in m.content;
      var j :| 0 <= j < |x.inFlight| && x.inFlight[j] == m;
      assert messages[j] in messages;
    }
    forall m | m in messages && m.kept
      ensures m.content <= t.server
    {
      var j :| 0 <= j < |messages| && messages[j] == m;
      assert x.inFlight[j] in x.inFlight;
    }
  }

  // ----- each event -----

  predicate ConnectionEvent(e: Event) {
    e.SyncCompletes? || e.RemoteArrives? || e.ServerKeeps? || e.AckArrives? || e.SnapshotRefused?
    || e.RequestsCompaction? || e.Closes?
  }

  lemma ConnectionKeepsCovered(s: State, e: Event)
    requires ConnectionEvent(e) && e.a in s.sessions && Ready(s, s.sessions[e.a], e)
    requires LiveCovered(s, s.sessions[e.a])
    ensures LiveCovered(Next(s, e), Next(s, e).sessions[e.a])
  {
    var x := s.sessions[e.a];
    match e
    case SyncCompletes(_, bootstrap, queues) => SyncCovers(s, x, bootstrap, queues);
    case ServerKeeps(_, i) => KeptCovers(s, Next(s, e), x, i);
    case AckArrives(_) => AckCovers(s, x);
    case SnapshotRefused(_) => AckCovers(s, x);
    case RequestsCompaction(_) => CarriedWithLast(x.inFlight, Message(x.live, true, false));
    case _ =>
  }

  lemma ConnectionKeepsSave(s: State, x: Session, e: Event)
    requires ConnectionEvent(e) && Ready(s, x, e)
    requires LiveHasPromises(s, e.a, x) && SaveCarriesAll(s, e.a, x) && LiveCovered(s, x)
    ensures KeepsSave(x, NextSession(s, x, e))
  {
    if e.SyncCompletes? { SyncKeepsSave(x, e.bootstrap, e.queues); }
  }

  lemma SyncKeepsSave(x: Session, bootstrap: Option<set<Update>>, queues: bool)
    requires x.connected && (!x.phase.Idle? ==> x.prepared > 0) && (!x.epochKnown ==> !x.connected)
    ensures KeepsSave(x, Synchronized(x, bootstrap, queues))
  {
  }

  lemma ConnectionKeepsTab(s: State, e: Event)
    requires Inv(s) && Enabled(s, e) && ConnectionEvent(e)
    ensures GenerationsKnown(Next(s, e)) && SessionSafe(Next(s, e), e.a) && PromiseKept(Next(s, e), e.a)
  {
    assert SessionSafe(s, e.a) && PromiseKept(s, e.a);
    ConnectionKeepsCovered(s, e);
    ConnectionKeepsSave(s, s.sessions[e.a], e);
    OnlySessionKeeps(s, Next(s, e), e.a);
  }

  lemma CountingKeepsTab(s: State, e: Event)
    requires Inv(s) && Enabled(s, e)
    requires e.Enqueues? || e.Skips? || e.SaveFails? || e.Ends? || e.ApplyFails?
    ensures GenerationsKnown(Next(s, e)) && SessionSafe(Next(s, e), e.a) && PromiseKept(Next(s, e), e.a)
  {
    assert SessionSafe(s, e.a) && PromiseKept(s, e.a);
    OnlySessionKeeps(s, Next(s, e), e.a);
  }

  lemma OpensKeepsTab(s: State, a: Source)
    requires Inv(s)
    ensures GenerationsKnown(Next(s, Opens(a))) && SessionSafe(Next(s, Opens(a)), a) && PromiseKept(Next(s, Opens(a)), a)
  {
    assert PromiseKept(s, a);
    var t := Next(s, Opens(a));
    forall b | b in t.sessions
      ensures SessionKnown(t, t.sessions[b])
    {
      if b != a { assert SessionKnown(s, s.sessions[b]); }
    }
  }

  lemma ConnectsKeepsTab(s: State, a: Source, view: map<Source, Generation>)
    requires Inv(s) && Enabled(s, Connects(a, view))
    ensures var t := Next(s, Connects(a, view)); GenerationsKnown(t) && SessionSafe(t, a) && PromiseKept(t, a)
  {
    var t := Next(s, Connects(a, view));
    var x := s.sessions[a];
    assert SessionSafe(s, a) && PromiseKept(s, a) && SessionKnown(s, x);
    assert SessionKnown(t, t.sessions[a]);
    forall b | b in t.sessions
      ensures SessionKnown(t, t.sessions[b])
    {
      if b != a { assert SessionKnown(s, s.sessions[b]); }
    }
    forall entry | entry in t.sessions[a].cleanup
      ensures RemovalSafe(t, a, entry)
    {
      assert RemovalSafe(s, a, entry);
    }
    if !x.loaded && !x.epochKnown && view != map[] { OwnRecordIsSeen(s, a, view); }
  }

  /** The first connection of a session sees its source's record, which has what the server lacks. */
  lemma OwnRecordIsSeen(s: State, a: Source, view: map<Source, Generation>)
    requires PromiseKept(s, a) && ViewPossible(s, a, view) && GenerationsKnown(s)
    ensures s.Promised(a) <= s.server + ViewContents(s, view)
  {
    if a in s.durable {
      assert s.contents[view[a]] <= ViewContents(s, view);
    }
  }

  lemma BeginsKeepsTab(s: State, a: Source, u: Update)
    requires Inv(s) && Enabled(s, Begins(a, u))
    ensures var t := Next(s, Begins(a, u)); GenerationsKnown(t) && SessionSafe(t, a) && PromiseKept(t, a)
  {
    var t := Next(s, Begins(a, u));
    var x := s.sessions[a];
    assert SessionSafe(s, a) && PromiseKept(s, a) && SessionKnown(s, x);
    forall b | b in t.sessions
      ensures SessionKnown(t, t.sessions[b])
    {
      assert SessionKnown(s, s.sessions[b]);
    }
    forall entry | entry in t.sessions[a].cleanup
      ensures RemovalSafe(t, a, entry)
    {
      assert RemovalSafe(s, a, entry);
    }
  }

  lemma SaveStepKeepsTab(s: State, e: Event)
    requires Inv(s) && Enabled(s, e) && (e.SaveCommits? || e.SaveResolves?)
    ensures GenerationsKnown(Next(s, e)) && SessionSafe(Next(s, e), e.a) && PromiseKept(Next(s, e), e.a)
  {
    var t := Next(s, e);
    var x := s.sessions[e.a];
    assert SessionSafe(s, e.a) && PromiseKept(s, e.a) && SessionKnown(s, x);
    forall b | b in t.sessions
      ensures SessionKnown(t, t.sessions[b])
    {
      assert SessionKnown(s, s.sessions[b]);
    }
    forall entry | entry in t.sessions[e.a].cleanup
      ensures RemovalSafe(t, e.a, entry)
    {
      assert RemovalSafe(s, e.a, entry);
    }
  }

  lemma AppliesKeepsRemovals(s: State, a: Source, queues: bool, entry: Entry)
    requires Enabled(s, Applies(a, queues)) && SaveCarriesAll(s, a, s.sessions[a])
    requires RemovalSafe(s, a, entry)
    ensures RemovalSafe(Next(s, Applies(a, queues)), a, entry)
  {
  }

  lemma AppliesKeepsKnown(s: State, a: Source, queues: bool)
    requires GenerationsKnown(s) && Enabled(s, Applies(a, queues))
    ensures GenerationsKnown(Next(s, Applies(a, queues)))
  {
    var t := Next(s, Applies(a, queues));
    forall b | b in t.sessions
      ensures SessionKnown(t, t.sessions[b])
    {
      assert SessionKnown(s, s.sessions[b]);
    }
  }

  lemma AppliesKeepsCovered(s: State, x: Session, u: Update, queues: bool)
    requires LiveCovered(s, x)
    ensures LiveCovered(s, SendUpdate(x.(live := x.live + {u}), {u}, queues).(phase := Applied))
  {
    var y := x.(live := x.live + {u});
    assert y.live - {u} <= x.live;
    SendCovers(s, y, {u}, queues);
  }

  /** The update becomes promised only now: its record is durable, or the server already has it. */
  lemma AppliesKeepsTab(s: State, a: Source, queues: bool)
    requires Inv(s) && Enabled(s, Applies(a, queues))
    ensures var t := Next(s, Applies(a, queues)); GenerationsKnown(t) && SessionSafe(t, a) && PromiseKept(t, a)
  {
    var t := Next(s, Applies(a, queues));
    var x := s.sessions[a];
    assert SessionSafe(s, a) && PromiseKept(s, a);
    AppliesKeepsKnown(s, a, queues);
    AppliesKeepsCovered(s, x, x.phase.update, queues);
    assert LiveCovered(t, t.sessions[a]);
    forall entry | entry in t.sessions[a].cleanup
      ensures RemovalSafe(t, a, entry)
    {
      AppliesKeepsRemovals(s, a, queues, entry);
    }
  }

  lemma ClearsKeepsKnown(s: State, a: Source)
    requires Inv(s) && Enabled(s, Clears(a))
    ensures GenerationsKnown(Next(s, Clears(a)))
  {
    var t := Next(s, Clears(a));
    forall b | b in t.sessions ensures SessionKnown(t, t.sessions[b]) {
      assert SessionKnown(s, s.sessions[b]);
    }
  }

  lemma ClearsKeepsTab(s: State, a: Source)
    requires Inv(s) && Enabled(s, Clears(a))
    ensures var t := Next(s, Clears(a)); GenerationsKnown(t) && SessionSafe(t, a) && PromiseKept(t, a)
  {
    var t := Next(s, Clears(a));
    var x := s.sessions[a];
    assert SessionSafe(s, a) && PromiseKept(s, a) && SessionKnown(s, x);
    assert Carried(x.inFlight) == {};
    ClearsKeepsKnown(s, a);
    forall entry | entry in t.sessions[a].cleanup
      ensures RemovalSafe(t, a, entry)
    {
      if entry in x.cleanup { assert RemovalSafe(s, a, entry); }
    }
  }

  lemma RemovalAbortsKeepsTab(s: State, a: Source, entry: Entry)
    requires Inv(s) && Enabled(s, RemovalAborts(a, entry))
    ensures var t := Next(s, RemovalAborts(a, entry)); GenerationsKnown(t) && SessionSafe(t, a) && PromiseKept(t, a)
  {
    var t := Next(s, RemovalAborts(a, entry));
    assert SessionSafe(s, a) && PromiseKept(s, a);
    RemovalAbortsKeepsKnown(s, a, entry);
    forall left | left in t.sessions[a].cleanup
      ensures RemovalSafe(t, a, left)
    {
      assert RemovalSafe(s, a, left);
    }
  }

  lemma RemovalAbortsKeepsKnown(s: State, a: Source, entry: Entry)
    requires Inv(s) && Enabled(s, RemovalAborts(a, entry))
    ensures GenerationsKnown(Next(s, RemovalAborts(a, entry)))
  {
    var t := Next(s, RemovalAborts(a, entry));
    forall b | b in t.sessions ensures SessionKnown(t, t.sessions[b]) {
      assert SessionKnown(s, s.sessions[b]);
    }
  }

  lemma RemovesKeepsRemovals(s: State, a: Source, entry: Entry, b: Source, left: Entry)
    requires Enabled(s, RemovesDurably(a, entry)) && b in s.sessions && RemovalSafe(s, b, left)
    ensures RemovalSafe(Next(s, RemovesDurably(a, entry)), b, left)
  {
  }

  lemma RemovesKeepsSave(s: State, a: Source, entry: Entry, b: Source)
    requires Enabled(s, RemovesDurably(a, entry)) && RemovalSafe(s, a, entry)
    requires b in s.sessions && SaveCarriesAll(s, b, s.sessions[b])
    ensures var t := Next(s, RemovesDurably(a, entry)); SaveCarriesAll(t, b, t.sessions[b])
  {
  }

  lemma RemovesKeepsPromise(s: State, a: Source, entry: Entry, b: Source)
    requires Enabled(s, RemovesDurably(a, entry)) && RemovalSafe(s, a, entry) && PromiseKept(s, b)
    ensures PromiseKept(Next(s, RemovesDurably(a, entry)), b)
  {
  }

  /** Removing a record by its exact generation loses nothing, whichever tab does it. */
  lemma RemovesKeepsTab(s: State, a: Source, entry: Entry, b: Source)
    requires Enabled(s, RemovesDurably(a, entry))
    requires SessionSafe(s, b) && PromiseKept(s, b) && RemovalSafe(s, a, entry)
    ensures SessionSafe(Next(s, RemovesDurably(a, entry)), b) && PromiseKept(Next(s, RemovesDurably(a, entry)), b)
  {
    RemovesKeepsPromise(s, a, entry, b);
    if b in s.sessions {
      RemovesKeepsSave(s, a, entry, b);
      RemovesKeepsDocument(s, a, entry, b);
      RemovesKeepsCleanup(s, a, entry, b);
    }
  }

  lemma RemovesKeepsDocument(s: State, a: Source, entry: Entry, b: Source)
    requires Enabled(s, RemovesDurably(a, entry)) && b in s.sessions
    requires LiveCovered(s, s.sessions[b]) && LiveHasPromises(s, b, s.sessions[b])
    ensures var t := Next(s, RemovesDurably(a, entry));
      LiveCovered(t, t.sessions[b]) && LiveHasPromises(t, b, t.sessions[b])
  {
    RemovesKeepsLive(s, a, entry, b);
  }

  lemma RemovesKeepsLive(s: State, a: Source, entry: Entry, b: Source)
    requires Enabled(s, RemovesDurably(a, entry)) && b in s.sessions && LiveCovered(s, s.sessions[b])
    ensures var t := Next(s, RemovesDurably(a, entry)); LiveCovered(t, t.sessions[b])
  {
  }

  lemma RemovesKeepsCleanup(s: State, a: Source, entry: Entry, b: Source)
    requires Enabled(s, RemovesDurably(a, entry)) && b in s.sessions
    requires forall left :: left in s.sessions[b].cleanup ==> RemovalSafe(s, b, left)
    ensures var t := Next(s, RemovesDurably(a, entry));
      forall left :: left in t.sessions[b].cleanup ==> RemovalSafe(t, b, left)
  {
    var t := Next(s, RemovesDurably(a, entry));
    forall left | left in t.sessions[b].cleanup
      ensures RemovalSafe(t, b, left)
    {
      RemovesKeepsRemovals(s, a, entry, b, left);
    }
  }

  lemma RemovesKeepsKnown(s: State, a: Source, entry: Entry)
    requires GenerationsKnown(s) && Enabled(s, RemovesDurably(a, entry))
    ensures GenerationsKnown(Next(s, RemovesDurably(a, entry)))
  {
    var t := Next(s, RemovesDurably(a, entry));
    forall b | b in t.sessions
      ensures SessionKnown(t, t.sessions[b])
    {
      assert SessionKnown(s, s.sessions[b]);
    }
  }

  lemma TabStaysSafe(s: State, e: Event)
    requires Inv(s) && Enabled(s, e) && !e.RemovesDurably?
    ensures GenerationsKnown(Next(s, e)) && SessionSafe(Next(s, e), e.a) && PromiseKept(Next(s, e), e.a)
  {
    match e
    case Opens(a) => OpensKeepsTab(s, a);
    case Connects(a, view) => ConnectsKeepsTab(s, a, view);
    case Begins(a, u) => BeginsKeepsTab(s, a, u);
    case SaveCommits(_) => SaveStepKeepsTab(s, e);
    case SaveResolves(_) => SaveStepKeepsTab(s, e);
    case Applies(a, queues) => AppliesKeepsTab(s, a, queues);
    case Clears(a) => ClearsKeepsTab(s, a);
    case RemovalAborts(a, entry) => RemovalAbortsKeepsTab(s, a, entry);
    case Enqueues(_) => CountingKeepsTab(s, e);
    case Skips(_) => CountingKeepsTab(s, e);
    case SaveFails(_) => CountingKeepsTab(s, e);
    case Ends(_) => CountingKeepsTab(s, e);
    case ApplyFails(_) => CountingKeepsTab(s, e);
    case _ => ConnectionKeepsTab(s, e);
  }

  lemma StepKeeps(s: State, e: Event)
    requires Inv(s) && Enabled(s, e)
    ensures Inv(Next(s, e))
  {
    if e.RemovesDurably? {
      RemovesKeepsKnown(s, e.a, e.entry);
      assert SessionSafe(s, e.a) && RemovalSafe(s, e.a, e.entry);
      forall b ensures SessionSafe(Next(s, e), b) && PromiseKept(Next(s, e), b) {
        assert SessionSafe(s, b) && PromiseKept(s, b);
        RemovesKeepsTab(s, e.a, e.entry, b);
      }
    } else {
      OthersStaySafe(s, e);
      TabStaysSafe(s, e);
    }
  }

  lemma {:induction false} RunKeeps(s: State, run: seq<Event>)
    requires Inv(s) && Possible(s, run)
    ensures Inv(After(s, run))
    decreases |run|
  {
    if run != [] {
      StepKeeps(s, run[0]);
      RunKeeps(Next(s, run[0]), run[1..]);
    }
  }

  /**
   No applied mutation is lost: after any run of any number of tabs, with
   closes, reconnects, failed saves, concurrent cleanup and crashes, every
   update a commit applied is on the server or in its source's durable record.
   */
  lemma NoAppliedMutationIsLost(server: set<Update>, run: seq<Event>, a: Source)
    requires Possible(Start(server), run)
    ensures var s := After(Start(server), run);
      s.Promised(a) <= s.server + s.Stored(a)
  {
    RunKeeps(Start(server), run);
    assert PromiseKept(After(Start(server), run), a);
  }

  /** A tab that reopens after a crash has every promise of its source in its document once it has connected. */
  lemma ReopenedTabHasPromises(server: set<Update>, run: seq<Event>, a: Source, view: map<Source, Generation>)
    requires Possible(Start(server), run)
    requires Enabled(Next(After(Start(server), run), Opens(a)), Connects(a, view))
    ensures var t := Next(Next(After(Start(server), run), Opens(a)), Connects(a, view));
      t.Promised(a) <= t.server + t.sessions[a].live
  {
    var s := After(Start(server), run);
    RunKeeps(Start(server), run);
    StepKeeps(s, Opens(a));
    var t := Next(s, Opens(a));
    StepKeeps(t, Connects(a, view));
    assert SessionSafe(Next(t, Connects(a, view)), a);
  }

  /** Counting is sound: with nothing counted and nothing to resend, the server has the whole live document. */
  lemma NothingPendingMeansSaved(server: set<Update>, run: seq<Event>, a: Source)
    requires Possible(Start(server), run)
    ensures var s := After(Start(server), run);
      a in s.sessions && s.sessions[a].pending == 0 && !s.sessions[a].needsRecovery ==>
        s.sessions[a].live <= s.server
  {
    var s := After(Start(server), run);
    RunKeeps(Start(server), run);
    assert SessionSafe(s, a);
    if a in s.sessions && s.sessions[a].pending == 0 {
      assert Carried(s.sessions[a].inFlight) == {};
    }
  }

  // ----- the session object -----

  /** The counters and flags of a page session, updated by its socket and mutation handlers. */
  class PageSession {
    var live: set<Update>
    var stage: set<Update>
    var prepared: nat
    var phase: Phase
    var connected: bool
    var synced: bool
    var inFlight: seq<Message>
    var pendingLocalUpdates: nat
    var startupUpdatePending: bool
    var needsRecovery: bool
    var recoveryLoaded: bool
    var epochKnown: bool
    var currentGeneration: Option<Generation>
    var recovered: set<Entry>
    var cleanup: set<Entry>

    ghost function View(): Session
      reads this
    {
      Session(live, stage, prepared, phase, connected, synced, inFlight, pendingLocalUpdates,
              startupUpdatePending, needsRecovery, recoveryLoaded, epochKnown, currentGeneration, recovered, cleanup)
    }

    constructor ()
      ensures View() == FRESH
    {
      live, stage, prepared, phase := {}, {}, 0, Idle;
      connected, synced, inFlight, pendingLocalUpdates := false, false, [], 0;
      startupUpdatePending, needsRecovery, recoveryLoaded, epochKnown := false, false, false, false;
      currentGeneration, recovered, cleanup := None, {}, {};
    }

    method HandleSocketClose()
      modifies this
      ensures View() == Disconnected(old(View()))
    {
      connected, synced, inFlight := false, false, [];
      if pendingLocalUpdates > 0 || startupUpdatePending {
        needsRecovery := true;
        pendingLocalUpdates := 0;
        startupUpdatePending := false;
      }
    }

    /** `queues` is whether the socket is open and accepts the message; if it does not accept it, it is asked to close. */
    method SendDocumentUpdate(content: set<Update>, queues: bool) returns (sent: bool)
      modifies this
      ensures View() == SendUpdate(old(View()), content, queues)
      ensures sent <==> old(synced) && queues
    {
      if !synced {
        needsRecovery := true;
        return false;
      }
      pendingLocalUpdates := pendingLocalUpdates + 1;
      if queues {
        inFlight := inFlight + [Message(content, false, false)];
        return true;
      }
      pendingLocalUpdates := pendingLocalUpdates - 1;
      needsRecovery := true;
      return false;
    }

    /** initializeFromPage: only a page without recovered records and with an empty document is filled. */
    method InitializeFromPage(page: set<Update>)
      modifies this`live
      ensures live == if old(recovered) == {} && old(live) == {} then page else old(live)
    {
      if recovered != {} || live != {} { return; }
      live := page;
    }

    method SendFullState(queues: bool)
      requires synced
      modifies this
      ensures View() == SendUpdate(old(View()), live, queues).(startupPending := queues, needsRecovery := !queues)
      ensures queues ==> inFlight == old(inFlight) + [Message(live, false, false)]
    {
      var sent := SendDocumentUpdate(live, queues);
      startupUpdatePending := sent;
      if sent { needsRecovery := false; }
    }

    method HandleSyncComplete(bootstrap: Option<set<Update>>, queues: bool)
      modifies this
      ensures View() == Synchronized(old(View()), bootstrap, queues)
      ensures live == if bootstrap.Some? && old(recovered) == {} && old(live) == {} then bootstrap.value else old(live)
      ensures (bootstrap.Some? || old(needsRecovery)) && queues ==> inFlight == old(inFlight) + [Message(live, false, false)]
      ensures needsRecovery <==> (bootstrap.Some? || old(needsRecovery)) && !queues
    {
      synced := true;
      var mustSendFullState := bootstrap.Some? || needsRecovery;
      if bootstrap.Some? { InitializeFromPage(bootstrap.value); }
      if mustSendFullState {
        SendFullState(queues);
      } else if pendingLocalUpdates > 0 {
        startupUpdatePending := true;
      }
    }

    method HandleUpdateAck()
      requires inFlight != []
      modifies this
      ensures View() == AckReceived(old(View()))
    {
      inFlight := inFlight[1..];
      if pendingLocalUpdates > 0 { pendingLocalUpdates := pendingLocalUpdates - 1; }
      if pendingLocalUpdates == 0 && startupUpdatePending && !needsRecovery {
        startupUpdatePending := false;
      }
    }

    /** The last steps of commitLocalMutation: the durable update becomes live, then is sent. */
    method ApplyPrepared(queues: bool)
      requires phase.Durable?
      modifies this
      ensures View() == SendUpdate(old(View()).(live := old(live) + {old(phase).update}),
                                   {old(phase).update}, queues).(phase := Applied)
    {
      var update := phase.update;
      live := live + {update};
      var sent := SendDocumentUpdate({update}, queues);
      phase := Applied;
    }

    /** clearLocalRecovery captures exact generations, and only when nothing is outstanding. */
    method MaybeClearLocalRecovery(source: Source) returns (cleared: bool)
      modifies this`cleanup
      ensures cleared == MayClear(old(View()))
      ensures cleanup == if cleared then old(cleanup) + OwnEntry(source, old(View())) + recovered else old(cleanup)
    {
      cleared := pendingLocalUpdates == 0 && prepared == 0 && !needsRecovery;
      if cleared {
        var own := if currentGeneration.Some? then {Entry(source, currentGeneration.value)} else {};
        cleanup := cleanup + own + recovered;
      }
    }
  }
}

/** The server actor, its forwarder and watcher tasks and the sessions they
    serve, as one transition system: src/server.rs 116-247 and 395-403 with
    src/session.rs 86-110.

    A run is a sequence of events in any interleaving.  `C` is the type of the
    calls sent to the server.  Handlers have a beginning (`TakeConnection`,
    `TakeDisconnect`, `TakeServerCall`) and an end (`ConnectAccepts`,
    `ConnectRefuses`, `HandlerReturns`), between which everything else moves. */
module ServerSpec {
  import opened Wire
  import S = SessionSpec

  /** The task spawned for an accepted session: it first spawns the watcher,
      then awaits the session's end, then reports it. */
  datatype Forwarder = Spawned | Awaiting | Done

  /** `watch_for_shutdown`: `seen` is the version of the watch channel that the
      receiver last marked as seen. */
  datatype Watcher = Unspawned | Checking(seen: nat) | Parked(seen: nat) | Fired | Halted

  datatype Live = Live(
    id: nat,
    actor: S.Actor,
    forwarder: Forwarder,
    watcher: Watcher,
    subscribed: nat,           // the version when the server subscribed for it
    aborted: bool)             // close_task.abort() was called

  datatype Note = Note(token: nat, result: S.CloseResult)

  datatype Farewell = Farewell(conn: nat, frame: Option<CloseFrame>)

  datatype Job<C> = Connecting(conn: nat) | Disconnecting(note: Note) | Calling(call: C)

  datatype Mode<C> = Idle | Busy(job: Job<C>) | Exited | Aborted

  datatype Answer = Waiting | Okay | ServerStopped

  datatype System<C> = System(
    // the actor's variables
    mode: Mode<C>,
    active: nat,
    shuttingDown: bool,
    acks: seq<nat>,
    version: nat,              // of the watch channel; its value is `version != 0`
    // the actor's queues
    shutdownQ: seq<nat>,
    connQ: seq<nat>,
    disconnectQ: seq<Note>,
    callQ: seq<C>,
    // the rest of the system; a session's token is its position, in order of acceptance
    sessions: seq<Live>,
    callers: seq<Answer>,      // one entry for each call of graceful_shutdown
    // history
    arrived: seq<nat>,         // connections the queue accepted
    reported: seq<Note>,       // disconnects the queue accepted, in the order of the reports
    received: nat,             // shutdown requests the actor took
    connects: seq<nat>,        // arguments of on_connect
    given: seq<Note>,          // arguments of on_disconnect
    called: seq<C>,            // arguments of on_call
    taken: seq<nat>,           // connections taken from the queue
    sent: seq<Farewell>)       // Close frames sent to sockets that got no session

  datatype Event<C> =
    // environment
    | RequestShutdown
    | AcceptSocket(conn: nat)
    | PushServerCall(call: C)
    | DropRequest              // the dead actor's queue is destroyed, entry by entry
    // tasks
    | Session(i: nat, e: S.Event)
    | WatcherMoves(i: nat)
    | WatcherCancelled(i: nat)
    | ForwarderMoves(i: nat)
    // the server actor
    | TakeShutdown
    | TakeConnection
    | TakeDisconnect
    | TakeServerCall
    | ConnectAccepts(id: nat, early: seq<S.Event>)   // `early`: what the new session did meanwhile
    | ConnectRefuses(frame: Option<CloseFrame>)
    | HandlerReturns(ok: bool)
    | Exit
    | Abort                    // a handler panicked or the task was aborted

  function Start<C>(): System<C> {
    System(Idle, 0, false, [], 0, [], [], [], [], [], [], [], [], 0, [], [], [], [], [])
  }

  predicate Stopped<C>(s: System<C>) {
    s.mode.Exited? || s.mode.Aborted?
  }

  /** The header of the loop lets the actor through to its `select!`. */
  predicate Selecting<C>(s: System<C>) {
    s.mode.Idle? && !(s.shuttingDown && s.active == 0)
  }

  predicate Enabled<C>(s: System<C>, e: Event<C>) {
    match e
    case RequestShutdown => true
    case AcceptSocket(_) => true
    case PushServerCall(_) => true
    case DropRequest => Stopped(s) && |s.shutdownQ| > 0
    case Session(i, se) => i < |s.sessions| && S.Enabled(s.sessions[i].actor, se)
    case WatcherMoves(i) => i < |s.sessions| && WatcherReady(s, s.sessions[i].watcher)
    case WatcherCancelled(i) =>
      i < |s.sessions| && s.sessions[i].aborted && (s.sessions[i].watcher.Checking? || s.sessions[i].watcher.Parked?)
    case ForwarderMoves(i) => i < |s.sessions| && ForwarderReady(s.sessions[i])
    case TakeShutdown => Selecting(s) && |s.shutdownQ| > 0
    case TakeConnection => Selecting(s) && |s.connQ| > 0
    case TakeDisconnect => Selecting(s) && |s.disconnectQ| > 0
    case TakeServerCall => Selecting(s) && |s.callQ| > 0 && !s.shuttingDown
    case ConnectAccepts(_, early) => s.mode.Busy? && s.mode.job.Connecting? && S.After(early).Some?
    case ConnectRefuses(_) => s.mode.Busy? && s.mode.job.Connecting?
    case HandlerReturns(_) => s.mode.Busy? && !s.mode.job.Connecting?
    case Exit => s.mode.Idle? && s.shuttingDown && s.active == 0
    case Abort => !Stopped(s)
  }

  predicate WatcherReady<C>(s: System<C>, w: Watcher) {
    w.Checking? || (w.Parked? && (w.seen != s.version || Stopped(s)))
  }

  predicate ForwarderReady(l: Live) {
    l.forwarder.Spawned? || (l.forwarder.Awaiting? && !S.Unfinished(l.actor))
  }

  const GOING_DOWN := S.Submit(Close(Some(SERVER_GOING_DOWN)))

  /** One turn of `watch_for_shutdown` (src/server.rs 229-247). */
  function Watched<C>(s: System<C>, l: Live): Live
    requires WatcherReady(s, l.watcher)
  {
    match l.watcher
    case Checking(seen) =>
      if s.version != 0 then l.(watcher := Fired, actor := S.Apply(l.actor, GOING_DOWN))
      else l.(watcher := Parked(seen))
    case Parked(seen) =>
      if seen != s.version then l.(watcher := Checking(s.version))
      else l.(watcher := Halted)   // every sender is gone
  }

  function Answers(callers: seq<Answer>, who: seq<nat>, a: Answer): (r: seq<Answer>)
    ensures |r| == |callers|
    ensures forall c | 0 <= c < |r| :: r[c] == if c in who then a else callers[c]
  {
    seq(|callers|, c requires 0 <= c < |callers| => if c in who then a else callers[c])
  }

  // ----- The effect of each event -----

  function Requested<C>(s: System<C>): System<C> {
    if Stopped(s) then s.(callers := s.callers + [ServerStopped])
    else s.(callers := s.callers + [Waiting], shutdownQ := s.shutdownQ + [|s.callers|])
  }

  function SocketQueued<C>(s: System<C>, conn: nat): System<C> {
    if Stopped(s) then s else s.(connQ := s.connQ + [conn], arrived := s.arrived + [conn])
  }

  function CallQueued<C>(s: System<C>, call: C): System<C> {
    if Stopped(s) then s else s.(callQ := s.callQ + [call])
  }

  function RequestDropped<C>(s: System<C>): System<C>
    requires |s.shutdownQ| > 0
  {
    s.(shutdownQ := s.shutdownQ[1..], callers := Answers(s.callers, [s.shutdownQ[0]], ServerStopped))
  }

  function SessionMoved<C>(s: System<C>, i: nat, se: S.Event): System<C>
    requires i < |s.sessions| && S.Enabled(s.sessions[i].actor, se)
  {
    var l := s.sessions[i];
    s.(sessions := s.sessions[i := l.(actor := S.Apply(l.actor, se))])
  }

  function Queued<C>(s: System<C>, n: Note): System<C> {
    s.(disconnectQ := s.disconnectQ + [n], reported := s.reported + [n])
  }

  /** The forwarder spawns the watcher, or reports the end of its session. */
  function Forwarded<C>(s: System<C>, i: nat): System<C>
    requires i < |s.sessions| && ForwarderReady(s.sessions[i])
  {
    var l := s.sessions[i];
    if l.forwarder.Spawned? then
      s.(sessions := s.sessions[i := l.(forwarder := Awaiting, watcher := Checking(l.subscribed))])
    else
      var t := s.(sessions := s.sessions[i := l.(forwarder := Done, aborted := true)]);
      if Stopped(s) then t else Queued(t, Note(i, S.Outcome(l.actor)))
  }

  function ShutdownTaken<C>(s: System<C>): System<C>
    requires |s.shutdownQ| > 0
  {
    var t := s.(shutdownQ := s.shutdownQ[1..], acks := s.acks + [s.shutdownQ[0]], received := s.received + 1);
    if s.shuttingDown then t else t.(shuttingDown := true, version := s.version + 1)
  }

  function ConnectionTaken<C>(s: System<C>): System<C>
    requires |s.connQ| > 0
  {
    var t := s.(connQ := s.connQ[1..], taken := s.taken + [s.connQ[0]]);
    if s.shuttingDown then t.(sent := s.sent + [Farewell(s.connQ[0], Some(SERVER_GOING_DOWN))])
    else t.(mode := Busy(Connecting(s.connQ[0])), connects := s.connects + [s.connQ[0]])
  }

  function DisconnectTaken<C>(s: System<C>): System<C>
    requires |s.disconnectQ| > 0
  {
    s.(disconnectQ := s.disconnectQ[1..], mode := Busy(Disconnecting(s.disconnectQ[0])),
       active := if s.active == 0 then 0 else s.active - 1,   // saturating_sub
       given := s.given + [s.disconnectQ[0]])
  }

  function CallTaken<C>(s: System<C>): System<C>
    requires |s.callQ| > 0
  {
    s.(callQ := s.callQ[1..], mode := Busy(Calling(s.callQ[0])), called := s.called + [s.callQ[0]])
  }

  function SessionAccepted<C>(s: System<C>, id: nat, early: seq<S.Event>): System<C>
    requires S.After(early).Some?
  {
    s.(mode := Idle, active := s.active + 1,
       sessions := s.sessions + [Live(id, S.After(early).value, Spawned, Unspawned, s.version, false)])
  }

  function Left<C>(s: System<C>, how: Mode<C>, a: Answer): System<C> {
    s.(mode := how, acks := [], callers := Answers(s.callers, s.acks, a))
  }

  function Apply<C>(s: System<C>, e: Event<C>): System<C>
    requires Enabled(s, e)
  {
    match e
    case RequestShutdown => Requested(s)
    case AcceptSocket(conn) => SocketQueued(s, conn)
    case PushServerCall(call) => CallQueued(s, call)
    case DropRequest => RequestDropped(s)
    case Session(i, se) => SessionMoved(s, i, se)
    case WatcherMoves(i) => s.(sessions := s.sessions[i := Watched(s, s.sessions[i])])
    case WatcherCancelled(i) => s.(sessions := s.sessions[i := s.sessions[i].(watcher := Halted)])
    case ForwarderMoves(i) => Forwarded(s, i)
    case TakeShutdown => ShutdownTaken(s)
    case TakeConnection => ConnectionTaken(s)
    case TakeDisconnect => DisconnectTaken(s)
    case TakeServerCall => CallTaken(s)
    case ConnectAccepts(id, early) => SessionAccepted(s, id, early)
    case ConnectRefuses(frame) => s.(mode := Idle, sent := s.sent + [Farewell(s.mode.job.conn, frame)])
    case HandlerReturns(_) => s.(mode := Idle)   // an error is logged, nothing else
    case Exit => Left(s, Exited, Okay)
    case Abort => Left(s, Aborted, ServerStopped)
  }

  function From<C>(s: System<C>, es: seq<Event<C>>): Option<System<C>> {
    if es == [] then Some(s) else
      var before := From(s, es[..|es| - 1]);
      var e := es[|es| - 1];
      if before.Some? && Enabled(before.value, e) then Some(Apply(before.value, e)) else None
  }

  function After<C>(es: seq<Event<C>>): Option<System<C>> {
    From(Start(), es)
  }

  lemma Extend<C>(s: System<C>, es: seq<Event<C>>, e: Event<C>)
    requires From(s, es).Some? && Enabled(From(s, es).value, e)
    ensures From(s, es + [e]) == Some(Apply(From(s, es).value, e))
  {
    assert (es + [e])[..|es|] == es;
  }

  // ----- Sums over the sessions -----

  function Sum(w: Live -> nat, ls: seq<Live>): nat {
    if ls == [] then 0 else Sum(w, ls[..|ls| - 1]) + w(ls[|ls| - 1])
  }

  lemma {:induction false} SumUpdate(w: Live -> nat, ls: seq<Live>, i: nat, l: Live)
    requires i < |ls|
    ensures Sum(w, ls[i := l]) + w(ls[i]) == Sum(w, ls) + w(l)
  {
    var n := |ls| - 1;
    if i == n {
      assert ls[i := l][..n] == ls[..n];
    } else {
      assert ls[i := l][..n] == ls[..n][i := l];
      SumUpdate(w, ls[..n], i, l);
    }
  }

  lemma SumAppend(w: Live -> nat, ls: seq<Live>, l: Live)
    ensures Sum(w, ls + [l]) == Sum(w, ls) + w(l)
  {
    assert (ls + [l])[..|ls|] == ls;
  }

  function Reported(l: Live): nat {
    if l.forwarder.Done? then 1 else 0
  }

  lemma {:induction false} ReportedAtMost(ls: seq<Live>)
    ensures Sum(Reported, ls) <= |ls|
    ensures Sum(Reported, ls) == |ls| ==> forall i | 0 <= i < |ls| :: ls[i].forwarder.Done?
  {
    if ls != [] {
      var n := |ls| - 1;
      ReportedAtMost(ls[..n]);
      forall i | 0 <= i < |ls| && Sum(Reported, ls) == |ls| ensures ls[i].forwarder.Done? {
        if i < n { assert ls[i] == ls[..n][i]; }
      }
    }
  }

  // ----- The invariant -----

  /** Every note, in the queue or already given, belongs to one reported session. */
  predicate NotesInv(sessions: seq<Live>, notes: seq<Note>) {
    && (forall k | 0 <= k < |notes| ::
          && notes[k].token < |sessions|
          && sessions[notes[k].token].forwarder.Done?
          && !S.Unfinished(sessions[notes[k].token].actor)
          && notes[k].result == S.Outcome(sessions[notes[k].token].actor))
    && (forall j, k | 0 <= j < k < |notes| :: notes[j].token != notes[k].token)
    && (forall i | 0 <= i < |sessions| && sessions[i].forwarder.Done? :: Noted(notes, i))
    && |notes| == Sum(Reported, sessions)
  }

  predicate Noted(notes: seq<Note>, i: nat) {
    exists k | 0 <= k < |notes| :: notes[k].token == i
  }

  predicate LiveInv(l: Live, version: nat) {
    && (l.watcher.Unspawned? <==> l.forwarder.Spawned?)
    && l.subscribed == 0
    && (l.watcher.Checking? ==> l.watcher.seen <= version)
    && (l.watcher.Parked? ==> l.watcher.seen == 0)
    && (l.aborted <==> l.forwarder.Done?)
    && (l.watcher.Halted? ==> l.aborted)
    && (l.forwarder.Done? ==> !S.Unfinished(l.actor))
    && (l.watcher.Fired? && S.Unfinished(l.actor) ==> S.HasClose(l.actor.toSocket))
  }

  predicate CoreInv<C>(s: System<C>) {
    && |s.sessions| == s.active + |s.given|
    && NotesInv(s.sessions, s.given + s.disconnectQ)
    && (forall i | 0 <= i < |s.sessions| :: LiveInv(s.sessions[i], s.version))
    && s.version == (if s.shuttingDown then 1 else 0)
    && (s.shuttingDown && s.mode.Busy? ==> s.mode.job.Disconnecting?)
    && (s.mode.Exited? ==> s.shuttingDown && s.active == 0)
  }

  /** While the actor runs, callers are numbered in the order they called and all wait. */
  predicate CallersRunning(callers: seq<Answer>, received: nat, acks: seq<nat>, queue: seq<nat>) {
    && |acks| == received
    && |callers| == received + |queue|
    && (forall k | 0 <= k < |acks| :: acks[k] == k)
    && (forall k | 0 <= k < |queue| :: queue[k] == received + k)
    && (forall c | 0 <= c < |callers| :: callers[c].Waiting?)
  }

  /** Afterwards the received requests have the actor's last answer; of the
      others exactly those still in the queue wait. */
  predicate CallersStopped(callers: seq<Answer>, received: nat, queue: seq<nat>, last: Answer) {
    && received <= |callers|
    && !last.Waiting?
    && (forall c | 0 <= c < received :: callers[c] == last)
    && (forall k | 0 <= k < |queue| :: received <= queue[k] < |callers|)
    && (forall j, k | 0 <= j < k < |queue| :: queue[j] < queue[k])
    && (forall c | received <= c < |callers| :: callers[c] == if c in queue then Waiting else ServerStopped)
  }

  predicate CallersInv<C>(s: System<C>) {
    if Stopped(s)
    then && |s.acks| == 0
         && CallersStopped(s.callers, s.received, s.shutdownQ, if s.mode.Exited? then Okay else ServerStopped)
    else CallersRunning(s.callers, s.received, s.acks, s.shutdownQ)
  }

  predicate Inv<C>(s: System<C>) {
    CallersInv(s) && (!s.mode.Aborted? ==> CoreInv(s))
  }

  // ----- Every step keeps it -----

  lemma CallersLeave(callers: seq<Answer>, received: nat, acks: seq<nat>, queue: seq<nat>, last: Answer)
    requires CallersRunning(callers, received, acks, queue) && !last.Waiting?
    ensures CallersStopped(Answers(callers, acks, last), received, queue, last)
  {
    forall c | 0 <= c < |callers| ensures (c in acks <==> c < received) && (c in queue <==> received <= c) {
      if c < received { assert acks[c] == c; } else { assert queue[c - received] == c; }
    }
  }

  lemma CallersDrop(callers: seq<Answer>, received: nat, queue: seq<nat>, last: Answer)
    requires CallersStopped(callers, received, queue, last) && |queue| > 0
    ensures CallersStopped(Answers(callers, [queue[0]], ServerStopped), received, queue[1..], last)
  {
    assert queue == [queue[0]] + queue[1..];
    assert queue[0] !in queue[1..];
  }

  lemma CallersAsk<C>(s: System<C>)
    requires CallersInv(s)
    ensures CallersInv(Apply(s, RequestShutdown))
  {
    if Stopped(s) {
      assert |s.callers| !in s.shutdownQ;
    }
  }

  lemma CallersReceived<C>(s: System<C>)
    requires CallersInv(s) && Enabled(s, TakeShutdown)
    ensures CallersInv(Apply(s, TakeShutdown))
  {
    var t := Apply(s, TakeShutdown);
    forall k | 0 <= k < |t.acks| ensures t.acks[k] == k {
      assert k == |s.acks| ==> t.acks[k] == s.shutdownQ[0];
    }
    forall k | 0 <= k < |t.shutdownQ| ensures t.shutdownQ[k] == t.received + k {
      assert t.shutdownQ[k] == s.shutdownQ[k + 1];
    }
  }

  lemma CallersSame<C>(s: System<C>, t: System<C>)
    requires CallersInv(s) && t.callers == s.callers && t.received == s.received && t.acks == s.acks
    requires t.shutdownQ == s.shutdownQ && Stopped(t) == Stopped(s) && t.mode.Exited? == s.mode.Exited?
    ensures CallersInv(t)
  {
  }

  lemma CallersStep<C>(s: System<C>, e: Event<C>)
    requires CallersInv(s) && Enabled(s, e)
    ensures CallersInv(Apply(s, e))
  {
    match e {
      case RequestShutdown => CallersAsk(s);
      case TakeShutdown => CallersReceived(s);
      case Exit => CallersLeave(s.callers, s.received, s.acks, s.shutdownQ, Okay);
      case Abort => CallersLeave(s.callers, s.received, s.acks, s.shutdownQ, ServerStopped);
      case DropRequest =>
        CallersDrop(s.callers, s.received, s.shutdownQ, if s.mode.Exited? then Okay else ServerStopped);
      case _ => CallersSame(s, Apply(s, e));
    }
  }

  lemma SessionMoveKeeps(l: Live, se: S.Event, version: nat)
    requires LiveInv(l, version) && S.Enabled(l.actor, se)
    ensures LiveInv(l.(actor := S.Apply(l.actor, se)), version)
    ensures !S.Unfinished(l.actor) ==>
              !S.Unfinished(S.Apply(l.actor, se)) && S.Outcome(S.Apply(l.actor, se)) == S.Outcome(l.actor)
  {
    if l.watcher.Fired? { S.WorkStep(l.actor, se); }
  }

  lemma WatcherMoveKeeps<C>(s: System<C>, l: Live)
    requires LiveInv(l, s.version) && s.version <= 1 && WatcherReady(s, l.watcher)
    requires Stopped(s) ==> !S.Unfinished(l.actor) && l.aborted
    ensures LiveInv(Watched(s, l), s.version)
    ensures !S.Unfinished(l.actor) ==> Watched(s, l).actor == l.actor
  {
    if l.watcher.Checking? && S.Unfinished(l.actor) {
      var q := l.actor.toSocket;
      assert (q + [GOING_DOWN.message])[|q|].Close?;
    }
  }

  /** Replacing one session by a later stage of itself keeps the notes in order. */
  lemma NotesUpdate(sessions: seq<Live>, notes: seq<Note>, i: nat, l: Live)
    requires NotesInv(sessions, notes) && i < |sessions|
    requires l.forwarder.Done? <==> sessions[i].forwarder.Done?
    requires !S.Unfinished(sessions[i].actor) ==>
               !S.Unfinished(l.actor) && S.Outcome(l.actor) == S.Outcome(sessions[i].actor)
    ensures NotesInv(sessions[i := l], notes)
  {
    SumUpdate(Reported, sessions, i, l);
  }

  lemma NotesReport(sessions: seq<Live>, notes: seq<Note>, i: nat, l: Live)
    requires NotesInv(sessions, notes) && i < |sessions|
    requires !sessions[i].forwarder.Done? && l.forwarder.Done? && !S.Unfinished(l.actor)
    ensures NotesInv(sessions[i := l], notes + [Note(i, S.Outcome(l.actor))])
  {
    SumUpdate(Reported, sessions, i, l);
    var longer := notes + [Note(i, S.Outcome(l.actor))];
    forall j | 0 <= j < |sessions| && sessions[i := l][j].forwarder.Done? ensures Noted(longer, j) {
      if j == i {
        assert longer[|notes|].token == i;
      } else {
        var k :| 0 <= k < |notes| && notes[k].token == j;
        assert longer[k].token == j;
      }
    }
  }

  lemma NotesAccept(sessions: seq<Live>, notes: seq<Note>, l: Live)
    requires NotesInv(sessions, notes) && l.forwarder.Spawned?
    ensures NotesInv(sessions + [l], notes)
  {
    SumAppend(Reported, sessions, l);
  }

  /** When the actor has left its loop by itself, every session is finished and reported. */
  lemma NothingLeft<C>(s: System<C>)
    requires CoreInv(s) && s.active == 0
    ensures |s.disconnectQ| == 0
    ensures forall i | 0 <= i < |s.sessions| ::
              s.sessions[i].forwarder.Done? && !S.Unfinished(s.sessions[i].actor) && s.sessions[i].aborted
  {
    ReportedAtMost(s.sessions);
  }

  lemma ReportKeeps<C>(s: System<C>, i: nat)
    requires CoreInv(s) && !Stopped(s) && Enabled(s, ForwarderMoves(i)) && s.sessions[i].forwarder.Awaiting?
    ensures CoreInv(Apply(s, ForwarderMoves(i)))
  {
    var l := s.sessions[i].(forwarder := Done, aborted := true);
    var n := Note(i, S.Outcome(l.actor));
    NotesReport(s.sessions, s.given + s.disconnectQ, i, l);
    assert s.given + (s.disconnectQ + [n]) == s.given + s.disconnectQ + [n];
  }

  /** A task's move that changes one session and reports nothing. */
  lemma LocalKeeps<C>(s: System<C>, t: System<C>, i: nat, l: Live)
    requires CoreInv(s) && i < |s.sessions| && t == s.(sessions := s.sessions[i := l])
    requires LiveInv(l, s.version)
    requires l.forwarder.Done? <==> s.sessions[i].forwarder.Done?
    requires !S.Unfinished(s.sessions[i].actor) ==>
               !S.Unfinished(l.actor) && S.Outcome(l.actor) == S.Outcome(s.sessions[i].actor)
    ensures CoreInv(t)
  {
    NotesUpdate(s.sessions, s.given + s.disconnectQ, i, l);
  }

  lemma TaskStep<C>(s: System<C>, e: Event<C>)
    requires CoreInv(s) && !s.mode.Aborted? && Enabled(s, e)
    requires e.Session? || e.WatcherMoves? || e.WatcherCancelled? || e.ForwarderMoves?
    ensures CoreInv(Apply(s, e))
  {
    if s.mode.Exited? {
      NothingLeft(s);
      assert s.sessions[e.i].forwarder.Done?;
    }
    var l := s.sessions[e.i];
    match e {
      case Session(i, se) =>
        SessionMoveKeeps(l, se, s.version);
        LocalKeeps(s, Apply(s, e), i, l.(actor := S.Apply(l.actor, se)));
      case WatcherMoves(i) =>
        WatcherMoveKeeps(s, l);
        LocalKeeps(s, Apply(s, e), i, Watched(s, l));
      case WatcherCancelled(i) => LocalKeeps(s, Apply(s, e), i, l.(watcher := Halted));
      case ForwarderMoves(i) =>
        if l.forwarder.Spawned? {
          LocalKeeps(s, Apply(s, e), i, l.(forwarder := Awaiting, watcher := Checking(l.subscribed)));
        } else {
          ReportKeeps(s, i);
        }
    }
  }

  lemma TakeDisconnectKeeps<C>(s: System<C>)
    requires CoreInv(s) && Enabled(s, TakeDisconnect)
    ensures CoreInv(Apply(s, TakeDisconnect))
  {
    CounterPositive(s);
    assert (s.given + [s.disconnectQ[0]]) + s.disconnectQ[1..] == s.given + s.disconnectQ;
  }

  lemma AcceptKeeps<C>(s: System<C>, id: nat, early: seq<S.Event>)
    requires CoreInv(s) && Enabled(s, ConnectAccepts(id, early))
    ensures CoreInv(Apply(s, ConnectAccepts(id, early)))
  {
    var l := Live(id, S.After(early).value, Spawned, Unspawned, s.version, false);
    assert LiveInv(l, s.version);
    NotesAccept(s.sessions, s.given + s.disconnectQ, l);
  }

  lemma ActorStep<C>(s: System<C>, e: Event<C>)
    requires CoreInv(s) && Enabled(s, e)
    requires !(e.Session? || e.WatcherMoves? || e.WatcherCancelled? || e.ForwarderMoves? || e.Abort?)
    ensures CoreInv(Apply(s, e))
  {
    match e {
      case TakeDisconnect => TakeDisconnectKeeps(s);
      case ConnectAccepts(id, early) => AcceptKeeps(s, id, early);
      case _ =>
    }
  }

  /** The counter is exact, so taking a queued disconnect never saturates. */
  lemma CounterPositive<C>(s: System<C>)
    requires CoreInv(s)
    ensures s.active + Sum(Reported, s.sessions) == |s.sessions| + |s.disconnectQ|
    ensures |s.disconnectQ| > 0 ==> s.active > 0
  {
    ReportedAtMost(s.sessions);
  }

  lemma Step<C>(s: System<C>, e: Event<C>)
    requires Inv(s) && Enabled(s, e)
    ensures Inv(Apply(s, e))
  {
    CallersStep(s, e);
    if !s.mode.Aborted? && !e.Abort? {
      if e.Session? || e.WatcherMoves? || e.WatcherCancelled? || e.ForwarderMoves? {
        TaskStep(s, e);
      } else {
        ActorStep(s, e);
      }
    }
  }

  lemma {:induction false} Always<C>(es: seq<Event<C>>)
    requires After(es).Some?
    ensures Inv(After(es).value)
  {
    if es != [] {
      Always(es[..|es| - 1]);
      Step(After(es[..|es| - 1]).value, es[|es| - 1]);
    }
  }
}

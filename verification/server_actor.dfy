/** `ServerActor::run` (src/server.rs 131-226) as a loop over mutable state.

    The object holds the actor's variables, its queues and what it shares with
    other tasks.  `history` is the run so far, and `Valid` says that the fields
    are exactly the state `ServerSpec` reaches by it, so every theorem about
    runs is a theorem about this code.  `Others` stands for all the tasks that
    move while the actor is suspended. */
module ServerActors {
  import opened Wire
  import S = SessionSpec
  import opened ServerSpec
  import ServerTheorems

  predicate Foreign<C>(e: Event<C>) {
    || e.RequestShutdown? || e.AcceptSocket? || e.PushServerCall?
    || e.Session? || e.WatcherMoves? || e.WatcherCancelled? || e.ForwarderMoves?
  }

  /** What the others can do to the actor: lengthen its queues, nothing more. */
  predicate OthersMoved<C(==)>(s: System<C>, t: System<C>) {
    && s.shutdownQ <= t.shutdownQ && s.connQ <= t.connQ && s.disconnectQ <= t.disconnectQ && s.callQ <= t.callQ
    && |t.sessions| == |s.sessions| && s.callers <= t.callers
    && t == s.(shutdownQ := t.shutdownQ, connQ := t.connQ, disconnectQ := t.disconnectQ, callQ := t.callQ,
               arrived := t.arrived, reported := t.reported,
               sessions := t.sessions, callers := t.callers)
  }

  lemma ForeignStep<C>(s: System<C>, e: Event<C>)
    requires Foreign(e) && Enabled(s, e) && !Stopped(s)
    ensures OthersMoved(s, Apply(s, e)) && !Take(e)
  {
  }

  lemma CountDownStep<C>(s: System<C>)
    requires Selecting(s) && |s.disconnectQ| > 0
    ensures Enabled(s, TakeDisconnect) && Apply(s, TakeDisconnect) == DisconnectTaken(s)
  {
  }

  lemma BeginConnectStep<C>(s: System<C>)
    requires Selecting(s) && |s.connQ| > 0
    ensures Enabled(s, TakeConnection) && Apply(s, TakeConnection) == ConnectionTaken(s)
  {
  }

  lemma ShutdownStep<C>(s: System<C>)
    requires Selecting(s) && |s.shutdownQ| > 0
    ensures Enabled(s, TakeShutdown) && Apply(s, TakeShutdown) == ShutdownTaken(s)
  {
  }

  lemma AcceptedStep<C>(s: System<C>, id: nat, early: seq<S.Event>)
    requires s.mode.Busy? && s.mode.job.Connecting? && S.After(early).Some?
    ensures Enabled(s, ConnectAccepts(id, early))
    ensures Apply(s, ConnectAccepts(id, early)) == SessionAccepted(s, id, early)
  {
  }

  lemma AcksKnown<C>(es: seq<Event<C>>)
    requires After(es).Some?
    ensures forall k | 0 <= k < |After(es).value.acks| :: After(es).value.acks[k] < |After(es).value.callers|
  {
    Always(es);
  }

  // ----- Nothing waits while the actor is granted turns -----

  datatype Branch = ShutdownRequests | NewConnections | Disconnects | ServerCalls

  /** The branches of the `select!` that can go ahead. */
  function Ready<C>(s: System<C>): set<Branch> {
    (if |s.shutdownQ| > 0 then {ShutdownRequests} else {})
    + (if |s.connQ| > 0 then {NewConnections} else {})
    + (if |s.disconnectQ| > 0 then {Disconnects} else {})
    + (if |s.callQ| > 0 && !s.shuttingDown then {ServerCalls} else {})
  }

  lemma NothingReady<C>(s: System<C>)
    requires Ready(s) == {}
    ensures s.shutdownQ == [] && s.connQ == [] && s.disconnectQ == [] && (s.callQ == [] || s.shuttingDown)
  {
  }

  predicate Take<C>(e: Event<C>) {
    e.TakeShutdown? || e.TakeConnection? || e.TakeDisconnect? || e.TakeServerCall?
  }

  function Takes<C>(es: seq<Event<C>>): nat {
    if es == [] then 0 else Takes(es[..|es| - 1]) + (if Take(es[|es| - 1]) then 1 else 0)
  }

  /** What waits for the actor, and is still to be served when it has become
      `down`, that is shutting down: calls are served only before that. */
  function Requests<C>(s: System<C>, down: bool): nat {
    |s.shutdownQ| + |s.connQ| + |s.disconnectQ| + (if down then 0 else |s.callQ|)
  }

  lemma RequestsStep<C>(s: System<C>, e: Event<C>, down: bool)
    requires Enabled(s, e)
    ensures (Stopped(s) ==> Stopped(Apply(s, e))) && (s.shuttingDown ==> Apply(s, e).shuttingDown)
    ensures var t, taken := Apply(s, e), if Take(e) then 1 else 0;
            !Stopped(s) && (t.shuttingDown ==> down) ==> Requests(t, down) + taken >= Requests(s, down)
  {
  }

  lemma {:induction false} RequestsAlong<C>(s: System<C>, es: seq<Event<C>>, down: bool)
    requires From(s, es).Some?
    ensures var t := From(s, es).value;
            && (s.shuttingDown ==> t.shuttingDown)
            && (!Stopped(t) ==> !Stopped(s))
            && (!Stopped(t) && (t.shuttingDown ==> down) ==> Takes(es) + Requests(t, down) >= Requests(s, down))
  {
    if es != [] {
      RequestsAlong(s, es[..|es| - 1], down);
      RequestsStep(From(s, es[..|es| - 1]).value, es[|es| - 1], down);
    }
  }

  lemma {:induction false} Resumed<C>(es: seq<Event<C>>, more: seq<Event<C>>)
    requires After(es + more).Some?
    ensures After(es).Some? && From(After(es).value, more) == After(es + more)
    ensures Takes(es + more) == Takes(es) + Takes(more)
  {
    if more == [] {
      assert es + more == es;
    } else {
      var shorter := more[..|more| - 1];
      assert (es + more)[..|es + more| - 1] == es + shorter;
      Resumed(es, shorter);
    }
  }

  /** A running actor none of whose branches is ready has served all that waited
      for it at any earlier moment, calls included unless it is shutting down. */
  lemma IdleMeansServed<C>(before: seq<Event<C>>, after: seq<Event<C>>)
    requires before <= after && After(after).Some? && !Stopped(After(after).value) && Ready(After(after).value) == {}
    ensures After(before).Some?
    ensures Takes(after) >= Takes(before) + Requests(After(before).value, After(after).value.shuttingDown)
  {
    var more := after[|before|..];
    assert before + more == after;
    Resumed(before, more);
    NothingReady(After(after).value);
    RequestsAlong(After(before).value, more, After(after).value.shuttingDown);
  }

  lemma FlagStays<C>(before: seq<Event<C>>, after: seq<Event<C>>)
    requires before <= after && After(after).Some?
    ensures After(before).Some? && (After(before).value.shuttingDown ==> After(after).value.shuttingDown)
  {
    var more := after[|before|..];
    assert before + more == after;
    Resumed(before, more);
    RequestsAlong(After(before).value, more, After(after).value.shuttingDown);
  }

  /** How on_connect ends; what the new session does meanwhile belongs to it. */
  datatype Reply = Accept(id: nat, early: seq<S.Event>) | Refuse(frame: Option<CloseFrame>)

  class ServerActor<C(==)> {
    const onConnect: nat -> Reply       // to the n-th call
    var activeSessions: nat
    var shuttingDown: bool
    var shutdownAcks: seq<nat>
    var shutdownSignal: nat
    var mode: Mode<C>

    var shutdownReceiver: seq<nat>
    var connectionReceiver: seq<nat>
    var disconnectionReceiver: seq<Note>
    var serverCallReceiver: seq<C>

    var sessions: seq<Live>
    var callers: seq<Answer>

    var arrived: seq<nat>
    var reported: seq<Note>
    var received: nat
    var connects: seq<nat>
    var given: seq<Note>
    var called: seq<C>
    var taken: seq<nat>
    var sent: seq<Farewell>

    ghost var history: seq<Event<C>>

    function View(): System<C>
      reads this
    {
      System(mode, activeSessions, shuttingDown, shutdownAcks, shutdownSignal,
             shutdownReceiver, connectionReceiver, disconnectionReceiver, serverCallReceiver,
             sessions, callers, arrived, reported, received, connects, given, called, taken, sent)
    }

    ghost predicate Valid()
      reads this
    {
      After(history) == Some(View())
    }

    /** `Server::create` (src/server.rs 296-322). */
    constructor (onConnect: nat -> Reply)
      ensures Valid() && View() == Start() && history == [] && this.onConnect == onConnect
    {
      this.onConnect := onConnect;
      activeSessions, shuttingDown, shutdownAcks, shutdownSignal, mode := 0, false, [], 0, Idle;
      shutdownReceiver, connectionReceiver, disconnectionReceiver, serverCallReceiver := [], [], [], [];
      sessions, callers := [], [];
      arrived, reported, received, connects, given, called, taken, sent := [], [], 0, [], [], [], [], [];
      history := [];
    }

    /** Records that the fields have just made the move `e` from the state `before`. */
    ghost method Record(before: System<C>, e: Event<C>)
      requires After(history) == Some(before) && Enabled(before, e) && View() == Apply(before, e)
      modifies this`history
      ensures Valid() && history == old(history) + [e]
      ensures Takes(history) == Takes(old(history)) + (if Take(e) then 1 else 0)
    {
      Extend(Start(), history, e);
      history := history + [e];
      assert history[..|history| - 1] == old(history);
    }

    /** Any number of moves of users, sessions, watchers and forwarders. */
    method Others()
      requires Valid() && !Stopped(View())
      modifies this
      ensures Valid() && old(history) <= history && Takes(history) == Takes(old(history))
      ensures OthersMoved(old(View()), View())
    {
      var moves: nat := *;
      while moves > 0
        invariant Valid() && old(history) <= history && Takes(history) == Takes(old(history)) && !Stopped(View())
        invariant OthersMoved(old(View()), View())
      {
        moves := moves - 1;
        var e: Event<C> := *;
        if Foreign(e) && Enabled(View(), e) {
          OneMove(e);
        }
      }
    }

    method OneMove(e: Event<C>)
      requires Valid() && !Stopped(View()) && Foreign(e) && Enabled(View(), e)
      modifies this
      ensures Valid() && history == old(history) + [e] && Takes(history) == Takes(old(history))
      ensures OthersMoved(old(View()), View())
    {
      hide Apply, Enabled;
      ghost var before := View();
      ForeignStep(before, e);
      var after := Apply(View(), e);
      shutdownReceiver, connectionReceiver := after.shutdownQ, after.connQ;
      disconnectionReceiver, serverCallReceiver := after.disconnectQ, after.callQ;
      sessions, callers, arrived, reported := after.sessions, after.callers, after.arrived, after.reported;
      Record(before, e);
    }

    /** The loop, for as many turns as the scheduler grants.  It ends early only
        through the loop header, and then every request taken so far has its Ok.
        A turn with a ready branch takes something: so much of what waited at the
        start as there were turns has been served, and unless it is shutting down
        that includes the calls. */
    method Run(turns: nat)
      requires Valid() && mode.Idle?
      modifies this
      ensures Valid() && old(history) <= history
      ensures mode.Idle? || ServerTheorems.Drained(View())
      ensures mode.Exited? ==>
                old(received) <= received <= |callers| && forall c | 0 <= c < received :: callers[c].Okay?
      ensures mode.Idle? ==> Served(turns)
      ensures old(shuttingDown) && old(activeSessions) == 0 && turns > 0 ==> mode.Exited?
    {
      var done := 0;
      while done < turns && mode.Idle?
        invariant 0 <= done <= turns
        invariant Valid() && old(history) <= history && old(received) <= received
        invariant mode.Idle? || ServerTheorems.Drained(View())
        invariant mode.Exited? ==> received <= |callers| && forall c | 0 <= c < received :: callers[c].Okay?
        invariant mode.Idle? ==> Served(done) && (done > 0 ==> !(old(shuttingDown) && old(activeSessions) == 0))
        invariant done == 0 ==> shuttingDown == old(shuttingDown) && activeSessions == old(activeSessions) && mode.Idle?
        decreases turns - done
      {
        ghost var before := history;
        Turn();
        FlagStays(before, history);
        if mode.Idle? && Ready(View()) == {} { IdleMeansServed(old(history), history); }
        done := done + 1;
      }
    }

    /** The loop header, then one branch that is ready. */
    method Turn()
      requires Valid() && mode.Idle?
      modifies this
      ensures Valid() && old(history) <= history && old(received) <= received
      ensures mode.Idle? || ServerTheorems.Drained(View())
      ensures mode.Exited? ==> received <= |callers| && forall c | 0 <= c < received :: callers[c].Okay?
      ensures old(shuttingDown) && old(activeSessions) == 0 ==> mode.Exited?
      ensures mode.Idle? ==> Takes(history) >= Takes(old(history))
      ensures mode.Idle? ==> Takes(history) == Takes(old(history)) + 1 || Ready(View()) == {}
    {
      Others();
      if shuttingDown && activeSessions == 0 {
        Leave();
      } else if Ready(View()) != {} {
        var branch :| branch in Ready(View());
        Serve(branch);
      }
    }

    twostate predicate Served(done: nat)
      reads this
    {
      || Takes(history) >= Takes(old(history)) + done
      || Takes(history) >= Takes(old(history)) + Requests(old(View()), shuttingDown)
    }

    /** The branch that `select!` has picked. */
    method Serve(branch: Branch)
      requires Valid() && Selecting(View()) && branch in Ready(View())
      modifies this
      ensures Valid() && mode.Idle? && old(history) <= history && old(received) <= received
      ensures Takes(history) == Takes(old(history)) + 1
    {
      match branch {
        case ShutdownRequests => OnShutdownRequest();
        case NewConnections => OnNewConnection();
        case Disconnects => OnDisconnected();
        case ServerCalls => OnServerCall();
      }
    }

    /** Lines 137-143: the acks are sent one by one, then the loop is left. */
    method Leave()
      requires Valid() && mode.Idle? && shuttingDown && activeSessions == 0
      modifies this
      ensures Valid() && history == old(history) + [Exit]
      ensures ServerTheorems.Drained(View()) && received == old(received)
      ensures received <= |callers| && forall c | 0 <= c < received :: callers[c].Okay?
    {
      SendAcks();
      ServerTheorems.ExitIsDrained(history);
      Always(history);
    }

    method SendAcks()
      requires Valid() && mode.Idle? && shuttingDown && activeSessions == 0
      modifies this
      ensures Valid() && history == old(history) + [Exit] && View() == Apply(old(View()), Exit)
    {
      ghost var before := View();
      AcksKnown(history);
      AnswerAll(shutdownAcks);
      shutdownAcks := [];
      mode := Exited;
      Record(before, Exit);
    }

    /** Every waiting ack gets its answer; the vector is emptied afterwards. */
    method AnswerAll(acks: seq<nat>)
      requires forall k | 0 <= k < |acks| :: acks[k] < |callers|
      modifies this`callers
      ensures callers == Answers(old(callers), acks, Okay)
    {
      var i := 0;
      while i < |acks|
        invariant 0 <= i <= |acks| && |callers| == |old(callers)|
        invariant callers == Answers(old(callers), acks[..i], Okay)
      {
        callers := callers[acks[i] := Okay];
        assert acks[..i + 1] == acks[..i] + [acks[i]];
        i := i + 1;
      }
      assert acks[..i] == acks;
    }

    /** Lines 146-161. */
    method OnShutdownRequest()
      requires Valid() && Selecting(View()) && |shutdownReceiver| > 0
      modifies this
      ensures Valid() && history == old(history) + [TakeShutdown] && Takes(history) == Takes(old(history)) + 1
      ensures View() == ShutdownTaken(old(View()))
    {
      hide Apply, Enabled;
      ghost var before := View();
      ShutdownStep(before);
      var ack := shutdownReceiver[0];
      shutdownReceiver := shutdownReceiver[1..];
      received := received + 1;
      BeginShutdown(ack);
      Record(before, TakeShutdown);
    }

    /** The flag goes up once, and only then are the watchers signalled. */
    method BeginShutdown(ack: nat)
      modifies this`shutdownAcks, this`shuttingDown, this`shutdownSignal
      ensures shutdownAcks == old(shutdownAcks) + [ack]
      ensures shuttingDown && shutdownSignal == old(shutdownSignal) + (if old(shuttingDown) then 0 else 1)
    {
      shutdownAcks := shutdownAcks + [ack];
      if !shuttingDown {
        shuttingDown := true;
        shutdownSignal := shutdownSignal + 1;
      }
    }

    /** Lines 162-203. */
    method OnNewConnection()
      requires Valid() && Selecting(View()) && |connectionReceiver| > 0
      modifies this
      ensures Valid() && mode.Idle? && old(history) <= history && received == old(received)
      ensures Takes(history) == Takes(old(history)) + 1
      ensures shuttingDown == old(shuttingDown) && taken == old(taken) + [old(connectionReceiver)[0]]
      ensures shuttingDown ==>
                && connects == old(connects) && |sessions| == |old(sessions)|
                && var away := CloseFrame(1001, "server shutting down");
                   sent == old(sent) + [Farewell(old(connectionReceiver)[0], Some(away))]
      ensures !shuttingDown ==>
                && connects == old(connects) + [old(connectionReceiver)[0]]
                && Answered(onConnect(|old(connects)|), old(connectionReceiver)[0])
    {
      hide Valid, Takes;
      var conn := connectionReceiver[0];
      if shuttingDown {
        Reject();
      } else {
        BeginConnect();
        Others();   // on_connect runs
        ConnectDone(conn);
      }
    }

    /** What an answer of on_connect does: a session is added and counted, or one
        Close is sent to the connection. */
    twostate predicate Answered(reply: Reply, conn: nat)
      reads this
    {
      match reply
      case Accept(id, _) =>
        && |sessions| == |old(sessions)| + 1 && sessions[|old(sessions)|].id == id
        && activeSessions == old(activeSessions) + 1 && sent == old(sent)
      case Refuse(frame) =>
        && |sessions| == |old(sessions)| && activeSessions == old(activeSessions)
        && sent == old(sent) + [Farewell(conn, frame)]
    }

    /** Lines 163-175. */
    method Reject()
      requires Valid() && Selecting(View()) && |connectionReceiver| > 0 && shuttingDown
      modifies this
      ensures Valid() && history == old(history) + [TakeConnection] && Takes(history) == Takes(old(history)) + 1
      ensures View() == Apply(old(View()), TakeConnection)
    {
      ghost var before := View();
      var conn := connectionReceiver[0];
      connectionReceiver := connectionReceiver[1..];
      taken := taken + [conn];
      sent := sent + [Farewell(conn, Some(SERVER_GOING_DOWN))];
      Record(before, TakeConnection);
    }

    method BeginConnect()
      requires Valid() && Selecting(View()) && |connectionReceiver| > 0 && !shuttingDown
      modifies this
      ensures Valid() && history == old(history) + [TakeConnection] && Takes(history) == Takes(old(history)) + 1
      ensures View() == Apply(old(View()), TakeConnection)
      ensures mode == Busy(Connecting(old(connectionReceiver)[0]))
    {
      hide Apply, Enabled;
      ghost var before := View();
      BeginConnectStep(before);
      var conn := connectionReceiver[0];
      connectionReceiver := connectionReceiver[1..];
      taken := taken + [conn];
      connects := connects + [conn];
      mode := Busy(Connecting(conn));
      Record(before, TakeConnection);
    }

    /** Lines 178-201: the session is counted and its forwarder spawned, or the
        refusal is sent to the socket. */
    method ConnectDone(conn: nat)
      requires Valid() && mode == Busy(Connecting(conn)) && connects != []
      modifies this
      ensures Valid() && mode.Idle? && old(history) <= history && Takes(history) == Takes(old(history))
      ensures View() == old(View()).(mode := Idle, active := activeSessions, sessions := sessions, sent := sent)
      ensures Answered(onConnect(|connects| - 1), conn)
    {
      hide Valid, Apply, Takes;
      match onConnect(|connects| - 1) {
        case Accept(id, early) => Accepted(id, if S.After(early).Some? then early else []);
        case Refuse(frame) => Refused(frame);
      }
    }

    /** Lines 196-201. */
    method Refused(frame: Option<CloseFrame>)
      requires Valid() && mode.Busy? && mode.job.Connecting?
      modifies this`mode, this`sent, this`history
      ensures Valid() && history == old(history) + [ConnectRefuses(frame)] && Takes(history) == Takes(old(history))
      ensures View() == old(View()).(mode := Idle, sent := old(sent) + [Farewell(old(mode).job.conn, frame)])
    {
      ghost var before := View();
      sent := sent + [Farewell(mode.job.conn, frame)];
      mode := Idle;
      Record(before, ConnectRefuses(frame));
    }

    method Accepted(id: nat, early: seq<S.Event>)
      requires Valid() && mode.Busy? && mode.job.Connecting? && S.After(early).Some?
      modifies this
      ensures Valid() && history == old(history) + [ConnectAccepts(id, early)] && Takes(history) == Takes(old(history))
      ensures View() == SessionAccepted(old(View()), id, early)
    {
      hide Apply, Enabled;
      ghost var before := View();
      AcceptedStep(before, id, early);
      mode := Idle;
      activeSessions := activeSessions + 1;
      sessions := sessions + [Live(id, S.After(early).value, Spawned, Unspawned, shutdownSignal, false)];
      Record(before, ConnectAccepts(id, early));
    }

    /** Lines 204-214: the count falls before the handler runs, and whatever the
        handler returns. */
    method OnDisconnected()
      requires Valid() && Selecting(View()) && |disconnectionReceiver| > 0
      modifies this
      ensures Valid() && mode.Idle? && old(history) <= history && received == old(received)
      ensures Takes(history) == Takes(old(history)) + 1
      ensures activeSessions == old(activeSessions) - 1
      ensures given == old(given) + [old(disconnectionReceiver)[0]]
      ensures |sessions| == |old(sessions)| && connects == old(connects) && called == old(called)
    {
      ServerTheorems.QueuedMeansActive(history);
      CountDown();
      Others();   // on_disconnect runs
      HandlerDone();
    }

    method CountDown()
      requires Valid() && Selecting(View()) && |disconnectionReceiver| > 0
      modifies this
      ensures Valid() && history == old(history) + [TakeDisconnect] && Takes(history) == Takes(old(history)) + 1
      ensures View() == Apply(old(View()), TakeDisconnect)
      ensures mode == Busy(Disconnecting(old(disconnectionReceiver)[0]))
    {
      hide Apply, Enabled;
      ghost var before := View();
      CountDownStep(before);
      var note := disconnectionReceiver[0];
      disconnectionReceiver := disconnectionReceiver[1..];
      activeSessions := if activeSessions == 0 then 0 else activeSessions - 1;
      given := given + [note];
      mode := Busy(Disconnecting(note));
      Record(before, TakeDisconnect);
    }

    /** A handler's error is only logged (lines 222-224). */
    method HandlerDone()
      requires Valid() && mode.Busy? && !mode.job.Connecting?
      modifies this`mode, this`history
      ensures Valid() && mode.Idle? && old(history) <= history && Takes(history) == Takes(old(history))
    {
      ghost var before := View();
      var ok: bool := *;
      mode := Idle;
      Record(before, HandlerReturns(ok));
    }

    /** Lines 215-217. */
    method OnServerCall()
      requires Valid() && Selecting(View()) && |serverCallReceiver| > 0 && !shuttingDown
      modifies this
      ensures Valid() && mode.Idle? && old(history) <= history && received == old(received)
      ensures Takes(history) == Takes(old(history)) + 1
      ensures called == old(called) + [old(serverCallReceiver)[0]]
      ensures activeSessions == old(activeSessions) && connects == old(connects) && given == old(given)
    {
      BeginCall();
      Others();   // on_call runs
      HandlerDone();
    }

    method BeginCall()
      requires Valid() && Selecting(View()) && |serverCallReceiver| > 0 && !shuttingDown
      modifies this
      ensures Valid() && history == old(history) + [TakeServerCall] && Takes(history) == Takes(old(history)) + 1
      ensures View() == Apply(old(View()), TakeServerCall)
      ensures mode == Busy(Calling(old(serverCallReceiver)[0]))
    {
      ghost var before := View();
      var call := serverCallReceiver[0];
      serverCallReceiver := serverCallReceiver[1..];
      called := called + [call];
      mode := Busy(Calling(call));
      Record(before, TakeServerCall);
    }
  }
}

/** The client's task as nested loops over mutable state: `connect_with`'s task,
    `ClientActor::run`, its three handlers and `client_connect`
    (src/client.rs 454-481 and 493-712).

    `Valid` says that the fields are the state `ClientSpec` reaches by the run
    `history`, of which `moves` is the client's own part; `Others` stands for
    everything that moves while the task is suspended at an await.  What the
    client cannot know, above all how handlers end, it asks `world`. */
module Clients {
  import opened Wire
  import opened ClientSpec
  import opened ClientTheorems
  import ClientInputs
  import ClientLanguage

  /** What users and the network can do between two moves of the task. */
  predicate OthersMoved(s: State, t: State) {
    && t == s.(mail := t.mail, calls := t.calls, socket := t.socket)
    && t.mail == s.mail.(outgoing := t.mail.outgoing, open := t.mail.open, issued := t.mail.issued)
    && s.mail.outgoing <= t.mail.outgoing
    && t.calls == s.calls.(queue := t.calls.queue, open := t.calls.open)
    && s.calls.queue <= t.calls.queue
    && t.socket == s.socket.(inbox := t.socket.inbox, streamOpen := t.socket.streamOpen)
    && s.socket.inbox <= t.socket.inbox
    && (t.mail.open ==> s.mail.open) && (t.calls.open ==> s.calls.open) && (t.socket.streamOpen ==> s.socket.streamOpen)
  }

  lemma OthersStep(c: Config, s: State, e: Event)
    requires Enabled(s, e) && Environmental(e)
    ensures OthersMoved(s, Apply(c, s, e))
  {
  }

  /** `Result<Option<Socket>, Error>`, as the source's functions pass it on. */
  datatype Shuttle = SomeSocket | NoSocketLeft | Failed(result: Result)

  predicate Agrees(r: Shuttle, phase: Phase) {
    match r
    case SomeSocket => phase.Serving?
    case NoSocketLeft => phase == Done(Finished)
    case Failed(result) => phase == Done(result) && !result.Finished?
  }

  /** How the n-th handler call ends, whether the connection attempt it reports
      succeeded, whether the n-th message handed over is taken by the sink, and
      the result of a sink that did not. */
  datatype World = World(
    answers: nat -> Outcome,
    connects: nat -> bool,
    sends: nat -> bool,
    sinks: nat -> SinkResult)
  {
    function Answer(cb: Callback, n: nat): (o: Outcome)
      ensures !o.Pending? && (o.CloseMode? ==> HasMode(cb))
      ensures answers(n).Failure? || answers(n).Continue? ==> o == answers(n)
      ensures answers(n).CloseMode? && (cb.OnConnectFail? || cb.OnClose? || cb.OnDisconnect?) ==> o.CloseMode?
    {
      var o := answers(n);
      if o.Pending? || (o.CloseMode? && !HasMode(cb)) then Continue else o
    }

    /** Entry `n` of the log is what the world says. */
    predicate Confirms(e: Entry, n: nat) {
      && (e.outcome.Pending? || e.outcome == Answer(e.callback, n))
      && (e.callback.OnConnect? ==> connects(n))
      && (e.callback.OnConnectFail? ==> !connects(n))
    }
  }

  predicate TrueToWorld(w: World, log: seq<Entry>) {
    forall n | 0 <= n < |log| :: w.Confirms(log[n], n)
  }

  lemma SettledIsTrue(w: World, log: seq<Entry>, cb: Callback, o: Outcome)
    requires TrueToWorld(w, log) && log != [] && log[|log| - 1] == Entry(cb, Pending) && o == w.Answer(cb, |log| - 1)
    ensures TrueToWorld(w, Settle(log, o))
  {
    assert w.Confirms(log[|log| - 1], |log| - 1);
  }

  lemma StartsOver(c: Config, s: State)
    requires s.phase == InHandler(OnDisconnect)
    ensures Enabled(s, Returns(Continue))
    ensures Apply(c, s, Returns(Continue)) == Reconnecting(c, s.(log := Settle(s.log, Continue)))
  {
  }

  /** The handler that an item from the socket's stream is for. */
  function CallbackFor(item: Inbound): Callback {
    match item
    case Broken(_) => OnDisconnect
    case Delivered(Text(_)) => OnText
    case Delivered(Binary(_)) => OnBinary
    case Delivered(Close(_)) => OnClose
  }

  /** The branches of the `select!` that can go ahead. */
  datatype Branch = Outgoing | ClientCalls | Incoming

  function Ready(s: State): set<Branch> {
    (if s.mail.outgoing != [] || !s.mail.open then {Outgoing} else {})
    + (if s.calls.queue != [] || !s.calls.open then {ClientCalls} else {})
    + (if s.socket.inbox != [] || !s.socket.streamOpen then {Incoming} else {})
  }

  lemma NothingReady(s: State)
    requires Ready(s) == {}
    ensures Waiting(s) == 0 && s.mail.open && s.calls.open && s.socket.inbox == [] && s.socket.streamOpen
  {
  }

  lemma ReadyGrows(s: State, t: State)
    requires OthersMoved(s, t)
    ensures Ready(s) <= Ready(t)
  {
  }

  class ClientActor {
    const config: Config
    const world: World
    var phase: Phase
    var toSocketReceiver: Mail
    var clientCallReceiver: Calls
    var socket: Socket
    var retry: Retry
    var log: seq<Entry>
    var selfClosed: bool
    ghost var history: seq<Event>
    ghost var moves: seq<Event>

    function View(): State
      reads this
    {
      State(phase, toSocketReceiver, clientCallReceiver, socket, retry, log, selfClosed)
    }

    ghost predicate Valid()
      reads this
    {
      After(config, history) == Some(View()) && moves == Own(history) && TrueToWorld(world, log)
    }

    constructor (c: Config, w: World)
      ensures Valid() && config == c && world == w && View() == Start(c) && history == []
      ensures phase.Draining? && retry == Retry(c.maxInitial, 0, 0, 0)
    {
      config, world := c, w;
      phase, log, selfClosed := Draining, [], false;
      toSocketReceiver := Mail([], true, 0, 0, 0, [], [], [], [], []);
      clientCallReceiver := Calls([], true, []);
      socket, retry := NO_SOCKET, Retry(c.maxInitial, 0, 0, 0);
      history, moves := [], [];
    }

    /** Records that the fields have just made the move `e` from the state `before`. */
    ghost method Record(before: State, e: Event)
      requires After(config, history) == Some(before) && moves == Own(history)
      requires Enabled(before, e) && View() == Apply(config, before, e) && TrueToWorld(world, log)
      modifies this`history, this`moves
      ensures Valid() && history == old(history) + [e]
      ensures moves == old(moves) + (if Environmental(e) then [] else [e])
    {
      history := history + [e];
      assert history[..|history| - 1] == old(history);
      moves := Own(history);
    }

    method Others()
      requires Valid()
      modifies this
      ensures Valid() && old(history) <= history && moves == old(moves) && OthersMoved(old(View()), View())
    {
      var left: nat := *;
      while left > 0
        invariant Valid() && old(history) <= history && moves == old(moves) && OthersMoved(old(View()), View())
      {
        left := left - 1;
        var e: Event := *;
        if Environmental(e) && Enabled(View(), e) {
          OneMove(e);
        }
      }
    }

    method OneMove(e: Event)
      requires Valid() && Environmental(e) && Enabled(View(), e)
      modifies this
      ensures Valid() && old(history) <= history && moves == old(moves) && OthersMoved(old(View()), View())
    {
      hide Apply, Enabled;
      ghost var before := View();
      OthersStep(config, View(), e);
      var after := Apply(config, View(), e);
      toSocketReceiver, clientCallReceiver, socket := after.mail, after.calls, after.socket;
      Record(before, e);
    }

    // ----- Handlers -----

    /** The handler `cb` is called; `e` is the move that calls it. */
    method Begin(ghost before: State, ghost e: Event, cb: Callback)
      requires After(config, history) == Some(before) && moves == Own(history) && TrueToWorld(world, log)
      requires Enabled(before, e) && Apply(config, before, e) == Invoke(View(), cb) && !Environmental(e)
      requires world.Confirms(Entry(cb, Pending), |log|)
      modifies this`phase, this`log, this`history, this`moves
      ensures Valid() && history == old(history) + [e] && moves == old(moves) + [e]
      ensures View() == Invoke(old(View()), cb)
    {
      hide Enabled, Apply;
      phase := InHandler(cb);
      log := log + [Entry(cb, Pending)];
      Record(before, e);
    }

    /** The handler runs, and its outcome becomes known. */
    method Await(cb: Callback) returns (o: Outcome)
      requires Valid() && phase == InHandler(cb) && log != []
      modifies this
      ensures Valid() && old(history) <= history && moves == old(moves) && OthersMoved(old(View()), View())
      ensures o == world.Answer(cb, |log| - 1)
    {
      Others();
      o := world.Answer(cb, |log| - 1);
    }

    /** It failed (the `?` operator) or asked to close. */
    method Ends(cb: Callback, o: Outcome) returns (r: Shuttle)
      requires Valid() && phase == InHandler(cb) && log != [] && log[|log| - 1] == Entry(cb, Pending)
      requires o == world.Answer(cb, |log| - 1) && !o.Continue?
      modifies this`phase, this`log, this`history, this`moves
      ensures Valid() && history == old(history) + [Returns(o)] && moves == old(moves) + [Returns(o)]
      ensures r == (if o.Failure? then Failed(HandlerError) else NoSocketLeft) && Agrees(r, phase)
      ensures log == Settle(old(log), o)
    {
      hide TrueToWorld, World.Answer;
      SettledIsTrue(world, log, cb, o);
      ghost var before := View();
      log := Settle(log, o);
      r := if o.Failure? then Failed(HandlerError) else NoSocketLeft;
      phase := Done(if o.Failure? then HandlerError else Finished);
      Record(before, Returns(o));
    }

    /** The task waits in the handler `cb`, whose outcome is not known yet. */
    predicate Inside(cb: Callback)
      reads this
    {
      phase == InHandler(cb) && log != [] && log[|log| - 1] == Entry(cb, Pending)
    }

    // ----- client_connect (lines 638-711) -----

    /** What a call of client_connect may leave behind. */
    predicate Tried(r: Shuttle, maxAttempts: nat)
      reads this
    {
      && Agrees(r, phase)
      && retry.limit == maxAttempts && retry.attempts <= AttemptsAllowed(retry)
      && (r.Failed? && r.result.Exhausted? <==> retry.kept == AttemptsAllowed(retry))
      && (r.Failed? && r.result.Exhausted? ==>
            r.result == Exhausted(AttemptsAllowed(retry)) && retry.sleeps == AttemptsAllowed(retry) - 1)
      && (r.SomeSocket? ==> retry.sleeps == retry.attempts - 1)
    }

    /** The retry loop.  It returns from inside; the handlers it calls are those
        of the attempts, and no message reaches a socket meanwhile. */
    method ClientConnect(maxAttempts: nat) returns (r: Shuttle)
      requires Valid() && phase.Draining? && retry == Retry(maxAttempts, 0, 0, 0)
      modifies this
      ensures Valid() && old(history) <= history && Tried(r, maxAttempts)
      ensures old(moves) < moves && old(log) <= log && toSocketReceiver.handed == old(toSocketReceiver).handed
      ensures clientCallReceiver.called == old(clientCallReceiver).called
      ensures forall n | |old(log)| <= n < |log| ::
                log[n].callback == if world.connects(n) then OnConnect else OnConnectFail
      ensures r.SomeSocket? ==> |log| > |old(log)| && log[|log| - 1] == Entry(OnConnect, Continue)
    {
      hide Valid, World.Answer;
      var i := 1;
      while true
        invariant Valid() && old(history) <= history && phase.Draining?
        invariant retry == Retry(maxAttempts, i - 1, i - 1, i - 1) && 1 <= i <= AttemptsAllowed(retry)
        invariant old(moves) <= moves && old(log) <= log && toSocketReceiver.handed == old(toSocketReceiver).handed
        invariant clientCallReceiver.called == old(clientCallReceiver).called
        invariant forall n | |old(log)| <= n < |log| ::
                    log[n].callback == if world.connects(n) then OnConnect else OnConnectFail
        decreases AttemptsAllowed(retry) - i
      {
        var result := Attempt();
        if result.Some? {
          RetryHolds();
          return result.value;
        }
        i := i + 1;
      }
    }

    lemma RetryHolds()
      requires Valid()
      ensures RetryInv(View())
    {
      RetryAlways(config, history);
    }

    /** One turn of the loop: `None` if there is to be another. */
    method Attempt() returns (result: Option<Shuttle>)
      requires Valid() && phase.Draining? && retry.attempts < AttemptsAllowed(retry)
      modifies this
      ensures Valid() && old(history) <= history
      ensures old(moves) < moves && toSocketReceiver.handed == old(toSocketReceiver).handed
      ensures clientCallReceiver.called == old(clientCallReceiver).called
      ensures old(log) <= log && |log| <= |old(log)| + 1
      ensures |log| > |old(log)| ==>
                log[|old(log)|].callback == if world.connects(|old(log)|) then OnConnect else OnConnectFail
      ensures match result
              case None =>
                && phase.Draining? && retry.attempts < retry.limit
                && retry == old(retry).(attempts := old(retry).attempts + 1, kept := old(retry).kept + 1,
                                        sleeps := old(retry).sleeps + 1)
              case Some(r) =>
                && Agrees(r, phase) && retry.limit == old(retry).limit
                && (r.SomeSocket? ==>
                      && log == old(log) + [Entry(OnConnect, Continue)]
                      && retry == old(retry).(attempts := old(retry).attempts + 1))
    {
      hide Valid, World.Answer;
      var stop := Drain();
      if stop.Some? { return stop; }
      Others();
      if world.connects(|log|) {
        var r := Connect();
        return Some(r);
      }
      var over := ConnectFails();
      if over.Some? { return over; }
      Others();
      WakeUp();
      return None;
    }

    /** Lines 650-669: `None` once the queue is found empty. */
    method Drain() returns (stop: Option<Shuttle>)
      requires Valid() && phase.Draining? && retry.attempts < AttemptsAllowed(retry)
      modifies this
      ensures Valid() && old(history) <= history && old(moves) < moves && log == old(log)
      ensures toSocketReceiver.handed == old(toSocketReceiver).handed
      ensures clientCallReceiver.called == old(clientCallReceiver).called
      ensures match stop
              case None =>
                && phase.Connecting? && retry == old(retry).(attempts := old(retry).attempts + 1)
                && toSocketReceiver.drained == toSocketReceiver.issued && toSocketReceiver.outgoing == []
              case Some(r) => retry == old(retry) && Agrees(r, phase) && !r.SomeSocket?
    {
      var patience: nat := *;   // how long users keep filling the queue
      while true
        invariant Valid() && old(history) <= history && phase.Draining? && retry == old(retry)
        invariant old(moves) <= moves && log == old(log)
        invariant toSocketReceiver.handed == old(toSocketReceiver).handed
        invariant clientCallReceiver.called == old(clientCallReceiver).called
        decreases patience, |toSocketReceiver.outgoing|
      {
        if patience > 0 {
          patience := patience - 1;
          Others();
        }
        if |toSocketReceiver.outgoing| > 0 {
          var closed := DiscardOne();
          if closed { return Some(NoSocketLeft); }
        } else {
          var alive := FoundEmpty();
          return if alive then None else Some(Failed(ClientDied));
        }
      }
    }

    /** A message taken while connecting: a Close ends the client, anything else is discarded. */
    method DiscardOne() returns (closed: bool)
      requires Valid() && phase.Draining? && |toSocketReceiver.outgoing| > 0
      modifies this`phase, this`toSocketReceiver, this`selfClosed, this`history, this`moves
      ensures Valid() && history == old(history) + [DrainOne] && moves == old(moves) + [DrainOne]
      ensures toSocketReceiver == old(toSocketReceiver).Discard()
      ensures closed == old(toSocketReceiver).outgoing[0].message.Close?
      ensures phase == if closed then Done(Finished) else Draining
    {
      ghost var before := View();
      closed := toSocketReceiver.outgoing[0].message.Close?;
      toSocketReceiver := toSocketReceiver.Discard();
      if closed {
        phase := Done(Finished);
        selfClosed := true;
      }
      Record(before, DrainOne);
    }

    method FoundEmpty() returns (alive: bool)
      requires Valid() && phase.Draining? && |toSocketReceiver.outgoing| == 0
      modifies this`phase, this`toSocketReceiver, this`retry, this`history, this`moves
      ensures Valid() && old(history) <= history && alive == old(toSocketReceiver).open
      ensures moves == old(moves) + [if alive then DrainEmpty else DrainClosed]
      ensures if alive
              then && phase.Connecting? && retry == old(retry).(attempts := old(retry).attempts + 1)
                   && toSocketReceiver == old(toSocketReceiver).(drained := old(toSocketReceiver).issued)
              else phase == Done(ClientDied) && retry == old(retry) && toSocketReceiver == old(toSocketReceiver)
    {
      ghost var before := View();
      alive := toSocketReceiver.open;
      if alive {
        phase := Connecting;
        retry := retry.(attempts := retry.attempts + 1);
        toSocketReceiver := toSocketReceiver.(drained := toSocketReceiver.issued);
        Record(before, DrainEmpty);
      } else {
        phase := Done(ClientDied);
        Record(before, DrainClosed);
      }
    }

    /** Lines 675-683: a socket exactly if on_connect does not fail. */
    method Connect() returns (r: Shuttle)
      requires Valid() && phase.Connecting? && world.connects(|log|)
      modifies this
      ensures var o := world.Answer(OnConnect, |old(log)|);
              && moves == old(moves) + [Connected(true), Returns(o)] && log == old(log) + [Entry(OnConnect, o)]
              && r == (if o.Continue? then SomeSocket else Failed(HandlerError))
              && (o.Continue? ==>
                    && socket == Socket([], true, false, [])
                    && toSocketReceiver.epoch == old(toSocketReceiver).epoch + 1)
      ensures Valid() && old(history) <= history && Agrees(r, phase) && retry == old(retry)
      ensures toSocketReceiver.handed == old(toSocketReceiver).handed
      ensures clientCallReceiver.called == old(clientCallReceiver).called
    {
      hide Valid, World.Answer;
      BeginConnected();
      var o := Await(OnConnect);
      if o.Failure? {
        r := Ends(OnConnect, o);
      } else {
        NewSocket();
        r := SomeSocket;
      }
    }

    method BeginConnected()
      requires Valid() && phase.Connecting? && world.connects(|log|)
      modifies this
      ensures Valid() && history == old(history) + [Connected(true)] && moves == old(moves) + [Connected(true)]
      ensures View() == Apply(config, old(View()), Connected(true))
    {
      ghost var before := View();
      toSocketReceiver := toSocketReceiver.(connected := toSocketReceiver.connected + [toSocketReceiver.issued]);
      Begin(before, Connected(true), OnConnect);
    }

    method NewSocket()
      requires Valid() && Inside(OnConnect) && world.Answer(OnConnect, |log| - 1).Continue?
      modifies this
      ensures Valid() && history == old(history) + [Returns(Continue)] && moves == old(moves) + [Returns(Continue)]
      ensures View() == Apply(config, old(View()), Returns(Continue))
    {
      hide TrueToWorld, World.Answer;
      SettledIsTrue(world, log, OnConnect, Continue);
      ghost var before := View();
      log := Settle(log, Continue);
      toSocketReceiver := toSocketReceiver.NewSocket();
      socket := FRESH_SOCKET;
      phase := Serving;
      Record(before, Returns(Continue));
    }

    /** Lines 685-705: `None` if another attempt is to be made, exactly after
        Reconnect and below the limit. */
    method ConnectFails() returns (over: Option<Shuttle>)
      requires Valid() && phase.Connecting? && !world.connects(|log|)
      modifies this
      ensures var o := world.Answer(OnConnectFail, |old(log)|);
              && moves == old(moves) + [Connected(false), Returns(o)] && log == old(log) + [Entry(OnConnectFail, o)]
              && retry == (if o.Continue? then old(retry).(kept := old(retry).kept + 1) else old(retry))
              && over == (if o.Failure? then Some(Failed(HandlerError)) else if o.CloseMode? then Some(NoSocketLeft)
                          else if retry.attempts < retry.limit then None else Some(Failed(Exhausted(retry.attempts))))
      ensures Valid() && old(history) <= history && (if over.None? then phase.Retrying? else Agrees(over.value, phase))
      ensures toSocketReceiver.handed == old(toSocketReceiver).handed
      ensures clientCallReceiver.called == old(clientCallReceiver).called
    {
      hide Valid, World.Answer;
      BeginConnectFailed();
      var o := Await(OnConnectFail);
      if !o.Continue? {
        var r := Ends(OnConnectFail, o);
        return Some(r);
      }
      var again := RetryOrGiveUp();
      return if again then None else Some(Failed(Exhausted(retry.attempts)));
    }

    method BeginConnectFailed()
      requires Valid() && phase.Connecting? && !world.connects(|log|)
      modifies this
      ensures Valid() && history == old(history) + [Connected(false)] && moves == old(moves) + [Connected(false)]
      ensures View() == Invoke(old(View()), OnConnectFail)
    {
      Begin(View(), Connected(false), OnConnectFail);
    }

    method RetryOrGiveUp() returns (again: bool)
      requires Valid() && Inside(OnConnectFail) && world.Answer(OnConnectFail, |log| - 1).Continue?
      modifies this`log, this`retry, this`phase, this`history, this`moves
      ensures Valid() && history == old(history) + [Returns(Continue)] && moves == old(moves) + [Returns(Continue)]
      ensures again == (retry.attempts < retry.limit) && retry == old(retry).(kept := old(retry).kept + 1)
      ensures phase == (if again then Retrying else Done(Exhausted(retry.attempts)))
      ensures log == Settle(old(log), Continue)
    {
      hide TrueToWorld, World.Answer;
      SettledIsTrue(world, log, OnConnectFail, Continue);
      ghost var before := View();
      log := Settle(log, Continue);
      retry := retry.(kept := retry.kept + 1);
      again := retry.attempts < retry.limit;
      phase := if again then Retrying else Done(Exhausted(retry.attempts));
      Record(before, Returns(Continue));
    }

    /** The end of a sleep of `reconnect_interval`. */
    method WakeUp()
      requires Valid() && (phase.Retrying? || phase.CloseSleep?)
      modifies this`phase, this`retry, this`socket, this`history, this`moves
      ensures Valid() && history == old(history) + [Awake] && moves == old(moves) + [Awake] && phase.Draining?
      ensures retry == (if old(phase).Retrying? then old(retry).(sleeps := old(retry).sleeps + 1)
                        else Retry(config.maxReconnect, 0, 0, 0))
    {
      ghost var before := View();
      if phase.Retrying? {
        retry := retry.(sleeps := retry.sleeps + 1);
      } else {
        retry := Retry(config.maxReconnect, 0, 0, 0);
        socket := NO_SOCKET;
      }
      phase := Draining;
      Record(before, Awake);
    }

    // ----- ClientActor::run and its handlers (lines 494-634) -----

    /** The whole task: the first connection, then the loop, for as many turns as
        the scheduler grants. */
    method Task(turns: nat)
      requires Valid() && View() == Start(config)
      modifies this
      ensures Valid() && old(history) <= history && old(moves) < moves
      ensures phase.Serving? || phase.Done?
      ensures ClientLanguage.PrefixOf(ClientLanguage.LIVES, ClientLanguage.Names(log))
      ensures clientCallReceiver.called + clientCallReceiver.queue == ClientInputs.PushedCalls(config, history)
      ensures ClientInputs.AccountInv(toSocketReceiver, ClientInputs.Issued(config, history))
      ensures IsolationInv(View())
    {
      var r := ClientConnect(config.maxInitial);
      if r.SomeSocket? {
        Run(turns);
      }
      ClientLanguage.CallbackLanguage(config, history);
      ClientInputs.CallsSurvive(config, history);
      ClientInputs.EveryMessageAccounted(config, history);
      ReconnectIsolation(config, history);
    }

    twostate predicate Served(done: nat)
      reads this
    {
      |moves| >= |old(moves)| + done || |moves| >= |old(moves)| + Waiting(old(View()))
    }

    /** The loop, for as many turns as the scheduler grants.  As long as the
        client lasts, a turn with something ready makes a move, so that as much of
        what waited at the start has been served as there were turns. */
    method Run(turns: nat)
      requires Valid() && phase.Serving?
      modifies this
      ensures Valid() && old(history) <= history && old(moves) <= moves && (phase.Serving? || phase.Done?)
      ensures phase.Serving? ==> Served(turns)
      ensures turns > 0 && old(Ready(View())) != {} ==> old(moves) < moves
    {
      var done := 0;
      while done < turns && phase.Serving?
        invariant 0 <= done <= turns
        invariant Valid() && old(history) <= history && old(moves) <= moves && (phase.Serving? || phase.Done?)
        invariant phase.Serving? ==> Served(done)
        invariant done == 0 ==> View() == old(View())
        invariant done > 0 && old(Ready(View())) != {} ==> old(moves) < moves
        decreases turns - done
      {
        var r := Turn();
        if phase.Serving? && Waiting(View()) == 0 { IdleMeansServed(config, old(history), history); }
        done := done + 1;
      }
    }

    /** One turn: the socket is taken out of the shuttle, and one ready branch
        puts it back, replaces it or ends the client. */
    method Turn() returns (r: Shuttle)
      requires Valid() && phase.Serving?
      modifies this
      ensures Valid() && old(history) <= history && old(moves) <= moves && Agrees(r, phase)
      ensures old(moves) < moves || (Ready(View()) == {} && old(Ready(View())) == {} && Waiting(View()) == 0)
    {
      Others();
      ReadyGrows(old(View()), View());
      if Ready(View()) == {} {
        NothingReady(View());
        return SomeSocket;
      }
      var branch :| branch in Ready(View());
      match branch {
        case Outgoing => r := ServeOutgoing();
        case ClientCalls => r := ServeCalls();
        case Incoming => r := ServeIncoming();
      }
    }

    method ServeOutgoing() returns (r: Shuttle)
      requires Valid() && phase.Serving? && (toSocketReceiver.outgoing != [] || !toSocketReceiver.open)
      modifies this
      ensures |old(toSocketReceiver).outgoing| == 0 ==>
                moves == old(moves) + [OutgoingClosed] && r == NoSocketLeft && log == old(log)
      ensures Valid() && old(history) <= history && old(moves) < moves && Agrees(r, phase)
    {
      if |toSocketReceiver.outgoing| > 0 {
        r := HandleOutgoing();
      } else {
        r := Leave(OutgoingClosed);
      }
    }

    method ServeCalls() returns (r: Shuttle)
      requires Valid() && phase.Serving? && (clientCallReceiver.queue != [] || !clientCallReceiver.open)
      modifies this
      ensures |old(clientCallReceiver).queue| == 0 ==>
                moves == old(moves) + [CallsClosed] && r == NoSocketLeft && log == old(log)
      ensures Valid() && old(history) <= history && old(moves) < moves && Agrees(r, phase)
    {
      if |clientCallReceiver.queue| > 0 {
        r := HandleCall();
      } else {
        r := Leave(CallsClosed);
      }
    }

    /** The end of the stream counts as a disconnect (lines 586-589). */
    method ServeIncoming() returns (r: Shuttle)
      requires Valid() && phase.Serving? && (socket.inbox != [] || !socket.streamOpen)
      modifies this
      ensures |old(socket).inbox| == 0 ==> Disconnected(IncomingOver, r)
      ensures Valid() && old(history) <= history && old(moves) < moves && Agrees(r, phase)
    {
      hide Valid, World.Answer;
      if |socket.inbox| > 0 {
        r := HandleIncoming();
      } else {
        StreamOver();
        r := HandleDisconnect();
      }
    }

    method StreamOver()
      requires Valid() && phase.Serving? && socket.inbox == [] && !socket.streamOpen
      modifies this
      ensures Valid() && history == old(history) + [IncomingOver] && moves == old(moves) + [IncomingOver]
      ensures Inside(OnDisconnect) && log == old(log) + [Entry(OnDisconnect, Pending)]
    {
      LoseSocket(View(), IncomingOver, OnDisconnect);
    }

    /** The loop is left when a queue is closed and empty. */
    method Leave(e: Event) returns (r: Shuttle)
      requires Valid() && Enabled(View(), e) && (e.OutgoingClosed? || e.CallsClosed?)
      modifies this`phase, this`history, this`moves
      ensures Valid() && history == old(history) + [e] && moves == old(moves) + [e]
      ensures r == NoSocketLeft && Agrees(r, phase)
    {
      ghost var before := View();
      phase := Done(Finished);
      Record(before, e);
      r := NoSocketLeft;
    }

    /** Lines 506-512: the head of the queue, and the socket goes back into the
        shuttle unless the handler fails. */
    method HandleCall() returns (r: Shuttle)
      requires Valid() && phase.Serving? && |clientCallReceiver.queue| > 0
      modifies this
      ensures var o := world.Answer(OnCall, |old(log)|);
              && moves == old(moves) + [TakeCall, Returns(o)] && log == old(log) + [Entry(OnCall, o)]
              && r == (if o.Failure? then Failed(HandlerError) else SomeSocket)
      ensures Valid() && old(history) <= history && Agrees(r, phase)
      ensures clientCallReceiver.called == old(clientCallReceiver).called + [old(clientCallReceiver).queue[0]]
    {
      hide Valid, World.Answer;
      BeginCall();
      r := BackToServing(OnCall);
    }

    method BeginCall()
      requires Valid() && phase.Serving? && |clientCallReceiver.queue| > 0
      modifies this
      ensures Valid() && history == old(history) + [TakeCall] && moves == old(moves) + [TakeCall]
      ensures Inside(OnCall) && log == old(log) + [Entry(OnCall, Pending)]
      ensures clientCallReceiver.called == old(clientCallReceiver).called + [old(clientCallReceiver).queue[0]]
    {
      ghost var before := View();
      var queue := clientCallReceiver;
      clientCallReceiver := queue.(queue := queue.queue[1..], called := queue.called + [queue.queue[0]]);
      Begin(before, TakeCall, OnCall);
    }

    method BackToServing(cb: Callback) returns (r: Shuttle)
      requires Valid() && Inside(cb) && (cb.OnCall? || cb.OnText? || cb.OnBinary?)
      modifies this
      ensures var o := world.Answer(cb, |old(log)| - 1);
              && moves == old(moves) + [Returns(o)] && log == Settle(old(log), o)
              && r == (if o.Failure? then Failed(HandlerError) else SomeSocket)
      ensures Valid() && old(history) <= history && Agrees(r, phase)
      ensures clientCallReceiver.called == old(clientCallReceiver).called
      ensures toSocketReceiver.handed == old(toSocketReceiver).handed
    {
      hide Valid, World.Answer;
      var o := Await(cb);
      if o.Failure? {
        r := Ends(cb, o);
      } else {
        ServeOn(cb);
        r := SomeSocket;
      }
    }

    method ServeOn(cb: Callback)
      requires Valid() && Inside(cb) && (cb.OnCall? || cb.OnText? || cb.OnBinary?)
      requires world.Answer(cb, |log| - 1).Continue?
      modifies this`phase, this`log, this`history, this`moves
      ensures Valid() && history == old(history) + [Returns(Continue)] && moves == old(moves) + [Returns(Continue)]
      ensures phase.Serving? && log == Settle(old(log), Continue)
    {
      hide TrueToWorld, World.Answer;
      SettledIsTrue(world, log, cb, Continue);
      ghost var before := View();
      log := Settle(log, Continue);
      phase := Serving;
      Record(before, Returns(Continue));
    }

    /** Lines 522-562.  The head of the queue is handed to the socket; a Close ends
        the client without another handler call, even if the send fails; after a
        successful send of anything else the client goes on. */
    method HandleOutgoing() returns (r: Shuttle)
      requires Valid() && phase.Serving? && |toSocketReceiver.outgoing| > 0
      modifies this
      ensures Valid() && old(history) <= history && Agrees(r, phase)
      ensures var first, sent := old(toSocketReceiver).outgoing[0], world.sends(|old(toSocketReceiver).handed|);
              && old(moves) + [TakeOutgoing(sent)] <= moves
              && toSocketReceiver.handed == old(toSocketReceiver).handed + [Hand(first.id, old(toSocketReceiver).epoch)]
              && (first.message.Close? ==> r == NoSocketLeft && log == old(log))
              && (!first.message.Close? && sent ==> r == SomeSocket && log == old(log))
              && (!sent ==> |moves| > |old(moves)| + 1 && moves[|old(moves)| + 1].SinkReports?)
    {
      var closedSelf := toSocketReceiver.outgoing[0].message.Close?;
      var sent := Send();
      if !sent {
        Others();
        r := SinkClosed(closedSelf);
      } else {
        r := if closedSelf then NoSocketLeft else SomeSocket;
      }
    }

    method Send() returns (sent: bool)
      requires Valid() && phase.Serving? && |toSocketReceiver.outgoing| > 0
      modifies this`phase, this`toSocketReceiver, this`selfClosed, this`history, this`moves
      ensures sent == world.sends(|old(toSocketReceiver).handed|)
      ensures Valid() && history == old(history) + [TakeOutgoing(sent)] && moves == old(moves) + [TakeOutgoing(sent)]
      ensures toSocketReceiver == old(toSocketReceiver).HandOver()
      ensures var closing := old(toSocketReceiver).outgoing[0].message.Close?;
              phase == if !sent then SinkFailed(closing) else if closing then Done(Finished) else Serving
    {
      ghost var before := View();
      var closing := toSocketReceiver.outgoing[0].message.Close?;
      sent := world.sends(|toSocketReceiver.handed|);
      toSocketReceiver := toSocketReceiver.HandOver();
      selfClosed := closing;
      if !sent {
        phase := SinkFailed(closing);
      } else if closing {
        phase := Done(Finished);
      }
      Record(before, TakeOutgoing(sent));
    }

    /** What `await_sink_close` is to yield. */
    function SinkResultNow(): SinkResult
      reads this
    {
      if socket.resultTaken then SinkAlreadyClosed else world.sinks(|toSocketReceiver.handed|)
    }

    /** `Socket::await_sink_close` (src/socket.rs 600-608): the result can be had once. */
    method AwaitSinkClose() returns (result: SinkResult)
      modifies this`socket
      ensures socket == old(socket).(resultTaken := true)
      ensures result == old(SinkResultNow()) && SinkResultNow() == SinkAlreadyClosed
    {
      result := SinkResultNow();
      socket := socket.(resultTaken := true);
    }

    /** Lines 529-561: which results of the sink end the client, which are passed
        over and which count as a disconnect. */
    method SinkClosed(closedSelf: bool) returns (r: Shuttle)
      requires Valid() && phase == SinkFailed(closedSelf)
      modifies this
      ensures Valid() && old(history) <= history && Agrees(r, phase)
      ensures toSocketReceiver.handed == old(toSocketReceiver).handed
      ensures var result := old(SinkResultNow());
              && old(moves) + [SinkReports(result)] <= moves
              && (if closedSelf then r == NoSocketLeft && log == old(log)
                  else match result
                    case SinkOk => r == SomeSocket && log == old(log)
                    case SinkOther => r == Failed(SinkError) && log == old(log)
                    case _ => Disconnected(SinkReports(result), r))
    {
      hide Valid, World.Answer;
      if closedSelf {
        SinkSettled(Done(Finished));
        return NoSocketLeft;
      }
      match SinkResultNow() {
        case SinkOk =>
          SinkSettled(Serving);
          r := SomeSocket;
        case SinkOther =>
          SinkSettled(Done(SinkError));
          r := Failed(SinkError);
        case _ =>
          SinkBroken();
          r := HandleDisconnect();
      }
    }

    method SinkSettled(next: Phase)
      requires Valid() && phase.SinkFailed?
      requires next == (if phase.closing then Done(Finished)
                        else if SinkResultNow().SinkOk? then Serving else Done(SinkError))
      requires phase.closing || SinkResultNow().SinkOk? || SinkResultNow().SinkOther?
      modifies this`phase, this`socket, this`history, this`moves
      ensures var result := old(SinkResultNow());
              history == old(history) + [SinkReports(result)] && moves == old(moves) + [SinkReports(result)]
      ensures Valid() && phase == next
    {
      ghost var before := View();
      var result := AwaitSinkClose();
      phase := next;
      Record(before, SinkReports(result));
    }

    method SinkBroken()
      requires Valid() && phase == SinkFailed(false) && (SinkResultNow().SinkAlreadyClosed? || SinkResultNow().SinkIo?)
      modifies this
      ensures var result := old(SinkResultNow());
              history == old(history) + [SinkReports(result)] && moves == old(moves) + [SinkReports(result)]
      ensures Valid() && Inside(OnDisconnect) && log == old(log) + [Entry(OnDisconnect, Pending)]
      ensures toSocketReceiver.handed == old(toSocketReceiver).handed
    {
      ghost var before := View();
      var result := AwaitSinkClose();
      LoseSocket(before, SinkReports(result), OnDisconnect);
    }

    /** The socket is lost: on_close or on_disconnect is called. */
    method LoseSocket(ghost before: State, ghost e: Event, cb: Callback)
      requires After(config, history) == Some(before) && moves == Own(history) && TrueToWorld(world, log)
      requires Enabled(before, e) && !Environmental(e) && (cb.OnClose? || cb.OnDisconnect?)
      requires Apply(config, before, e) == Lose(View(), cb)
      modifies this
      ensures Valid() && history == old(history) + [e] && moves == old(moves) + [e]
      ensures View() == Lose(old(View()), cb)
    {
      hide Apply, Enabled;
      toSocketReceiver := toSocketReceiver.(lost := toSocketReceiver.lost + [toSocketReceiver.issued]);
      Begin(before, e, cb);
    }

    /** The move `e` lost the socket and called on_disconnect, which ended as the
        world says; the client tried to reconnect exactly after Reconnect. */
    twostate predicate Disconnected(e: Event, r: Shuttle)
      reads this
    {
      var o := world.Answer(OnDisconnect, |old(log)|);
      && old(moves) + [e, Returns(o)] <= moves
      && |log| > |old(log)| && log[|old(log)|] == Entry(OnDisconnect, o)
      && (match o
          case Continue => |moves| > |old(moves)| + 2 && Tried(r, config.maxReconnect)
          case CloseMode => r == NoSocketLeft
          case _ => r == Failed(HandlerError))
    }

    /** Lines 564-592: the head of the stream reaches its handler. */
    method HandleIncoming() returns (r: Shuttle)
      requires Valid() && phase.Serving? && |socket.inbox| > 0
      modifies this
      ensures Valid() && old(history) <= history && Agrees(r, phase)
      ensures var cb := CallbackFor(old(socket).inbox[0]); var o := world.Answer(cb, |old(log)|);
              && old(moves) + [TakeIncoming, Returns(o)] <= moves
              && |log| > |old(log)| && log[|old(log)|] == Entry(cb, o)
              && (match old(socket).inbox[0]
                  case Broken(_) => log[|old(log)|].callback.OnDisconnect?
                  case Delivered(Text(_)) => log[|old(log)|].callback.OnText?
                  case Delivered(Binary(_)) => log[|old(log)|].callback.OnBinary?
                  case Delivered(Close(_)) => log[|old(log)|].callback.OnClose?)
              && (o.Failure? ==> r == Failed(HandlerError))
              && (o.CloseMode? ==> r == NoSocketLeft)
              && (o.Continue? && !HasMode(cb) ==> r == SomeSocket && |moves| == |old(moves)| + 2)
              && (o.Continue? && HasMode(cb) ==> |moves| > |old(moves)| + 2 && Tried(r, config.maxReconnect))
    {
      hide Valid, World.Answer;
      match socket.inbox[0] {
        case Delivered(Text(_)) =>
          BeginData(OnText);
          r := BackToServing(OnText);
        case Delivered(Binary(_)) =>
          BeginData(OnBinary);
          r := BackToServing(OnBinary);
        case Delivered(Close(_)) =>
          TakeAndLose(OnClose);
          r := HandleClose();
        case Broken(_) =>
          TakeAndLose(OnDisconnect);
          r := HandleDisconnect();
      }
    }

    method BeginData(cb: Callback)
      requires Valid() && phase.Serving? && |socket.inbox| > 0
      requires cb == CallbackFor(socket.inbox[0]) && (cb.OnText? || cb.OnBinary?)
      modifies this`phase, this`socket, this`log, this`history, this`moves
      ensures Valid() && history == old(history) + [TakeIncoming] && moves == old(moves) + [TakeIncoming]
      ensures Inside(cb) && log == old(log) + [Entry(cb, Pending)]
    {
      ghost var before := View();
      socket := socket.(inbox := socket.inbox[1..], seen := socket.seen + [socket.inbox[0]]);
      Begin(before, TakeIncoming, cb);
    }

    method TakeAndLose(cb: Callback)
      requires Valid() && phase.Serving? && |socket.inbox| > 0
      requires cb == CallbackFor(socket.inbox[0]) && (cb.OnClose? || cb.OnDisconnect?)
      modifies this
      ensures Valid() && history == old(history) + [TakeIncoming] && moves == old(moves) + [TakeIncoming]
      ensures Inside(cb) && log == old(log) + [Entry(cb, Pending)]
      ensures toSocketReceiver.handed == old(toSocketReceiver).handed
    {
      ghost var before := View();
      socket := socket.(inbox := socket.inbox[1..], seen := socket.seen + [socket.inbox[0]]);
      LoseSocket(before, TakeIncoming, cb);
    }

    /** Lines 594-616, from the call of on_close on: after Reconnect a sleep, then a
        new call of client_connect. */
    method HandleClose() returns (r: Shuttle)
      requires Valid() && Inside(OnClose)
      modifies this
      ensures Valid() && old(history) <= history && Agrees(r, phase)
      ensures toSocketReceiver.handed == old(toSocketReceiver).handed
      ensures Settle(old(log), world.Answer(OnClose, |old(log)| - 1)) <= log
      ensures match world.Answer(OnClose, |old(log)| - 1)
              case Continue =>
                old(moves) + [Returns(Continue), Awake] < moves && Tried(r, config.maxReconnect)
              case CloseMode => moves == old(moves) + [Returns(CloseMode)] && r == NoSocketLeft
              case o => moves == old(moves) + [Returns(o)] && r == Failed(HandlerError)
    {
      hide Valid, World.Answer;
      var o := Await(OnClose);
      if !o.Continue? {
        r := Ends(OnClose, o);
        return;
      }
      FallAsleep();
      Others();
      WakeUp();
      r := ClientConnect(config.maxReconnect);
    }

    method FallAsleep()
      requires Valid() && Inside(OnClose) && world.Answer(OnClose, |log| - 1).Continue?
      modifies this`phase, this`log, this`history, this`moves
      ensures Valid() && history == old(history) + [Returns(Continue)] && moves == old(moves) + [Returns(Continue)]
      ensures phase.CloseSleep? && log == Settle(old(log), Continue)
    {
      hide TrueToWorld, World.Answer;
      SettledIsTrue(world, log, OnClose, Continue);
      ghost var before := View();
      log := Settle(log, Continue);
      phase := CloseSleep;
      Record(before, Returns(Continue));
    }

    /** Lines 618-634, from the call of on_disconnect on: after Reconnect a new call
        of client_connect, without a sleep. */
    method HandleDisconnect() returns (r: Shuttle)
      requires Valid() && Inside(OnDisconnect)
      modifies this
      ensures Valid() && old(history) <= history && Agrees(r, phase)
      ensures toSocketReceiver.handed == old(toSocketReceiver).handed
      ensures Settle(old(log), world.Answer(OnDisconnect, |old(log)| - 1)) <= log
      ensures match world.Answer(OnDisconnect, |old(log)| - 1)
              case Continue =>
                old(moves) + [Returns(Continue)] < moves && Tried(r, config.maxReconnect)
              case CloseMode => moves == old(moves) + [Returns(CloseMode)] && r == NoSocketLeft
              case o => moves == old(moves) + [Returns(o)] && r == Failed(HandlerError)
    {
      hide Valid, World.Answer;
      var o := Await(OnDisconnect);
      if !o.Continue? {
        r := Ends(OnDisconnect, o);
        return;
      }
      StartOver();
      r := ClientConnect(config.maxReconnect);
    }

    method StartOver()
      requires Valid() && Inside(OnDisconnect) && world.Answer(OnDisconnect, |log| - 1).Continue?
      modifies this`phase, this`log, this`retry, this`socket, this`history, this`moves
      ensures Valid() && history == old(history) + [Returns(Continue)] && moves == old(moves) + [Returns(Continue)]
      ensures phase.Draining? && retry == Retry(config.maxReconnect, 0, 0, 0) && log == Settle(old(log), Continue)
    {
      hide TrueToWorld, World.Answer, Apply, Enabled;
      SettledIsTrue(world, log, OnDisconnect, Continue);
      StartsOver(config, View());
      ghost var before := View();
      log := Settle(log, Continue);
      retry := Retry(config.maxReconnect, 0, 0, 0);
      socket := NO_SOCKET;
      phase := Draining;
      Record(before, Returns(Continue));
    }
  }
}

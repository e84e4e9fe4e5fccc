/** The client actor with reconnection as a transition system:
    src/client.rs 455-479 and 493-712.

    The phases are the places where the actor's task can be suspended, so users,
    the network and the socket's tasks may move between any two events. */
module ClientSpec {
  import opened Wire

  datatype Item = Item(id: nat, message: Message)

  datatype Hand = Hand(id: nat, epoch: nat)

  datatype Callback = OnConnect | OnConnectFail | OnText | OnBinary | OnCall | OnClose | OnDisconnect

  /** How a handler ended: `Continue` lets the client go on (for the three
      handlers with a close mode, `Reconnect`), `CloseMode` and `Failure` end it. */
  datatype Outcome = Pending | Continue | CloseMode | Failure

  datatype Entry = Entry(callback: Callback, outcome: Outcome)

  datatype Result = Finished | HandlerError | ClientDied | Exhausted(attempts: nat) | SinkError

  /** What `await_sink_close` yields, by the classes that `handle_outgoing_msg` tells apart. */
  datatype SinkResult = SinkOk | SinkAlreadyClosed | SinkIo | SinkOther

  datatype Phase =
    | Draining                   // client_connect: discarding queued messages
    | Connecting                 // client_connect: awaiting the connector
    | InHandler(callback: Callback)
    | Retrying                   // client_connect: sleeping between attempts
    | Serving                    // run: waiting in select
    | SinkFailed(closing: bool)  // handle_outgoing_msg: awaiting the sink's result
    | CloseSleep                 // handle_close: sleeping before reconnecting
    | Done(result: Result)

  datatype Config = Config(maxInitial: nat, maxReconnect: nat)

  /** The queue behind the Client handles, and what became of its messages. */
  datatype Mail = Mail(
    outgoing: seq<Item>, open: bool,
    issued: nat,                 // messages the queue has accepted; they are numbered in order
    drained: nat,                // `issued` when the last drain found the queue empty
    epoch: nat,                  // sockets obtained
    barriers: seq<nat>,          // `drained` for each of them
    connected: seq<nat>,         // `issued` at each call of on_connect
    lost: seq<nat>,              // `issued` at each call of on_close or on_disconnect
    handed: seq<Hand>,           // messages given to a socket
    discarded: seq<nat>)         // messages thrown away by a drain
  {
    function Submit(m: Message): Mail {
      this.(outgoing := outgoing + [Item(issued, m)], issued := issued + 1)
    }

    function Discard(): Mail
      requires outgoing != []
    {
      this.(outgoing := outgoing[1..], discarded := discarded + [outgoing[0].id])
    }

    function HandOver(): Mail
      requires outgoing != []
    {
      this.(outgoing := outgoing[1..], handed := handed + [Hand(outgoing[0].id, epoch)])
    }

    function NewSocket(): Mail {
      this.(epoch := epoch + 1, barriers := barriers + [drained])
    }
  }

  /** The queue behind Client::call. */
  datatype Calls = Calls(queue: seq<nat>, open: bool, called: seq<nat>)

  /** What is left of the current socket's stream, whether its sink's result was
      taken, and, as history, what has been taken from the stream. */
  datatype Socket = Socket(inbox: seq<Inbound>, streamOpen: bool, resultTaken: bool, seen: seq<Inbound>)
  {
    function Take(): Socket
      requires inbox != []
    {
      this.(inbox := inbox[1..], seen := seen + [inbox[0]])
    }
  }

  /** The current call of client_connect. */
  datatype Retry = Retry(limit: nat, attempts: nat, kept: nat, sleeps: nat)

  datatype State = State(
    phase: Phase,
    mail: Mail,
    calls: Calls,
    socket: Socket,
    retry: Retry,
    log: seq<Entry>,             // handler calls
    selfClosed: bool)            // the client took a Close of its own

  datatype Event =
    // users and network
    | Submit(message: Message)
    | PushCall(call: nat)
    | DropHandles
    | DropCallers
    | NetIn(item: Inbound)
    | NetEnd
    // client_connect
    | DrainOne
    | DrainEmpty
    | DrainClosed
    | Connected(ok: bool)
    | Awake
    // run
    | TakeOutgoing(sent: bool)
    | OutgoingClosed
    | SinkReports(result: SinkResult)
    | TakeCall
    | CallsClosed
    | TakeIncoming
    | IncomingOver
    // the end of any handler
    | Returns(outcome: Outcome)

  predicate Environmental(e: Event) {
    e.Submit? || e.PushCall? || e.DropHandles? || e.DropCallers? || e.NetIn? || e.NetEnd?
  }

  const NO_SOCKET := Socket([], false, false, [])
  const FRESH_SOCKET := Socket([], true, false, [])

  function Start(c: Config): State {
    State(Draining, Mail([], true, 0, 0, 0, [], [], [], [], []), Calls([], true, []),
          NO_SOCKET, Retry(c.maxInitial, 0, 0, 0), [], false)
  }

  /** A fresh call of `client_connect`. */
  function Reconnecting(c: Config, s: State): State {
    s.(phase := Draining, retry := Retry(c.maxReconnect, 0, 0, 0), socket := NO_SOCKET)
  }

  predicate HasMode(cb: Callback) {
    cb.OnConnectFail? || cb.OnClose? || cb.OnDisconnect?
  }

  predicate Enabled(s: State, e: Event) {
    match e
    case Submit(_) => s.mail.open
    case PushCall(_) => s.calls.open
    case DropHandles => s.mail.open
    case DropCallers => s.calls.open
    case NetIn(_) => s.socket.streamOpen
    case NetEnd => s.socket.streamOpen
    case DrainOne => s.phase.Draining? && s.mail.outgoing != []
    case DrainEmpty => s.phase.Draining? && s.mail.outgoing == [] && s.mail.open
    case DrainClosed => s.phase.Draining? && s.mail.outgoing == [] && !s.mail.open
    case Connected(_) => s.phase.Connecting?
    case Awake => s.phase.Retrying? || s.phase.CloseSleep?
    case TakeOutgoing(_) => s.phase.Serving? && s.mail.outgoing != []
    case OutgoingClosed => s.phase.Serving? && s.mail.outgoing == [] && !s.mail.open
    case SinkReports(r) => s.phase.SinkFailed? && (s.socket.resultTaken ==> r.SinkAlreadyClosed?)
    case TakeCall => s.phase.Serving? && s.calls.queue != []
    case CallsClosed => s.phase.Serving? && s.calls.queue == [] && !s.calls.open
    case TakeIncoming => s.phase.Serving? && s.socket.inbox != []
    case IncomingOver => s.phase.Serving? && s.socket.inbox == [] && !s.socket.streamOpen
    case Returns(o) => s.phase.InHandler? && !o.Pending? && (o.CloseMode? ==> HasMode(s.phase.callback))
  }

  function Invoke(s: State, cb: Callback): State {
    s.(phase := InHandler(cb), log := s.log + [Entry(cb, Pending)])
  }

  /** The socket is lost; its end is reported to the user. */
  function Lose(s: State, cb: Callback): State {
    Invoke(s, cb).(mail := s.mail.(lost := s.mail.lost + [s.mail.issued]))
  }

  function Settle(log: seq<Entry>, o: Outcome): seq<Entry> {
    if log == [] then log else log[|log| - 1 := Entry(log[|log| - 1].callback, o)]
  }

  function Apply(c: Config, s: State, e: Event): State
    requires Enabled(s, e)
  {
    match e
    case Submit(m) => if s.phase.Done? then s else s.(mail := s.mail.Submit(m))
    case PushCall(call) =>
      if s.phase.Done? then s
      else s.(calls := s.calls.(queue := s.calls.queue + [call]))
    case DropHandles => s.(mail := s.mail.(open := false))
    case DropCallers => s.(calls := s.calls.(open := false))
    case NetIn(item) => s.(socket := s.socket.(inbox := s.socket.inbox + [item]))
    case NetEnd => s.(socket := s.socket.(streamOpen := false))
    case DrainOne =>
      var t := s.(mail := s.mail.Discard());
      if s.mail.outgoing[0].message.Close? then t.(phase := Done(Finished), selfClosed := true) else t
    case DrainEmpty =>
      s.(phase := Connecting, retry := s.retry.(attempts := s.retry.attempts + 1),
         mail := s.mail.(drained := s.mail.issued))
    case DrainClosed => s.(phase := Done(ClientDied))
    case Connected(ok) =>
      if ok then Invoke(s, OnConnect).(mail := s.mail.(connected := s.mail.connected + [s.mail.issued]))
      else Invoke(s, OnConnectFail)
    case Awake =>
      if s.phase.Retrying? then s.(phase := Draining, retry := s.retry.(sleeps := s.retry.sleeps + 1))
      else Reconnecting(c, s)
    case TakeOutgoing(sent) =>
      var closing := s.mail.outgoing[0].message.Close?;
      var t := s.(mail := s.mail.HandOver(), selfClosed := closing);
      if !sent then t.(phase := SinkFailed(closing))
      else if closing then t.(phase := Done(Finished))
      else t
    case OutgoingClosed => s.(phase := Done(Finished))
    case SinkReports(r) =>
      var t := s.(socket := s.socket.(resultTaken := true));
      if s.phase.closing then t.(phase := Done(Finished))
      else (match r
            case SinkOk => t.(phase := Serving)
            case SinkAlreadyClosed => Lose(t, OnDisconnect)
            case SinkIo => Lose(t, OnDisconnect)
            case SinkOther => t.(phase := Done(SinkError)))
    case TakeCall =>
      Invoke(s, OnCall).(calls := s.calls.(queue := s.calls.queue[1..], called := s.calls.called + [s.calls.queue[0]]))
    case CallsClosed => s.(phase := Done(Finished))
    case TakeIncoming =>
      var t := s.(socket := s.socket.Take());
      (match s.socket.inbox[0]
       case Broken(_) => Lose(t, OnDisconnect)
       case Delivered(Text(_)) => Invoke(t, OnText)
       case Delivered(Binary(_)) => Invoke(t, OnBinary)
       case Delivered(Close(_)) => Lose(t, OnClose))
    case IncomingOver => Lose(s, OnDisconnect)
    case Returns(o) => Returned(c, s.(log := Settle(s.log, o)), s.phase.callback, o)
  }

  function Returned(c: Config, s: State, cb: Callback, o: Outcome): State {
    if o.Failure? then s.(phase := Done(HandlerError))
    else if o.CloseMode? then s.(phase := Done(Finished))
    else
      match cb
      case OnConnect => s.(phase := Serving, mail := s.mail.NewSocket(), socket := FRESH_SOCKET)
      case OnConnectFail =>
        s.(retry := s.retry.(kept := s.retry.kept + 1),
           phase := if s.retry.attempts >= s.retry.limit then Done(Exhausted(s.retry.attempts)) else Retrying)
      case OnClose => s.(phase := CloseSleep)
      case OnDisconnect => Reconnecting(c, s)
      case _ => s.(phase := Serving)
  }

  function From(c: Config, s: State, es: seq<Event>): Option<State> {
    if es == [] then Some(s) else
      var before := From(c, s, es[..|es| - 1]);
      var e := es[|es| - 1];
      if before.Some? && Enabled(before.value, e) then Some(Apply(c, before.value, e)) else None
  }

  function After(c: Config, es: seq<Event>): Option<State> {
    From(c, Start(c), es)
  }

  /** The client's own events among `es`. */
  function Own(es: seq<Event>): seq<Event> {
    if es == [] then [] else Own(es[..|es| - 1]) + (if Environmental(es[|es| - 1]) then [] else [es[|es| - 1]])
  }
}

/** The order of the client's handler calls over a whole run is a regular language. */
module ClientLanguage {
  import opened Wire
  import opened ClientSpec
  import opened ClientTheorems

  // ----- Regular expressions over callbacks, by their denotation -----

  datatype Re = OneOf(set<Callback>) | Then(Re, Re) | Or(Re, Re) | Many(Re)

  predicate Matches(r: Re, w: seq<Callback>)
    decreases |w|, r
  {
    match r
    case OneOf(cs) => |w| == 1 && w[0] in cs
    case Then(a, b) => exists k | 0 <= k <= |w| :: Matches(a, w[..k]) && Matches(b, w[k..])
    case Or(a, b) => Matches(a, w) || Matches(b, w)
    case Many(a) => w == [] || exists k | 0 < k <= |w| :: Matches(a, w[..k]) && Matches(r, w[k..])
  }

  lemma JoinThen(a: Re, b: Re, u: seq<Callback>, v: seq<Callback>)
    requires Matches(a, u) && Matches(b, v)
    ensures Matches(Then(a, b), u + v)
  {
    var w := u + v;
    assert w[..|u|] == u && w[|u|..] == v;
  }

  lemma {:induction false} JoinMany(a: Re, u: seq<Callback>, v: seq<Callback>)
    requires Matches(Many(a), u) && Matches(a, v) && v != []
    ensures Matches(Many(a), u + v)
    decreases |u|
  {
    var w := u + v;
    if u == [] {
      assert w[..|w|] == v && w[|w|..] == [];
    } else {
      var k :| 0 < k <= |u| && Matches(a, u[..k]) && Matches(Many(a), u[k..]);
      JoinMany(a, u[k..], v);
      assert w[..k] == u[..k] && w[k..] == u[k..] + v;
    }
  }

  // ----- The language -----

  const FAILED_ATTEMPT := OneOf({OnConnectFail})
  const TRAFFIC := OneOf({OnText, OnBinary, OnCall})
  const LOSS := OneOf({OnClose, OnDisconnect})

  /** One socket: on_connect, its traffic, and one on_close or on_disconnect. */
  const SOCKET_LIFE := Then(OneOf({OnConnect}), Then(Many(TRAFFIC), LOSS))

  /** `(on_connect_fail | on_connect (on_text|on_binary|on_call)* (on_close|on_disconnect))*` */
  const LIVES := Many(Or(FAILED_ATTEMPT, SOCKET_LIFE))

  ghost predicate PrefixOf(r: Re, w: seq<Callback>) {
    exists rest: seq<Callback> :: Matches(r, w + rest)
  }

  function Names(log: seq<Entry>): seq<Callback> {
    seq(|log|, k requires 0 <= k < |log| => log[k].callback)
  }

  /** The trace so far has `open` as the beginning of a socket's life after whole lives `done`. */
  predicate Split(w: seq<Callback>, done: seq<Callback>, traffic: seq<Callback>) {
    w == done + [OnConnect] + traffic && Matches(LIVES, done) && Matches(Many(TRAFFIC), traffic)
  }

  ghost predicate MidLife(w: seq<Callback>) {
    exists done, traffic :: Split(w, done, traffic)
  }

  ghost predicate LanguageInv(s: State) {
    var w := Names(s.log);
    if s.phase.Done? then Matches(LIVES, w) || MidLife(w)
    else if HasSocket(s) || s.phase == InHandler(OnConnect) then MidLife(w)
    else Matches(LIVES, w)
  }

  lemma FailJoins(w: seq<Callback>)
    requires Matches(LIVES, w)
    ensures Matches(LIVES, w + [OnConnectFail])
  {
    JoinMany(Or(FAILED_ATTEMPT, SOCKET_LIFE), w, [OnConnectFail]);
  }

  lemma LifeBegins(w: seq<Callback>)
    requires Matches(LIVES, w)
    ensures MidLife(w + [OnConnect])
  {
    assert w + [OnConnect] == w + [OnConnect] + [];
    assert Split(w + [OnConnect], w, []);
  }

  lemma LifeGoesOn(w: seq<Callback>, cb: Callback)
    requires MidLife(w) && cb in {OnText, OnBinary, OnCall}
    ensures MidLife(w + [cb])
  {
    var done, traffic :| Split(w, done, traffic);
    JoinMany(TRAFFIC, traffic, [cb]);
    assert w + [cb] == done + [OnConnect] + (traffic + [cb]);
    assert Split(w + [cb], done, traffic + [cb]);
  }

  lemma WholeLife(traffic: seq<Callback>, cb: Callback)
    requires Matches(Many(TRAFFIC), traffic) && cb in {OnClose, OnDisconnect}
    ensures Matches(SOCKET_LIFE, [OnConnect] + (traffic + [cb]))
  {
    JoinThen(Many(TRAFFIC), LOSS, traffic, [cb]);
    JoinThen(OneOf({OnConnect}), Then(Many(TRAFFIC), LOSS), [OnConnect], traffic + [cb]);
  }

  lemma LifeJoins(done: seq<Callback>, life: seq<Callback>)
    requires Matches(LIVES, done) && Matches(SOCKET_LIFE, life) && life != []
    ensures Matches(LIVES, done + life)
  {
    JoinMany(Or(FAILED_ATTEMPT, SOCKET_LIFE), done, life);
  }

  lemma LifeEnds(w: seq<Callback>, cb: Callback)
    requires MidLife(w) && cb in {OnClose, OnDisconnect}
    ensures Matches(LIVES, w + [cb])
  {
    var done, traffic :| Split(w, done, traffic);
    WholeLife(traffic, cb);
    var life := [OnConnect] + (traffic + [cb]);
    LifeJoins(done, life);
    assert w + [cb] == done + life;
  }

  lemma NamesGrow(log: seq<Entry>, e: Entry)
    ensures Names(log + [e]) == Names(log) + [e.callback]
  {
  }

  lemma NamesSettle(log: seq<Entry>, o: Outcome)
    ensures Names(Settle(log, o)) == Names(log)
  {
  }

  /** What one event adds to the trace. */
  function Calls(s: State, e: Event): Option<Callback>
    requires Enabled(s, e)
  {
    match e
    case Connected(ok) => Some(if ok then OnConnect else OnConnectFail)
    case TakeCall => Some(OnCall)
    case IncomingOver => Some(OnDisconnect)
    case SinkReports(r) => if !s.phase.closing && (r.SinkAlreadyClosed? || r.SinkIo?) then Some(OnDisconnect) else None
    case TakeIncoming =>
      (match s.socket.inbox[0]
       case Broken(_) => Some(OnDisconnect)
       case Delivered(Text(_)) => Some(OnText)
       case Delivered(Binary(_)) => Some(OnBinary)
       case Delivered(Close(_)) => Some(OnClose))
    case _ => None
  }

  lemma TraceStep(c: Config, s: State, e: Event)
    requires Enabled(s, e)
    ensures var t := Apply(c, s, e);
            match Calls(s, e)
            case Some(cb) => Names(t.log) == Names(s.log) + [cb] && t.phase == InHandler(cb)
            case None => Names(t.log) == Names(s.log)
  {
    match Calls(s, e)
    case Some(cb) => NamesGrow(s.log, Entry(cb, Pending));
    case None => if e.Returns? { NamesSettle(s.log, e.outcome); }
  }

  /** Where the call is made from. */
  lemma CallerPhase(s: State, e: Event)
    requires Enabled(s, e) && Calls(s, e).Some?
    ensures var cb := Calls(s, e).value;
            if cb.OnConnect? || cb.OnConnectFail? then s.phase.Connecting? else HasSocket(s)
  {
  }

  /** Moves without a call keep the side of the socket's life they are on, or end the client. */
  lemma SilentPhase(c: Config, s: State, e: Event)
    requires Enabled(s, e) && Calls(s, e).None?
    ensures var t := Apply(c, s, e);
            || t.phase.Done?
            || ((HasSocket(t) || t.phase == InHandler(OnConnect)) == (HasSocket(s) || s.phase == InHandler(OnConnect)))
    ensures s.phase.Done? ==> Apply(c, s, e).phase.Done?
  {
  }

  lemma LanguageStep(c: Config, s: State, e: Event)
    requires LanguageInv(s) && Enabled(s, e)
    ensures LanguageInv(Apply(c, s, e))
  {
    var w := Names(s.log);
    TraceStep(c, s, e);
    match Calls(s, e) {
      case Some(cb) =>
        CallerPhase(s, e);
        match cb {
          case OnConnect => LifeBegins(w);
          case OnConnectFail => FailJoins(w);
          case OnClose => LifeEnds(w, cb);
          case OnDisconnect => LifeEnds(w, cb);
          case _ => LifeGoesOn(w, cb);
        }
      case None => SilentPhase(c, s, e);
    }
  }

  lemma {:induction false} LanguageAlways(c: Config, es: seq<Event>)
    requires After(c, es).Some?
    ensures LanguageInv(After(c, es).value)
  {
    if es == [] {
      assert Names([]) == [];
    } else {
      LanguageAlways(c, es[..|es| - 1]);
      LanguageStep(c, After(c, es[..|es| - 1]).value, es[|es| - 1]);
    }
  }

  /** Every run's handler trace is a prefix of a word of the language; between two
      sockets it is a word. */
  lemma CallbackLanguage(c: Config, es: seq<Event>)
    requires After(c, es).Some?
    ensures var s := After(c, es).value;
            && PrefixOf(LIVES, Names(s.log))
            && (!s.phase.Done? && !HasSocket(s) && s.phase != InHandler(OnConnect) ==> Matches(LIVES, Names(s.log)))
  {
    LanguageAlways(c, es);
    var w := Names(After(c, es).value.log);
    if Matches(LIVES, w) {
      assert Matches(LIVES, w + []) by { assert w + [] == w; }
    } else {
      LifeEnds(w, OnDisconnect);
    }
  }
}

/** What the client is given by its users, read off the events of a run alone, and
    what becomes of it: src/client.rs 494-562 and 638-711. */
module ClientInputs {
  import opened Wire
  import opened ClientSpec
  import opened ClientTheorems

  predicate LiveAfter(c: Config, es: seq<Event>) {
    After(c, es).Some? && !After(c, es).value.phase.Done?
  }

  /** The calls made while the client lived, whatever it was doing. */
  function PushedCalls(c: Config, es: seq<Event>): seq<nat> {
    if es == [] then []
    else
      var init, e := es[..|es| - 1], es[|es| - 1];
      PushedCalls(c, init) + (if e.PushCall? && LiveAfter(c, init) then [e.call] else [])
  }

  /** The messages submitted while the client lived, whatever it was doing. */
  function Issued(c: Config, es: seq<Event>): seq<Message> {
    if es == [] then []
    else
      var init, e := es[..|es| - 1], es[|es| - 1];
      Issued(c, init) + (if e.Submit? && LiveAfter(c, init) then [e.message] else [])
  }

  /** As long as a handle is left, nobody is kept from sending or calling. */
  lemma NobodyIsBlocked(s: State, m: Message, call: nat)
    ensures s.mail.open ==> Enabled(s, Submit(m))
    ensures s.calls.open ==> Enabled(s, PushCall(call))
  {
  }

  // ----- Calls survive reconnects -----

  lemma CallsStep(c: Config, s: State, e: Event)
    requires Enabled(s, e)
    ensures var k, n := s.calls, Apply(c, s, e).calls;
            n.called + n.queue == k.called + k.queue + (if e.PushCall? && !s.phase.Done? then [e.call] else [])
  {
    var k := s.calls;
    match e {
      case PushCall(call) => assert k.called + (k.queue + [call]) == k.called + k.queue + [call];
      case TakeCall => assert (k.called + [k.queue[0]]) + k.queue[1..] == k.called + k.queue;
      case _ => assert Apply(c, s, e).calls == k.(open := Apply(c, s, e).calls.open);
    }
  }

  /** In every run the calls handled, followed by those queued, are exactly the
      calls made while the client lived, in order: no reconnection loses one. */
  lemma {:induction false} CallsSurvive(c: Config, es: seq<Event>)
    requires After(c, es).Some?
    ensures var k := After(c, es).value.calls; k.called + k.queue == PushedCalls(c, es)
  {
    if es != [] {
      CallsSurvive(c, es[..|es| - 1]);
      CallsStep(c, After(c, es[..|es| - 1]).value, es[|es| - 1]);
    }
  }

  // ----- What becomes of a message -----

  function HandCount(hs: seq<Hand>, id: nat): nat {
    if hs == [] then 0 else HandCount(hs[..|hs| - 1], id) + (if hs[|hs| - 1].id == id then 1 else 0)
  }

  function DropCount(ds: seq<nat>, id: nat): nat {
    if ds == [] then 0 else DropCount(ds[..|ds| - 1], id) + (if ds[|ds| - 1] == id then 1 else 0)
  }

  /** A message that has left the queue was handed to one socket or discarded
      once, never both; the queue still has the others, as they were submitted. */
  ghost predicate AccountInv(m: Mail, ms: seq<Message>) {
    && m.issued == |ms|
    && |m.outgoing| <= m.issued
    && (forall id: nat :: HandCount(m.handed, id) + DropCount(m.discarded, id) == if id < Oldest(m) then 1 else 0)
    && (forall k | 0 <= k < |m.outgoing| :: m.outgoing[k] == Item(Oldest(m) + k, ms[Oldest(m) + k]))
  }

  lemma SubmitAccount(m: Mail, ms: seq<Message>, message: Message)
    requires AccountInv(m, ms)
    ensures AccountInv(m.Submit(message), ms + [message])
  {
  }

  lemma DiscardAccount(m: Mail, ms: seq<Message>)
    requires AccountInv(m, ms) && m.outgoing != []
    ensures AccountInv(m.Discard(), ms)
  {
    var n := m.Discard();
    assert n.discarded[..|n.discarded| - 1] == m.discarded;
    assert m.outgoing[0].id == Oldest(m);
  }

  lemma HandAccount(m: Mail, ms: seq<Message>)
    requires AccountInv(m, ms) && m.outgoing != []
    ensures AccountInv(m.HandOver(), ms)
  {
    var n := m.HandOver();
    assert n.handed[..|n.handed| - 1] == m.handed;
    assert m.outgoing[0].id == Oldest(m);
  }

  lemma AccountStep(c: Config, s: State, e: Event, ms: seq<Message>)
    requires AccountInv(s.mail, ms) && Enabled(s, e)
    ensures AccountInv(Apply(c, s, e).mail, ms + (if e.Submit? && !s.phase.Done? then [e.message] else []))
  {
    hide AccountInv;
    assert ms + [] == ms;
    match e {
      case Submit(m) => if !s.phase.Done? { SubmitAccount(s.mail, ms, m); }
      case DrainOne => DiscardAccount(s.mail, ms);
      case TakeOutgoing(_) => HandAccount(s.mail, ms);
      case _ => SameAccount(s.mail, Apply(c, s, e).mail, ms);
    }
  }

  lemma SameAccount(m: Mail, n: Mail, ms: seq<Message>)
    requires AccountInv(m, ms)
    requires n.outgoing == m.outgoing && n.issued == m.issued && n.handed == m.handed && n.discarded == m.discarded
    ensures AccountInv(n, ms)
  {
  }

  /** In every run each submitted message is waiting, was handed over exactly
      once, or was discarded exactly once. */
  lemma {:induction false} EveryMessageAccounted(c: Config, es: seq<Event>)
    requires After(c, es).Some?
    ensures AccountInv(After(c, es).value.mail, Issued(c, es))
  {
    if es != [] {
      EveryMessageAccounted(c, es[..|es| - 1]);
      AccountStep(c, After(c, es[..|es| - 1]).value, es[|es| - 1], Issued(c, es[..|es| - 1]));
    }
  }

  // ----- The marks between the sockets, read off the events and the log -----

  /** The handler that the last event of `es` called, if it called one. */
  function JustCalled(c: Config, es: seq<Event>): Option<Callback> {
    if es == [] || After(c, es).None? then None
    else
      var before, after := After(c, es[..|es| - 1]), After(c, es).value.log;
      if before.Some? && |after| > |before.value.log| then Some(after[|after| - 1].callback) else None
  }

  /** How many messages had been submitted at each call of one of the handlers. */
  function Marks(c: Config, es: seq<Event>, cbs: set<Callback>): seq<nat> {
    if es == [] then []
    else
      var init, cb := es[..|es| - 1], JustCalled(c, es);
      Marks(c, init, cbs) + (if cb.Some? && cb.value in cbs then [|Issued(c, init)|] else [])
  }

  /** How many had been submitted when a drain last found the queue empty. */
  function LastDrain(c: Config, es: seq<Event>): nat {
    if es == [] then 0
    else if es[|es| - 1].DrainEmpty? then |Issued(c, es[..|es| - 1])|
    else LastDrain(c, es[..|es| - 1])
  }

  /** The last event ends an on_connect well, so the client gets a socket. */
  predicate GetsSocket(c: Config, es: seq<Event>) {
    && es != [] && es[|es| - 1] == Returns(Continue)
    && After(c, es[..|es| - 1]).Some? && After(c, es[..|es| - 1]).value.phase == InHandler(OnConnect)
  }

  /** The last drain before each socket. */
  function DrainsOfSockets(c: Config, es: seq<Event>): seq<nat> {
    if es == [] then []
    else
      var init := es[..|es| - 1];
      DrainsOfSockets(c, init) + (if GetsSocket(c, es) then [LastDrain(c, init)] else [])
  }

  predicate NewSocketStep(s: State, e: Event) {
    e == Returns(Continue) && s.phase == InHandler(OnConnect)
  }

  lemma CallMarks(c: Config, s: State, e: Event)
    requires Enabled(s, e)
    ensures var t := Apply(c, s, e);
            && |t.log| <= |s.log| + 1
            && (var cb := if |t.log| > |s.log| then Some(t.log[|t.log| - 1].callback) else None;
                && t.mail.lost == s.mail.lost
                   + (if cb.Some? && cb.value in {OnClose, OnDisconnect} then [s.mail.issued] else [])
                && t.mail.connected == s.mail.connected
                   + (if cb.Some? && cb.value in {OnConnect} then [s.mail.issued] else []))
  {
    if e.Returns? { ReturnMarks(c, s, e.outcome); }
  }

  lemma ReturnMarks(c: Config, s: State, o: Outcome)
    requires Enabled(s, Returns(o))
    ensures var t := Apply(c, s, Returns(o));
            && |t.log| == |s.log| && t.mail.lost == s.mail.lost && t.mail.connected == s.mail.connected
            && t.mail.drained == s.mail.drained
            && t.mail.barriers == s.mail.barriers + (if NewSocketStep(s, Returns(o)) then [s.mail.drained] else [])
            && t.mail.epoch == s.mail.epoch + (if NewSocketStep(s, Returns(o)) then 1 else 0)
  {
  }

  lemma DrainMarks(c: Config, s: State, e: Event)
    requires Enabled(s, e)
    ensures var m, n := s.mail, Apply(c, s, e).mail;
            && n.drained == (if e.DrainEmpty? then m.issued else m.drained)
            && n.barriers == m.barriers + (if NewSocketStep(s, e) then [m.drained] else [])
            && n.epoch == m.epoch + (if NewSocketStep(s, e) then 1 else 0)
  {
    if e.Returns? { ReturnMarks(c, s, e.outcome); }
  }

  /** The marks that the theorems on reconnection speak of are what their names say. */
  lemma {:induction false} MarksAreRecorded(c: Config, es: seq<Event>)
    requires After(c, es).Some?
    ensures var m := After(c, es).value.mail;
            && m.lost == Marks(c, es, {OnClose, OnDisconnect})
            && m.connected == Marks(c, es, {OnConnect})
            && m.drained == LastDrain(c, es)
            && m.barriers == DrainsOfSockets(c, es)
            && m.epoch == |DrainsOfSockets(c, es)|
  {
    if es != [] {
      MarksAreRecorded(c, es[..|es| - 1]);
      EveryMessageAccounted(c, es[..|es| - 1]);
      CallMarks(c, After(c, es[..|es| - 1]).value, es[|es| - 1]);
      DrainMarks(c, After(c, es[..|es| - 1]).value, es[|es| - 1]);
    }
  }

  // ----- What a socket yields reaches the handlers -----

  /** The last event gives up a lost socket, to connect anew. */
  predicate GivesUpSocket(c: Config, es: seq<Event>) {
    && es != [] && After(c, es[..|es| - 1]).Some?
    && var phase := After(c, es[..|es| - 1]).value.phase;
    && (|| (es[|es| - 1].Awake? && phase.CloseSleep?)
        || (es[|es| - 1] == Returns(Continue) && phase == InHandler(OnDisconnect)))
  }

  /** Everything that the current socket's stream has yielded. */
  function Yielded(c: Config, es: seq<Event>): seq<Inbound> {
    if es == [] || GetsSocket(c, es) || GivesUpSocket(c, es) then []
    else Yielded(c, es[..|es| - 1]) + (if es[|es| - 1].NetIn? then [es[|es| - 1].item] else [])
  }

  /** There is a socket whose stream has not ended. */
  predicate Streaming(c: Config, es: seq<Event>) {
    && es != [] && !GivesUpSocket(c, es) && !es[|es| - 1].NetEnd?
    && (GetsSocket(c, es) || Streaming(c, es[..|es| - 1]))
  }

  /** The handlers called for what the current socket's stream yielded. */
  function Reactions(c: Config, es: seq<Event>): seq<Callback> {
    if es == [] || GetsSocket(c, es) || GivesUpSocket(c, es) then []
    else
      var cb := JustCalled(c, es);
      Reactions(c, es[..|es| - 1]) + (if es[|es| - 1].TakeIncoming? && cb.Some? then [cb.value] else [])
  }

  /** Each kind of item has its handler. */
  predicate Suits(item: Inbound, cb: Callback) {
    match item
    case Delivered(Text(_)) => cb.OnText?
    case Delivered(Binary(_)) => cb.OnBinary?
    case Delivered(Close(_)) => cb.OnClose?
    case Broken(_) => cb.OnDisconnect?
  }

  lemma TakenStep(c: Config, s: State)
    requires Enabled(s, TakeIncoming)
    ensures var t, k := Apply(c, s, TakeIncoming), s.socket;
            && |t.log| == |s.log| + 1 && Suits(k.inbox[0], t.log[|s.log|].callback)
            && t.socket == k.Take() && t.socket.seen + t.socket.inbox == k.seen + k.inbox
  {
    var k := s.socket;
    assert (k.seen + [k.inbox[0]]) + k.inbox[1..] == k.seen + k.inbox;
  }

  lemma SocketStep(c: Config, s: State, e: Event)
    requires Enabled(s, e)
    ensures var k, n := s.socket, Apply(c, s, e).socket;
            if NewSocketStep(s, e) then n.seen == n.inbox == [] && n.streamOpen
            else if (e.Awake? && s.phase.CloseSleep?) || (e == Returns(Continue) && s.phase == InHandler(OnDisconnect))
            then n.seen == n.inbox == [] && !n.streamOpen
            else && n.seen + n.inbox == k.seen + k.inbox + (if e.NetIn? then [e.item] else [])
                 && n.seen == k.seen + (if e.TakeIncoming? then [k.inbox[0]] else [])
                 && (n.streamOpen <==> k.streamOpen && !e.NetEnd?)
  {
    match e {
      case Returns(o) => ReturnedSocket(c, s, o);
      case NetIn(item) => assert s.socket.seen + (s.socket.inbox + [item]) == s.socket.seen + s.socket.inbox + [item];
      case TakeIncoming => TakenStep(c, s);
      case _ =>
    }
  }

  lemma ReturnedSocket(c: Config, s: State, o: Outcome)
    requires Enabled(s, Returns(o))
    ensures Apply(c, s, Returns(o)).socket ==
              if NewSocketStep(s, Returns(o)) then FRESH_SOCKET
              else if o.Continue? && s.phase == InHandler(OnDisconnect) then NO_SOCKET
              else s.socket
  {
  }

  /** In every run: what was taken from the current socket's stream, followed by
      what is left of it, is exactly what the network gave that socket, in order;
      and each item taken was answered by the call of its handler. */
  lemma {:induction false} EachItemIsHandled(c: Config, es: seq<Event>)
    requires After(c, es).Some?
    ensures var k := After(c, es).value.socket;
            && k.seen + k.inbox == Yielded(c, es)
            && (k.streamOpen <==> Streaming(c, es))
            && |Reactions(c, es)| == |k.seen|
            && forall i | 0 <= i < |k.seen| :: Suits(k.seen[i], Reactions(c, es)[i])
  {
    if es != [] {
      var s, e := After(c, es[..|es| - 1]).value, es[|es| - 1];
      EachItemIsHandled(c, es[..|es| - 1]);
      SocketStep(c, s, e);
      if e.TakeIncoming? { TakenStep(c, s); }
    }
  }

  // ----- Which limit the attempts have, and how many there were -----

  /** How many events of one kind there were since client_connect was last called. */
  function Since(c: Config, es: seq<Event>, counts: (Phase, Event) -> bool): nat {
    if es == [] || GivesUpSocket(c, es) then 0
    else
      var before := After(c, es[..|es| - 1]);
      Since(c, es[..|es| - 1], counts) + (if before.Some? && counts(before.value.phase, es[|es| - 1]) then 1 else 0)
  }

  lemma RetryCounts(c: Config, s: State, e: Event)
    requires Enabled(s, e)
    ensures var k, n := s.retry, Apply(c, s, e).retry;
            if (e.Awake? && s.phase.CloseSleep?) || (e == Returns(Continue) && s.phase == InHandler(OnDisconnect))
            then n.attempts == n.kept == n.sleeps == 0
            else && n.attempts == k.attempts + (if e.DrainEmpty? then 1 else 0)
                 && n.kept == k.kept + (if s.phase == InHandler(OnConnectFail) && e == Returns(Continue) then 1 else 0)
                 && n.sleeps == k.sleeps + (if s.phase.Retrying? && e.Awake? then 1 else 0)
  {
    if e.Returns? { RetryReturns(c, s, e.outcome); }
  }

  lemma RetryReturns(c: Config, s: State, o: Outcome)
    requires Enabled(s, Returns(o))
    ensures Apply(c, s, Returns(o)).retry ==
              if o.Continue? && s.phase == InHandler(OnDisconnect) then Retry(c.maxReconnect, 0, 0, 0)
              else if o.Continue? && s.phase == InHandler(OnConnectFail) then s.retry.(kept := s.retry.kept + 1)
              else s.retry
  {
  }

  /** The attempts, the failures answered with Reconnect and the sleeps are counted. */
  lemma {:induction false} RetryIsCounted(c: Config, es: seq<Event>)
    requires After(c, es).Some?
    ensures var r := After(c, es).value.retry;
            && r.attempts == Since(c, es, (p, e: Event) => e.DrainEmpty?)
            && r.kept == Since(c, es, (p, e) => p == InHandler(OnConnectFail) && e == Returns(Continue))
            && r.sleeps == Since(c, es, (p: Phase, e: Event) => p.Retrying? && e.Awake?)
  {
    if es != [] {
      RetryIsCounted(c, es[..|es| - 1]);
      RetryCounts(c, After(c, es[..|es| - 1]).value, es[|es| - 1]);
    }
  }

  /** Before the first socket the initial limit, in every reconnection the other. */
  predicate LimitInv(c: Config, s: State) {
    && (HasSocket(s) || s.phase.CloseSleep? || s.phase == InHandler(OnClose) || s.phase == InHandler(OnDisconnect) ==>
          s.mail.epoch > 0)
    && (s.mail.epoch == 0 ==> s.retry.limit == c.maxInitial)
    && (s.mail.epoch > 0 && (s.phase.Draining? || s.phase.Retrying? || Attempting(s)) ==>
          s.retry.limit == c.maxReconnect)
  }

  lemma LimitStep(c: Config, s: State, e: Event)
    requires LimitInv(c, s) && Enabled(s, e)
    ensures LimitInv(c, Apply(c, s, e))
  {
    if e.Returns? { LimitReturns(c, s, e.outcome); }
  }

  lemma LimitReturns(c: Config, s: State, o: Outcome)
    requires LimitInv(c, s) && Enabled(s, Returns(o))
    ensures LimitInv(c, Apply(c, s, Returns(o)))
  {
  }

  lemma {:induction false} LimitsApply(c: Config, es: seq<Event>)
    requires After(c, es).Some?
    ensures LimitInv(c, After(c, es).value)
  {
    if es != [] {
      LimitsApply(c, es[..|es| - 1]);
      LimitStep(c, After(c, es[..|es| - 1]).value, es[|es| - 1]);
    }
  }

  // ----- The client ends for a reason -----

  predicate Happened(es: seq<Event>, e: Event) {
    exists k | 0 <= k < |es| :: es[k] == e
  }

  /** Each result of the task, and what must have happened for it. */
  predicate ReasonGiven(es: seq<Event>, s: State) {
    var last := if s.log == [] then Continue else s.log[|s.log| - 1].outcome;
    match s.phase
    case Done(Finished) =>
      s.selfClosed || last.CloseMode? || Happened(es, DropHandles) || Happened(es, DropCallers)
    case Done(HandlerError) => last.Failure?
    case Done(ClientDied) => Happened(es, DropHandles)
    case Done(SinkError) => Happened(es, SinkReports(SinkOther))
    case _ => true
  }

  /** A queue is closed exactly by dropping its handles. */
  predicate ClosedByDrop(es: seq<Event>, s: State) {
    && (!s.mail.open <==> Happened(es, DropHandles))
    && (!s.calls.open <==> Happened(es, DropCallers))
    && (s.phase == SinkFailed(true) ==> s.selfClosed)
    && (s.phase.InHandler? ==> s.log != [])
  }

  lemma HappenedStays(init: seq<Event>, e: Event)
    ensures Happened(init + [e], e)
    ensures forall x :: Happened(init + [e], x) <==> Happened(init, x) || x == e
  {
    assert (init + [e])[|init|] == e;
    forall x | Happened(init, x) ensures Happened(init + [e], x) {
      var k :| 0 <= k < |init| && init[k] == x;
      assert (init + [e])[k] == x;
    }
    forall x | Happened(init + [e], x) && x != e ensures Happened(init, x) {
      var k :| 0 <= k < |init| + 1 && (init + [e])[k] == x;
      assert init[k] == x;
    }
  }

  lemma ClosedStep(c: Config, s: State, e: Event, init: seq<Event>)
    requires Enabled(s, e) && ClosedByDrop(init, s)
    ensures ClosedByDrop(init + [e], Apply(c, s, e))
  {
    HappenedStays(init, e);
    hide Happened;
  }

  lemma ReasonStep(c: Config, s: State, e: Event, init: seq<Event>)
    requires Enabled(s, e) && ReasonGiven(init, s) && ClosedByDrop(init, s)
    ensures ReasonGiven(init + [e], Apply(c, s, e))
  {
    HappenedStays(init, e);
    hide Happened;
    if e.Returns? { ReasonReturns(c, s, e.outcome, init); }
  }

  lemma ReasonReturns(c: Config, s: State, o: Outcome, init: seq<Event>)
    requires Enabled(s, Returns(o)) && ClosedByDrop(init, s)
    ensures ReasonGiven(init + [Returns(o)], Apply(c, s, Returns(o)))
  {
    hide Happened;
  }

  /** In every run a client that has ended has done so for one of these reasons;
      when its attempts are exhausted is the subject of `RetryExactness`. */
  lemma {:induction false} EndsForAReason(c: Config, es: seq<Event>)
    requires After(c, es).Some?
    ensures ReasonGiven(es, After(c, es).value) && ClosedByDrop(es, After(c, es).value)
  {
    if es != [] {
      var init := es[..|es| - 1];
      EndsForAReason(c, init);
      assert es == init + [es[|es| - 1]];
      ClosedStep(c, After(c, init).value, es[|es| - 1], init);
      ReasonStep(c, After(c, init).value, es[|es| - 1], init);
    }
  }
}

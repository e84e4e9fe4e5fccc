/** What the server is given, read off the events of a run alone, and what the
    sessions inside it do: src/server.rs 176-247 and 324-372 with
    src/session.rs 86-110. */
module ServerInputs {
  import opened Wire
  import S = SessionSpec
  import SessionInputs
  import opened ServerSpec

  predicate RunningAfter<C>(es: seq<Event<C>>) {
    After(es).Some? && !Stopped(After(es).value)
  }

  /** The connections accepted while the actor ran. */
  function Accepted<C>(es: seq<Event<C>>): seq<nat> {
    if es == [] then []
    else
      var init, e := es[..|es| - 1], es[|es| - 1];
      Accepted(init) + (if e.AcceptSocket? && RunningAfter(init) then [e.conn] else [])
  }

  /** The calls made to the server while the actor ran. */
  function ServerCalls<C>(es: seq<Event<C>>): seq<C> {
    if es == [] then []
    else
      var init, e := es[..|es| - 1], es[|es| - 1];
      ServerCalls(init) + (if e.PushServerCall? && RunningAfter(init) then [e.call] else [])
  }

  /** How many requests were made, in all. */
  function Requested<C>(es: seq<Event<C>>): nat {
    if es == [] then 0 else Requested(es[..|es| - 1]) + (if es[|es| - 1].RequestShutdown? then 1 else 0)
  }

  /** Users and sockets are never kept from reaching the server. */
  lemma NobodyIsBlocked<C>(s: System<C>, conn: nat, call: C)
    ensures Enabled(s, RequestShutdown) && Enabled(s, AcceptSocket(conn)) && Enabled(s, PushServerCall(call))
  {
  }

  lemma InputStep<C>(s: System<C>, e: Event<C>)
    requires Enabled(s, e)
    ensures var t := Apply(s, e);
            && t.arrived == s.arrived + (if e.AcceptSocket? && !Stopped(s) then [e.conn] else [])
            && |t.callers| == |s.callers| + (if e.RequestShutdown? then 1 else 0)
            && t.called + t.callQ == s.called + s.callQ + (if e.PushServerCall? && !Stopped(s) then [e.call] else [])
  {
    match e {
      case PushServerCall(call) => assert s.called + (s.callQ + [call]) == s.called + s.callQ + [call];
      case TakeServerCall => assert (s.called + [s.callQ[0]]) + s.callQ[1..] == s.called + s.callQ;
      case _ =>
    }
  }

  /** In every run: the connections recorded are those accepted; the calls handled,
      followed by those queued, are exactly those made, in order; and everyone who
      asked for a shutdown is a caller. */
  lemma {:induction false} InputsAreRecorded<C>(es: seq<Event<C>>)
    requires After(es).Some?
    ensures var s := After(es).value;
            && s.arrived == Accepted(es)
            && s.called + s.callQ == ServerCalls(es)
            && |s.callers| == Requested(es)
  {
    if es != [] {
      InputsAreRecorded(es[..|es| - 1]);
      InputStep(After(es[..|es| - 1]).value, es[|es| - 1]);
    }
  }

  // ----- Each session inside the server lives a run of its own -----

  const FAREWELL := S.Submit(Close(Some(CloseFrame(1001, "server shutting down"))))

  /** The events of session `i`: what it did before on_connect returned, its own
      events since, and the Away Close of its watcher. */
  function SessionEvents<C>(es: seq<Event<C>>, i: nat): seq<S.Event> {
    if es == [] then []
    else
      var init, e := es[..|es| - 1], es[|es| - 1];
      var before := SessionEvents(init, i);
      if After(init).None? then before
      else before + Concerns(After(init).value, e, i)
  }

  /** What one event of the server is to session `i`. */
  function Concerns<C>(s: System<C>, e: Event<C>, i: nat): seq<S.Event> {
    match e
    case ConnectAccepts(_, early) => if i == |s.sessions| then early else []
    case Session(j, se) => if j == i then [se] else []
    case WatcherMoves(j) =>
      if j == i < |s.sessions| && s.sessions[i].watcher.Checking? && s.version != 0 then [FAREWELL] else []
    case _ => []
  }

  lemma ConcernsStep<C>(s: System<C>, e: Event<C>, i: nat, ses: seq<S.Event>)
    requires Enabled(s, e)
    requires if i < |s.sessions| then S.After(ses) == Some(s.sessions[i].actor) else ses == []
    ensures var t := Apply(s, e); var longer := ses + Concerns(s, e, i);
            if i < |t.sessions| then S.After(longer) == Some(t.sessions[i].actor) else longer == []
  {
    var what := Concerns(s, e, i);
    if |what| == 1 && i < |s.sessions| {
      assert (ses + what)[..|ses|] == ses && (ses + what)[|ses|] == what[0];
    } else if i == |s.sessions| {
      assert ses + what == what;
    } else {
      assert ses + what == ses;
    }
  }

  /** Every session inside every run of the server is a run of the session
      actor, so all its theorems hold of it. */
  lemma {:induction false} SessionsRun<C>(es: seq<Event<C>>, i: nat)
    requires After(es).Some?
    ensures var s := After(es).value;
            if i < |s.sessions| then S.After(SessionEvents(es, i)) == Some(s.sessions[i].actor)
            else SessionEvents(es, i) == []
  {
    if es != [] {
      SessionsRun(es[..|es| - 1], i);
      ConcernsStep(After(es[..|es| - 1]).value, es[|es| - 1], i, SessionEvents(es[..|es| - 1], i));
    }
  }

  // ----- The Close that ends a live session -----

  predicate IsCloseOf(e: S.Event) {
    e.Submit? && e.message.Close?
  }

  /** A user has closed session `i`. */
  predicate UserCloses<C>(es: seq<Event<C>>, i: nat) {
    es != [] &&
    var init, e := es[..|es| - 1], es[|es| - 1];
    || UserCloses(init, i)
    || (e.Session? && e.i == i && IsCloseOf(e.e))
    || (e.ConnectAccepts? && After(init).Some? && |After(init).value.sessions| == i
        && exists k | 0 <= k < |e.early| :: IsCloseOf(e.early[k]))
  }

  /** Every Close in the queue of `a` is the Away Close. */
  predicate OnlyFarewell(a: S.Actor) {
    forall k | 0 <= k < |a.submitted| && a.submitted[k].Close? ::
      a.submitted[k] == Close(Some(CloseFrame(1001, "server shutting down")))
  }

  lemma {:induction false} NoCloseSubmitted(ses: seq<S.Event>)
    requires S.After(ses).Some? && forall k | 0 <= k < |ses| :: !IsCloseOf(ses[k])
    ensures forall k | 0 <= k < |S.After(ses).value.submitted| :: !S.After(ses).value.submitted[k].Close?
  {
    if ses != [] { NoCloseSubmitted(ses[..|ses| - 1]); }
  }

  /** Every Close the session was sent is its watcher's, and is the Away Close. */
  predicate FarewellInv(l: Live) {
    && OnlyFarewell(l.actor)
    && (l.forwarder.Spawned? ==> l.watcher.Unspawned?)
    && (forall k | 0 <= k < |l.actor.submitted| && l.actor.submitted[k].Close? :: l.watcher.Fired?)
  }

  lemma {:induction false} FarewellOnly<C>(es: seq<Event<C>>, i: nat)
    requires After(es).Some? && i < |After(es).value.sessions| && !UserCloses(es, i)
    ensures FarewellInv(After(es).value.sessions[i])
  {
    var init, e := es[..|es| - 1], es[|es| - 1];
    var s := After(init).value;
    if i < |s.sessions| {
      FarewellOnly(init, i);
      FarewellStep(s, e, i);
    } else {
      NoCloseSubmitted(e.early);
    }
  }

  lemma FarewellStep<C>(s: System<C>, e: Event<C>, i: nat)
    requires Enabled(s, e) && i < |s.sessions| && !(e.Session? && e.i == i && IsCloseOf(e.e))
    requires FarewellInv(s.sessions[i])
    ensures FarewellInv(Apply(s, e).sessions[i])
  {
    var l, m := s.sessions[i], Apply(s, e).sessions[i];
    var a, b := l.actor.submitted, m.actor.submitted;
    if e == WatcherMoves(i) {
      assert b == a || (m.watcher.Fired? && b == a + [FAREWELL.message]);
    } else {
      assert b == a || (|b| == |a| + 1 && a <= b && !b[|a|].Close?);
      assert l.watcher.Fired? ==> m.watcher.Fired?;
    }
  }

  /** A watcher that fires sends a session that still lives exactly the Away Close. */
  lemma WatcherSends<C>(s: System<C>, i: nat)
    requires Enabled(s, WatcherMoves(i)) && Apply(s, WatcherMoves(i)).sessions[i].watcher.Fired?
    ensures var a, b := s.sessions[i].actor, Apply(s, WatcherMoves(i)).sessions[i].actor;
            var away := Close(Some(CloseFrame(1001, "server shutting down")));
            if S.Unfinished(a) then b == a.(toSocket := a.toSocket + [away], submitted := a.submitted + [away])
            else b == a
  {
  }

  predicate ToldToLeave(l: Live) {
    l.watcher.Fired? && S.Unfinished(l.actor) ==>
      Close(Some(CloseFrame(1001, "server shutting down"))) in l.actor.submitted
  }

  lemma ToldStep<C>(s: System<C>, e: Event<C>, i: nat)
    requires Enabled(s, e) && i < |s.sessions| && ToldToLeave(s.sessions[i])
    ensures ToldToLeave(Apply(s, e).sessions[i])
  {
    var a, b := s.sessions[i].actor.submitted, Apply(s, e).sessions[i].actor.submitted;
    var away := Close(Some(CloseFrame(1001, "server shutting down")));
    assert away in a ==> away in b by {
      if away in a {
        var k :| 0 <= k < |a| && a[k] == away;
        assert b[k] == away;
      }
    }
    if e == WatcherMoves(i) && Apply(s, e).sessions[i].watcher.Fired? { WatcherSends(s, i); }
  }

  lemma {:induction false} ToldAlways<C>(es: seq<Event<C>>, i: nat)
    requires After(es).Some? && i < |After(es).value.sessions|
    ensures ToldToLeave(After(es).value.sessions[i])
  {
    var init, e := es[..|es| - 1], es[|es| - 1];
    if i < |After(init).value.sessions| {
      ToldAlways(init, i);
      ToldStep(After(init).value, e, i);
    }
  }

  /** A session that still lives after its watcher has fired has the Away Close in
      its queue. */
  lemma AwayIsQueued<C>(es: seq<Event<C>>, i: nat)
    requires After(es).Some? && i < |After(es).value.sessions|
    requires After(es).value.sessions[i].watcher.Fired? && S.Unfinished(After(es).value.sessions[i].actor)
    ensures Close(Some(CloseFrame(1001, "server shutting down"))) in After(es).value.sessions[i].actor.toSocket
  {
    var a := After(es).value.sessions[i].actor;
    ToldAlways(es, i);
    SessionsRun(es, i);
    S.OrderedHandover(SessionEvents(es, i));
    assert a.handed + a.toSocket == a.submitted && S.NoClose(a.handed);
    var k :| 0 <= k < |a.submitted| && a.submitted[k] == Close(Some(CloseFrame(1001, "server shutting down")));
    assert forall j | 0 <= j < |a.handed| :: a.submitted[j] == a.handed[j];
    assert a.toSocket[k - |a.handed|] == a.submitted[k];
  }

  /** A session that no user closed and that ended by taking a Close from its own
      queue was told so by the shutdown, and on_disconnect gets, or will get, the
      Away frame. */
  lemma ShutdownCloseIsGiven<C>(es: seq<Event<C>>, i: nat)
    requires After(es).Some? && i < |After(es).value.sessions| && !UserCloses(es, i)
    requires After(es).value.sessions[i].actor.phase.Returned?
    requires After(es).value.sessions[i].actor.phase.why.PoppedClose?
    ensures var s := After(es).value; var away := S.Closed(Some(CloseFrame(1001, "server shutting down")));
            && s.sessions[i].watcher.Fired?
            && s.sessions[i].actor.phase.result == away
            && (!s.mode.Aborted? ==>
                  && (forall k | 0 <= k < |s.given| && s.given[k].token == i :: s.given[k].result == away)
                  && (forall k | 0 <= k < |s.disconnectQ| && s.disconnectQ[k].token == i ::
                        s.disconnectQ[k].result == away))
  {
    var s := After(es).value;
    var a := s.sessions[i].actor;
    FarewellOnly(es, i);
    SessionsRun(es, i);
    S.OrderedHandover(SessionEvents(es, i));
    var k: nat :| S.ClosedAt(a, k);
    assert a.submitted[k].Close?;
    SessionInputs.OutcomeIs(a);
    if !s.mode.Aborted? { GivenResults(es, i); }
  }

  /** on_disconnect gets what the session returned, and an error after a crash. */
  lemma GivenResults<C>(es: seq<Event<C>>, i: nat)
    requires After(es).Some? && !After(es).value.mode.Aborted? && i < |After(es).value.sessions|
    ensures var s := After(es).value;
            forall n | (n in s.given || n in s.disconnectQ) && n.token == i ::
              match s.sessions[i].actor.phase
              case Returned(result, _) => n.result == result
              case Crashed => n.result == S.Failed("session actor crashed")
              case _ => false
  {
    Always(es);
    var s := After(es).value;
    var notes := s.given + s.disconnectQ;
    forall n | (n in s.given || n in s.disconnectQ) && n.token == i
      ensures n in notes
    {
    }
    if !S.Unfinished(s.sessions[i].actor) { SessionInputs.OutcomeIs(s.sessions[i].actor); }
  }
}

/** What every run of the server guarantees to those who call it. */
module ServerTheorems {
  import opened Wire
  import S = SessionSpec
  import opened ServerSpec
  import ServerInputs

  // ----- Drain safety -----

  /** Session `i` was passed to on_disconnect exactly once, with its own result. */
  predicate GivenOnce<C>(s: System<C>, i: nat)
    requires i < |s.sessions|
  {
    exists k | 0 <= k < |s.given| ::
      && s.given[k].token == i
      && !S.Unfinished(s.sessions[i].actor)
      && s.given[k].result == S.Outcome(s.sessions[i].actor)
      && forall j | 0 <= j < |s.given| && j != k :: s.given[j].token != i
  }

  /** No session is live, in a forwarder, or still in the disconnect queue. */
  predicate Drained<C>(s: System<C>) {
    && s.mode.Exited?
    && |s.disconnectQ| == 0
    && |s.given| == |s.sessions|
    && forall i | 0 <= i < |s.sessions| :: s.sessions[i].forwarder.Done? && GivenOnce(s, i)
  }

  lemma ExitIsDrained<C>(es: seq<Event<C>>)
    requires After(es).Some? && After(es).value.mode.Exited?
    ensures Drained(After(es).value)
  {
    Always(es);
    var s := After(es).value;
    NothingLeft(s);
    assert s.given + s.disconnectQ == s.given;
    forall i | 0 <= i < |s.sessions| ensures GivenOnce(s, i) {
      assert s.sessions[i].forwarder.Done?;
      var k :| 0 <= k < |s.given| && s.given[k].token == i;
    }
  }

  /** Whenever any caller of graceful_shutdown has its Ok, the server is drained. */
  lemma DrainSafety<C>(es: seq<Event<C>>, c: nat)
    requires After(es).Some? && c < |After(es).value.callers|
    requires After(es).value.callers[c].Okay?
    ensures Drained(After(es).value)
  {
    Always(es);
    ExitIsDrained(es);
  }

  // ----- Counter exactness -----

  function InProgress(l: Live): nat {
    if l.forwarder.Done? then 0 else 1
  }

  lemma {:induction false} Complement(ls: seq<Live>)
    ensures Sum(Reported, ls) + Sum(InProgress, ls) == |ls|
  {
    if ls != [] { Complement(ls[..|ls| - 1]); }
  }

  /** In every run without an abort, the counter is the forwarders in progress
      plus the queued disconnects, that is the sessions accepted minus the
      disconnects taken; so `saturating_sub` is plain subtraction. */
  lemma CounterExact<C>(es: seq<Event<C>>)
    requires After(es).Some? && !After(es).value.mode.Aborted?
    ensures var s := After(es).value;
            && s.active == Sum(InProgress, s.sessions) + |s.disconnectQ|
            && s.active == |s.sessions| - |s.given|
            && (Enabled(s, TakeDisconnect) ==> Apply(s, TakeDisconnect).active == s.active - 1)
  {
    Always(es);
    CounterPositive(After(es).value);
    Complement(After(es).value.sessions);
  }

  lemma QueuedMeansActive<C>(es: seq<Event<C>>)
    requires After(es).Some? && !After(es).value.mode.Aborted?
    ensures |After(es).value.disconnectQ| > 0 ==> After(es).value.active > 0
  {
    CounterExact(es);
  }

  // ----- The order of the disconnects -----

  lemma ReportStep<C>(s: System<C>, e: Event<C>)
    requires s.given + s.disconnectQ == s.reported && Enabled(s, e)
    ensures var t := Apply(s, e);
            && t.given + t.disconnectQ == t.reported
            && t.reported == (if e.ForwarderMoves? && s.sessions[e.i].forwarder.Awaiting? && !Stopped(s)
                              then s.reported + [Note(e.i, S.Outcome(s.sessions[e.i].actor))] else s.reported)
  {
    var t := Apply(s, e);
    match e {
      case TakeDisconnect =>
        assert (s.given + [s.disconnectQ[0]]) + s.disconnectQ[1..] == s.given + s.disconnectQ;
      case ForwarderMoves(i) =>
        if s.sessions[i].forwarder.Awaiting? && !Stopped(s) {
          var n := Note(i, S.Outcome(s.sessions[i].actor));
          assert s.given + (s.disconnectQ + [n]) == s.given + s.disconnectQ + [n];
        }
      case _ =>
    }
  }

  /** on_disconnect is called in the order in which the forwarders reported. */
  lemma {:induction false} DisconnectsInOrder<C>(es: seq<Event<C>>)
    requires After(es).Some?
    ensures var s := After(es).value; s.given + s.disconnectQ == s.reported
  {
    if es != [] {
      DisconnectsInOrder(es[..|es| - 1]);
      ReportStep(After(es[..|es| - 1]).value, es[|es| - 1]);
    }
  }

  // ----- One answer per caller -----

  lemma {:induction false} AnswersAreFinal<C>(s: System<C>, es: seq<Event<C>>, c: nat)
    requires Inv(s) && From(s, es).Some?
    requires c < |s.callers| && !s.callers[c].Waiting?
    ensures Inv(From(s, es).value)
    ensures c < |From(s, es).value.callers| && From(s, es).value.callers[c] == s.callers[c]
  {
    if es != [] {
      var t := From(s, es[..|es| - 1]).value;
      AnswersAreFinal(s, es[..|es| - 1], c);
      Step(t, es[|es| - 1]);
    }
  }

  /** Nobody is answered while the actor runs.  Once it has left its loop by
      itself, Ok belongs to exactly the requests it had received, which are the
      earliest ones; everyone else has ServerStopped, or waits in the dead queue. */
  lemma WhoIsAnswered<C>(es: seq<Event<C>>, c: nat)
    requires After(es).Some? && c < |After(es).value.callers|
    ensures var s := After(es).value;
            && (!Stopped(s) ==> s.callers[c].Waiting?)
            && (s.callers[c].Okay? <==> s.mode.Exited? && c < s.received)
            && (Stopped(s) ==> (s.callers[c].Waiting? <==> c in s.shutdownQ))
  {
    Always(es);
    var s := After(es).value;
  }

  /** The documentation promises Ok to every concurrent caller (src/server.rs
      393-394); a request still queued when the loop is left gets ServerStopped. */
  lemma ConcurrentCallerRefused<C>()
    ensures exists es: seq<Event<C>> :: After(es).Some? && After(es).value.callers == [Okay, ServerStopped]
  {
    var es, s := OneReceivedOneWaiting<C>();
    es, s := Onto(es, s, Exit);
    es, s := Onto(es, s, DropRequest);
    assert s.callers == [Okay, ServerStopped];
  }

  lemma OneReceivedOneWaiting<C>() returns (es: seq<Event<C>>, s: System<C>)
    ensures After(es) == Some(s) && s.mode.Idle? && s.shuttingDown && s.active == 0
    ensures s.callers == [Waiting, Waiting] && s.acks == [0] && s.shutdownQ == [1]
  {
    es, s := [], Start();
    es, s := Onto(es, s, RequestShutdown);
    es, s := Onto(es, s, TakeShutdown);
    es, s := Onto(es, s, RequestShutdown);
  }

  lemma Onto<C>(es: seq<Event<C>>, s: System<C>, e: Event<C>) returns (longer: seq<Event<C>>, t: System<C>)
    requires After(es) == Some(s) && Enabled(s, e)
    ensures After(longer) == Some(t) && t == Apply(s, e)
  {
    longer, t := es + [e], Apply(s, e);
    Extend(Start(), es, e);
  }

  function Drops<C>(n: nat): seq<Event<C>> {
    seq(n, _ => DropRequest)
  }

  /** Destroying the dead actor's queue answers everyone who is left. */
  lemma {:induction false} NobodyIsLeftWaiting<C>(s: System<C>, n: nat)
    requires Inv(s) && Stopped(s) && n <= |s.shutdownQ|
    ensures From(s, Drops(n)).Some?
    ensures var t := From(s, Drops(n)).value;
            && Inv(t) && t.mode == s.mode && t.shutdownQ == s.shutdownQ[n..] && |t.callers| == |s.callers|
            && (n == |s.shutdownQ| ==> forall c | 0 <= c < |t.callers| :: !t.callers[c].Waiting?)
  {
    if n > 0 {
      NobodyIsLeftWaiting(s, n - 1);
      assert Drops<C>(n)[..n - 1] == Drops<C>(n - 1);
      Step(From(s, Drops(n - 1)).value, DropRequest);
    }
  }

  // ----- Watchers -----

  /** No watcher misses the flip of the flag: during shutdown each live session
      has the Away Close in its queue already, or its forwarder or watcher can move,
      whether the watcher first looked before the flip or after it. */
  lemma NoWatcherMissesTheFlip<C>(es: seq<Event<C>>, i: nat)
    requires After(es).Some? && !Stopped(After(es).value) && After(es).value.shuttingDown
    requires i < |After(es).value.sessions| && S.Unfinished(After(es).value.sessions[i].actor)
    ensures var s := After(es).value; var l := s.sessions[i];
            || Close(Some(CloseFrame(1001, "server shutting down"))) in l.actor.toSocket
            || Enabled(s, WatcherMoves(i))
            || (l.watcher.Unspawned? && Enabled(s, ForwarderMoves(i)))
  {
    Always(es);
    var l := After(es).value.sessions[i];
    assert LiveInv(l, After(es).value.version);
    if l.watcher.Fired? { ServerInputs.AwayIsQueued(es, i); }
  }
}

/** What becomes of connections once a shutdown has begun: src/server.rs 146-175
    against the documentation at 378-380. */
module ShutdownGate {
  import opened Wire
  import opened ServerSpec
  import opened ServerTheorems

  // ----- Queues are first in, first out -----

  lemma {:induction false} Arrivals<C>(es: seq<Event<C>>)
    requires After(es).Some?
    ensures var s := After(es).value; s.taken + s.connQ == s.arrived
  {
    if es != [] {
      Arrivals(es[..|es| - 1]);
      ArrivalStep(After(es[..|es| - 1]).value, es[|es| - 1]);
    }
  }

  lemma ArrivalStep<C>(s: System<C>, e: Event<C>)
    requires s.taken + s.connQ == s.arrived && Enabled(s, e)
    ensures var t := Apply(s, e); t.taken + t.connQ == t.arrived && s.arrived <= t.arrived && s.taken <= t.taken
  {
    match e {
      case AcceptSocket(conn) => assert s.taken + (s.connQ + [conn]) == s.taken + s.connQ + [conn];
      case TakeConnection => assert (s.taken + [s.connQ[0]]) + s.connQ[1..] == s.taken + s.connQ;
      case _ =>
    }
  }

  lemma {:induction false} ArrivalsGrow<C>(s: System<C>, es: seq<Event<C>>)
    requires s.taken + s.connQ == s.arrived && From(s, es).Some?
    ensures var t := From(s, es).value; t.taken + t.connQ == t.arrived && s.arrived <= t.arrived && s.taken <= t.taken
  {
    if es != [] {
      ArrivalsGrow(s, es[..|es| - 1]);
      ArrivalStep(From(s, es[..|es| - 1]).value, es[|es| - 1]);
    }
  }

  // ----- The gate -----

  function Farewells(conns: seq<nat>): seq<Farewell> {
    seq(|conns|, k requires 0 <= k < |conns| => Farewell(conns[k], Some(SERVER_GOING_DOWN)))
  }

  lemma GateStep<C>(s: System<C>, e: Event<C>)
    requires Inv(s) && s.shuttingDown && Enabled(s, e)
    ensures var t := Apply(s, e);
            && Inv(t) && t.shuttingDown
            && t.connects == s.connects && t.called == s.called && |t.sessions| == |s.sessions|
            && (if e.TakeConnection?
                then && t.taken == s.taken + [s.connQ[0]]
                     && t.sent == s.sent + [Farewell(s.connQ[0], Some(SERVER_GOING_DOWN))]
                else t.taken == s.taken && t.sent == s.sent)
  {
    Step(s, e);
  }

  lemma FarewellsGrow(conns: seq<nat>, conn: nat)
    ensures Farewells(conns + [conn]) == Farewells(conns) + [Farewell(conn, Some(SERVER_GOING_DOWN))]
  {
  }

  /** From the first received shutdown request on, on_connect and on_call are
      never called again, no session is added, and each connection taken from
      the queue is sent exactly one Close frame, Away. */
  lemma {:induction false} NothingNewBegins<C>(s: System<C>, es: seq<Event<C>>)
    requires Inv(s) && s.shuttingDown && From(s, es).Some?
    ensures var t := From(s, es).value;
            && Inv(t) && t.shuttingDown
            && t.connects == s.connects && t.called == s.called && |t.sessions| == |s.sessions|
            && s.taken <= t.taken
            && t.sent == s.sent + Farewells(t.taken[|s.taken|..])
  {
    if es == [] {
      assert s.sent + Farewells(s.taken[|s.taken|..]) == s.sent;
    } else {
      var t, e := From(s, es[..|es| - 1]).value, es[|es| - 1];
      NothingNewBegins(s, es[..|es| - 1]);
      GateStep(t, e);
      if e.TakeConnection? {
        var rest := t.taken[|s.taken|..];
        assert (t.taken + [t.connQ[0]])[|s.taken|..] == rest + [t.connQ[0]];
        FarewellsGrow(rest, t.connQ[0]);
      }
    }
  }

  /** Arrival number `k` was sent the Away Close since `s`, at its own place. */
  predicate SaidFarewell<C>(s: System<C>, t: System<C>, k: nat)
    requires |s.taken| <= k < |t.arrived|
  {
    var place := |s.sent| + k - |s.taken|;
    place < |t.sent| && t.sent[place] == Farewell(t.arrived[k], Some(CloseFrame(1001, "server shutting down")))
  }

  /** Connections are numbered by arrival.  Of those still waiting when shutdown
      began, or arriving later, number `k` is sent its one Away Close if and only
      if it has been taken; nobody else is sent anything. */
  lemma FarewellIffTaken<C>(before: seq<Event<C>>, es: seq<Event<C>>, k: nat)
    requires After(before).Some? && After(before).value.shuttingDown && From(After(before).value, es).Some?
    requires |After(before).value.taken| <= k < |From(After(before).value, es).value.arrived|
    ensures var s, t := After(before).value, From(After(before).value, es).value;
            && |s.taken| <= |t.taken| <= |t.arrived| && t.taken + t.connQ == t.arrived
            && (SaidFarewell(s, t, k) <==> k < |t.taken|)
            && |t.sent| - |s.sent| == |t.taken| - |s.taken|
  {
    Always(before);
    Arrivals(before);
    var s, t := After(before).value, From(After(before).value, es).value;
    NothingNewBegins(s, es);
    ArrivalsGrow(s, es);
    if k < |t.taken| {
      assert t.arrived[k] == t.taken[k] == t.taken[|s.taken|..][k - |s.taken|];
    }
  }

  // ----- Do queued connections remain queued? -----

  /** The documented behaviour, as seen at a later state `t`: no connection
      waiting in `s` has been taken. */
  predicate StillQueued<C>(s: System<C>, t: System<C>) {
    s.connQ == [] || (t.taken == s.taken && s.connQ <= t.connQ)
  }

  ghost predicate RemainQueued<C(!new)>(s: System<C>) {
    forall es: seq<Event<C>> | From(s, es).Some? :: StillQueued(s, From(s, es).value)
  }

  /** The connection queue is out of the actor's reach for good. */
  predicate DoneTaking<C>(s: System<C>) {
    Stopped(s) || (s.shuttingDown && s.active == 0)
  }

  lemma DoneTakingStep<C>(s: System<C>, e: Event<C>)
    requires Inv(s) && DoneTaking(s) && Enabled(s, e)
    ensures var t := Apply(s, e);
            && Inv(t) && DoneTaking(t)
            && t.taken == s.taken && s.connQ <= t.connQ
  {
    Step(s, e);
  }

  lemma {:induction false} NeverTakenAgain<C>(s: System<C>, es: seq<Event<C>>)
    requires Inv(s) && DoneTaking(s) && From(s, es).Some?
    ensures var t := From(s, es).value;
            && Inv(t) && DoneTaking(t)
            && t.taken == s.taken && s.connQ <= t.connQ
  {
    if es != [] {
      NeverTakenAgain(s, es[..|es| - 1]);
      DoneTakingStep(From(s, es[..|es| - 1]).value, es[|es| - 1]);
    }
  }

  /** With a session left, the actor can come to take the first waiting connection. */
  lemma CanBeTaken<C>(s: System<C>) returns (es: seq<Event<C>>)
    requires Inv(s) && s.shuttingDown && !Stopped(s) && s.active > 0 && s.connQ != []
    ensures From(s, es).Some? && !StillQueued(s, From(s, es).value)
  {
    es := [];
    var t := s;
    if s.mode.Busy? {
      Extend(s, es, HandlerReturns(true));
      t, es := Apply(t, HandlerReturns(true)), es + [HandlerReturns(true)];
    }
    Extend(s, es, TakeConnection);
    es := es + [TakeConnection];
  }

  /** At any moment of a shutdown, the waiting connections remain queued for good
      if and only if there is none, the actor has stopped, or no session is left. */
  lemma WhenQueuedRemainQueued<C(!new)>(es: seq<Event<C>>)
    requires After(es).Some? && After(es).value.shuttingDown
    ensures var s := After(es).value;
            RemainQueued(s) <==> s.connQ == [] || Stopped(s) || s.active == 0
  {
    Always(es);
    var s := After(es).value;
    if Stopped(s) || s.active == 0 {
      forall more: seq<Event<C>> | From(s, more).Some? ensures StillQueued(s, From(s, more).value) {
        NeverTakenAgain(s, more);
      }
    } else if s.connQ != [] {
      var more := CanBeTaken(s);
      assert !StillQueued(s, From(s, more).value);
    }
  }

  /** In particular just after the first request has been taken: the condition is
      the number of sessions the caller can see. */
  lemma QueuedAtTheFirstRequest<C(!new)>(es: seq<Event<C>>)
    requires After(es).Some? && Enabled(After(es).value, TakeShutdown) && !After(es).value.shuttingDown
    ensures After(es + [TakeShutdown]).Some?
    ensures var s, t := After(es).value, After(es + [TakeShutdown]).value;
            && t.connQ == s.connQ && t.active == s.active
            && (RemainQueued(t) <==> s.connQ == [] || s.active == 0)
  {
    Extend(Start(), es, TakeShutdown);
    WhenQueuedRemainQueued(es + [TakeShutdown]);
  }

  /** A connection queued before the shutdown that does not remain queued. */
  lemma QueuedConnectionRejected<C(!new)>()
    ensures exists es: seq<Event<C>> ::
              && After(es).Some? && After(es).value.arrived == [1, 7] && After(es).value.connects == [1]
              && After(es).value.connQ == []
              && After(es).value.sent == [Farewell(7, Some(CloseFrame(1001, "server shutting down")))]
  {
    var es: seq<Event<C>>, s := OneSessionOneWaiting<C>();
    es, s := Onto(es, s, RequestShutdown);
    es, s := Onto(es, s, TakeShutdown);
    es, s := Onto(es, s, TakeConnection);
  }

  lemma OneSessionOneWaiting<C>() returns (es: seq<Event<C>>, s: System<C>)
    ensures After(es) == Some(s) && s.mode.Idle? && !s.shuttingDown && s.active == 1 && s.shutdownQ == []
    ensures s.arrived == [1, 7] && s.connects == [1] && s.connQ == [7] && s.sent == []
  {
    es, s := [], Start();
    es, s := Onto(es, s, AcceptSocket(1));
    es, s := Onto(es, s, TakeConnection);
    es, s := Onto(es, s, ConnectAccepts(0, []));
    es, s := Onto(es, s, AcceptSocket(7));
  }
}

/** Which callers of graceful_shutdown can be certain of their Ok, at the moment
    of the call: src/server.rs 136-161 and 393-403. */
module Answering {
  import opened Wire
  import S = SessionSpec
  import opened ServerSpec
  import opened Drain

  lemma {:induction false} Continues<C>(s: System<C>, es: seq<Event<C>>, more: seq<Event<C>>)
    requires From(s, es).Some? && From(From(s, es).value, more).Some?
    ensures From(s, es + more) == From(From(s, es).value, more)
  {
    if more == [] {
      assert es + more == es;
    } else {
      var shorter := more[..|more| - 1];
      assert (es + more)[..|es + more| - 1] == es + shorter;
      Continues(s, es, shorter);
    }
  }

  lemma Then<C>(s: System<C>, e: Event<C>, more: seq<Event<C>>)
    requires Enabled(s, e) && From(Apply(s, e), more).Some?
    ensures From(s, [e] + more) == From(Apply(s, e), more)
  {
    assert [e][..0] == [];
    assert From(s, [e]) == Some(Apply(s, e));
    Continues(s, [e], more);
  }

  // ----- Nothing stands in the way of the end of a drain -----

  /** A move that makes the owed progress of a task; sessions are cut short. */
  function Push<C>(s: System<C>, t: Task): Event<C>
    requires Due(s, t)
  {
    match t
    case Watch(i) => WatcherMoves(i)
    case Play(i) => Session(i, S.Crash)
    case Forward(i) => ForwarderMoves(i)
    case Loop => if s.mode.Busy? then HandlerReturns(true) else if s.active == 0 then Exit else TakeDisconnect
  }

  lemma PushHelps<C>(s: System<C>, t: Task)
    requires Draining(s) && Due(s, t)
    ensures var e := Push(s, t);
            && Enabled(s, e) && Apply(s, e).received == s.received
            && (if e.Exit? then Apply(s, e).mode.Exited? else !Stopped(Apply(s, e)) && Progress(s, e))
  {
    CounterPositive(s);
  }

  /** From any moment of a drain the actor can come to leave its loop without
      taking another request. */
  lemma {:induction false} CanDrain<C>(s: System<C>) returns (es: seq<Event<C>>)
    requires Draining(s)
    ensures From(s, es).Some? && From(s, es).value.mode.Exited? && From(s, es).value.received == s.received
    decreases RankOf(s).flips, RankOf(s).closing, RankOf(s).running, RankOf(s).reporting, RankOf(s).queued
  {
    var t := SomeTaskIsDue(s);
    var e := Push(s, t);
    PushHelps(s, t);
    var rest := [];
    if !e.Exit? {
      StepRank(s, e);
      rest := CanDrain(Apply(s, e));
    }
    Then(s, e, rest);
    es := [e] + rest;
  }

  // ----- Who is certain of Ok -----

  predicate FlagInv<C>(s: System<C>) {
    s.shuttingDown <==> s.received > 0
  }

  /** What was received stays received, and the flag is up exactly from the first
      request on. */
  lemma {:induction false} ReceivedAlong<C>(s: System<C>, es: seq<Event<C>>)
    requires Inv(s) && FlagInv(s) && From(s, es).Some?
    ensures var t := From(s, es).value; Inv(t) && FlagInv(t) && s.received <= t.received && |s.callers| <= |t.callers|
  {
    if es != [] {
      var t, e := From(s, es[..|es| - 1]).value, es[|es| - 1];
      ReceivedAlong(s, es[..|es| - 1]);
      Step(t, e);
      ReceivedStep(t, e);
    }
  }

  lemma ReceivedStep<C>(s: System<C>, e: Event<C>)
    requires FlagInv(s) && Enabled(s, e)
    ensures var t := Apply(s, e); FlagInv(t) && s.received <= t.received && |s.callers| <= |t.callers|
  {
  }

  /** However the run goes on, if the actor leaves its loop then caller `c` has Ok. */
  ghost predicate CertainOfOk<C(!new)>(s: System<C>, c: nat) {
    forall es: seq<Event<C>> | From(s, es).Some? && From(s, es).value.mode.Exited? ::
      c < |From(s, es).value.callers| && From(s, es).value.callers[c].Okay?
  }

  /** Up to the first request: the handler returns, then the actor takes it. */
  lemma FirstRequestTaken<C>(s: System<C>) returns (es: seq<Event<C>>)
    requires Inv(s) && FlagInv(s) && !Stopped(s) && s.received == 0 && |s.shutdownQ| > 0
    ensures From(s, es).Some? && Draining(From(s, es).value) && From(s, es).value.received == 1
  {
    if s.mode.Busy? {
      var back: Event<C> := if s.mode.job.Connecting? then ConnectRefuses(None) else HandlerReturns(true);
      Then(Apply(s, back), TakeShutdown, []);
      Then(s, back, [TakeShutdown]);
      es := [back] + ([TakeShutdown] + []);
    } else {
      Then(s, TakeShutdown, []);
      es := [TakeShutdown] + [];
    }
    ReceivedAlong(s, es);
  }

  /** A caller who is not the first, and whose request has not been received, can
      still be refused. */
  lemma CanBeRefused<C>(s: System<C>, c: nat) returns (es: seq<Event<C>>)
    requires Inv(s) && FlagInv(s) && !Stopped(s) && 0 < c < |s.callers| && s.received <= c
    ensures From(s, es).Some? && From(s, es).value.mode.Exited?
    ensures c < |From(s, es).value.callers| && !From(s, es).value.callers[c].Okay?
  {
    es := [];
    if s.received == 0 { es := FirstRequestTaken(s); }
    var rest := CanDrain(From(s, es).value);
    Continues(s, es, rest);
    es := es + rest;
    ReceivedAlong(s, es);
  }

  /** As long as the actor runs, caller `c` is certain of Ok if and only if its
      request has been received or it was the very first to call. */
  lemma WhoIsCertainOfOk<C(!new)>(es: seq<Event<C>>, c: nat)
    requires After(es).Some? && !Stopped(After(es).value) && c < |After(es).value.callers|
    ensures CertainOfOk(After(es).value, c) <==> c == 0 || c < After(es).value.received
  {
    var s := After(es).value;
    ReceivedAlong(Start(), es);
    if c == 0 || c < s.received {
      forall more: seq<Event<C>> | From(s, more).Some? && From(s, more).value.mode.Exited?
        ensures c < |From(s, more).value.callers| && From(s, more).value.callers[c].Okay?
      {
        ReceivedAlong(s, more);
      }
    } else {
      var more := CanBeRefused(s, c);
      assert !From(s, more).value.callers[c].Okay?;
    }
  }

  /** Seen by a new caller, at the moment of the call: it is certain of Ok if and
      only if nobody has called before. */
  lemma CertainAtTheCall<C(!new)>(es: seq<Event<C>>)
    requires After(es).Some? && !Stopped(After(es).value)
    ensures After(es + [RequestShutdown]).Some?
    ensures var s, t := After(es).value, After(es + [RequestShutdown]).value;
            && |t.callers| == |s.callers| + 1
            && (CertainOfOk(t, |s.callers|) <==> s.callers == [])
  {
    Extend(Start(), es, RequestShutdown);
    Always(es);
    WhoIsCertainOfOk(es + [RequestShutdown], |After(es).value.callers|);
  }
}

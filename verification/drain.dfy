/** Termination of the graceful shutdown: under weak fairness of the tasks, a
    server that has received a shutdown request leaves its loop, even with
    endless calls, incoming frames, new connections and new requests. */
module Drain {
  import S = SessionSpec
  import opened ServerSpec

  // ----- The rank -----

  function Flips(l: Live): nat {
    match l.watcher
    case Unspawned => 2
    case Parked(_) => 2
    case Checking(_) => 1
    case _ => 0
  }

  /** Moves left to a session whose Close is queued. */
  function Closing(l: Live): nat {
    if l.watcher.Fired? then S.Work(l.actor) else 0
  }

  function Running(l: Live): nat {
    if S.Unfinished(l.actor) then 1 else 0
  }

  function Reporting(l: Live): nat {
    match l.forwarder
    case Spawned => 2
    case Awaiting => 1
    case Done => 0
  }

  datatype Rank = Rank(flips: nat, closing: nat, running: nat, reporting: nat, queued: nat)

  predicate Less(a: Rank, b: Rank) {
    || a.flips < b.flips
    || (a.flips == b.flips && a.closing < b.closing)
    || (a.flips == b.flips && a.closing == b.closing && a.running < b.running)
    || (a.flips == b.flips && a.closing == b.closing && a.running == b.running && a.reporting < b.reporting)
    || (a.flips == b.flips && a.closing == b.closing && a.running == b.running && a.reporting == b.reporting
        && a.queued < b.queued)
  }

  function RankOf<C>(s: System<C>): Rank {
    Rank(Sum(Flips, s.sessions), Sum(Closing, s.sessions), Sum(Running, s.sessions), Sum(Reporting, s.sessions),
         2 * |s.disconnectQ| + (if s.mode.Busy? then 1 else 0))
  }

  /** The rank of one session, for comparing its stages. */
  function Local(l: Live): Rank {
    Rank(Flips(l), Closing(l), Running(l), Reporting(l), 0)
  }

  lemma RankUpdate<C>(s: System<C>, t: System<C>, i: nat)
    requires i < |s.sessions| && |t.sessions| == |s.sessions|
    requires t.sessions == s.sessions[i := t.sessions[i]]
    ensures t.disconnectQ == s.disconnectQ && t.mode == s.mode && Local(t.sessions[i]) == Local(s.sessions[i]) ==>
              RankOf(t) == RankOf(s)
    ensures Less(Local(t.sessions[i]), Local(s.sessions[i])) ==> Less(RankOf(t), RankOf(s))
  {
    var l := t.sessions[i];
    SumUpdate(Flips, s.sessions, i, l);
    SumUpdate(Closing, s.sessions, i, l);
    SumUpdate(Running, s.sessions, i, l);
    SumUpdate(Reporting, s.sessions, i, l);
  }

  // ----- Tasks, and when they owe a move -----

  datatype Task = Watch(i: nat) | Play(i: nat) | Forward(i: nat) | Loop

  predicate Due<C>(s: System<C>, t: Task) {
    match t
    case Watch(i) => i < |s.sessions| && WatcherReady(s, s.sessions[i].watcher)
    case Play(i) => i < |s.sessions| && s.sessions[i].watcher.Fired? && S.Unfinished(s.sessions[i].actor)
    case Forward(i) => i < |s.sessions| && ForwarderReady(s.sessions[i])
    case Loop => s.mode.Busy? || (s.mode.Idle? && (s.active == 0 || |s.disconnectQ| > 0))
  }

  /** The moves that count for task `t`.  Of the loop's moves these are leaving,
      taking a disconnect and returning from a handler: connections, calls and
      further requests are not progress. */
  predicate By<C>(t: Task, e: Event<C>) {
    match t
    case Watch(i) => e == WatcherMoves(i) || e == WatcherCancelled(i)
    case Play(i) => e.Session? && e.i == i && !S.Environmental(e.e)
    case Forward(i) => e == ForwarderMoves(i)
    case Loop => e.TakeDisconnect? || e.HandlerReturns? || e.Exit?
  }

  predicate Draining<C>(s: System<C>) {
    Inv(s) && s.shuttingDown && !Stopped(s)
  }

  lemma {:induction false} SomeForwarderLeft(ls: seq<Live>)
    requires Sum(Reported, ls) < |ls|
    ensures exists i | 0 <= i < |ls| :: !ls[i].forwarder.Done?
  {
    var n := |ls| - 1;
    if ls[n].forwarder.Done? {
      SomeForwarderLeft(ls[..n]);
      var i :| 0 <= i < n && !ls[..n][i].forwarder.Done?;
      assert !ls[i].forwarder.Done?;
    }
  }

  /** The drain is never stuck. */
  lemma SomeTaskIsDue<C>(s: System<C>) returns (t: Task)
    requires Draining(s)
    ensures Due(s, t)
  {
    if s.mode.Busy? || s.active == 0 || |s.disconnectQ| > 0 {
      t := Loop;
    } else {
      CounterPositive(s);
      SomeForwarderLeft(s.sessions);
      var i :| 0 <= i < |s.sessions| && !s.sessions[i].forwarder.Done?;
      assert LiveInv(s.sessions[i], s.version);
      t := if ForwarderReady(s.sessions[i]) then Forward(i)
           else if s.sessions[i].watcher.Fired? then Play(i)
           else Watch(i);
    }
  }

  // ----- No step raises the rank, and progress lowers it -----

  lemma SessionRank<C>(s: System<C>, i: nat, se: S.Event)
    requires Draining(s) && Enabled(s, Session(i, se))
    ensures var t := Apply(s, Session(i, se));
            && (RankOf(t) == RankOf(s) || Less(RankOf(t), RankOf(s)))
            && (s.sessions[i].watcher.Fired? && !S.Environmental(se) ==> Less(RankOf(t), RankOf(s)))
  {
    var l := s.sessions[i];
    assert LiveInv(l, s.version);
    if l.watcher.Fired? { S.WorkStep(l.actor, se); }
    RankUpdate(s, Apply(s, Session(i, se)), i);
  }

  lemma TaskRank<C>(s: System<C>, e: Event<C>)
    requires Draining(s) && Enabled(s, e)
    requires e.WatcherMoves? || e.WatcherCancelled? || e.ForwarderMoves?
    ensures Less(RankOf(Apply(s, e)), RankOf(s))
  {
    assert LiveInv(s.sessions[e.i], s.version);
    RankUpdate(s, Apply(s, e), e.i);
  }

  /** The moves that lower the rank. */
  predicate Progress<C>(s: System<C>, e: Event<C>)
    requires Enabled(s, e)
  {
    match e
    case Session(i, se) => s.sessions[i].watcher.Fired? && !S.Environmental(se)
    case WatcherMoves(_) => true
    case WatcherCancelled(_) => true
    case ForwarderMoves(_) => true
    case TakeDisconnect => true
    case HandlerReturns(_) => true
    case _ => false
  }

  lemma StepRank<C>(s: System<C>, e: Event<C>)
    requires Draining(s) && Enabled(s, e) && !Stopped(Apply(s, e))
    ensures Draining(Apply(s, e))
    ensures RankOf(Apply(s, e)) == RankOf(s) || Less(RankOf(Apply(s, e)), RankOf(s))
    ensures Progress(s, e) ==> Less(RankOf(Apply(s, e)), RankOf(s))
  {
    Step(s, e);
    if e.Session? {
      SessionRank(s, e.i, e.e);
    } else if e.WatcherMoves? || e.WatcherCancelled? || e.ForwarderMoves? {
      TaskRank(s, e);
    }
  }

  /** A task that owes a move goes on owing it until the rank falls. */
  lemma StaysDue<C>(s: System<C>, e: Event<C>, t: Task)
    requires Draining(s) && Enabled(s, e) && !Stopped(Apply(s, e)) && Due(s, t)
    ensures Due(Apply(s, e), t) || Progress(s, e)
    ensures By(t, e) ==> Progress(s, e)
  {
  }

  /** The step form of `RankAlong`: `s` has come from `origin`, where `t` was due. */
  lemma Onward<C>(origin: System<C>, s: System<C>, e: Event<C>, t: Task)
    requires Draining(s) && Enabled(s, e) && !Stopped(Apply(s, e))
    requires Less(RankOf(s), RankOf(origin)) || (RankOf(s) == RankOf(origin) && Due(s, t))
    ensures Draining(Apply(s, e))
    ensures Less(RankOf(Apply(s, e)), RankOf(origin)) || (RankOf(Apply(s, e)) == RankOf(origin) && Due(Apply(s, e), t))
    ensures By(t, e) ==> Less(RankOf(Apply(s, e)), RankOf(origin))
  {
    StepRank(s, e);
    if Due(s, t) { StaysDue(s, e, t); }
  }

  // ----- Infinite runs -----

  ghost predicate IsRun<C(!new)>(run: nat -> System<C>, ev: nat -> Event<C>) {
    && run(0) == Start()
    && forall n: nat :: StepAt(run, ev, n)
  }

  ghost predicate StepAt<C(!new)>(run: nat -> System<C>, ev: nat -> Event<C>, n: nat) {
    Enabled(run(n), ev(n)) && run(n + 1) == Apply(run(n), ev(n))
  }

  /** Weak fairness: a task that owes a move from some point on eventually makes one. */
  ghost predicate Fair<C(!new)>(run: nat -> System<C>, ev: nat -> Event<C>) {
    forall t: Task, n: nat ::
      DueForever(run, t, n) ==> exists m: nat :: n <= m && By(t, ev(m))
  }

  ghost predicate DueForever<C(!new)>(run: nat -> System<C>, t: Task, n: nat) {
    forall m: nat | n <= m :: Due(run(m), t)
  }

  lemma {:induction false} RunInv<C(!new)>(run: nat -> System<C>, ev: nat -> Event<C>, n: nat)
    requires IsRun(run, ev)
    ensures Inv(run(n))
  {
    if n > 0 {
      RunInv(run, ev, n - 1);
      assert StepAt(run, ev, n - 1);
      Step(run(n - 1), ev(n - 1));
    }
  }

  /** As long as nothing stops it, the rank at `m` is at most that at `n`; and if
      it has not fallen, what was due is due. */
  lemma {:induction false} RankAlong<C(!new)>(run: nat -> System<C>, ev: nat -> Event<C>, n: nat, m: nat, t: Task)
    requires IsRun(run, ev) && n <= m && Draining(run(n)) && Due(run(n), t)
    requires forall k: nat | n <= k :: !Stopped(run(k))
    ensures Draining(run(m))
    ensures Less(RankOf(run(m)), RankOf(run(n))) || (RankOf(run(m)) == RankOf(run(n)) && Due(run(m), t))
    decreases m
  {
    if n < m {
      RankAlong(run, ev, n, m - 1, t);
      assert StepAt(run, ev, m - 1);
      Onward(run(n), run(m - 1), ev(m - 1), t);
    }
  }

  /** Every fair run that has received a shutdown request leaves the loop. */
  lemma {:induction false} DrainTerminates<C(!new)>(run: nat -> System<C>, ev: nat -> Event<C>, n: nat)
    requires IsRun(run, ev) && Fair(run, ev) && run(n).shuttingDown
    ensures exists m: nat :: n <= m && Stopped(run(m))
    decreases RankOf(run(n)).flips, RankOf(run(n)).closing, RankOf(run(n)).running, RankOf(run(n)).reporting,
              RankOf(run(n)).queued
  {
    if forall m: nat | n <= m :: !Stopped(run(m)) {
      RunInv(run, ev, n);
      assert !Stopped(run(n));
      var t := SomeTaskIsDue(run(n));
      if m: nat :| n <= m && Less(RankOf(run(m)), RankOf(run(n))) {
        RankAlong(run, ev, n, m, t);
        DrainTerminates(run, ev, m);
      } else {
        forall m: nat | n <= m ensures Due(run(m), t) {
          RankAlong(run, ev, n, m, t);
        }
        assert DueForever(run, t, n);
        var m: nat :| n <= m && By(t, ev(m));
        RankAlong(run, ev, n, m, t);
        assert StepAt(run, ev, m);
        Onward(run(n), run(m), ev(m), t);
      }
    }
  }

  /** With handlers that do not panic, every request received by then, and at
      least the first, is answered with Ok. */
  lemma ShutdownSucceeds<C(!new)>(run: nat -> System<C>, ev: nat -> Event<C>, n: nat, c: nat)
    requires IsRun(run, ev) && Fair(run, ev)
    requires forall k: nat :: !ev(k).Abort?
    requires c < run(n).received
    ensures exists m: nat :: n <= m && c < |run(m).callers| && run(m).callers[c].Okay?
  {
    ReceivedMeansShutting(run, ev, n);
    DrainTerminates(run, ev, n);
    var m: nat :| n <= m && Stopped(run(m));
    RunInv(run, ev, m);
    NeverAborted(run, ev, n, m);
  }

  lemma {:induction false} ReceivedMeansShutting<C(!new)>(run: nat -> System<C>, ev: nat -> Event<C>, n: nat)
    requires IsRun(run, ev)
    ensures run(n).received > 0 ==> run(n).shuttingDown
  {
    if n > 0 {
      ReceivedMeansShutting(run, ev, n - 1);
      assert StepAt(run, ev, n - 1);
    }
  }

  lemma {:induction false} NeverAborted<C(!new)>(run: nat -> System<C>, ev: nat -> Event<C>, n: nat, m: nat)
    requires IsRun(run, ev) && n <= m
    requires forall k: nat :: !ev(k).Abort?
    ensures !run(m).mode.Aborted? && run(n).received <= run(m).received
    decreases m
  {
    if m > 0 {
      assert StepAt(run, ev, m - 1);
      if n < m {
        NeverAborted(run, ev, n, m - 1);
      } else {
        NeverAborted(run, ev, m - 1, m - 1);
      }
    }
  }

  // ----- Everyone who asks is answered -----

  /** A request is not left waiting for ever by a running actor, nor in the queue
      of a stopped one. */
  ghost predicate RequestsServed<C(!new)>(run: nat -> System<C>, ev: nat -> Event<C>) {
    forall n: nat :: WaitsForever(run, n) ==> exists m: nat :: n <= m && (ev(m).TakeShutdown? || ev(m).DropRequest?)
  }

  ghost predicate WaitsForever<C(!new)>(run: nat -> System<C>, n: nat) {
    forall m: nat | n <= m :: Stopped(run(m)) == Stopped(run(n)) && |run(m).shutdownQ| > 0
  }

  predicate Waits<C>(s: System<C>, c: nat) {
    c < |s.callers| && s.callers[c].Waiting?
  }

  /** Who waits goes on waiting or is answered; a stopped actor stays stopped, and
      its queue only shrinks. */
  lemma WaitingStep<C>(s: System<C>, e: Event<C>, c: nat)
    requires Inv(s) && Enabled(s, e) && c < |s.callers|
    ensures c < |Apply(s, e).callers|
    ensures !Waits(s, c) ==> !Waits(Apply(s, e), c)
    ensures Stopped(s) ==> Stopped(Apply(s, e))
    ensures Stopped(s) ==> |Apply(s, e).shutdownQ| == |s.shutdownQ| - (if e.DropRequest? then 1 else 0)
    ensures s.shuttingDown ==> Apply(s, e).shuttingDown
  {
  }

  lemma {:induction false} WaitingAlong<C(!new)>(run: nat -> System<C>, ev: nat -> Event<C>, n: nat, m: nat, c: nat)
    requires IsRun(run, ev) && n <= m && c < |run(n).callers|
    ensures c < |run(m).callers|
    ensures !Waits(run(n), c) ==> !Waits(run(m), c)
    ensures Stopped(run(n)) ==> Stopped(run(m)) && |run(m).shutdownQ| <= |run(n).shutdownQ|
    ensures run(n).shuttingDown ==> run(m).shuttingDown
    decreases m
  {
    if n < m {
      WaitingAlong(run, ev, n, m - 1, c);
      RunInv(run, ev, m - 1);
      assert StepAt(run, ev, m - 1);
      WaitingStep(run(m - 1), ev(m - 1), c);
    }
  }

  /** Only a request in the queue waits for a stopped actor, or for one that is
      not shutting down. */
  lemma WaitingInQueue<C>(s: System<C>, c: nat)
    requires Inv(s) && Waits(s, c) && (Stopped(s) || s.received == 0)
    ensures |s.shutdownQ| > 0
  {
    if Stopped(s) { assert c in s.shutdownQ; }
  }

  /** The queue of a stopped actor is destroyed to its end. */
  lemma {:induction false} StoppedAnswers<C(!new)>(run: nat -> System<C>, ev: nat -> Event<C>, n: nat, c: nat)
    requires IsRun(run, ev) && RequestsServed(run, ev) && Stopped(run(n)) && c < |run(n).callers|
    ensures exists m: nat :: n <= m && c < |run(m).callers| && !run(m).callers[c].Waiting?
    decreases |run(n).shutdownQ|
  {
    if forall m: nat | n <= m :: Waits(run(m), c) {
      forall m: nat | n <= m ensures Stopped(run(m)) && |run(m).shutdownQ| > 0 {
        WaitingAlong(run, ev, n, m, c);
        RunInv(run, ev, m);
        assert Waits(run(m), c);
        WaitingInQueue(run(m), c);
      }
      assert WaitsForever(run, n);
      var m: nat :| n <= m && (ev(m).TakeShutdown? || ev(m).DropRequest?);
      WaitingAlong(run, ev, n, m, c);
      RunInv(run, ev, m);
      assert StepAt(run, ev, m);
      WaitingStep(run(m), ev(m), c);
      StoppedAnswers(run, ev, m + 1, c);
    } else {
      var m: nat :| n <= m && !Waits(run(m), c);
      WaitingAlong(run, ev, n, m, c);
    }
  }

  /** A waiting request makes the actor shut down, sooner or later. */
  lemma RequestStartsShutdown<C(!new)>(run: nat -> System<C>, ev: nat -> Event<C>, n: nat, c: nat)
    requires IsRun(run, ev) && RequestsServed(run, ev) && Waits(run(n), c)
    ensures exists m: nat :: n <= m && (run(m).shuttingDown || Stopped(run(m)) || !Waits(run(m), c))
  {
    if Stopped(run(n)) {
    } else if WaitsForever(run, n) {
      var m: nat :| n <= m && (ev(m).TakeShutdown? || ev(m).DropRequest?);
      assert StepAt(run, ev, m);
      assert run(m + 1).shuttingDown;
    } else {
      var m: nat :| n <= m && (Stopped(run(m)) || |run(m).shutdownQ| == 0);
      RunInv(run, ev, m);
      ReceivedMeansShutting(run, ev, m);
      if Waits(run(m), c) && !run(m).shuttingDown { WaitingInQueue(run(m), c); }
    }
  }

  /** Every call of graceful_shutdown, made at any moment of a fair run, returns. */
  lemma EveryCallerIsAnswered<C(!new)>(run: nat -> System<C>, ev: nat -> Event<C>, n: nat, c: nat)
    requires IsRun(run, ev) && Fair(run, ev) && RequestsServed(run, ev) && c < |run(n).callers|
    ensures exists m: nat :: n <= m && c < |run(m).callers| && !run(m).callers[c].Waiting?
  {
    if Waits(run(n), c) {
      RequestStartsShutdown(run, ev, n, c);
      var m: nat :| n <= m && (run(m).shuttingDown || Stopped(run(m)) || !Waits(run(m), c));
      WaitingAlong(run, ev, n, m, c);
      if Waits(run(m), c) {
        var k: nat := m;
        if !Stopped(run(m)) {
          DrainTerminates(run, ev, m);
          k :| m <= k && Stopped(run(k));
          WaitingAlong(run, ev, m, k, c);
        }
        StoppedAnswers(run, ev, k, c);
      }
    }
  }
}

/** Every signal settles: under weak fairness of the session, of the sink actor
    and of the destruction of dead queues, a message that is Sending becomes Sent
    or Failed, however many others are submitted meanwhile. */
module Settling {
  import opened PipelineSpec
  import opened Wire

  // ----- How far a message has to go -----

  /** How many entries of the queue stand ahead of message `i`. */
  function Ahead(q: seq<nat>, i: nat): nat {
    if q == [] || q[0] == i then 0 else 1 + Ahead(q[1..], i)
  }

  lemma {:induction false} CopiesIn(q: seq<nat>, i: nat)
    ensures i in q <==> Copies(q, i) > 0
  {
    if q != [] {
      CopiesIn(q[1..], i);
      assert q == [q[0]] + q[1..];
    }
  }

  lemma {:induction false} AheadPush(q: seq<nat>, i: nat, n: nat)
    requires i in q
    ensures i in q + [n] && Ahead(q + [n], i) == Ahead(q, i)
  {
    if q[0] != i {
      assert q == [q[0]] + q[1..];
      AheadPush(q[1..], i, n);
      assert (q + [n])[1..] == q[1..] + [n];
    }
  }

  lemma AheadPop(q: seq<nat>, i: nat)
    requires i in q && q[0] != i
    ensures i in q[1..] && Ahead(q[1..], i) == Ahead(q, i) - 1
  {
    assert q == [q[0]] + q[1..];
  }

  /** Stage 2 is the session's queue, 1 the sink's channel, 0 the sink actor's
      hand; `work` counts the moves ahead in that stage, and `up` whether its
      actor still has to stop before the queue is destroyed. */
  datatype Rank = Rank(stage: nat, work: nat, up: nat)

  predicate Less(a: Rank, b: Rank) {
    || a.stage < b.stage
    || (a.stage == b.stage && a.work < b.work)
    || (a.stage == b.stage && a.work == b.work && a.up < b.up)
  }

  function RankOf(p: Pipe, i: nat): Rank {
    if p.hand == Some(i) then Rank(0, 0, 0)
    else if i in p.sinkQ then Rank(1, 2 * Ahead(p.sinkQ, i) + One(p.hand.Some?), One(p.sinkUp))
    else Rank(2, Ahead(p.sessionQ, i), One(p.sessionUp))
  }

  ghost predicate Travelling(p: Pipe, i: nat) {
    SignalInv(p) && i < |p.statuses| && p.statuses[i].Sending?
  }

  /** A travelling message is in exactly one place. */
  lemma WhereItIs(p: Pipe, i: nat)
    requires Travelling(p, i)
    ensures (p.hand == Some(i)) || (i in p.sinkQ) || (i in p.sessionQ)
    ensures p.hand == Some(i) ==> i !in p.sinkQ && i !in p.sessionQ && p.sinkUp
    ensures i in p.sinkQ ==> i !in p.sessionQ
  {
    assert Conserved(p, i);
    CopiesIn(p.sinkQ, i);
    CopiesIn(p.sessionQ, i);
  }

  // ----- Who owes it a move -----

  datatype Task = SessionActor | SinkActor | SessionQueue | SinkQueue

  predicate Due(p: Pipe, t: Task) {
    match t
    case SessionActor => p.sessionUp && p.sessionQ != []
    case SinkActor => p.sinkUp && (p.hand.Some? || p.sinkQ != [])
    case SessionQueue => !p.sessionUp && p.sessionQ != []
    case SinkQueue => !p.sinkUp && p.sinkQ != []
  }

  /** The moves by which each of them gets on: a live actor takes from its queue,
      finishes a send or ends; a dead one's queue loses its head. */
  predicate By(t: Task, e: Event) {
    match t
    case SessionActor => e.Forward? || e.SessionEnds?
    case SinkActor => e.SinkTakes? || e.SinkSends? || e.SinkAborted? || e.SinkCancelled?
    case SessionQueue => e.DestroySession?
    case SinkQueue => e.DestroySink?
  }

  function Responsible(p: Pipe, i: nat): Task {
    if p.hand == Some(i) then SinkActor
    else if i in p.sinkQ then if p.sinkUp then SinkActor else SinkQueue
    else if p.sessionUp then SessionActor else SessionQueue
  }

  lemma ResponsibleIsDue(p: Pipe, i: nat)
    requires Travelling(p, i)
    ensures Due(p, Responsible(p, i))
  {
    WhereItIs(p, i);
  }

  // ----- No event sets a message back, and its responsible task gets it on -----

  lemma SessionSide(p: Pipe, e: Event, i: nat)
    requires Travelling(p, i) && i in p.sessionQ && Enabled(p, e) && Travelling(Apply(p, e), i)
    ensures var q := Apply(p, e);
            && (RankOf(q, i) == RankOf(p, i) || Less(RankOf(q, i), RankOf(p, i)))
            && (By(Responsible(p, i), e) ==> Less(RankOf(q, i), RankOf(p, i)))
  {
    var q := Apply(p, e);
    WhereItIs(p, i);
    WhereItIs(q, i);
    match e {
      case Submit(_) => AheadPush(p.sessionQ, i, |p.statuses|);
      case Forward => if p.sessionQ[0] != i { AheadPop(p.sessionQ, i); }
      case DestroySession => if p.sessionQ[0] != i { AheadPop(p.sessionQ, i); }
      case _ =>
    }
  }

  lemma SinkSide(p: Pipe, e: Event, i: nat)
    requires Travelling(p, i) && i !in p.sessionQ && Enabled(p, e) && Travelling(Apply(p, e), i)
    ensures var q := Apply(p, e);
            && (RankOf(q, i) == RankOf(p, i) || Less(RankOf(q, i), RankOf(p, i)))
            && (By(Responsible(p, i), e) ==> Less(RankOf(q, i), RankOf(p, i)))
  {
    var q := Apply(p, e);
    WhereItIs(p, i);
    WhereItIs(q, i);
    if i in p.sinkQ {
      match e {
        case SendDirect(_) => if p.sinkUp { AheadPush(p.sinkQ, i, |p.statuses|); }
        case Forward => if p.sinkUp { AheadPush(p.sinkQ, i, p.sessionQ[0]); }
        case SinkTakes => if p.sinkQ[0] != i { AheadPop(p.sinkQ, i); }
        case DestroySink => if p.sinkQ[0] != i { AheadPop(p.sinkQ, i); }
        case _ =>
      }
    }
  }

  lemma RankStep(p: Pipe, e: Event, i: nat)
    requires Travelling(p, i) && Enabled(p, e) && Travelling(Apply(p, e), i)
    ensures var q := Apply(p, e);
            && (RankOf(q, i) == RankOf(p, i) || Less(RankOf(q, i), RankOf(p, i)))
            && (By(Responsible(p, i), e) ==> Less(RankOf(q, i), RankOf(p, i)))
  {
    if i in p.sessionQ { SessionSide(p, e, i); } else { SinkSide(p, e, i); }
  }

  /** Who is responsible can be read off the rank. */
  lemma SameResponsible(p: Pipe, q: Pipe, i: nat)
    requires Travelling(p, i) && Travelling(q, i) && RankOf(p, i) == RankOf(q, i)
    ensures Responsible(p, i) == Responsible(q, i)
  {
    WhereItIs(p, i);
    WhereItIs(q, i);
  }

  // ----- Infinite runs -----

  ghost predicate IsRun(run: nat -> Pipe, ev: nat -> Event) {
    && run(0) == EMPTY
    && forall n: nat :: StepAt(run, ev, n)
  }

  ghost predicate StepAt(run: nat -> Pipe, ev: nat -> Event, n: nat) {
    Enabled(run(n), ev(n)) && run(n + 1) == Apply(run(n), ev(n))
  }

  /** Weak fairness: who owes a move from some point on eventually makes one. */
  ghost predicate Fair(run: nat -> Pipe, ev: nat -> Event) {
    forall t: Task, n: nat :: DueForever(run, t, n) ==> exists m: nat :: n <= m && By(t, ev(m))
  }

  ghost predicate DueForever(run: nat -> Pipe, t: Task, n: nat) {
    forall m: nat | n <= m :: Due(run(m), t)
  }

  lemma {:induction false} RunInv(run: nat -> Pipe, ev: nat -> Event, n: nat)
    requires IsRun(run, ev)
    ensures SignalInv(run(n))
  {
    if n == 0 {
      SignalConservation([]);
    } else {
      RunInv(run, ev, n - 1);
      assert StepAt(run, ev, n - 1);
      SignalStep(run(n - 1), ev(n - 1));
    }
  }

  ghost predicate AlwaysSending(run: nat -> Pipe, n: nat, i: nat) {
    forall m: nat | n <= m :: i < |run(m).statuses| && run(m).statuses[i].Sending?
  }

  /** While the message travels its rank never rises, and while the rank stays the
      same task is responsible. */
  lemma {:induction false} RankAlong(run: nat -> Pipe, ev: nat -> Event, n: nat, m: nat, i: nat)
    requires IsRun(run, ev) && n <= m && AlwaysSending(run, n, i)
    ensures Travelling(run(n), i) && Travelling(run(m), i)
    ensures Less(RankOf(run(m), i), RankOf(run(n), i))
            || (RankOf(run(m), i) == RankOf(run(n), i) && Responsible(run(m), i) == Responsible(run(n), i))
    decreases m
  {
    RunInv(run, ev, n);
    RunInv(run, ev, m);
    if n < m {
      RankAlong(run, ev, n, m - 1, i);
      assert StepAt(run, ev, m - 1);
      RankStep(run(m - 1), ev(m - 1), i);
      if RankOf(run(m), i) == RankOf(run(n), i) { SameResponsible(run(m), run(n), i); }
    }
  }

  /** A message that were to travel for ever would come closer to its end. */
  lemma ComesCloser(run: nat -> Pipe, ev: nat -> Event, n: nat, i: nat) returns (m: nat)
    requires IsRun(run, ev) && Fair(run, ev) && AlwaysSending(run, n, i)
    ensures n <= m && Less(RankOf(run(m), i), RankOf(run(n), i))
  {
    hide RankOf, Responsible, Due, Apply, SignalInv;
    RankAlong(run, ev, n, n, i);
    var t := Responsible(run(n), i);
    if k: nat :| n <= k && !Due(run(k), t) {
      RankAlong(run, ev, n, k, i);
      ResponsibleIsDue(run(k), i);
      m := k;
    } else {
      assert DueForever(run, t, n);
      var k: nat :| n <= k && By(t, ev(k));
      RankAlong(run, ev, n, k, i);
      RankAlong(run, ev, n, k + 1, i);
      assert StepAt(run, ev, k);
      RankStep(run(k), ev(k), i);
      m := if Responsible(run(k), i) == t then k + 1 else k;
    }
  }

  /** In every fair run, whatever is submitted settles. */
  lemma {:induction false} EverySignalSettles(run: nat -> Pipe, ev: nat -> Event, n: nat, i: nat)
    requires IsRun(run, ev) && Fair(run, ev) && i < |run(n).statuses|
    ensures exists m: nat :: n <= m && i < |run(m).statuses| && !run(m).statuses[i].Sending?
    decreases RankOf(run(n), i).stage, RankOf(run(n), i).work, RankOf(run(n), i).up
  {
    StatusesStay(run, ev, n, i);
    if AlwaysSending(run, n, i) {
      var m := ComesCloser(run, ev, n, i);
      EverySignalSettles(run, ev, m, i);
    }
  }

  /** A message stays known, so one that is not always Sending settles. */
  lemma {:induction false} StatusesStay(run: nat -> Pipe, ev: nat -> Event, n: nat, i: nat)
    requires IsRun(run, ev) && i < |run(n).statuses|
    ensures forall m: nat | n <= m :: i < |run(m).statuses|
  {
    forall m: nat | n <= m ensures i < |run(m).statuses| { StatusStays(run, ev, n, m, i); }
  }

  lemma {:induction false} StatusStays(run: nat -> Pipe, ev: nat -> Event, n: nat, m: nat, i: nat)
    requires IsRun(run, ev) && n <= m && i < |run(n).statuses|
    ensures i < |run(m).statuses|
    decreases m
  {
    if n < m {
      StatusStays(run, ev, n, m - 1, i);
      RunInv(run, ev, m - 1);
      assert StepAt(run, ev, m - 1);
      SignalStep(run(m - 1), ev(m - 1));
    }
  }
}

/** The outgoing pipeline of one socket on values: src/socket.rs 226-435 with
    src/session.rs 203-218.

    A message is its number, in order of creation.  Users submit to the
    session's queue, the session moves messages to the sink's channel, and the
    heartbeat (like the server's rejections) writes to that channel directly.
    A queue whose receiver is gone is destroyed entry by entry, at any time. */
module PipelineSpec {
  import opened Wire

  datatype Status = Sending | Sent | Failed

  datatype Origin = User | Direct

  datatype Pipe = Pipe(
    messages: seq<RawMessage>,
    origins: seq<Origin>,
    statuses: seq<Status>,
    sessionQ: seq<nat>,
    sinkQ: seq<nat>,
    hand: Option<nat>,         // taken by the sink actor and being sent
    sessionUp: bool,           // the session actor still receives
    sinkUp: bool,              // the sink actor still receives
    // history
    submitted: seq<nat>,       // what the session's queue accepted
    handed: seq<nat>,          // what the sink's channel accepted from the session
    accepted: seq<nat>)        // what the underlying sink accepted

  datatype Event =
    | Submit(message: Message)
    | SendDirect(raw: RawMessage)
    | Forward
    | SessionEnds
    | SinkTakes
    | SinkSends(ok: bool)
    | SinkAborted
    | SinkCancelled            // the task is dropped in the middle of a send
    | DestroySession
    | DestroySink

  const EMPTY := Pipe([], [], [], [], [], None, true, true, [], [], [])

  predicate Enabled(p: Pipe, e: Event) {
    match e
    case Submit(_) => true
    case SendDirect(_) => true
    case Forward => p.sessionUp && |p.sessionQ| > 0
    case SessionEnds => p.sessionUp
    case SinkTakes => p.sinkUp && p.hand.None? && |p.sinkQ| > 0
    case SinkSends(_) => p.sinkUp && p.hand.Some?
    case SinkAborted => p.sinkUp && p.hand.None?
    case SinkCancelled => p.sinkUp
    case DestroySession => !p.sessionUp && |p.sessionQ| > 0
    case DestroySink => !p.sinkUp && |p.sinkQ| > 0
  }

  function Mark(p: Pipe, i: nat, s: Status): Pipe {
    if i < |p.statuses| then p.(statuses := p.statuses[i := s]) else p
  }

  predicate IsClose(p: Pipe, i: nat) {
    i < |p.messages| && p.messages[i].RawClose?
  }

  function Apply(p: Pipe, e: Event): Pipe
    requires Enabled(p, e)
  {
    match e
    case Submit(m) =>
      var n := |p.statuses|;
      var q := p.(messages := p.messages + [ToRaw(m)], origins := p.origins + [User]);
      if p.sessionUp then
        q.(statuses := p.statuses + [Sending], sessionQ := p.sessionQ + [n], submitted := p.submitted + [n])
      else
        q.(statuses := p.statuses + [Failed])   // the message comes back in the error and is dropped
    case SendDirect(m) =>
      var n := |p.statuses|;
      var q := p.(messages := p.messages + [m], origins := p.origins + [Direct]);
      if p.sinkUp then q.(statuses := p.statuses + [Sending], sinkQ := p.sinkQ + [n])
      else q.(statuses := p.statuses + [Failed])
    case Forward =>
      var i := p.sessionQ[0];
      var q := p.(sessionQ := p.sessionQ[1..], sessionUp := p.sinkUp && !IsClose(p, i));
      if p.sinkUp then q.(sinkQ := p.sinkQ + [i], handed := p.handed + [i]) else Mark(q, i, Failed)
    case SessionEnds => p.(sessionUp := false)
    case SinkTakes => p.(sinkQ := p.sinkQ[1..], hand := Some(p.sinkQ[0]))
    case SinkSends(ok) =>
      var i := p.hand.value;
      if ok then Mark(p.(hand := None, accepted := p.accepted + [i]), i, Sent)
      else Mark(p.(hand := None, sinkUp := false), i, Failed)
    case SinkAborted => p.(sinkUp := false)
    case SinkCancelled =>
      var q := p.(hand := None, sinkUp := false);
      if p.hand.Some? then Mark(q, p.hand.value, Failed) else q
    case DestroySession => Mark(p.(sessionQ := p.sessionQ[1..]), p.sessionQ[0], Failed)
    case DestroySink => Mark(p.(sinkQ := p.sinkQ[1..]), p.sinkQ[0], Failed)
  }

  function From(p: Pipe, es: seq<Event>): Option<Pipe> {
    if es == [] then Some(p) else
      var before := From(p, es[..|es| - 1]);
      var e := es[|es| - 1];
      if before.Some? && Enabled(before.value, e) then Some(Apply(before.value, e)) else None
  }

  function After(es: seq<Event>): Option<Pipe> {
    From(EMPTY, es)
  }

  // ----- Conservation: a message is Sending exactly while it sits in one place -----

  function InHand(p: Pipe): seq<nat> {
    if p.hand.Some? then [p.hand.value] else []
  }

  function Copies(q: seq<nat>, i: nat): nat {
    if q == [] then 0 else Copies(q[1..], i) + One(i == q[0])
  }

  function One(b: bool): nat {
    if b then 1 else 0
  }

  /** How often message `i` sits in the queues and in the sink actor's hand. */
  function Held(p: Pipe, i: nat): nat {
    One(p.hand == Some(i)) + Copies(p.sinkQ, i) + Copies(p.sessionQ, i)
  }

  /** The status of `i`: Sending means held exactly once, Sent means accepted
      exactly once, Failed means neither. */
  predicate Conserved(p: Pipe, i: nat) {
    && Held(p, i) == One(i < |p.statuses| && p.statuses[i].Sending?)
    && Copies(p.accepted, i) == One(i < |p.statuses| && p.statuses[i].Sent?)
  }

  ghost predicate SignalInv(p: Pipe) {
    && |p.messages| == |p.statuses| == |p.origins|
    && (!p.sinkUp ==> p.hand.None?)
    && forall i: nat :: Conserved(p, i)
  }

  lemma {:induction false} Pushed(q: seq<nat>, n: nat, i: nat)
    ensures Copies(q + [n], i) == Copies(q, i) + One(i == n)
  {
    if q == [] {
      assert Copies([n][1..], i) == 0;
    } else {
      assert (q + [n])[1..] == q[1..] + [n];
      Pushed(q[1..], n, i);
    }
  }

  predicate Creates(p: Pipe, e: Event) {
    (e.Submit? && p.sessionUp) || (e.SendDirect? && p.sinkUp)
  }

  /** The message an event settles, if it settles one, and the status it gets. */
  function Settles(p: Pipe, e: Event): Option<(nat, Status)>
    requires Enabled(p, e)
  {
    match e
    case Forward => if p.sinkUp then None else Some((p.sessionQ[0], Failed))
    case SinkSends(ok) => Some((p.hand.value, if ok then Sent else Failed))
    case SinkCancelled => if p.hand.Some? then Some((p.hand.value, Failed)) else None
    case DestroySession => Some((p.sessionQ[0], Failed))
    case DestroySink => Some((p.sinkQ[0], Failed))
    case _ => None
  }

  /** The books of one event: what was held and came is what is held and left. */
  lemma HeldStep(p: Pipe, e: Event, i: nat)
    requires Enabled(p, e)
    ensures Held(p, i) + One(Creates(p, e) && i == |p.statuses|)
            == Held(Apply(p, e), i) + One(Settles(p, e).Some? && Settles(p, e).value.0 == i)
  {
    match e {
      case Submit(_) => Pushed(p.sessionQ, |p.statuses|, i);
      case SendDirect(_) => Pushed(p.sinkQ, |p.statuses|, i);
      case Forward =>
        Pushed(p.sinkQ, p.sessionQ[0], i);
      case _ =>
    }
  }

  lemma AcceptedStep(p: Pipe, e: Event, i: nat)
    requires Enabled(p, e)
    ensures Copies(Apply(p, e).accepted, i)
            == Copies(p.accepted, i) + One(Settles(p, e).Some? && Settles(p, e).value == (i, Sent))
  {
    if p.hand.Some? { Pushed(p.accepted, p.hand.value, i); }
  }

  /** How an event changes the statuses. */
  lemma StatusStep(p: Pipe, e: Event)
    requires Enabled(p, e) && |p.messages| == |p.statuses| == |p.origins| && (!p.sinkUp ==> p.hand.None?)
    ensures var q := Apply(p, e);
            && |q.messages| == |q.statuses| == |q.origins| && (!q.sinkUp ==> q.hand.None?)
            && (Settles(p, e).Some? ==>
                  && !Settles(p, e).value.1.Sending?
                  && q.statuses == Mark(p, Settles(p, e).value.0, Settles(p, e).value.1).statuses)
            && (Settles(p, e).None? ==>
                  q.statuses == p.statuses
                    + if Creates(p, e) then [Sending] else if e.Submit? || e.SendDirect? then [Failed] else [])
  {
  }

  lemma SignalStep(p: Pipe, e: Event)
    requires SignalInv(p) && Enabled(p, e)
    ensures SignalInv(Apply(p, e))
    ensures match Settles(p, e)
            case Some((i, s)) =>
              i < |p.statuses| && p.statuses[i].Sending? && Apply(p, e).statuses == p.statuses[i := s]
            case None => p.statuses <= Apply(p, e).statuses
  {
    StatusStep(p, e);
    if Settles(p, e).Some? {
      HeldStep(p, e, Settles(p, e).value.0);
      assert Conserved(p, Settles(p, e).value.0);
    }
    forall i: nat ensures Conserved(Apply(p, e), i) {
      assert Conserved(p, i);
      HeldStep(p, e, i);
      AcceptedStep(p, e, i);
    }
  }

  /** In every run: a message is Sending exactly while it sits in exactly one
      queue or in the sink actor's hand; it is Sent exactly if the underlying
      sink accepted it; everything else has Failed. */
  lemma {:induction false} SignalConservation(es: seq<Event>)
    requires After(es).Some?
    ensures SignalInv(After(es).value)
  {
    if es != [] {
      SignalConservation(es[..|es| - 1]);
      SignalStep(After(es[..|es| - 1]).value, es[|es| - 1]);
    }
  }

  /** A terminal status is never left, so a signal is set at most once. */
  lemma {:induction false} TerminalStays(p: Pipe, es: seq<Event>, i: nat)
    requires SignalInv(p) && From(p, es).Some?
    requires i < |p.statuses| && !p.statuses[i].Sending?
    ensures var q := From(p, es).value;
            SignalInv(q) && i < |q.statuses| && q.statuses[i] == p.statuses[i]
  {
    if es != [] {
      TerminalStays(p, es[..|es| - 1], i);
      SignalStep(From(p, es[..|es| - 1]).value, es[|es| - 1]);
    }
  }

  lemma {:induction false} Continued(es: seq<Event>, more: seq<Event>)
    requires After(es + more).Some?
    ensures After(es).Some? && From(After(es).value, more) == After(es + more)
  {
    if more == [] {
      assert es + more == es;
    } else {
      var shorter := more[..|more| - 1];
      assert (es + more)[..|es + more| - 1] == es + shorter;
      Continued(es, shorter);
    }
  }

  // ----- In-order delivery -----

  /** The messages of users among `ids`, in order. */
  function Users(origins: seq<Origin>, ids: seq<nat>): seq<nat> {
    if ids == [] then []
    else
      var i := ids[|ids| - 1];
      Users(origins, ids[..|ids| - 1]) + (if i < |origins| && origins[i].User? then [i] else [])
  }

  lemma {:induction false} UsersConcat(origins: seq<Origin>, a: seq<nat>, b: seq<nat>)
    ensures Users(origins, a + b) == Users(origins, a) + Users(origins, b)
  {
    if b == [] {
      assert a + b == a;
    } else {
      assert (a + b)[..|a + b| - 1] == a + b[..|b| - 1];
      UsersConcat(origins, a, b[..|b| - 1]);
    }
  }

  lemma {:induction false} UsersLater(origins: seq<Origin>, o: Origin, ids: seq<nat>)
    requires forall k | 0 <= k < |ids| :: ids[k] < |origins|
    ensures Users(origins + [o], ids) == Users(origins, ids)
  {
    if ids != [] { UsersLater(origins, o, ids[..|ids| - 1]); }
  }

  /** The life of the sink's channel: accepted, being sent, waiting. */
  function Line(p: Pipe): seq<nat> {
    p.accepted + InHand(p) + p.sinkQ
  }

  /** The session's queue: nothing is lost or reordered on the way to the sink's channel. */
  predicate QueueInv(p: Pipe) {
    && p.handed <= p.submitted
    && (p.sessionUp ==> p.handed + p.sessionQ == p.submitted)
    && (forall k | 0 <= k < |p.sessionQ| :: p.sessionQ[k] < |p.origins| && p.origins[p.sessionQ[k]].User?)
  }

  predicate Known(p: Pipe, ids: seq<nat>) {
    forall k | 0 <= k < |ids| :: ids[k] < |p.origins|
  }

  /** The sink's channel: of what the session handed over, the sink accepts a prefix. */
  predicate LineInv(p: Pipe) {
    && Known(p, Line(p))
    && Users(p.origins, p.accepted) <= p.handed
    && (p.sinkUp ==> Users(p.origins, Line(p)) == p.handed)
  }

  predicate OrderInv(p: Pipe) {
    QueueInv(p) && LineInv(p)
  }

  lemma KnownParts(p: Pipe)
    requires Known(p, Line(p))
    ensures Known(p, p.accepted) && Known(p, InHand(p)) && Known(p, p.sinkQ)
  {
    var l, n := Line(p), |p.accepted|;
    assert forall k | 0 <= k < n :: p.accepted[k] == l[k];
    assert forall k | 0 <= k < |InHand(p)| :: InHand(p)[k] == l[n + k];
    assert forall k | 0 <= k < |p.sinkQ| :: p.sinkQ[k] == l[n + |InHand(p)| + k];
  }

  /** A message is created without entering the channel. */
  lemma LineSame(p: Pipe, q: Pipe)
    requires LineInv(p) && q.accepted == p.accepted && q.handed == p.handed && Line(q) == Line(p)
    requires q.origins == p.origins || q.origins == p.origins + [User] || q.origins == p.origins + [Direct]
    requires q.sinkUp ==> p.sinkUp
    ensures LineInv(q)
  {
    KnownParts(p);
    if |q.origins| > |p.origins| {
      UsersLater(p.origins, q.origins[|p.origins|], p.accepted);
      UsersLater(p.origins, q.origins[|p.origins|], Line(p));
    }
  }

  /** Message `i` joins the end of the channel. */
  lemma LineJoined(p: Pipe, q: Pipe, i: nat, o: Origin)
    requires LineInv(p) && p.sinkUp && q.accepted == p.accepted && Line(q) == Line(p) + [i]
    requires if i < |p.origins| then q.origins == p.origins && p.origins[i] == o
             else i == |p.origins| && q.origins == p.origins + [o]
    requires q.handed == (if o.User? then p.handed + [i] else p.handed)
    ensures LineInv(q)
  {
    KnownParts(p);
    UsersConcat(q.origins, Line(p), [i]);
    assert [i][..0] == [];
    if |q.origins| > |p.origins| {
      UsersLater(p.origins, o, p.accepted);
      UsersLater(p.origins, o, Line(p));
    }
  }

  /** The sink is gone; the channel loses messages. */
  lemma LineFrozen(p: Pipe, q: Pipe)
    requires LineInv(p) && !q.sinkUp && q.accepted == p.accepted && q.handed == p.handed && q.origins == p.origins
    requires Known(q, InHand(q)) && Known(q, q.sinkQ)
    ensures LineInv(q)
  {
    KnownParts(p);
  }

  /** The sink accepts the message in hand. */
  lemma LineAccepted(p: Pipe, q: Pipe)
    requires LineInv(p) && p.sinkUp && q.sinkUp && p.hand.Some? && q.hand.None?
    requires q.accepted == p.accepted + [p.hand.value] && q.sinkQ == p.sinkQ
    requires q.handed == p.handed && q.origins == p.origins
    ensures LineInv(q)
  {
    assert Line(q) == Line(p);
    assert Line(p) == q.accepted + p.sinkQ;
    UsersConcat(p.origins, q.accepted, p.sinkQ);
  }

  lemma QueueStep(p: Pipe, e: Event)
    requires QueueInv(p) && |p.statuses| == |p.origins| && Enabled(p, e)
    ensures QueueInv(Apply(p, e))
  {
    match e {
      case Submit(_) =>
        assert p.handed + (p.sessionQ + [|p.statuses|]) == p.handed + p.sessionQ + [|p.statuses|];
      case Forward =>
        assert p.sessionQ == [p.sessionQ[0]] + p.sessionQ[1..];
        assert p.handed + [p.sessionQ[0]] + p.sessionQ[1..] == p.submitted;
      case _ =>
    }
  }

  lemma ForwardLine(p: Pipe)
    requires OrderInv(p) && Enabled(p, Forward)
    ensures LineInv(Apply(p, Forward))
  {
    var q, i := Apply(p, Forward), p.sessionQ[0];
    if p.sinkUp {
      assert Line(q) == Line(p) + [i];
      LineJoined(p, q, i, User);
    } else {
      LineSame(p, q);
    }
  }

  lemma DirectLine(p: Pipe, e: Event)
    requires OrderInv(p) && |p.statuses| == |p.origins| && e.SendDirect?
    ensures LineInv(Apply(p, e))
  {
    var q := Apply(p, e);
    if p.sinkUp {
      assert Line(q) == Line(p) + [|p.origins|];
      LineJoined(p, q, |p.origins|, Direct);
    } else {
      LineSame(p, q);
    }
  }

  lemma LineStep(p: Pipe, e: Event)
    requires OrderInv(p) && |p.statuses| == |p.origins| && (!p.sinkUp ==> p.hand.None?) && Enabled(p, e)
    ensures LineInv(Apply(p, e))
  {
    KnownParts(p);
    match e {
      case SendDirect(_) => DirectLine(p, e);
      case Forward => ForwardLine(p);
      case SinkSends(ok) => if ok { LineAccepted(p, Apply(p, e)); } else { LineFrozen(p, Apply(p, e)); }
      case SinkCancelled => LineFrozen(p, Apply(p, e));
      case DestroySink => LineFrozen(p, Apply(p, e));
      case _ =>
        assert Line(Apply(p, e)) == Line(p);
        LineSame(p, Apply(p, e));
    }
  }

  /** At all times, and wherever the sink fails, is aborted or the session ends:
      the users' messages accepted by the underlying sink are a prefix of what
      they submitted, in submission order, whatever pings came in between. */
  lemma {:induction false} InOrderDelivery(es: seq<Event>)
    requires After(es).Some?
    ensures OrderInv(After(es).value)
    ensures var p := After(es).value; Users(p.origins, p.accepted) <= p.submitted
  {
    SignalConservation(es);
    if es != [] {
      InOrderDelivery(es[..|es| - 1]);
      SignalConservation(es[..|es| - 1]);
      QueueStep(After(es[..|es| - 1]).value, es[|es| - 1]);
      LineStep(After(es[..|es| - 1]).value, es[|es| - 1]);
    }
  }

  // ----- What the sink actor gets done -----

  lemma LineGrowsStep(p: Pipe, e: Event)
    requires Enabled(p, e)
    ensures Apply(p, e).sinkUp ==> p.sinkUp && Line(p) <= Line(Apply(p, e))
  {
    var q := Apply(p, e);
    match e {
      case SendDirect(_) => assert q.sinkUp ==> Line(q) == Line(p) + [|p.statuses|];
      case Forward => assert q.sinkUp ==> Line(q) == Line(p) + [p.sessionQ[0]];
      case _ => assert q.sinkUp ==> Line(q) == Line(p);
    }
  }

  /** As long as the sink is up its line is only added to at the end, so what it
      accepts next is what has waited longest. */
  lemma {:induction false} LineGrows(p: Pipe, es: seq<Event>)
    requires From(p, es).Some?
    ensures From(p, es).value.sinkUp ==> p.sinkUp && Line(p) <= Line(From(p, es).value)
  {
    if es != [] {
      LineGrows(p, es[..|es| - 1]);
      LineGrowsStep(From(p, es[..|es| - 1]).value, es[|es| - 1]);
    }
  }
}

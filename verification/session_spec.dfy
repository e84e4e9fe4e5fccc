/** The session actor, together with the stream actor that feeds it, as a
    transition system: src/session.rs 202-242 and src/socket.rs 454-500.

    Each event is one atomic move.  `Submit`, `PushCall`, `NetFrame` and
    `NetEnd` belong to the environment; the rest are moves of the actor.  The
    `Enabled` clauses of the three `Take` events carry the bias of the
    actor's `select!`: outgoing messages first, then calls, then the stream. */
module SessionSpec {
  import opened Wire

  datatype CloseResult = Closed(frame: Option<CloseFrame>) | Failed(error: string)

  datatype Finish = PoppedClose | SinkGone | RemoteClosed | StreamOver | HandlerFailed

  datatype Job = OnCall(call: nat) | OnMessage(message: Message)

  datatype Phase =
    | Ready
    | InHandler(job: Job)
    | Returned(result: CloseResult, why: Finish)
    | Crashed

  datatype Actor = Actor(
    toSocket: seq<Message>,    // queue behind the session handles
    calls: seq<nat>,           // queue behind Session::call
    inbox: seq<Inbound>,       // channel from the stream actor
    streaming: bool,           // the stream actor is still reading
    phase: Phase,
    // history
    submitted: seq<Message>,   // messages the queue accepted, in order
    handed: seq<Message>,      // messages the sink's channel accepted, in order
    frames: seq<NetItem>,      // everything read from the network
    consumed: seq<Inbound>,    // what the session took from `inbox`
    handled: seq<Message>,     // arguments of on_text and on_binary, in order
    called: seq<nat>)          // arguments of on_call, in order

  datatype Event =
    | Submit(message: Message)
    | PushCall(call: nat)
    | NetFrame(item: NetItem)
    | NetEnd
    | TakeOutgoing(sent: bool)
    | TakeCall
    | TakeIncoming
    | TakeEnd
    | HandlerReturns(error: Option<string>)
    | Crash

  predicate Environmental(e: Event) {
    e.Submit? || e.PushCall? || e.NetFrame? || e.NetEnd?
  }

  const FRESH := Actor([], [], [], true, Ready, [], [], [], [], [], [])

  predicate Unfinished(a: Actor) {
    a.phase.Ready? || a.phase.InHandler?
  }

  /** What `await_close` yields once the session task is gone (src/session.rs 102-110). */
  function Outcome(a: Actor): CloseResult
    requires !Unfinished(a)
  {
    if a.phase.Returned? then a.phase.result else Failed("session actor crashed")
  }

  /** The stream actor's treatment of one item: pings and pongs stay behind. */
  function Forwarded(item: NetItem): seq<Inbound> {
    match item
    case Bad(error) => [Broken(error)]
    case Good(RawText(text)) => [Delivered(Text(text))]
    case Good(RawBinary(bytes)) => [Delivered(Binary(bytes))]
    case Good(RawClose(frame)) => [Delivered(Close(frame))]
    case Good(_) => []
  }

  predicate Enabled(a: Actor, e: Event) {
    match e
    case Submit(_) => true
    case PushCall(_) => true
    case NetFrame(_) => a.streaming
    case NetEnd => a.streaming
    case TakeOutgoing(_) => a.phase.Ready? && a.toSocket != []
    case TakeCall => a.phase.Ready? && a.toSocket == [] && a.calls != []
    case TakeIncoming => a.phase.Ready? && a.toSocket == [] && a.calls == [] && a.inbox != []
    case TakeEnd => a.phase.Ready? && a.toSocket == [] && a.calls == [] && a.inbox == [] && !a.streaming
    case HandlerReturns(_) => a.phase.InHandler?
    case Crash => Unfinished(a)
  }

  function Apply(a: Actor, e: Event): Actor
    requires Enabled(a, e)
  {
    match e
    case Submit(m) =>
      // once the actor is gone its receiver is gone, and `send` hands the message back
      if Unfinished(a) then a.(toSocket := a.toSocket + [m], submitted := a.submitted + [m]) else a
    case PushCall(c) =>
      if Unfinished(a) then a.(calls := a.calls + [c]) else a
    case NetFrame(item) =>
      var out := Forwarded(item);
      a.(frames := a.frames + [item],
         inbox := if Unfinished(a) then a.inbox + out else a.inbox,
         streaming := Unfinished(a) || out == [])
    case NetEnd => a.(streaming := false)
    case TakeOutgoing(sent) =>
      var m := a.toSocket[0];
      var b := a.(toSocket := a.toSocket[1..], handed := if sent then a.handed + [m] else a.handed);
      if m.Close? then b.(phase := Returned(Closed(m.frame), PoppedClose))
      else if !sent then b.(phase := Returned(Closed(None), SinkGone))
      else b
    case TakeCall =>
      a.(calls := a.calls[1..], called := a.called + [a.calls[0]], phase := InHandler(OnCall(a.calls[0])))
    case TakeIncoming =>
      var b := a.(inbox := a.inbox[1..], consumed := a.consumed + [a.inbox[0]]);
      (match a.inbox[0]
       case Broken(_) => b
       case Delivered(Close(frame)) => b.(phase := Returned(Closed(frame), RemoteClosed))
       case Delivered(m) => b.(phase := InHandler(OnMessage(m)), handled := a.handled + [m]))
    case TakeEnd => a.(phase := Returned(Closed(None), StreamOver))
    case HandlerReturns(None) => a.(phase := Ready)
    case HandlerReturns(Some(error)) => a.(phase := Returned(Failed(error), HandlerFailed))
    case Crash => a.(phase := Crashed)
  }

  /** The state reached from `a` by the events `es`, if each was enabled in its turn. */
  function From(a: Actor, es: seq<Event>): Option<Actor> {
    if es == [] then Some(a) else
      var before := From(a, es[..|es| - 1]);
      var e := es[|es| - 1];
      if before.Some? && Enabled(before.value, e) then Some(Apply(before.value, e)) else None
  }

  function After(es: seq<Event>): Option<Actor> {
    From(FRESH, es)
  }

  // ----- Outgoing: order, and what a popped Close implies -----

  predicate NoClose(ms: seq<Message>) {
    forall i | 0 <= i < |ms| :: !ms[i].Close?
  }

  ghost predicate OutgoingInv(a: Actor) {
    && a.handed <= a.submitted
    && (Unfinished(a) ==> a.handed + a.toSocket == a.submitted && NoClose(a.handed))
    && (a.phase.Returned? && a.phase.why.PoppedClose? ==>
          exists k :: ClosedAt(a, k))
  }

  /** The session ended at submission number `k`, its first Close, with every
      earlier submission in the sink's channel. */
  predicate ClosedAt(a: Actor, k: nat) {
    && k < |a.submitted|
    && NoClose(a.submitted[..k])
    && (a.handed == a.submitted[..k] || a.handed == a.submitted[..k + 1])
    && a.submitted[k].Close?
    && a.phase.Returned?
    && a.phase.result == Closed(a.submitted[k].frame)
  }

  lemma HeadMoves(done: seq<Message>, rest: seq<Message>, all: seq<Message>)
    requires done + rest == all && |rest| > 0
    ensures var k := |done|;
            && k < |all| && all[k] == rest[0] && all[..k] == done && all[..k + 1] == done + [rest[0]]
            && (done + [rest[0]]) + rest[1..] == all
  {
  }

  lemma TakeOutgoingKeeps(a: Actor, sent: bool)
    requires OutgoingInv(a) && Enabled(a, TakeOutgoing(sent))
    ensures OutgoingInv(Apply(a, TakeOutgoing(sent)))
  {
    var b := Apply(a, TakeOutgoing(sent));
    HeadMoves(a.handed, a.toSocket, a.submitted);
    if a.toSocket[0].Close? {
      assert ClosedAt(b, |a.handed|);
    }
  }

  lemma OutgoingStep(a: Actor, e: Event)
    requires OutgoingInv(a) && Enabled(a, e)
    ensures OutgoingInv(Apply(a, e))
  {
    if e.TakeOutgoing? {
      TakeOutgoingKeeps(a, e.sent);
    } else if e.Submit? && Unfinished(a) {
      assert a.handed + (a.toSocket + [e.message]) == a.submitted + [e.message];
    } else if !Unfinished(a) {
      KeepsClosing(a, Apply(a, e));
    }
  }

  lemma KeepsClosing(a: Actor, b: Actor)
    requires OutgoingInv(a)
    requires b.submitted == a.submitted && b.handed == a.handed && b.phase == a.phase && !Unfinished(a)
    ensures OutgoingInv(b)
  {
    if a.phase.Returned? && a.phase.why.PoppedClose? {
      var k :| ClosedAt(a, k);
      assert ClosedAt(b, k);
    }
  }

  /** In every run: what reached the sink's channel is a prefix of what was
      submitted, nothing is lost or reordered while the session lives, and a
      session that ends on its own Close had handed over everything before it. */
  lemma {:induction false} OrderedHandover(es: seq<Event>)
    requires After(es).Some?
    ensures OutgoingInv(After(es).value)
  {
    if es != [] {
      OrderedHandover(es[..|es| - 1]);
      OutgoingStep(After(es[..|es| - 1]).value, es[|es| - 1]);
    }
  }

  // ----- Inbound: the two actors refine a filter over the frame list -----

  /** The specification: data frames in order, up to the first Close. */
  function Expected(frames: seq<NetItem>): seq<Message> {
    if frames == [] then [] else
      match frames[0]
      case Good(RawText(text)) => [Text(text)] + Expected(frames[1..])
      case Good(RawBinary(bytes)) => [Binary(bytes)] + Expected(frames[1..])
      case Good(RawClose(_)) => []
      case _ => Expected(frames[1..])
  }

  function ForwardedAll(frames: seq<NetItem>): seq<Inbound> {
    if frames == [] then []
    else ForwardedAll(frames[..|frames| - 1]) + Forwarded(frames[|frames| - 1])
  }

  predicate IsClose(i: Inbound) {
    i.Delivered? && i.message.Close?
  }

  /** Data before the first Close, read off the channel's contents. */
  function DataOf(items: seq<Inbound>): seq<Message> {
    if items == [] then []
    else if IsClose(items[0]) then []
    else if items[0].Delivered? then [items[0].message] + DataOf(items[1..])
    else DataOf(items[1..])
  }

  predicate Open(items: seq<Inbound>) {
    forall i | 0 <= i < |items| :: !IsClose(items[i])
  }

  lemma {:induction false} DataOfConcat(a: seq<Inbound>, b: seq<Inbound>)
    ensures DataOf(a + b) == if Open(a) then DataOf(a) + DataOf(b) else DataOf(a)
  {
    if a == [] {
      assert a + b == b;
    } else {
      assert (a + b)[1..] == a[1..] + b;
      DataOfConcat(a[1..], b);
      assert Open(a) ==> Open(a[1..]);
      assert !IsClose(a[0]) && Open(a[1..]) ==> Open(a) by {
        if !IsClose(a[0]) && Open(a[1..]) {
          forall i | 0 <= i < |a| ensures !IsClose(a[i]) {
            if i > 0 { assert a[i] == a[1..][i - 1]; }
          }
        }
      }
    }
  }

  lemma {:induction false} ForwardedAllFront(frames: seq<NetItem>)
    requires frames != []
    ensures ForwardedAll(frames) == Forwarded(frames[0]) + ForwardedAll(frames[1..])
  {
    var n := |frames| - 1;
    if n == 0 {
      assert frames[..0] == [] && frames[1..] == [];
    } else {
      var init, tail, last := frames[..n], frames[1..], Forwarded(frames[n]);
      ForwardedAllFront(init);
      var mid := ForwardedAll(init[1..]);
      assert init[1..] == tail[..n - 1] && tail[n - 1] == frames[n];
      assert ForwardedAll(tail) == mid + last;
      assert (Forwarded(frames[0]) + mid) + last == Forwarded(frames[0]) + (mid + last);
    }
  }

  lemma DataOfForwarded(item: NetItem)
    ensures !item.Good? || !item.raw.RawClose? ==> Open(Forwarded(item))
    ensures DataOf(Forwarded(item)) ==
            match item
            case Good(RawText(text)) => [Text(text)]
            case Good(RawBinary(bytes)) => [Binary(bytes)]
            case _ => []
  {
    if Forwarded(item) != [] {
      assert Forwarded(item)[1..] == [];
    }
  }

  /** The channel carries exactly the data the specification asks for. */
  lemma {:induction false} ForwardingIsExpected(frames: seq<NetItem>)
    ensures DataOf(ForwardedAll(frames)) == Expected(frames)
  {
    if frames != [] {
      ForwardedAllFront(frames);
      DataOfForwarded(frames[0]);
      DataOfConcat(Forwarded(frames[0]), ForwardedAll(frames[1..]));
      ForwardingIsExpected(frames[1..]);
    }
  }

  predicate InboundInv(a: Actor) {
    && a.handled == DataOf(a.consumed)
    && a.consumed + a.inbox <= ForwardedAll(a.frames)
    && (Unfinished(a) ==> a.consumed + a.inbox == ForwardedAll(a.frames) && Open(a.consumed))
  }

  lemma OneMore(done: seq<Inbound>, rest: seq<Inbound>)
    requires Open(done) && |rest| > 0
    ensures (done + [rest[0]]) + rest[1..] == done + rest
    ensures IsClose(rest[0]) || Open(done + [rest[0]])
    ensures DataOf(done + [rest[0]]) ==
            if rest[0].Delivered? && !IsClose(rest[0]) then DataOf(done) + [rest[0].message] else DataOf(done)
  {
    DataOfConcat(done, [rest[0]]);
    assert [rest[0]][1..] == [];
  }

  lemma TakeIncomingKeeps(a: Actor)
    requires InboundInv(a) && Enabled(a, TakeIncoming)
    ensures InboundInv(Apply(a, TakeIncoming))
  {
    OneMore(a.consumed, a.inbox);
  }

  lemma NetFrameKeeps(a: Actor, item: NetItem)
    requires InboundInv(a) && Enabled(a, NetFrame(item))
    ensures InboundInv(Apply(a, NetFrame(item)))
  {
    var out := Forwarded(item);
    assert ForwardedAll(a.frames + [item]) == ForwardedAll(a.frames) + out by {
      assert (a.frames + [item])[..|a.frames|] == a.frames;
    }
    assert a.consumed + (a.inbox + out) == a.consumed + a.inbox + out;
  }

  lemma InboundStep(a: Actor, e: Event)
    requires InboundInv(a) && Enabled(a, e)
    ensures InboundInv(Apply(a, e))
  {
    match e {
      case NetFrame(item) => NetFrameKeeps(a, item);
      case TakeIncoming => TakeIncomingKeeps(a);
      case _ =>
    }
  }

  lemma {:induction false} InboundAlways(es: seq<Event>)
    requires After(es).Some?
    ensures InboundInv(After(es).value)
  {
    if es != [] {
      InboundAlways(es[..|es| - 1]);
      InboundStep(After(es[..|es| - 1]).value, es[|es| - 1]);
    }
  }

  /** The handler calls of every run are a prefix of the filtered frames; and a
      live session with an empty channel has handled all of them. */
  lemma InboundRefinesFilter(es: seq<Event>)
    requires After(es).Some?
    ensures var a := After(es).value;
            && a.handled <= Expected(a.frames)
            && (Unfinished(a) && a.inbox == [] ==> a.handled == Expected(a.frames))
  {
    var a := After(es).value;
    InboundAlways(es);
    ForwardingIsExpected(a.frames);
    var all := ForwardedAll(a.frames);
    var rest := all[|a.consumed|..];
    assert a.consumed <= all by { assert all[..|a.consumed|] == (a.consumed + a.inbox)[..|a.consumed|]; }
    assert a.consumed + rest == all;
    DataOfConcat(a.consumed, rest);
    if Unfinished(a) && a.inbox == [] {
      assert rest == [];
    }
  }

  // ----- The bias: a queued Close is reached, whatever else is waiting -----

  predicate HasClose(q: seq<Message>) {
    exists i | 0 <= i < |q| :: q[i].Close?
  }

  /** How many messages stand ahead of the first Close (all of them if there is none). */
  function Ahead(q: seq<Message>): nat {
    if q == [] || q[0].Close? then 0 else 1 + Ahead(q[1..])
  }

  lemma {:induction false} AheadAppend(q: seq<Message>, m: Message)
    requires HasClose(q)
    ensures HasClose(q + [m]) && Ahead(q + [m]) == Ahead(q)
  {
    var i :| 0 <= i < |q| && q[i].Close?;
    assert (q + [m])[i].Close?;
    if !q[0].Close? {
      assert q[1..][i - 1].Close?;
      AheadAppend(q[1..], m);
      assert (q + [m])[1..] == q[1..] + [m];
    }
  }

  lemma HasCloseTail(q: seq<Message>)
    requires HasClose(q) && !q[0].Close?
    ensures HasClose(q[1..])
  {
    var i :| 0 <= i < |q| && q[i].Close?;
    assert q[1..][i - 1].Close?;
  }

  /** The moves an actor with a queued Close can still make. */
  function Work(a: Actor): nat {
    if !Unfinished(a) then 0
    else Ahead(a.toSocket) + 1 + (if a.phase.InHandler? then 1 else 0)
  }

  lemma WorkStep(a: Actor, e: Event)
    requires Enabled(a, e) && (Unfinished(a) ==> HasClose(a.toSocket))
    ensures var b := Apply(a, e);
            && (Unfinished(b) ==> HasClose(b.toSocket))
            && (if Environmental(e) then Work(b) == Work(a) else Work(b) < Work(a))
  {
    match e {
      case Submit(m) =>
        if Unfinished(a) { AheadAppend(a.toSocket, m); }
      case TakeOutgoing(_) =>
        if !a.toSocket[0].Close? { HasCloseTail(a.toSocket); }
      case _ =>
    }
  }

  function Moves(es: seq<Event>): nat {
    if es == [] then 0
    else Moves(es[..|es| - 1]) + (if Environmental(es[|es| - 1]) then 0 else 1)
  }

  /** With a Close in the queue, no run contains more than `Work(a)` moves of the
      actor, and after that many it has ended: endless calls, frames and later
      submissions cannot starve the Close. */
  lemma {:induction false} CloseIsReached(a: Actor, es: seq<Event>)
    requires Unfinished(a) && HasClose(a.toSocket)
    requires From(a, es).Some?
    ensures var b := From(a, es).value;
            && Moves(es) + Work(b) <= Work(a)
            && (Unfinished(b) ==> HasClose(b.toSocket))
            && (Moves(es) == Work(a) ==> !Unfinished(b))
  {
    if es != [] {
      CloseIsReached(a, es[..|es| - 1]);
      WorkStep(From(a, es[..|es| - 1]).value, es[|es| - 1]);
    }
  }

  // ----- Nothing waits while the actor is granted turns -----

  function Pending(a: Actor): nat {
    |a.toSocket| + |a.calls| + |a.inbox|
  }

  /** A move serves at most one item, and nobody else takes any away. */
  lemma PendingStep(a: Actor, e: Event)
    requires Enabled(a, e)
    ensures Pending(Apply(a, e)) + (if Environmental(e) then 0 else 1) >= Pending(a)
  {
  }

  lemma {:induction false} PendingAlong(a: Actor, es: seq<Event>)
    requires From(a, es).Some?
    ensures Moves(es) + Pending(From(a, es).value) >= Pending(a)
  {
    if es != [] {
      PendingAlong(a, es[..|es| - 1]);
      PendingStep(From(a, es[..|es| - 1]).value, es[|es| - 1]);
    }
  }

  lemma {:induction false} Resumed(es: seq<Event>, more: seq<Event>)
    requires After(es + more).Some?
    ensures After(es).Some? && From(After(es).value, more) == After(es + more)
    ensures Moves(es + more) == Moves(es) + Moves(more)
  {
    if more == [] {
      assert es + more == es;
    } else {
      var shorter := more[..|more| - 1];
      assert (es + more)[..|es + more| - 1] == es + shorter;
      Resumed(es, shorter);
    }
  }

  /** A live actor that finds nothing to do has served all that waited for it at
      any earlier moment, and no Close was among it. */
  lemma IdleMeansServed(before: seq<Event>, after: seq<Event>)
    requires before <= after && After(after).Some? && Unfinished(After(after).value) && Pending(After(after).value) == 0
    ensures After(before).Some?
    ensures var a := After(before).value;
            && Moves(after) >= Moves(before) + Pending(a)
            && (Unfinished(a) ==> !HasClose(a.toSocket))
  {
    var more := after[|before|..];
    assert before + more == after;
    Resumed(before, more);
    var a := After(before).value;
    PendingAlong(a, more);
    if Unfinished(a) && HasClose(a.toSocket) { CloseIsReached(a, more); }
  }

  /** After `Work(a)` moves of its own, an actor with a Close in its queue has ended. */
  lemma ClosedInTime(before: seq<Event>, after: seq<Event>)
    requires before <= after && After(after).Some? && After(before).Some?
    requires Unfinished(After(before).value) && HasClose(After(before).value.toSocket)
    requires Moves(after) >= Moves(before) + Work(After(before).value)
    ensures !Unfinished(After(after).value)
  {
    var more := after[|before|..];
    assert before + more == after;
    Resumed(before, more);
    CloseIsReached(After(before).value, more);
  }
}

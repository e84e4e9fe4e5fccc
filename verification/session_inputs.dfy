/** What a session is given by its users and by the network, read off the events
    of a run alone, and what becomes of it: src/session.rs 112-175 and 202-242
    with src/socket.rs 454-500. */
module SessionInputs {
  import opened Wire
  import opened SessionSpec

  predicate AliveAfter(es: seq<Event>) {
    After(es).Some? && Unfinished(After(es).value)
  }

  /** The messages of the Submit events while the session lived. */
  function Submissions(es: seq<Event>): seq<Message> {
    if es == [] then []
    else
      var init, e := es[..|es| - 1], es[|es| - 1];
      Submissions(init) + (if e.Submit? && AliveAfter(init) then [e.message] else [])
  }

  /** The arguments of the PushCall events while the session lived. */
  function PushedCalls(es: seq<Event>): seq<nat> {
    if es == [] then []
    else
      var init, e := es[..|es| - 1], es[|es| - 1];
      PushedCalls(init) + (if e.PushCall? && AliveAfter(init) then [e.call] else [])
  }

  /** Everything the network stream yielded. */
  function Frames(es: seq<Event>): seq<NetItem> {
    if es == [] then []
    else Frames(es[..|es| - 1]) + (if es[|es| - 1].NetFrame? then [es[|es| - 1].item] else [])
  }

  predicate DataOrClose(item: NetItem) {
    item.Bad? || item.raw.RawText? || item.raw.RawBinary? || item.raw.RawClose?
  }

  /** The stream actor has stopped: the network stream ended, or an item other
      than a ping or a pong found the session gone. */
  predicate StreamStopped(es: seq<Event>) {
    es != [] &&
    var init, e := es[..|es| - 1], es[|es| - 1];
    || StreamStopped(init)
    || e.NetEnd?
    || (e.NetFrame? && DataOrClose(e.item) && !AliveAfter(init))
  }

  /** Users are never kept from sending, nor the network while it is read. */
  lemma NobodyIsBlocked(a: Actor, m: Message, c: nat, item: NetItem)
    ensures Enabled(a, Submit(m)) && Enabled(a, PushCall(c))
    ensures a.streaming ==> Enabled(a, NetFrame(item)) && Enabled(a, NetEnd)
  {
  }

  lemma InputStep(a: Actor, e: Event)
    requires Enabled(a, e)
    ensures var b := Apply(a, e);
            && b.submitted == a.submitted + (if e.Submit? && Unfinished(a) then [e.message] else [])
            && b.frames == a.frames + (if e.NetFrame? then [e.item] else [])
            && (b.streaming <==> a.streaming && !e.NetEnd? && !(e.NetFrame? && DataOrClose(e.item) && !Unfinished(a)))
  {
    if e.NetFrame? { ForwardedOtherwise(e.item); }
  }

  lemma {:induction false} InputsAreRecorded(es: seq<Event>)
    requires After(es).Some?
    ensures var a := After(es).value;
            && a.submitted == Submissions(es) && a.frames == Frames(es)
            && (a.streaming <==> !StreamStopped(es))
  {
    if es != [] {
      InputsAreRecorded(es[..|es| - 1]);
      InputStep(After(es[..|es| - 1]).value, es[|es| - 1]);
    }
  }

  /** In every run the calls handled, followed by those queued, are exactly the
      calls made while the session lived, in order. */
  lemma {:induction false} CallsInOrder(es: seq<Event>)
    requires After(es).Some?
    ensures After(es).value.called + After(es).value.calls == PushedCalls(es)
  {
    if es != [] {
      var init, e := es[..|es| - 1], es[|es| - 1];
      CallsInOrder(init);
      var a := After(init).value;
      match e {
        case PushCall(c) => assert a.called + (a.calls + [c]) == a.called + a.calls + [c];
        case TakeCall => assert (a.called + [a.calls[0]]) + a.calls[1..] == a.called + a.calls;
        case _ =>
      }
    }
  }

  /** In every run what reached the sink's channel is a prefix of what was sent
      while the session lived, and all of it but the queue while it lives. */
  lemma HandedIsSubmitted(es: seq<Event>)
    requires After(es).Some?
    ensures var a := After(es).value;
            && a.handed <= Submissions(es)
            && (Unfinished(a) ==> a.handed + a.toSocket == Submissions(es))
  {
    OrderedHandover(es);
    InputsAreRecorded(es);
  }

  /** In every run the handler calls are a prefix of the data frames that the
      network yielded before the first Close. */
  lemma HandledIsReceived(es: seq<Event>)
    requires After(es).Some?
    ensures var a := After(es).value;
            && a.handled <= Expected(Frames(es))
            && (Unfinished(a) && a.inbox == [] ==> a.handled == Expected(Frames(es)))
  {
    InboundRefinesFilter(es);
    InputsAreRecorded(es);
  }

  // ----- What comes out is what the partner put in -----

  /** What is sent is what the partner's stream actor delivers. */
  lemma DeliveredAsSent(m: Message)
    ensures Forwarded(Good(ToRaw(m))) == [Delivered(m)]
  {
  }

  /** Of everything else only transport errors are passed on. */
  lemma ForwardedOtherwise(item: NetItem)
    ensures Forwarded(item) == [] <==> !DataOrClose(item)
    ensures Forwarded(item) != [] ==>
              if item.Bad? then Forwarded(item) == [Broken(item.error)]
              else exists m :: item.raw == ToRaw(m) && Forwarded(item) == [Delivered(m)]
  {
    if item.Good? && DataOrClose(item) {
      var m := match item.raw
               case RawText(t) => Text(t)
               case RawBinary(b) => Binary(b)
               case RawClose(f) => Close(f)
               case _ => Text("");
      assert item.raw == ToRaw(m);
      DeliveredAsSent(m);
    }
  }

  /** The frame of the first Close among the items. */
  function FirstClose(frames: seq<NetItem>): Option<Option<CloseFrame>> {
    if frames == [] then None
    else if frames[0].Good? && frames[0].raw.RawClose? then Some(frames[0].raw.frame)
    else FirstClose(frames[1..])
  }

  function CloseOf(items: seq<Inbound>): Option<Option<CloseFrame>> {
    if items == [] then None
    else if IsClose(items[0]) then Some(items[0].message.frame)
    else CloseOf(items[1..])
  }

  lemma {:induction false} CloseOfConcat(a: seq<Inbound>, b: seq<Inbound>)
    ensures CloseOf(a + b) == if CloseOf(a).Some? then CloseOf(a) else CloseOf(b)
  {
    if a == [] {
      assert a + b == b;
    } else {
      assert (a + b)[1..] == a[1..] + b;
      CloseOfConcat(a[1..], b);
    }
  }

  lemma {:induction false} CloseOfForwarded(frames: seq<NetItem>)
    ensures CloseOf(ForwardedAll(frames)) == FirstClose(frames)
  {
    if frames != [] {
      ForwardedAllFront(frames);
      CloseOfConcat(Forwarded(frames[0]), ForwardedAll(frames[1..]));
      CloseOfForwarded(frames[1..]);
      if Forwarded(frames[0]) != [] { assert Forwarded(frames[0])[1..] == []; }
    }
  }

  /** A session that was closed by its partner has seen that Close and no other. */
  predicate RemoteInv(a: Actor) {
    && (Unfinished(a) ==> CloseOf(a.consumed).None?)
    && (a.phase.Returned? && a.phase.why.RemoteClosed? ==>
          a.phase.result.Closed? && CloseOf(a.consumed) == Some(a.phase.result.frame))
  }

  lemma RemoteStep(a: Actor, e: Event)
    requires RemoteInv(a) && Enabled(a, e)
    ensures RemoteInv(Apply(a, e))
  {
    if e.TakeIncoming? {
      CloseOfConcat(a.consumed, [a.inbox[0]]);
      assert [a.inbox[0]][1..] == [];
    }
  }

  lemma {:induction false} RemoteAlways(es: seq<Event>)
    requires After(es).Some?
    ensures RemoteInv(After(es).value)
  {
    if es != [] {
      RemoteAlways(es[..|es| - 1]);
      RemoteStep(After(es[..|es| - 1]).value, es[|es| - 1]);
    }
  }

  /** A session that its partner closed returns the frame of the first Close the
      network yielded. */
  lemma RemoteCloseIsReturned(es: seq<Event>)
    requires After(es).Some? && After(es).value.phase.Returned? && After(es).value.phase.why.RemoteClosed?
    ensures var result := After(es).value.phase.result;
            result.Closed? && FirstClose(Frames(es)) == Some(result.frame)
  {
    var a := After(es).value;
    RemoteAlways(es);
    InboundAlways(es);
    InputsAreRecorded(es);
    CloseOfForwarded(a.frames);
    var all := ForwardedAll(a.frames);
    assert a.consumed <= all by { assert all[..|a.consumed|] == (a.consumed + a.inbox)[..|a.consumed|]; }
    assert all == a.consumed + all[|a.consumed|..];
    CloseOfConcat(a.consumed, all[|a.consumed|..]);
  }

  /** What await_close yields: the returned result, and an error after a crash. */
  lemma OutcomeIs(a: Actor)
    requires !Unfinished(a)
    ensures a.phase.Returned? ==> Outcome(a) == a.phase.result
    ensures a.phase.Crashed? ==> Outcome(a) == Failed("session actor crashed")
  {
  }

  // ----- Sessions end for a reason -----

  predicate Happened(es: seq<Event>, e: Event) {
    exists k | 0 <= k < |es| :: es[k] == e
  }

  /** Each way in which a session ends, and what must have happened for it. */
  predicate ReasonGiven(es: seq<Event>, phase: Phase) {
    match phase
    case Ready => true
    case InHandler(_) => true
    case Crashed => Happened(es, Crash)
    case Returned(result, StreamOver) => result == Closed(None) && StreamStopped(es)
    case Returned(result, SinkGone) => result == Closed(None) && Happened(es, TakeOutgoing(false))
    case Returned(result, HandlerFailed) => result.Failed? && Happened(es, HandlerReturns(Some(result.error)))
    case Returned(result, RemoteClosed) => result.Closed? && FirstClose(Frames(es)) == Some(result.frame)
    case Returned(result, PoppedClose) => result.Closed? && Close(result.frame) in Submissions(es)
  }

  lemma ReasonStays(init: seq<Event>, e: Event, phase: Phase)
    requires ReasonGiven(init, phase) && !(phase.Returned? && phase.why.RemoteClosed?)
    ensures ReasonGiven(init + [e], phase)
  {
    var es := init + [e];
    assert es[..|es| - 1] == init && es[|es| - 1] == e;
    forall x | Happened(init, x) ensures Happened(es, x) {
      var k :| 0 <= k < |init| && init[k] == x;
      assert es[k] == x;
    }
  }

  /** In every run a session that has ended has done so for one of these reasons. */
  lemma {:induction false} EndsForAReason(es: seq<Event>)
    requires After(es).Some?
    ensures ReasonGiven(es, After(es).value.phase)
  {
    if es != [] {
      var init, e := es[..|es| - 1], es[|es| - 1];
      var a, b := After(init).value, After(es).value;
      assert es == init + [e] && es[|init|] == e;
      EndsForAReason(init);
      if b.phase.Returned? && b.phase.why.RemoteClosed? {
        RemoteCloseIsReturned(es);
      } else if !Unfinished(a) {
        ReasonStays(init, e, a.phase);
      } else {
        EndStep(init, e);
      }
    }
  }

  lemma EndStep(init: seq<Event>, e: Event)
    requires After(init + [e]).Some? && After(init).Some? && Unfinished(After(init).value)
    requires var phase := After(init + [e]).value.phase; !(phase.Returned? && phase.why.RemoteClosed?)
    ensures ReasonGiven(init + [e], After(init + [e]).value.phase)
  {
    var es := init + [e];
    assert es[..|es| - 1] == init && es[|init|] == e;
    var a, b := After(init).value, After(es).value;
    InputsAreRecorded(init);
    HandedIsSubmitted(init);
    if e.TakeOutgoing? && a.toSocket[0].Close? {
      assert (a.handed + a.toSocket)[|a.handed|] == a.toSocket[0];
      assert Close(a.toSocket[0].frame) in Submissions(init);
    }
  }
}

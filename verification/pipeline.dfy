/** The outgoing pipeline on the heap: signals shared between a message and the
    user who sent it, messages moved from `InMessage` to `InRawMessage`, and the
    two `Drop` implementations (src/socket.rs 226-391).

    Each method is one event of `PipelineSpec`, carried out on the objects.
    `Valid` ties the objects to the state that `PipelineSpec` reaches by
    `history`: signal number `i` shows the status of message `i`, and has been
    written exactly once if that status is terminal, never otherwise. */
module Pipelines {
  import opened Wire
  import opened PipelineSpec

  lemma {:induction false} TwiceIsTwo(q: seq<nat>, j: nat, k: nat)
    requires j < k < |q| && q[j] == q[k]
    ensures Copies(q, q[j]) >= 2
  {
    if j == 0 {
      OnceIsOne(q[1..], k - 1);
    } else {
      TwiceIsTwo(q[1..], j - 1, k - 1);
    }
  }

  lemma {:induction false} OnceIsOne(q: seq<nat>, k: nat)
    requires k < |q|
    ensures Copies(q, q[k]) >= 1
  {
    if k > 0 { OnceIsOne(q[1..], k - 1); }
  }

  /** The head of the session's queue is in it once, and what is queued is Sending. */
  lemma OnceInSession(es: seq<Event>)
    requires After(es).Some?
    ensures var p := After(es).value;
            && (forall k | 0 < k < |p.sessionQ| :: p.sessionQ[k] != p.sessionQ[0])
            && (forall k | 0 <= k < |p.sessionQ| :: p.sessionQ[k] < |p.statuses| && p.statuses[p.sessionQ[k]].Sending?)
  {
    SignalConservation(es);
    var p := After(es).value;
    forall k | 0 < k < |p.sessionQ| ensures p.sessionQ[k] != p.sessionQ[0] {
      assert Conserved(p, p.sessionQ[0]);
      if p.sessionQ[0] == p.sessionQ[k] { TwiceIsTwo(p.sessionQ, 0, k); }
    }
    forall k | 0 <= k < |p.sessionQ| ensures p.sessionQ[k] < |p.statuses| && p.statuses[p.sessionQ[k]].Sending? {
      OnceIsOne(p.sessionQ, k);
      assert Conserved(p, p.sessionQ[k]);
    }
  }

  /** Likewise for the sink's channel. */
  lemma OnceInChannel(es: seq<Event>)
    requires After(es).Some?
    ensures var p := After(es).value;
            && (forall k | 0 < k < |p.sinkQ| :: p.sinkQ[k] != p.sinkQ[0])
            && (forall k | 0 <= k < |p.sinkQ| :: p.sinkQ[k] < |p.statuses| && p.statuses[p.sinkQ[k]].Sending?)
  {
    SignalConservation(es);
    var p := After(es).value;
    forall k | 0 < k < |p.sinkQ| ensures p.sinkQ[k] != p.sinkQ[0] {
      assert Conserved(p, p.sinkQ[0]);
      if p.sinkQ[0] == p.sinkQ[k] { TwiceIsTwo(p.sinkQ, 0, k); }
    }
    forall k | 0 <= k < |p.sinkQ| ensures p.sinkQ[k] < |p.statuses| && p.statuses[p.sinkQ[k]].Sending? {
      OnceIsOne(p.sinkQ, k);
      assert Conserved(p, p.sinkQ[k]);
    }
  }

  /** The message in the sink actor's hand is Sending and in no queue. */
  lemma OnlyInHand(es: seq<Event>)
    requires After(es).Some? && After(es).value.hand.Some?
    ensures var p := After(es).value;
            && p.hand.value < |p.statuses| && p.statuses[p.hand.value].Sending?
            && (forall k | 0 <= k < |p.sinkQ| :: p.sinkQ[k] != p.hand.value)
  {
    SignalConservation(es);
    var p := After(es).value;
    assert Conserved(p, p.hand.value);
    forall k | 0 <= k < |p.sinkQ| ensures p.sinkQ[k] != p.hand.value {
      OnceIsOne(p.sinkQ, k);
    }
  }

  lemma HandOverStep(p: Pipe)
    requires p.sessionUp && p.sinkUp && |p.sessionQ| > 0
    ensures Enabled(p, Forward)
    ensures var i := p.sessionQ[0];
            Apply(p, Forward) == p.(sessionQ := p.sessionQ[1..], sessionUp := !IsClose(p, i), sinkQ := p.sinkQ + [i],
                                    handed := p.handed + [i])
  {
  }

  /** What a turn of the sink actor meets: the message is accepted, or the send
      fails, or the abort is there instead. */
  datatype Fate = Accepts | Fails | AbortArrives

  class MessageSignal {
    var status: Status
    ghost var writes: nat
    ghost const id: nat

    constructor (ghost i: nat)
      ensures status == Sending && writes == 0 && id == i
    {
      status := Sending;
      writes := 0;
      id := i;
    }

    method Set(s: Status)
      modifies this
      ensures status == s && writes == old(writes) + 1
    {
      status := s;
      writes := writes + 1;
    }
  }

  class InRawMessage {
    var message: Option<RawMessage>
    var signal: MessageSignal?
    ghost const id: nat

    constructor (m: Option<RawMessage>, s: MessageSignal?, ghost i: nat)
      ensures message == m && signal == s && id == i
    {
      message, signal, id := m, s, i;
    }

    method TakeMessage() returns (m: Option<RawMessage>)
      modifies this`message
      ensures m == old(message) && message == None
    {
      m := message;
      message := None;
    }

    /** Lines 291-297: the first call writes the signal and gives it up; later ones do nothing. */
    method SetSignal(s: Status)
      modifies this`signal, signal
      ensures signal == null
      ensures old(signal) != null ==> old(signal).status == s && old(signal).writes == old(signal.writes) + 1
    {
      if signal != null {
        signal.Set(s);
        signal := null;
      }
    }

    /** Lines 300-305. */
    method Drop()
      modifies this`signal, signal
      ensures signal == null
      ensures old(signal) != null ==> old(signal).status == Failed && old(signal).writes == old(signal.writes) + 1
    {
      SetSignal(Failed);
    }

    /** The result of the send is known, and the message goes out of scope. */
    method Finish(s: Status)
      modifies this`signal, signal
      ensures signal == null
      ensures old(signal) != null ==> old(signal).status == s && old(signal).writes == old(signal.writes) + 1
    {
      SetSignal(s);
      Drop();
    }
  }

  class InMessage {
    var message: Option<Message>
    var signal: MessageSignal?
    ghost const id: nat

    constructor (m: Message, s: MessageSignal, ghost i: nat)
      ensures message == Some(m) && signal == s && id == i
    {
      message, signal, id := Some(m), s, i;
    }

    /** Lines 328-335, then the end of the emptied message's scope: its `Drop`
        finds no signal. */
    method IntoRaw() returns (raw: InRawMessage)
      modifies this
      ensures fresh(raw) && raw.signal == old(signal) && raw.id == id
      ensures raw.message == match old(message)
                             case None => None
                             case Some(Text(text)) => Some(RawText(text))
                             case Some(Binary(bytes)) => Some(RawBinary(bytes))
                             case Some(Close(frame)) => Some(RawClose(frame))
      ensures message == None && signal == null
    {
      raw := new InRawMessage(if message.Some? then Some(ToRaw(message.value)) else None, signal, id);
      message := None;
      signal := null;
      Drop();
    }

    /** Lines 337-345. */
    method Drop()
      modifies this`signal, signal
      ensures signal == null
      ensures old(signal) != null ==> old(signal).status == Failed && old(signal).writes == old(signal.writes) + 1
    {
      if signal != null {
        signal.Set(Failed);
        signal := null;
      }
    }

    /** `Sink::send` with the channel closed: the converted message comes back
        inside the error, which is dropped. */
    method SendFails()
      modifies this, signal
      ensures message == None && signal == null
      ensures old(signal) != null ==> old(signal).status == Failed && old(signal).writes == old(signal.writes) + 1
    {
      var raw := IntoRaw();
      raw.Drop();
    }
  }

  class Pipeline {
    var sessionQ: seq<InMessage>
    var sinkQ: seq<InRawMessage>
    var hand: InRawMessage?
    var outgoing: RawMessage            // the payload taken out of `hand`
    var sessionUp: bool
    var sinkUp: bool
    var accepted: seq<RawMessage>       // what the underlying sink accepted

    ghost var signals: seq<MessageSignal>
    ghost var view: Pipe
    ghost var history: seq<Event>

    ghost predicate Valid()
      reads this, signals, sessionQ, sinkQ, hand
    {
      && After(history) == Some(view)
      && SignalsShow()
      && QueuesShow()
      && sessionUp == view.sessionUp && sinkUp == view.sinkUp
      && |accepted| == |view.accepted|
      && (forall k | 0 <= k < |accepted| ::
            view.accepted[k] < |view.messages| && accepted[k] == view.messages[view.accepted[k]])
    }

    ghost predicate SignalsShow()
      reads this, signals
    {
      && |signals| == |view.statuses| == |view.messages|
      && (forall i | 0 <= i < |signals| ::
            && signals[i].id == i && signals[i].status == view.statuses[i]
            && signals[i].writes == if view.statuses[i].Sending? then 0 else 1)
    }

    ghost predicate QueuesShow()
      requires |signals| == |view.messages|
      reads this, sessionQ, sinkQ, hand
    {
      && |sessionQ| == |view.sessionQ|
      && (forall k | 0 <= k < |sessionQ| :: Carries(sessionQ[k], view.sessionQ[k]))
      && |sinkQ| == |view.sinkQ|
      && (forall k | 0 <= k < |sinkQ| ::
            CarriesRaw(sinkQ[k], view.sinkQ[k]) && sinkQ[k].message == Some(view.messages[view.sinkQ[k]]))
      && (hand == null <==> view.hand.None?)
      && (hand != null ==>
            && CarriesRaw(hand, view.hand.value)
            && hand.message == None && outgoing == view.messages[view.hand.value])
    }

    ghost predicate Carries(m: InMessage, i: nat)
      requires |signals| == |view.messages|
      reads this, m
    {
      m.id == i < |signals| && m.signal == signals[i] && m.message.Some? && ToRaw(m.message.value) == view.messages[i]
    }

    ghost predicate CarriesRaw(m: InRawMessage, i: nat)
      requires |signals| == |view.messages|
      reads this, m
    {
      m.id == i < |signals| && m.signal == signals[i]
    }

    constructor ()
      ensures Valid() && view == EMPTY && history == [] && signals == []
      ensures sessionQ == [] && sinkQ == [] && hand == null
    {
      sessionQ, sinkQ, hand, outgoing := [], [], null, RawClose(None);
      sessionUp, sinkUp, accepted := true, true, [];
      signals, view, history := [], EMPTY, [];
    }

    /** The objects of the pipeline are those it had, and new ones. */
    twostate predicate Grown()
      reads this
    {
      && old(signals) <= signals && (forall k | |old(signals)| <= k < |signals| :: fresh(signals[k]))
      && (forall k | 0 <= k < |sessionQ| :: sessionQ[k] in old(sessionQ) || fresh(sessionQ[k]))
      && (forall k | 0 <= k < |sinkQ| :: sinkQ[k] in old(sinkQ) || fresh(sinkQ[k]))
      && (hand == null || hand == old(hand) || hand in old(sinkQ) || fresh(hand))
    }

    /** The payload at the head of the sink's channel. */
    ghost function Next(): RawMessage
      reads this, signals, sessionQ, sinkQ, hand
      requires Valid() && |sinkQ| > 0
    {
      view.messages[view.sinkQ[0]]
    }

    /** Nothing has happened to the sink actor, except that its channel got longer. */
    twostate predicate SinkWaits()
      reads this
    {
      && hand == old(hand) && outgoing == old(outgoing) && sinkUp == old(sinkUp)
      && old(sinkQ) <= sinkQ && accepted == old(accepted)
    }

    /** Records that the event `e` has happened. */
    ghost method Record(e: Event)
      requires After(history) == Some(view) && Enabled(view, e)
      modifies this`view, this`history
      ensures view == Apply(old(view), e) && history == old(history) + [e] && After(history) == Some(view)
    {
      assert (history + [e])[..|history|] == history;
      history := history + [e];
      view := Apply(view, e);
    }

    /** `Session::text`, `binary` or `close`: the caller gets the signal, or the
        error whose message is dropped. */
    method Submit(m: Message) returns (sig: MessageSignal, ok: bool)
      requires Valid()
      modifies this
      ensures Valid() && Grown() && SinkWaits() && view == Apply(old(view), PipelineSpec.Submit(m))
      ensures history == old(history) + [PipelineSpec.Submit(m)]
      ensures fresh(sig) && signals == old(signals) + [sig] && ok == old(sessionUp)
    {
      ok := sessionUp;
      if sessionUp {
        sig := Enqueue(m);
      } else {
        sig := Refuse(m);
      }
    }

    method Enqueue(m: Message) returns (sig: MessageSignal)
      requires Valid() && sessionUp
      modifies this
      ensures Valid() && Grown() && SinkWaits() && view == Apply(old(view), PipelineSpec.Submit(m))
      ensures history == old(history) + [PipelineSpec.Submit(m)]
      ensures fresh(sig) && signals == old(signals) + [sig]
    {
      sig := new MessageSignal(|signals|);
      var inmessage := new InMessage(m, sig, |signals|);
      signals := signals + [sig];
      sessionQ := sessionQ + [inmessage];
      Record(PipelineSpec.Submit(m));
    }

    method Refuse(m: Message) returns (sig: MessageSignal)
      requires Valid() && !sessionUp
      modifies this
      ensures Valid() && Grown() && SinkWaits() && view == Apply(old(view), PipelineSpec.Submit(m))
      ensures history == old(history) + [PipelineSpec.Submit(m)]
      ensures fresh(sig) && signals == old(signals) + [sig]
    {
      sig := new MessageSignal(|signals|);
      var inmessage := new InMessage(m, sig, |signals|);
      signals := signals + [sig];
      inmessage.Drop();
      Record(PipelineSpec.Submit(m));
    }

    /** `Sink::send_raw` with a new message, as the heartbeat calls it. */
    method SendRaw(raw: RawMessage)
      requires Valid()
      modifies this
      ensures Valid() && Grown() && SinkWaits() && view == Apply(old(view), SendDirect(raw))
      ensures history == old(history) + [SendDirect(raw)]
    {
      if sinkUp { Push(raw); } else { RefuseRaw(raw); }
    }

    method Push(raw: RawMessage)
      requires Valid() && sinkUp
      modifies this
      ensures Valid() && Grown() && SinkWaits() && view == Apply(old(view), SendDirect(raw))
      ensures history == old(history) + [SendDirect(raw)]
    {
      var sig := new MessageSignal(|signals|);
      var inmessage := new InRawMessage(Some(raw), sig, |signals|);
      signals := signals + [sig];
      sinkQ := sinkQ + [inmessage];
      Record(SendDirect(raw));
    }

    method RefuseRaw(raw: RawMessage)
      requires Valid() && !sinkUp
      modifies this
      ensures Valid() && Grown() && SinkWaits() && view == Apply(old(view), SendDirect(raw))
      ensures history == old(history) + [SendDirect(raw)]
    {
      var sig := new MessageSignal(|signals|);
      var inmessage := new InRawMessage(Some(raw), sig, |signals|);
      signals := signals + [sig];
      inmessage.Drop();
      Record(SendDirect(raw));
    }

    /** The session moves the head of its queue to the sink's channel
        (src/session.rs 206-211). */
    method Forward()
      requires Valid() && sessionUp && |sessionQ| > 0
      modifies this, signals, sessionQ
      ensures Valid() && Grown() && SinkWaits() && view == Apply(old(view), PipelineSpec.Forward)
      ensures history == old(history) + [PipelineSpec.Forward]
    {
      if sinkUp { HandOver(); } else { LoseInSession(); }
    }

    /** The head of the queue, as a raw message with the signal it had. */
    method TakeFromQueue() returns (raw: InRawMessage, closes: bool)
      requires Valid() && |sessionQ| > 0
      modifies this`sessionQ, sessionQ
      ensures sessionQ == old(sessionQ)[1..] && fresh(raw)
      ensures CarriesRaw(raw, view.sessionQ[0]) && raw.message == Some(view.messages[view.sessionQ[0]])
      ensures closes == IsClose(view, view.sessionQ[0])
      ensures forall k | 0 <= k < |sessionQ| :: Carries(sessionQ[k], view.sessionQ[k + 1])
    {
      hide After;
      OnceInSession(history);
      var inmessage := sessionQ[0];
      sessionQ := sessionQ[1..];
      closes := inmessage.message.value.Close?;
      raw := inmessage.IntoRaw();
    }

    method HandOver()
      requires Valid() && sessionUp && sinkUp && |sessionQ| > 0
      modifies this, sessionQ
      ensures Valid() && Grown() && SinkWaits() && view == Apply(old(view), PipelineSpec.Forward)
      ensures history == old(history) + [PipelineSpec.Forward]
      ensures sessionUp == !old(view).messages[old(view).sessionQ[0]].RawClose?
    {
      hide After, From, Apply, Enabled;
      HandOverStep(view);
      var raw, closes := TakeFromQueue();
      sinkQ := sinkQ + [raw];
      sessionUp := !closes;
      Record(PipelineSpec.Forward);
      assert SignalsShow() && QueuesShow();
    }

    method LoseInSession()
      requires Valid() && sessionUp && !sinkUp && |sessionQ| > 0
      modifies this, signals, sessionQ
      ensures Valid() && Grown() && SinkWaits() && view == Apply(old(view), PipelineSpec.Forward)
      ensures history == old(history) + [PipelineSpec.Forward]
    {
      OnceInSession(history);
      sessionUp := false;
      var inmessage := sessionQ[0];
      sessionQ := sessionQ[1..];
      Record(PipelineSpec.Forward);
      inmessage.SendFails();
    }

    /** The session returns or crashes for any other reason. */
    method EndSession()
      requires Valid() && sessionUp
      modifies this
      ensures Valid() && Grown() && SinkWaits() && view == Apply(old(view), SessionEnds)
      ensures history == old(history) + [SessionEnds]
    {
      sessionUp := false;
      Record(SessionEnds);
    }

    /** Lines 367-373. */
    method TakeFromChannel()
      requires Valid() && sinkUp && hand == null && |sinkQ| > 0
      modifies this, sinkQ
      ensures Valid() && Grown() && view == Apply(old(view), SinkTakes) && history == old(history) + [SinkTakes]
      ensures hand == old(sinkQ)[0] && outgoing == old(Next()) && sinkUp && accepted == old(accepted)
    {
      OnceInChannel(history);
      var inmessage := sinkQ[0];
      sinkQ := sinkQ[1..];
      var message := inmessage.TakeMessage();
      outgoing := message.value;
      hand := inmessage;
      Record(SinkTakes);
    }

    /** Line 376, and the end of the message's scope. */
    method SendOk()
      requires Valid() && sinkUp && hand != null
      modifies this, signals, hand
      ensures Valid() && Grown() && view == Apply(old(view), SinkSends(true))
      ensures history == old(history) + [SinkSends(true)]
      ensures hand == null && sinkUp && accepted == old(accepted) + [old(outgoing)]
    {
      OnlyInHand(history);
      accepted := accepted + [outgoing];
      hand.Finish(Sent);
      hand := null;
      Record(SinkSends(true));
    }

    /** Lines 377-381. */
    method SendErr()
      requires Valid() && sinkUp && hand != null
      modifies this, signals, hand
      ensures Valid() && Grown() && view == Apply(old(view), SinkSends(false))
      ensures history == old(history) + [SinkSends(false)]
      ensures hand == null && !sinkUp && accepted == old(accepted)
    {
      OnlyInHand(history);
      hand.Finish(Failed);
      hand := null;
      sinkUp := false;
      Record(SinkSends(false));
    }

    /** Lines 384-386. */
    method Abort()
      requires Valid() && sinkUp && hand == null
      modifies this
      ensures Valid() && Grown() && view == Apply(old(view), SinkAborted) && history == old(history) + [SinkAborted]
      ensures hand == null && !sinkUp && accepted == old(accepted)
    {
      sinkUp := false;
      Record(SinkAborted);
    }

    /** The sink's task is dropped, perhaps in the middle of a send. */
    method Cancel()
      requires Valid() && sinkUp
      modifies this, signals, hand
      ensures Valid() && Grown() && view == Apply(old(view), SinkCancelled) && history == old(history) + [SinkCancelled]
    {
      if hand != null {
        OnlyInHand(history);
        hand.Drop();
        hand := null;
      }
      sinkUp := false;
      Record(SinkCancelled);
    }

    /** The dead session's queue is destroyed, entry by entry. */
    method DropInSession()
      requires Valid() && !sessionUp && |sessionQ| > 0
      modifies this, signals, sessionQ
      ensures Valid() && Grown() && SinkWaits() && view == Apply(old(view), DestroySession)
      ensures history == old(history) + [DestroySession]
    {
      OnceInSession(history);
      var inmessage := sessionQ[0];
      sessionQ := sessionQ[1..];
      inmessage.Drop();
      Record(DestroySession);
    }

    /** The dead sink's channel is destroyed, entry by entry. */
    method DropInChannel()
      requires Valid() && !sinkUp && |sinkQ| > 0
      modifies this, signals, sinkQ
      ensures Valid() && Grown() && view == Apply(old(view), DestroySink) && history == old(history) + [DestroySink]
    {
      OnceInChannel(history);
      var inmessage := sinkQ[0];
      sinkQ := sinkQ[1..];
      inmessage.Drop();
      Record(DestroySink);
    }

    /** Users, the heartbeat and the session move while the sink actor waits. */
    method Others()
      requires Valid()
      modifies this, signals, sessionQ
      ensures Valid() && Grown() && SinkWaits() && old(history) <= history
    {
      var moves: nat := *;
      while moves > 0
        invariant Valid() && Grown() && SinkWaits() && old(history) <= history
      {
        moves := moves - 1;
        OneOther();
      }
    }

    method OneOther()
      requires Valid()
      modifies this, signals, sessionQ
      ensures Valid() && Grown() && SinkWaits() && old(history) <= history
    {
      var move: nat := *;
      if move == 0 {
        var m: Message := *;
        var sig, ok := Submit(m);
      } else if move == 1 {
        var raw: RawMessage := *;
        SendRaw(raw);
      } else if move == 2 && sessionUp && |sessionQ| > 0 {
        Forward();
      } else if move == 3 && sessionUp {
        EndSession();
      } else if move == 4 && !sessionUp && |sessionQ| > 0 {
        DropInSession();
      }
    }

    /** One turn of the loop: a message is taken and sent, or the abort arrives. */
    method SinkTurn(fate: Fate)
      requires Valid() && sinkUp && hand == null
      modifies this, signals, sessionQ, sinkQ
      ensures Valid() && Grown() && old(history) <= history && hand == null
      ensures |old(sinkQ)| == 0 && !fate.AbortArrives? ==> sinkUp && accepted == old(accepted) && sinkQ == []
      ensures |old(sinkQ)| > 0 && fate.Accepts? ==> sinkUp && accepted == old(accepted) + [old(Next())]
      ensures |old(sinkQ)| > 0 && fate.Fails? ==> !sinkUp && accepted == old(accepted)
      ensures fate.AbortArrives? ==> !sinkUp && accepted == old(accepted)
    {
      hide Valid, Apply, After;
      if fate.AbortArrives? {
        Abort();
      } else if |sinkQ| > 0 {
        TakeFromChannel();
        Others();
        if fate.Accepts? { SendOk(); } else { SendErr(); }
      }
    }

    /** `done` messages more have been accepted, or all that waited at the start. */
    twostate predicate GotThrough(done: nat)
      reads this
    {
      || |accepted| >= |old(accepted)| + done
      || |accepted| >= |old(accepted)| + |old(sinkQ)|
    }

    /** `SinkActor::run` (lines 364-390), for as many turns as the scheduler
        grants.  What waits longest is accepted first, one message a turn,
        unless a send fails or the abort arrives. */
    method RunSink(turns: nat, fate: nat -> Fate)
      requires Valid() && sinkUp && hand == null
      modifies this, signals, sessionQ, sinkQ
      ensures Valid() && Grown() && old(history) <= history && hand == null && old(accepted) <= accepted
      ensures (forall k: nat | k < turns :: fate(k).Accepts?) ==> sinkUp
      ensures (exists k: nat | k < turns :: fate(k).AbortArrives?) ==> !sinkUp
      ensures sinkUp ==> GotThrough(turns)
      ensures Kept(old(view), view)
    {
      hide Valid, Apply, After, Kept;
      var done := 0;
      while done < turns && sinkUp
        invariant 0 <= done <= turns
        invariant Valid() && Grown() && old(history) <= history && hand == null && old(accepted) <= accepted
        invariant (forall k: nat | k < turns :: fate(k).Accepts?) ==> sinkUp
        invariant sinkUp ==> GotThrough(done) && forall k: nat | k < done :: !fate(k).AbortArrives?
        decreases turns - done
      {
        Turn(fate(done));
        if sinkUp && sinkQ == [] { Emptied(); }
        done := done + 1;
      }
      Lasting();
    }

    twostate lemma Emptied()
      requires old(Valid()) && Valid() && old(history) <= history && sinkUp && hand == null && sinkQ == []
      ensures |accepted| >= |old(accepted)| + |old(sinkQ)|
    {
      AllSent(old(history), history);
    }

    twostate lemma Lasting()
      requires old(Valid()) && Valid() && old(history) <= history
      ensures Kept(old(view), view)
    {
      AllKept(old(history), history);
    }

    method Turn(fate: Fate)
      requires Valid() && sinkUp && hand == null
      modifies this, signals, sessionQ, sinkQ
      ensures Valid() && Grown() && old(history) <= history && hand == null && old(accepted) <= accepted
      ensures fate.Accepts? ==> sinkUp
      ensures fate.AbortArrives? ==> !sinkUp
      ensures sinkUp ==> |accepted| == |old(accepted)| + 1 || sinkQ == []
    {
      hide Valid, Apply, After;
      Others();
      SinkTurn(fate);
    }
  }

  /** With the channel empty and the sink up, all that once waited has been accepted. */
  lemma AllSent(before: seq<Event>, after: seq<Event>)
    requires before <= after && After(after).Some? && After(after).value.sinkUp
    requires After(after).value.hand.None? && After(after).value.sinkQ == []
    ensures After(before).Some?
    ensures |After(after).value.accepted| >= |After(before).value.accepted| + |After(before).value.sinkQ|
  {
    var more := after[|before|..];
    assert before + more == after;
    Continued(before, more);
    LineGrows(After(before).value, more);
  }

  /** No terminal status has changed, and while the sink is up its line has only
      been added to at the end. */
  predicate Kept(p: Pipe, q: Pipe) {
    && |p.statuses| <= |q.statuses|
    && (forall i | 0 <= i < |p.statuses| && p.statuses[i] != Sending :: q.statuses[i] == p.statuses[i])
    && (q.sinkUp ==> Line(p) <= Line(q))
  }

  lemma AllKept(before: seq<Event>, after: seq<Event>)
    requires before <= after && After(after).Some?
    ensures After(before).Some? && Kept(After(before).value, After(after).value)
  {
    var more := after[|before|..];
    assert before + more == after;
    Continued(before, more);
    TerminalKept(before, After(before).value, more);
    LineGrows(After(before).value, more);
  }

  lemma TerminalKept(es: seq<Event>, p: Pipe, more: seq<Event>)
    requires After(es) == Some(p) && After(es + more).Some?
    ensures var q := After(es + more).value;
            |p.statuses| <= |q.statuses|
            && forall i | 0 <= i < |p.statuses| && p.statuses[i] != Sending :: q.statuses[i] == p.statuses[i]
  {
    Continued(es, more);
    SignalConservation(es);
    StatusesGrow(p, more);
    forall i | 0 <= i < |p.statuses| && p.statuses[i] != Sending
      ensures After(es + more).value.statuses[i] == p.statuses[i]
    {
      TerminalStays(p, more, i);
    }
  }

  lemma {:induction false} StatusesGrow(p: Pipe, es: seq<Event>)
    requires SignalInv(p) && From(p, es).Some?
    ensures SignalInv(From(p, es).value) && |p.statuses| <= |From(p, es).value.statuses|
  {
    if es != [] {
      StatusesGrow(p, es[..|es| - 1]);
      SignalStep(From(p, es[..|es| - 1]).value, es[|es| - 1]);
    }
  }
}

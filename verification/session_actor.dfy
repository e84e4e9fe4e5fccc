/** `SessionActor::run` (src/session.rs 202-242) as a loop over mutable state.
    The order of the `if` branches is the bias of its `select!`. */
module SessionActors {
  import opened Wire
  import opened SessionSpec

  /** What users and the network can do to a session while it is suspended. */
  predicate OthersMoved(a: Actor, b: Actor) {
    && a.toSocket <= b.toSocket && a.calls <= b.calls && a.inbox <= b.inbox
    && a.submitted <= b.submitted && a.frames <= b.frames
    && b == a.(toSocket := b.toSocket, calls := b.calls, inbox := b.inbox, streaming := b.streaming,
               submitted := b.submitted, frames := b.frames)
  }

  datatype Ending = Returns(error: Option<string>) | Panics

  /** What the actor cannot know: whether the sink takes a message, and how a
      handler ends.  The argument is the number of moves made before. */
  datatype World = World(sends: nat -> bool, handlers: nat -> Ending)

  class SessionActor {
    const world: World
    var toSocketReceiver: seq<Message>
    var sessionCallReceiver: seq<nat>
    var stream: seq<Inbound>
    var streaming: bool
    var phase: Phase

    var submitted: seq<Message>
    var handed: seq<Message>
    var frames: seq<NetItem>
    var consumed: seq<Inbound>
    var handled: seq<Message>
    var called: seq<nat>

    var moves: nat                      // of the actor
    ghost var history: seq<Event>

    function View(): Actor
      reads this
    {
      Actor(toSocketReceiver, sessionCallReceiver, stream, streaming, phase,
            submitted, handed, frames, consumed, handled, called)
    }

    /** The fields are the state that `SessionSpec` reaches by `history`. */
    ghost predicate Valid()
      reads this
    {
      After(history) == Some(View()) && moves == Moves(history) && TrueToWorld()
    }

    /** The actor has not ended but for a reason the world has given it. */
    predicate TrueToWorld()
      reads this
    {
      match phase
      case Crashed => moves > 0 && world.handlers(moves - 1).Panics?
      case Returned(result, HandlerFailed) =>
        moves > 0 && result.Failed? && world.handlers(moves - 1) == Returns(Some(result.error))
      case Returned(_, SinkGone) => moves > 0 && !world.sends(moves - 1)
      case _ => true
    }

    constructor (world: World)
      ensures Valid() && View() == FRESH && history == [] && this.world == world
    {
      this.world := world;
      moves := 0;
      toSocketReceiver, sessionCallReceiver, stream, streaming, phase := [], [], [], true, Ready;
      submitted, handed, frames, consumed, handled, called := [], [], [], [], [], [];
      history := [];
    }

    ghost method Record(before: Actor, e: Event)
      requires After(history) == Some(before) && Enabled(before, e) && View() == Apply(before, e)
      requires moves == Moves(history) + (if Environmental(e) then 0 else 1) && TrueToWorld()
      modifies this`history
      ensures Valid() && history == old(history) + [e]
    {
      history := history + [e];
      assert history[..|history| - 1] == old(history);
    }

    method Others()
      requires Valid() && Unfinished(View())
      modifies this
      ensures Valid() && old(history) <= history && moves == old(moves)
      ensures OthersMoved(old(View()), View())
    {
      var left: nat := *;
      while left > 0
        invariant Valid() && old(history) <= history && moves == old(moves)
        invariant OthersMoved(old(View()), View())
      {
        left := left - 1;
        var e: Event := *;
        if Environmental(e) && Enabled(View(), e) {
          OneMove(e);
        }
      }
    }

    method OneMove(e: Event)
      requires Valid() && Unfinished(View()) && Environmental(e) && Enabled(View(), e)
      modifies this
      ensures Valid() && history == old(history) + [e] && moves == old(moves)
      ensures OthersMoved(old(View()), View())
    {
      ghost var before := View();
      var after := Apply(View(), e);
      toSocketReceiver, sessionCallReceiver := after.toSocket, after.calls;
      stream, streaming := after.inbox, after.streaming;
      submitted, frames := after.submitted, after.frames;
      Record(before, e);
    }

    /** Turns `done` so far have each made a move, unless everything that waited
        at the start has been served, and no Close was among it. */
    twostate predicate Served(done: nat)
      reads this
    {
      || moves >= old(moves) + done
      || (moves >= old(moves) + Pending(old(View())) && !HasClose(old(toSocketReceiver)))
    }

    /** The loop, for as many turns as the scheduler grants: `None` means that
        it is still going or that a handler panicked.  A turn with something
        waiting serves it; and with a Close in the queue, `Work` turns are
        enough to end the session, whatever else arrives meanwhile. */
    method Run(turns: nat) returns (result: Option<CloseResult>)
      requires Valid() && phase.Ready?
      modifies this
      ensures Valid() && old(history) <= history
      ensures if result.None? then phase.Ready? || phase.Crashed? else phase.Returned? && phase.result == result.value
      ensures handed <= submitted && handled <= Expected(frames)
      ensures phase.Returned? && phase.why.PoppedClose? ==> exists k :: ClosedAt(View(), k)
      ensures phase.Ready? ==> Served(turns)
      ensures old(HasClose(toSocketReceiver)) && turns >= old(Work(View())) ==> !phase.Ready?
    {
      result := None;
      var done := 0;
      while done < turns && result.None? && phase.Ready?
        invariant 0 <= done <= turns
        invariant Valid() && old(history) <= history
        invariant if result.None? then phase.Ready? || phase.Crashed?
                  else phase.Returned? && phase.result == result.value
        invariant phase.Ready? ==> Served(done)
        decreases turns - done
      {
        result := Turn();
        if phase.Ready? && Pending(View()) == 0 { IdleMeansServed(old(history), history); }
        done := done + 1;
      }
      OrderedHandover(history);
      InboundRefinesFilter(history);
      if old(HasClose(toSocketReceiver)) && turns >= old(Work(View())) && phase.Ready? {
        ClosedInTime(old(history), history);
      }
    }

    /** One turn: the first ready branch, in the order written. */
    method Turn() returns (result: Option<CloseResult>)
      requires Valid() && phase.Ready?
      modifies this
      ensures Valid() && old(history) <= history
      ensures if result.None? then phase.Ready? || phase.Crashed? else phase.Returned? && phase.result == result.value
      ensures phase.Ready? ==> moves > old(moves) || (Pending(View()) == 0 && streaming)
    {
      result := None;
      Others();
      if |toSocketReceiver| > 0 {
        var frame := SendOut();
        if frame.Some? { result := Some(Closed(frame.value)); }
      } else if |sessionCallReceiver| > 0 {
        result := OnSessionCall();
      } else if |stream| > 0 {
        result := OnStreamItem();
      } else if !streaming {
        StreamEnds();
        result := Some(Closed(None));
      }
    }

    /** Lines 235-241: the stream actor is gone. */
    method StreamEnds()
      requires Valid() && phase.Ready? && Pending(View()) == 0 && !streaming
      modifies this`phase, this`moves, this`history
      ensures Valid() && history == old(history) + [TakeEnd] && phase == Returned(Closed(None), StreamOver)
    {
      ghost var before := View();
      phase := Returned(Closed(None), StreamOver);
      moves := moves + 1;
      Record(before, TakeEnd);
    }

    /** Lines 206-218.  The result is the close frame with which the session ends:
        a Close ends it in any case, another message if the sink is gone. */
    method SendOut() returns (closeFrame: Option<Option<CloseFrame>>)
      requires Valid() && phase.Ready? && |toSocketReceiver| > 0
      modifies this`toSocketReceiver, this`handed, this`phase, this`moves, this`history
      ensures Valid() && history == old(history) + [TakeOutgoing(world.sends(old(moves)))]
      ensures toSocketReceiver == old(toSocketReceiver)[1..] && moves == old(moves) + 1
      ensures var m, sent := old(toSocketReceiver)[0], world.sends(old(moves));
              && handed == (if sent then old(handed) + [m] else old(handed))
              && closeFrame == (if m.Close? then Some(m.frame) else if sent then None else Some(None))
      ensures if closeFrame.None? then phase.Ready? else phase.Returned? && phase.result == Closed(closeFrame.value)
    {
      ghost var before := View();
      var inmessage := toSocketReceiver[0];
      toSocketReceiver := toSocketReceiver[1..];
      closeFrame := if inmessage.Close? then Some(inmessage.frame) else None;
      var sent := world.sends(moves);
      if sent { handed := handed + [inmessage]; }
      if !sent && closeFrame.None? { closeFrame := Some(None); }
      if closeFrame.Some? {
        phase := Returned(Closed(closeFrame.value), if inmessage.Close? then PoppedClose else SinkGone);
      }
      moves := moves + 1;
      Record(before, TakeOutgoing(sent));
    }

    /** Lines 219-221: on_call is given the head of the queue, and its end decides. */
    method OnSessionCall() returns (result: Option<CloseResult>)
      requires Valid() && phase.Ready? && |toSocketReceiver| == 0 && |sessionCallReceiver| > 0
      modifies this
      ensures Valid() && old(history) + [TakeCall] <= history && moves == old(moves) + 2
      ensures called == old(called) + [old(sessionCallReceiver)[0]]
      ensures Ended(world.handlers(old(moves) + 1), result)
      ensures handled == old(handled) && handed == old(handed)
    {
      BeginCall();
      result := InHandlerOf();
    }

    method BeginCall()
      requires Valid() && Enabled(View(), TakeCall)
      modifies this`sessionCallReceiver, this`called, this`phase, this`moves, this`history
      ensures Valid() && history == old(history) + [TakeCall] && moves == old(moves) + 1
      ensures called == old(called) + [old(sessionCallReceiver)[0]]
      ensures phase == InHandler(OnCall(old(sessionCallReceiver)[0]))
      ensures sessionCallReceiver == old(sessionCallReceiver)[1..]
    {
      ghost var before := View();
      var call := sessionCallReceiver[0];
      sessionCallReceiver := sessionCallReceiver[1..];
      called := called + [call];
      phase := InHandler(OnCall(call));
      moves := moves + 1;
      Record(before, TakeCall);
    }

    /** Lines 222-237. */
    method OnStreamItem() returns (result: Option<CloseResult>)
      requires Valid() && phase.Ready? && |toSocketReceiver| == 0 && |sessionCallReceiver| == 0 && |stream| > 0
      modifies this
      ensures Valid() && old(history) + [TakeIncoming] <= history && moves > old(moves)
      ensures consumed == old(consumed) + [old(stream)[0]]
      ensures match old(stream)[0]
              case Broken(_) => result == None && handled == old(handled) && phase.Ready?
              case Delivered(Close(frame)) =>
                && result == Some(Closed(frame)) && handled == old(handled)
                && phase == Returned(Closed(frame), RemoteClosed)
              case Delivered(m) => handled == old(handled) + [m] && Ended(world.handlers(old(moves) + 1), result)
    {
      match stream[0] {
        case Broken(_) =>
          SkipError();
          result := None;
        case Delivered(Close(frame)) =>
          ClosedByRemote(frame);
          result := Some(Closed(frame));
        case Delivered(m) =>
          BeginMessage(m);
          result := InHandlerOf();
      }
    }

    /** Lines 232-234. */
    method SkipError()
      requires Valid() && Enabled(View(), TakeIncoming) && stream[0].Broken?
      modifies this`stream, this`consumed, this`moves, this`history
      ensures Valid() && history == old(history) + [TakeIncoming] && moves == old(moves) + 1
      ensures consumed == old(consumed) + [old(stream)[0]]
    {
      ghost var before := View();
      consumed := consumed + [stream[0]];
      stream := stream[1..];
      moves := moves + 1;
      Record(before, TakeIncoming);
    }

    /** Lines 227-230. */
    method ClosedByRemote(frame: Option<CloseFrame>)
      requires Valid() && Enabled(View(), TakeIncoming) && stream[0] == Delivered(Close(frame))
      modifies this`stream, this`consumed, this`phase, this`moves, this`history
      ensures Valid() && history == old(history) + [TakeIncoming] && moves == old(moves) + 1
      ensures consumed == old(consumed) + [old(stream)[0]] && phase == Returned(Closed(frame), RemoteClosed)
    {
      ghost var before := View();
      consumed := consumed + [stream[0]];
      stream := stream[1..];
      phase := Returned(Closed(frame), RemoteClosed);
      moves := moves + 1;
      Record(before, TakeIncoming);
    }

    method BeginMessage(m: Message)
      requires Valid() && Enabled(View(), TakeIncoming) && stream[0] == Delivered(m) && !m.Close?
      modifies this`stream, this`consumed, this`handled, this`phase, this`moves, this`history
      ensures Valid() && history == old(history) + [TakeIncoming] && moves == old(moves) + 1
      ensures consumed == old(consumed) + [old(stream)[0]] && handled == old(handled) + [m]
      ensures phase == InHandler(OnMessage(m))
    {
      ghost var before := View();
      consumed := consumed + [stream[0]];
      stream := stream[1..];
      handled := handled + [m];
      phase := InHandler(OnMessage(m));
      moves := moves + 1;
      Record(before, TakeIncoming);
    }

    /** The actor's state and result after a handler that ended in this way. */
    predicate Ended(ending: Ending, result: Option<CloseResult>)
      reads this
    {
      match ending
      case Panics => phase.Crashed? && result.None?
      case Returns(None) => phase.Ready? && result.None?
      case Returns(Some(error)) => phase == Returned(Failed(error), HandlerFailed) && result == Some(Failed(error))
    }

    method InHandlerOf() returns (result: Option<CloseResult>)
      requires Valid() && phase.InHandler?
      modifies this
      ensures Valid() && old(history) <= history && moves == old(moves) + 1
      ensures Ended(world.handlers(old(moves)), result)
      ensures handled == old(handled) && handed == old(handed) && consumed == old(consumed)
      ensures called == old(called)
    {
      Others();
      result := Handled();
    }

    /** The end of a handler: it returns, fails or panics. */
    method Handled() returns (result: Option<CloseResult>)
      requires Valid() && phase.InHandler?
      modifies this`phase, this`moves, this`history
      ensures Valid() && old(history) <= history && moves == old(moves) + 1
      ensures Ended(world.handlers(old(moves)), result)
    {
      ghost var before := View();
      var ending := world.handlers(moves);
      moves := moves + 1;
      result := None;
      match ending {
        case Panics =>
          phase := Crashed;
          Record(before, Crash);
        case Returns(None) =>
          phase := Ready;
          Record(before, HandlerReturns(None));
        case Returns(Some(error)) =>
          phase := Returned(Failed(error), HandlerFailed);
          Record(before, HandlerReturns(Some(error)));
          result := Some(Failed(error));
      }
    }
  }
}

/** The example's handlers over mutable maps and session objects:
    examples/chat-server/src/main.rs 37-127 and 146-171.

    `Valid` says that the fields are the state `ChatSpec` reaches by the run
    `history`, so every theorem about runs of the chat server holds here.  A
    handler that panics stops the library's server actor; `panic` says where. */
module ChatServers {
  import opened Wire
  import S = SessionSpec
  import L = ServerSpec
  import opened ChatSpec
  import opened ChatTheorems
  import opened ChatLines

  lemma {:induction false} FirstPosition(ids: seq<nat>, id: nat, n: nat)
    requires n < |ids| && ids[n] == id && id !in ids[..n]
    ensures Position(ids, id) == n
  {
    if n > 0 {
      assert ids[0] in ids[..n];
      assert ids[..n][1..] == ids[1..][..n - 1];
      FirstPosition(ids[1..], id, n - 1);
    }
  }

  lemma {:induction false} OthersSnoc(ids: seq<nat>, x: nat, from: nat)
    ensures ChatSpec.Others(ids + [x], from) == ChatSpec.Others(ids, from) + (if x != from then [x] else [])
  {
    if ids == [] {
      assert ([] + [x])[1..] == [];
    } else {
      assert (ids + [x])[0] == ids[0] && (ids + [x])[1..] == ids[1..] + [x];
      OthersSnoc(ids[1..], x, from);
      var one := if ids[0] != from then [ids[0]] else [];
      var last := if x != from then [x] else [];
      assert one + (ChatSpec.Others(ids[1..], from) + last) == (one + ChatSpec.Others(ids[1..], from)) + last;
    }
  }

  /** Who is where after a disconnect. */
  lemma Departed(s: State, pick: string, id: nat)
    requires Inv(s) && !L.Stopped(s.lib) && Holds(s.rooms, pick, id)
    ensures forall r, x :: Holds(Leave(s.rooms, pick, id), r, x) <==> Holds(s.rooms, r, x) && x != id
  {
    LeftMembers(s.sessions.Keys, s.rooms, pick, id);
  }

  lemma JoinIsHeardIf(s: State, pick: string)
    requires Inv(s) && Enabled(s, OnCall(pick)) && s.lib.callQ[0].Join?
    ensures var t, c := Apply(s, OnCall(pick)), s.lib.callQ[0];
            t.panic.None? ==>
              forall r, x :: Holds(t.rooms, r, x) <==> if x == c.id then r == c.room else Holds(s.rooms, r, x)
  {
    JoinKeeps(s, pick);
    if s.lib.callQ[0].id in s.sessions { JoinIsHeard(s, pick, s.lib.callQ[0].id); }
  }

  lemma CallBegins(lib: L.System<Call>)
    requires L.Enabled(lib, L.TakeServerCall)
    ensures !L.Stopped(L.Apply(lib, L.TakeServerCall))
  {
  }

  lemma JoinStep(s: State, pick: string)
    requires Enabled(s, OnCall(pick)) && s.lib.callQ[0].Join?
    ensures var c := s.lib.callQ[0];
            Apply(s, OnCall(pick)) == Joins(s, L.Apply(s.lib, L.TakeServerCall), pick, c.id, c.room)
  {
    CallBegins(s.lib);
  }

  /** What on_text does besides changing the session's room. */
  datatype Reaction = Asks(call: Call) | Nothing | PanicsInText

  /** The reaction as the model's parser has it. */
  function Reacts(id: nat, room: string, text: string): Reaction {
    match Parse(text)
    case GoTo(to) => Asks(Join(id, to))
    case Say(t) => Asks(Send(id, room, t))
    case Unrecognized => Nothing
    case _ => PanicsInText
  }

  class ChatSession {
    const id: nat
    var room: string
    ghost const token: nat

    constructor (i: nat, ghost t: nat)
      ensures id == i && token == t && room == DEFAULT_ROOM
    {
      id, token, room := i, t, DEFAULT_ROOM;
    }

    /** Lines 146-171. */
    method OnText(text: string) returns (r: Reaction)
      modifies this
      ensures !Slash(text) ==> r == Asks(Send(id, old(room), text)) && room == old(room)
      ensures Slash(text) ==> !(r.Asks? && r.call.Send?)
      ensures forall to :: AsksFor(text, to) <==> Slash(text) && r == Asks(Join(id, to)) && room == to
      ensures AsksForNothing(text) <==> r.PanicsInText?
      ensures Slash(text) && !AsksForNothing(text) && (forall to :: !AsksFor(text, to)) ==> r.Nothing?
      ensures !r.Asks? ==> room == old(room)
      ensures r == Reacts(id, old(room), text)
    {
      LineMeaning(text);
      if text != "" && text[0] == '/' {
        SlashHasCommand(text);
        var (command, rest) := NextWord(text).value;
        if command == "/join" {
          match NextWord(rest) {
            case None => return PanicsInText;
            case Some((to, _)) =>
              room := to;
              return Asks(Join(id, to));
          }
        }
        return Nothing;
      }
      return Asks(Send(id, room, text));
    }
  }

  class ChatServer {
    var lib: L.System<Call>             // the library underneath
    var sessions: map<nat, nat>
    var rooms: Rooms
    var actors: seq<ChatSession>        // by token
    var panic: Option<Panic>
    ghost var locals: seq<string>       // the actors' rooms
    ghost var history: seq<Event>

    ghost function View(): State
      reads this
    {
      State(lib, sessions, rooms, locals, panic)
    }

    ghost predicate Valid()
      reads this, actors
    {
      After(history) == Some(View()) && ActorsShow()
    }

    ghost predicate ActorsShow()
      reads this, actors
    {
      && |actors| == |locals| == |lib.sessions|
      && forall k | 0 <= k < |actors| ::
           actors[k].token == k && actors[k].id == lib.sessions[k].id && actors[k].room == locals[k]
    }

    constructor ()
      ensures Valid() && View() == START && history == []
    {
      lib, sessions, rooms, actors, panic := L.Start(), map[], map[DEFAULT_ROOM := []], [], None;
      locals, history := [], [];
    }

    /** What holds in every run holds now. */
    lemma Holding()
      requires Valid()
      ensures Inv(View())
    {
      ChatAlways(history);
    }

    ghost method Record(before: State, e: Event)
      requires After(history) == Some(before) && ActorsShow()
      requires Enabled(before, e) && View() == Apply(before, e)
      modifies this`history
      ensures Valid() && history == old(history) + [e]
    {
      hide Enabled, Apply;
      history := history + [e];
      assert history[..|history| - 1] == old(history);
    }

    /** Any move of the library that runs none of the code here. */
    method Library(e: L.Event<Call>)
      requires Valid() && Enabled(View(), Lib(e))
      modifies this`lib, this`history
      ensures Valid() && history == old(history) + [Lib(e)] && lib == L.Apply(old(lib), e)
    {
      NeutralMove(View(), e);
      ghost var before := View();
      lib := L.Apply(lib, e);
      Record(before, Lib(e));
    }

    // ----- on_connect -----

    /** Line 43: `(0..).find`, within the range of `u8`. */
    method FindId() returns (id: nat)
      requires |sessions| < LIVE_LIMIT
      ensures id < LIVE_LIMIT && id !in sessions && forall j | 0 <= j < id :: j in sessions
      ensures id == FirstFreeFrom(sessions.Keys, 0)
    {
      assert |sessions.Keys| == |sessions|;
      SearchSucceeds(sessions.Keys);
      id := 0;
      while id in sessions
        invariant id <= LIVE_LIMIT && forall j | 0 <= j < id :: j in sessions
        decreases LIVE_LIMIT - id
      {
        assert id < LIVE_LIMIT by {
          if id == LIVE_LIMIT { RangeFits(sessions.Keys, LIVE_LIMIT); }
        }
        id := id + 1;
      }
    }

    /** Lines 37-57; the unwrap at line 55 never fails. */
    method OnConnect() returns (id: nat)
      requires Valid() && Enabled(View(), Connect)
      modifies this
      ensures Valid() && history == old(history) + [Connect] && View() == Apply(old(View()), Connect)
      ensures id !in old(sessions) && sessions == old(sessions)[id := |old(lib).sessions|]
      ensures panic.None? && rooms == Enter(old(rooms), DEFAULT_ROOM, id)
      ensures |actors| == |old(actors)| + 1 && fresh(actors[|old(actors)|])
      ensures actors[|old(actors)|].id == id && actors[|old(actors)|].room == "main"
    {
      hide After, Inv, Apply, L.Apply;
      ghost var before := View();
      Holding();
      ConnectOutcome(before);
      id := FindId();
      Register(id);
      lib := L.Apply(lib, L.ConnectAccepts(id, []));
      var actor := new ChatSession(id, |actors|);
      actors, locals := actors + [actor], locals + [DEFAULT_ROOM];
      Record(before, Connect);
    }

    /** Lines 54-55. */
    method Register(id: nat)
      requires DEFAULT_ROOM in rooms
      modifies this`sessions, this`rooms
      ensures sessions == old(sessions)[id := |lib.sessions|] && rooms == Enter(old(rooms), DEFAULT_ROOM, id)
    {
      sessions := sessions[id := |lib.sessions|];
      rooms := rooms[DEFAULT_ROOM := rooms[DEFAULT_ROOM] + [id]];
    }

    // ----- Rooms -----

    /** `position` of an iterator. */
    method FindPosition(ids: seq<nat>, id: nat) returns (n: Option<nat>)
      ensures n.Some? <==> id in ids
      ensures n.Some? ==> n.value < |ids| && ids[n.value] == id && id !in ids[..n.value]
    {
      for i := 0 to |ids|
        invariant id !in ids[..i]
      {
        if ids[i] == id { return Some(i); }
        assert ids[..i + 1] == ids[..i] + [ids[i]];
      }
      assert ids[..|ids|] == ids;
      return None;
    }

    /** `values_mut().find_map(..)`, in an order of the HashMap's choosing. */
    method FindRoom(id: nat) returns (found: Option<(string, nat)>)
      ensures found.Some? <==> InSomeRoom(rooms, id)
      ensures match found
              case None => true
              case Some((pick, n)) =>
                pick in rooms && n < |rooms[pick]| && rooms[pick][n] == id && id !in rooms[pick][..n]
    {
      var todo := rooms.Keys;
      while todo != {}
        invariant todo <= rooms.Keys
        invariant forall r | r in rooms && r !in todo :: id !in rooms[r]
        decreases todo
      {
        var r :| r in todo;
        var n := FindPosition(rooms[r], id);
        if n.Some? {
          assert id in rooms[r];
          return Some((r, n.value));
        }
        todo := todo - {r};
      }
      return None;
    }

    /** `find_map`, then `ids.remove(n)`: `None` is the failed `expect`. */
    method TakeFromRoom(id: nat) returns (pick: Option<string>)
      modifies this`rooms
      ensures pick.Some? <==> InSomeRoom(old(rooms), id)
      ensures pick.Some? ==> Holds(old(rooms), pick.value, id) && rooms == Leave(old(rooms), pick.value, id)
      ensures pick.None? ==> rooms == old(rooms)
    {
      var found := FindRoom(id);
      match found {
        case None => return None;
        case Some((r, n)) =>
          FirstPosition(rooms[r], id, n);
          rooms := rooms[r := rooms[r][..n] + rooms[r][n + 1..]];
          return Some(r);
      }
    }

    // ----- on_disconnect -----

    /** Lines 59-73; neither the assert nor the expect ever fails. */
    method OnDisconnect() returns (pick: string)
      requires Valid() && L.Enabled(lib, L.TakeDisconnect)
      modifies this
      ensures Valid() && history == old(history) + [Disconnect(pick)]
      ensures Enabled(old(View()), Disconnect(pick)) && View() == Apply(old(View()), Disconnect(pick))
      ensures panic.None? && actors == old(actors)
      ensures var id := old(lib).sessions[old(lib).disconnectQ[0].token].id;
              && sessions == old(sessions) - {id}
              && (forall r, x :: Holds(rooms, r, x) <==> Holds(old(rooms), r, x) && x != id)
    {
      hide After, Inv, Apply, L.Apply;
      ghost var before := View();
      Holding();
      DisconnectIsKnown(before);
      var id := lib.sessions[lib.disconnectQ[0].token].id;
      assert id in sessions;
      sessions := sessions - {id};
      var found := TakeFromRoom(id);
      pick := found.value;
      DisconnectOutcome(before, pick);
      Departed(before, pick, id);
      lib := L.Apply(lib, L.TakeDisconnect);
      Record(before, Disconnect(pick));
    }

    // ----- on_call -----

    /** `get(id).unwrap()` for each id, then `text(..).unwrap()` for each session. */
    method Tell(ids: seq<nat>, m: Message)
      requires !L.Stopped(lib)
      modifies this`lib, this`panic
      ensures View() == Broadcast(old(View()), old(lib), ids, m)
    {
      match Lookup(sessions, ids) {
        case None =>
          lib := L.Apply(lib, L.Abort);
          panic := Some(NoSuchSession);
        case Some(tokens) =>
          var ok := SendAll(tokens, m);
          if !ok {
            lib := L.Apply(lib, L.Abort);
            panic := Some(DeadSession);
          }
      }
    }

    method SendAll(tokens: seq<nat>, m: Message) returns (ok: bool)
      modifies this`lib
      ensures Deliver(old(lib), tokens, m) == (lib, ok)
    {
      hide L.Apply;
      var i := 0;
      while i < |tokens|
        invariant 0 <= i <= |tokens|
        invariant Deliver(lib, tokens[i..], m) == Deliver(old(lib), tokens, m)
      {
        var delivered := SendText(tokens[i], m);
        assert tokens[i..][1..] == tokens[i + 1..];
        if !delivered { return false; }
        i := i + 1;
      }
      return true;
    }

    /** Session::text fails exactly if the session actor has ended. */
    method SendText(token: nat, m: Message) returns (ok: bool)
      modifies this`lib
      ensures ok == (token < |old(lib).sessions| && S.Unfinished(old(lib).sessions[token].actor))
      ensures lib == if ok then L.Apply(old(lib), L.Session(token, S.Submit(m))) else old(lib)
    {
      ok := token < |lib.sessions| && S.Unfinished(lib.sessions[token].actor);
      if ok { lib := L.Apply(lib, L.Session(token, S.Submit(m))); }
    }

    /** `filter(|id| **id != from)`. */
    method Except(ids: seq<nat>, from: nat) returns (others: seq<nat>)
      ensures others == ChatSpec.Others(ids, from)
    {
      others := [];
      for i := 0 to |ids|
        invariant others == ChatSpec.Others(ids[..i], from)
      {
        OthersSnoc(ids[..i], ids[i], from);
        assert ids[..i + 1] == ids[..i] + [ids[i]];
        if ids[i] != from { others := others + [ids[i]]; }
      }
      assert ids[..|ids|] == ids;
    }

    /** Lines 77-98: everyone in the room but the sender is told.  The room and the
        sessions are always found; it panics exactly if a recipient has ended. */
    method OnSend()
      requires Valid() && L.Enabled(lib, L.TakeServerCall) && lib.callQ[0].Send?
      modifies this
      ensures Valid() && history == old(history) + [OnCall("")] && View() == Apply(old(View()), OnCall(""))
      ensures var c := old(lib).callQ[0];
              && c.room in old(rooms)
              && (panic.None? <==> !AnyDead(old(View()), ChatSpec.Others(old(rooms)[c.room], c.from)))
              && (panic.Some? ==> panic.value.DeadSession?)
      ensures actors == old(actors)
    {
      hide Apply, After, Inv, L.Apply;
      ghost var before := View();
      Holding();
      SendKeeps(before, "");
      Say(lib.callQ[0]);
      CallKeepsActors(before, "");
      Record(before, OnCall(""));
    }

    method Say(c: Call)
      requires L.Enabled(lib, L.TakeServerCall) && c == lib.callQ[0] && c.Send?
      modifies this`lib, this`panic
      ensures View() == Apply(old(View()), OnCall(""))
    {
      lib := L.Apply(lib, L.TakeServerCall);
      if c.room !in rooms {
        lib := L.Apply(lib, L.Abort);
        panic := Some(NoSuchRoom);
      } else {
        var others := Except(rooms[c.room], c.from);
        Tell(others, Message.Text(c.text));
      }
    }

    /** Lines 99-124: the newcomer moves, then everyone in the room is told.  It
        panics exactly if the id is no longer live or someone there has ended. */
    method OnJoin() returns (pick: string)
      requires Valid() && L.Enabled(lib, L.TakeServerCall) && lib.callQ[0].Join?
      modifies this
      ensures Valid() && history == old(history) + [OnCall(pick)]
      ensures Enabled(old(View()), OnCall(pick)) && View() == Apply(old(View()), OnCall(pick))
      ensures var c := old(lib).callQ[0];
              && (panic == Some(JoinOfStranger) <==> c.id !in old(sessions))
              && (panic == Some(DeadSession) <==> c.id in old(sessions) && JoinMeetsDead(old(View()), c.id, c.room))
              && (panic.None? <==> c.id in old(sessions) && !JoinMeetsDead(old(View()), c.id, c.room))
              && (c.id in old(sessions) ==> c.room in rooms)
              && (panic.None? ==>
                    forall r, x :: Holds(rooms, r, x) <==> if x == c.id then r == c.room else Holds(old(rooms), r, x))
      ensures actors == old(actors)
    {
      hide Apply, After, Inv, L.Apply;
      ghost var before := View();
      Holding();
      pick := Move(lib.callQ[0]);
      JoinKeeps(before, pick);
      JoinIsHeardIf(before, pick);
      CallKeepsActors(before, pick);
      Record(before, OnCall(pick));
    }

    method Move(c: Call) returns (pick: string)
      requires L.Enabled(lib, L.TakeServerCall) && c == lib.callQ[0] && c.Join?
      modifies this`lib, this`rooms, this`panic
      ensures Enabled(old(View()), OnCall(pick)) && View() == Apply(old(View()), OnCall(pick))
    {
      hide Apply, L.Apply;
      ghost var before := View();
      CallBegins(lib);
      lib := L.Apply(lib, L.TakeServerCall);
      var found := TakeFromRoom(c.id);
      JoinStep(before, if found.Some? then found.value else "");
      if found.None? {
        lib := L.Apply(lib, L.Abort);
        panic := Some(JoinOfStranger);
        return "";
      }
      pick := found.value;
      AddToRoom(c.room, c.id);
      Tell(rooms[c.room], Message.Text(Greeting(c.id, c.room)));
    }

    /** Lines 106-110. */
    method AddToRoom(room: string, id: nat)
      modifies this`rooms
      ensures rooms == Enter(old(rooms), room, id)
    {
      if room in rooms {
        rooms := rooms[room := rooms[room] + [id]];
      } else {
        assert [] + [id] == [id];
        rooms := rooms[room := [id]];
      }
    }

    // ----- on_text -----

    /** Session `i` handles a line: lines 146-171 with the call of the server. */
    method OnText(i: nat)
      requires Valid() && Enabled(View(), Event.OnText(i))
      modifies this, actors[i]
      ensures Valid() && history == old(history) + [Event.OnText(i)]
      ensures View() == Apply(old(View()), Event.OnText(i)) && actors == old(actors)
      ensures !L.Stopped(old(lib)) ==>
                var text, id := TextOf(old(lib).sessions[i].actor).value, actors[i].id;
                && (!Slash(text) ==> lib.callQ == old(lib).callQ + [Send(id, old(actors[i].room), text)])
                && (forall to | AsksFor(text, to) ::
                      lib.callQ == old(lib).callQ + [Join(id, to)] && actors[i].room == to)
                && (Slash(text) && (forall to :: !AsksFor(text, to)) ==> lib.callQ == old(lib).callQ)
    {
      hide After, Apply, L.Apply, Calls, Parse;
      ghost var before := View();
      var text := TextOf(lib.sessions[i].actor).value;
      var r := actors[i].OnText(text);
      locals := locals[i := actors[i].room];
      assert before.local[i := before.local[i]] == before.local;
      ghost var moved := View();
      React(i, r);
      TextOutcome(before, i);
      if !L.Stopped(before.lib) { LineEffect(before, i); }
      Reacted(moved, i, r);
      Record(before, Event.OnText(i));
    }

    lemma Reacted(s: State, i: nat, r: Reaction)
      requires i < |s.lib.sessions| && TextOf(s.lib.sessions[i].actor).Some?
      requires View() == (match r
                          case Asks(c) => Calls(s, i, c)
                          case Nothing => s.(lib := L.Apply(s.lib, L.Session(i, S.HandlerReturns(None))))
                          case PanicsInText => s.(lib := L.Apply(s.lib, L.Session(i, S.Crash))))
      ensures SameActors(s, View())
    {
      match r {
        case Asks(c) => CallsKeepActors(s, i, c);
        case Nothing => MoveKeepsActors(s.lib, i, S.HandlerReturns(None));
        case PanicsInText => MoveKeepsActors(s.lib, i, S.Crash);
      }
    }

    /** The call is queued, or the session crashes because the server is gone. */
    method React(i: nat, r: Reaction)
      requires i < |lib.sessions| && TextOf(lib.sessions[i].actor).Some?
      modifies this`lib
      ensures View() == match r
                        case Asks(c) => Calls(old(View()), i, c)
                        case Nothing => old(View()).(lib := L.Apply(old(lib), L.Session(i, S.HandlerReturns(None))))
                        case PanicsInText => old(View()).(lib := L.Apply(old(lib), L.Session(i, S.Crash)))
    {
      match r {
        case Asks(c) =>
          if L.Stopped(lib) {
            lib := L.Apply(lib, L.Session(i, S.Crash));
          } else {
            lib := L.Apply(lib, L.PushServerCall(c));
            lib := L.Apply(lib, L.Session(i, S.HandlerReturns(None)));
          }
        case Nothing => lib := L.Apply(lib, L.Session(i, S.HandlerReturns(None)));
        case PanicsInText => lib := L.Apply(lib, L.Session(i, S.Crash));
      }
    }
  }
}

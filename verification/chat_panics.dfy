/** Both panics that the chat server's invariant allows do happen: a run for each
    (examples/chat-server/src/main.rs 99-104 and 119-123). */
module ChatPanics {
  import opened Wire
  import S = SessionSpec
  import L = ServerSpec
  import opened ChatSpec

  const LINE := "/join r"
  const JOIN := Join(0, "r")

  // ----- Parsing the line -----

  lemma FirstWord()
    ensures NextWord(LINE) == Some(("/join", " r"))
  {
    var a, b, c, d, e, f := LINE, "join r", "oin r", "in r", "n r", " r";
    assert a[1..] == b && b[1..] == c && c[1..] == d && d[1..] == e && e[1..] == f;
    assert WordLength(f) == 0 && WordLength(e) == 1 && WordLength(d) == 2;
    assert WordLength(c) == 3 && WordLength(b) == 4 && WordLength(a) == 5;
    assert SkipSpace(a) == a && a[..5] == "/join" && a[5..] == f;
  }

  lemma SecondWord()
    ensures NextWord(" r") == Some(("r", ""))
  {
    var f, g := " r", "r";
    assert f[1..] == g && g[1..] == "" && SkipSpace(g) == g && SkipSpace(f) == g;
    assert WordLength("") == 0 && WordLength(g) == 1 && g[..1] == g;
  }

  lemma JoinLine()
    ensures Parse(LINE) == GoTo("r")
  {
    FirstWord();
    SecondWord();
  }

  // ----- The states of the run -----

  const TAKEN: L.System<Call> :=
    L.Start().(mode := L.Busy(L.Connecting(7)), arrived := [7], connects := [7], taken := [7])

  /** One session, number 0, with its forwarder and the calls waiting. */
  function Seated(a: S.Actor, f: L.Forwarder, q: seq<Call>): L.System<Call> {
    var w := if f.Spawned? then L.Unspawned else L.Checking(0);
    TAKEN.(mode := L.Idle, active := 1, callQ := q, sessions := [L.Live(0, a, f, w, 0, false)])
  }

  function Chatting(a: S.Actor, f: L.Forwarder, q: seq<Call>, room: string): State {
    State(Seated(a, f, q), map[0 := 0], map[DEFAULT_ROOM := [0]], [room], None)
  }

  const HEARD := S.FRESH.(inbox := [Delivered(Text(LINE))], frames := [Good(RawText(LINE))])

  const HANDLING := HEARD.(inbox := [], consumed := HEARD.inbox, handled := [Text(LINE)],
                           phase := S.InHandler(S.OnMessage(Text(LINE))))

  const READY := HANDLING.(phase := S.Ready)

  const DEAD := HANDLING.(phase := S.Crashed)

  // ----- Its steps -----

  ghost predicate Leads(s: State, e: Event, t: State) {
    Enabled(s, e) && Apply(s, e) == t
  }

  lemma Alone<T>(x: T, y: T)
    ensures [] + [x] == [x] && [x][1..] == [] && [x][0 := y] == [y]
  {
  }

  const QUEUED: L.System<Call> := L.Start().(connQ := [7], arrived := [7])

  lemma AcceptLeads()
    ensures Leads(START, Lib(L.AcceptSocket(7)), START.(lib := QUEUED))
  {
    Alone(7, 7);
  }

  lemma TakeConnectionLeads()
    ensures Leads(START.(lib := QUEUED), Lib(L.TakeConnection), START.(lib := TAKEN))
  {
    Alone(7, 7);
  }

  lemma ConnectLeads()
    ensures Leads(START.(lib := TAKEN), Connect, Chatting(S.FRESH, L.Spawned, [], DEFAULT_ROOM))
  {
    var s, l := START.(lib := TAKEN), L.Live(0, S.FRESH, L.Spawned, L.Unspawned, 0, false);
    assert s.sessions.Keys == {} && FirstFreeFrom({}, 0) == 0;
    assert S.After([]) == Some(S.FRESH);
    Alone(0, 0);
    Alone(l, l);
    Alone(DEFAULT_ROOM, DEFAULT_ROOM);
    assert s.rooms[DEFAULT_ROOM := [0]] == map[DEFAULT_ROOM := [0]];
  }

  /** One move of the actor of the only session. */
  lemma MoveLeads(a: S.Actor, se: S.Event, b: S.Actor, q: seq<Call>, room: string)
    requires S.Enabled(a, se) && S.Apply(a, se) == b
    requires !se.HandlerReturns?
    ensures Leads(Chatting(a, L.Spawned, q, room), Lib(L.Session(0, se)), Chatting(b, L.Spawned, q, room))
  {
    hide S.Apply, S.Enabled;
    var l := Seated(a, L.Spawned, q).sessions[0];
    Alone(l, l.(actor := b));
  }

  lemma FrameLeads()
    ensures Leads(Chatting(S.FRESH, L.Spawned, [], DEFAULT_ROOM), Lib(L.Session(0, S.NetFrame(Good(RawText(LINE))))),
                  Chatting(HEARD, L.Spawned, [], DEFAULT_ROOM))
  {
    var frame := Good(RawText(LINE));
    Alone(frame, frame);
    assert S.Forwarded(frame) == HEARD.inbox && [] + HEARD.inbox == HEARD.inbox;
    assert S.Apply(S.FRESH, S.NetFrame(frame)) == HEARD;
    MoveLeads(S.FRESH, S.NetFrame(frame), HEARD, [], DEFAULT_ROOM);
  }

  lemma TakeLeads()
    ensures Leads(Chatting(HEARD, L.Spawned, [], DEFAULT_ROOM), Lib(L.Session(0, S.TakeIncoming)),
                  Chatting(HANDLING, L.Spawned, [], DEFAULT_ROOM))
  {
    Alone(HEARD.inbox[0], HEARD.inbox[0]);
    Alone(Text(LINE), Text(LINE));
    assert S.Apply(HEARD, S.TakeIncoming) == HANDLING;
    MoveLeads(HEARD, S.TakeIncoming, HANDLING, [], DEFAULT_ROOM);
  }

  lemma TextLeads()
    ensures Leads(Chatting(HANDLING, L.Spawned, [], DEFAULT_ROOM), OnText(0), Chatting(READY, L.Spawned, [JOIN], "r"))
  {
    JoinLine();
    hide Parse;
  }

  lemma CrashLeads()
    ensures Leads(Chatting(READY, L.Spawned, [JOIN], "r"), Lib(L.Session(0, S.Crash)),
                  Chatting(DEAD, L.Spawned, [JOIN], "r"))
  {
    MoveLeads(READY, S.Crash, DEAD, [JOIN], "r");
  }

  /** Session 0 has asked to join the room "r", its call is queued, and it has crashed. */
  lemma SomeoneAsksAndCrashes() returns (es: seq<Event>)
    ensures After(es) == Some(Chatting(DEAD, L.Spawned, [JOIN], "r"))
  {
    hide Apply, Enabled, Chatting;
    es := [];
    AcceptLeads();
    es := Goes(es, START, Lib(L.AcceptSocket(7)), START.(lib := QUEUED));
    TakeConnectionLeads();
    es := Goes(es, START.(lib := QUEUED), Lib(L.TakeConnection), START.(lib := TAKEN));
    ConnectLeads();
    es := Goes(es, START.(lib := TAKEN), Connect, Chatting(S.FRESH, L.Spawned, [], DEFAULT_ROOM));
    FrameLeads();
    es := Goes(es, Chatting(S.FRESH, L.Spawned, [], DEFAULT_ROOM), Lib(L.Session(0, S.NetFrame(Good(RawText(LINE))))),
               Chatting(HEARD, L.Spawned, [], DEFAULT_ROOM));
    TakeLeads();
    es := Goes(es, Chatting(HEARD, L.Spawned, [], DEFAULT_ROOM), Lib(L.Session(0, S.TakeIncoming)),
               Chatting(HANDLING, L.Spawned, [], DEFAULT_ROOM));
    TextLeads();
    es := Goes(es, Chatting(HANDLING, L.Spawned, [], DEFAULT_ROOM), OnText(0), Chatting(READY, L.Spawned, [JOIN], "r"));
    CrashLeads();
    es := Goes(es, Chatting(READY, L.Spawned, [JOIN], "r"), Lib(L.Session(0, S.Crash)),
               Chatting(DEAD, L.Spawned, [JOIN], "r"));
  }

  lemma Goes(es: seq<Event>, s: State, e: Event, t: State) returns (longer: seq<Event>)
    requires After(es) == Some(s) && Leads(s, e, t)
    ensures After(longer) == Some(t)
  {
    longer := es + [e];
    assert longer[..|longer| - 1] == es;
  }

  lemma Onto(es: seq<Event>, s: State, e: Event) returns (longer: seq<Event>, t: State)
    requires After(es) == Some(s) && Enabled(s, e)
    ensures After(longer) == Some(t) && t == Apply(s, e)
  {
    t := Apply(s, e);
    longer := Goes(es, s, e, t);
  }

  // ----- The Join is handled before the disconnect -----

  lemma BroadcastToTheDead(s: State, lib: L.System<Call>, m: Message)
    requires !L.Stopped(lib) && s.sessions == map[0 := 0]
    requires |lib.sessions| == 1 && !S.Unfinished(lib.sessions[0].actor)
    ensures Broadcast(s, lib, [0], m).panic == Some(DeadSession)
  {
    assert [0][1..] == [] && Lookup(s.sessions, []) == Some([]);
    assert s.sessions[0] == 0 && [0] + [] == [0];
    assert Lookup(s.sessions, [0]) == Some([0]);
    assert !Deliver(lib, [0], m).1;
  }

  lemma MovedAlone()
    ensures Enter(Leave(map[DEFAULT_ROOM := [0]], DEFAULT_ROOM, 0), "r", 0)["r"] == [0]
  {
    assert Holds(map[DEFAULT_ROOM := [0]], DEFAULT_ROOM, 0);
    assert "r" !in map[DEFAULT_ROOM := [0]];
  }

  /** The unwrap at line 122 fails in some run. */
  lemma TextToTheDead()
    ensures exists es :: After(es).Some? && After(es).value.panic == Some(DeadSession)
  {
    var s := Chatting(DEAD, L.Spawned, [JOIN], "r");
    var es := SomeoneAsksAndCrashes();
    assert Holds(s.rooms, DEFAULT_ROOM, 0);
    MovedAlone();
    var entered := Enter(Leave(s.rooms, DEFAULT_ROOM, 0), "r", 0);
    BroadcastToTheDead(s.(rooms := entered), L.Apply(s.lib, L.TakeServerCall), Text(Greeting(0, "r")));
    var t;
    es, t := Onto(es, s, OnCall(DEFAULT_ROOM));
  }

  // ----- The disconnect is handled before the Join -----

  const NOTE := L.Note(0, S.Failed("session actor crashed"))

  function Reported(lib: L.System<Call>): L.System<Call>
    requires |lib.sessions| > 0
  {
    lib.(sessions := lib.sessions[0 := lib.sessions[0].(forwarder := L.Done, aborted := true)],
         disconnectQ := [NOTE], reported := [NOTE])
  }

  lemma ForwarderLeads()
    ensures Leads(Chatting(DEAD, L.Spawned, [JOIN], "r"), Lib(L.ForwarderMoves(0)),
                  Chatting(DEAD, L.Awaiting, [JOIN], "r"))
  {
  }

  lemma ReportLeads()
    ensures var s := Chatting(DEAD, L.Awaiting, [JOIN], "r");
            Leads(s, Lib(L.ForwarderMoves(0)), s.(lib := Reported(s.lib)))
  {
  }

  /** Session 0 has ended and is reported. */
  lemma SomeoneIsReported() returns (es: seq<Event>, s: State)
    ensures After(es) == Some(s)
    ensures s == Chatting(DEAD, L.Awaiting, [JOIN], "r").(lib := Reported(Seated(DEAD, L.Awaiting, [JOIN])))
  {
    es := SomeoneAsksAndCrashes();
    ForwarderLeads();
    es := Goes(es, Chatting(DEAD, L.Spawned, [JOIN], "r"), Lib(L.ForwarderMoves(0)),
               Chatting(DEAD, L.Awaiting, [JOIN], "r"));
    ReportLeads();
    s := Chatting(DEAD, L.Awaiting, [JOIN], "r");
    s := s.(lib := Reported(s.lib));
    es := Goes(es, Chatting(DEAD, L.Awaiting, [JOIN], "r"), Lib(L.ForwarderMoves(0)), s);
  }

  /** Session 0 is gone, and its call still waits. */
  function Gone(mode: L.Mode<Call>): State {
    var lib := Reported(Seated(DEAD, L.Awaiting, [JOIN]));
    State(lib.(disconnectQ := [], active := 0, given := [NOTE], mode := mode),
          map[], map[DEFAULT_ROOM := []], ["r"], None)
  }

  lemma DisconnectLeads()
    ensures Leads(Chatting(DEAD, L.Awaiting, [JOIN], "r").(lib := Reported(Seated(DEAD, L.Awaiting, [JOIN]))),
                  Disconnect(DEFAULT_ROOM), Gone(L.Busy(L.Disconnecting(NOTE))))
  {
    var rooms := map[DEFAULT_ROOM := [0]];
    assert Holds(rooms, DEFAULT_ROOM, 0) && Leave(rooms, DEFAULT_ROOM, 0) == map[DEFAULT_ROOM := []];
    assert map[0 := 0] - {0} == map[];
    Alone(NOTE, NOTE);
  }

  lemma ReturnLeads()
    ensures Leads(Gone(L.Busy(L.Disconnecting(NOTE))), Lib(L.HandlerReturns(true)), Gone(L.Idle))
  {
  }

  lemma SomeoneIsGone() returns (es: seq<Event>)
    ensures After(es) == Some(Gone(L.Idle))
  {
    hide Apply, Enabled, Gone;
    var s;
    es, s := SomeoneIsReported();
    DisconnectLeads();
    es := Goes(es, s, Disconnect(DEFAULT_ROOM), Gone(L.Busy(L.Disconnecting(NOTE))));
    ReturnLeads();
    es := Goes(es, Gone(L.Busy(L.Disconnecting(NOTE))), Lib(L.HandlerReturns(true)), Gone(L.Idle));
  }

  lemma LateJoin()
    ensures Enabled(Gone(L.Idle), OnCall("")) && Apply(Gone(L.Idle), OnCall("")).panic == Some(JoinOfStranger)
  {
    var s := Gone(L.Idle);
    assert forall r | r in s.rooms :: s.rooms[r] == [];
    assert !InSomeRoom(s.rooms, 0);
  }

  /** The expect at line 104 fails in some run. */
  lemma JoinOfTheGone()
    ensures exists es :: After(es).Some? && After(es).value.panic == Some(JoinOfStranger)
  {
    hide Apply, Enabled, Gone;
    var es := SomeoneIsGone();
    LateJoin();
    var t;
    es, t := Onto(es, Gone(L.Idle), OnCall(""));
  }
}

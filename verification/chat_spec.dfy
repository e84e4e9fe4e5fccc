/** The chat-server example on top of the server model:
    examples/chat-server/src/main.rs 26-184.

    The library is the whole `ServerSpec.System`; this module adds the two maps
    of `ChatServer` and the `room` of every session actor, and restricts the
    library's events to what the example's handlers do.  A handler's effects
    happen when the server actor calls it. */
module ChatSpec {
  import opened Wire
  import S = SessionSpec
  import L = ServerSpec

  const DEFAULT_ROOM := "main"
  const LIVE_LIMIT: nat := 255     // of live sessions, so that the `u8` search finds an id

  datatype Call = Join(id: nat, room: string) | Send(from: nat, room: string, text: string)

  type Rooms = map<string, seq<nat>>

  datatype Panic =
    | NoDefaultRoom        // line 55
    | UnknownSession       // line 64
    | LostSession          // line 70
    | NoSuchRoom           // line 81
    | NoSuchSession        // lines 84 and 117
    | JoinOfStranger       // line 104
    | DeadSession          // lines 96 and 122

  datatype State = State(
    lib: L.System<Call>,
    sessions: map<nat, nat>,       // id to the session's token
    rooms: Rooms,
    local: seq<string>,            // SessionActor::room, by token
    panic: Option<Panic>)

  datatype Event =
    | Lib(e: L.Event<Call>)        // anything that runs none of the example's code
    | Connect                      // on_connect, up to its return
    | Disconnect(pick: string)     // on_disconnect; `pick` is the room its find_map stops at
    | OnCall(pick: string)         // on_call; for a Join, likewise
    | OnText(i: nat)               // session i's on_text

  // ----- The handlers on their maps -----

  predicate Holds(rooms: Rooms, r: string, id: nat) {
    r in rooms && id in rooms[r]
  }

  predicate InSomeRoom(rooms: Rooms, id: nat) {
    exists r | r in rooms :: id in rooms[r]
  }

  /** `find_map` over the rooms, in an order of the HashMap's choosing. */
  predicate MayPick(rooms: Rooms, id: nat, pick: string) {
    InSomeRoom(rooms, id) ==> Holds(rooms, pick, id)
  }

  function Position(ids: seq<nat>, id: nat): (n: nat)
    requires id in ids
    ensures n < |ids| && ids[n] == id
  {
    if ids[0] == id then 0 else 1 + Position(ids[1..], id)
  }

  function Without(ids: seq<nat>, id: nat): seq<nat>
    requires id in ids
  {
    var n := Position(ids, id);
    ids[..n] + ids[n + 1..]
  }

  function Enter(rooms: Rooms, r: string, id: nat): Rooms {
    rooms[r := (if r in rooms then rooms[r] else []) + [id]]
  }

  function Leave(rooms: Rooms, r: string, id: nat): Rooms
    requires Holds(rooms, r, id)
  {
    rooms[r := Without(rooms[r], id)]
  }

  function FirstFreeFrom(used: set<nat>, i: nat): nat
    decreases LIVE_LIMIT - i
  {
    if i >= LIVE_LIMIT || i !in used then i else FirstFreeFrom(used, i + 1)
  }

  function Others(ids: seq<nat>, from: nat): seq<nat> {
    if ids == [] then []
    else (if ids[0] != from then [ids[0]] else []) + Others(ids[1..], from)
  }

  /** The sessions of `ids`, unless one is missing. */
  function Lookup(sessions: map<nat, nat>, ids: seq<nat>): Option<seq<nat>> {
    if ids == [] then Some([])
    else if ids[0] !in sessions then None
    else
      match Lookup(sessions, ids[1..])
      case None => None
      case Some(tokens) => Some([sessions[ids[0]]] + tokens)
  }

  // ----- Parsing a line -----

  predicate IsWhitespace(c: char) {
    var n := c as int;
    || 9 <= n <= 13 || n == 32 || n == 0x85 || n == 0xA0 || n == 0x1680 || 0x2000 <= n <= 0x200A
    || n == 0x2028 || n == 0x2029 || n == 0x202F || n == 0x205F || n == 0x3000
  }

  function SkipSpace(s: string): string {
    if s != "" && IsWhitespace(s[0]) then SkipSpace(s[1..]) else s
  }

  function WordLength(s: string): (n: nat)
    ensures n <= |s|
  {
    if s == "" || IsWhitespace(s[0]) then 0 else 1 + WordLength(s[1..])
  }

  /** `next` of `split_whitespace`: the word and what follows it. */
  function NextWord(s: string): Option<(string, string)> {
    var t := SkipSpace(s);
    if t == "" then None else Some((t[..WordLength(t)], t[WordLength(t)..]))
  }

  datatype Command = GoTo(room: string) | MissingRoom | Unrecognized | Say(text: string) | NoCommand

  function Parse(text: string): Command {
    if text != "" && text[0] == '/' then
      match NextWord(text)
      case None => NoCommand          // the unwrap at line 150
      case Some((command, rest)) =>
        if command == "/join" then
          match NextWord(rest)
          case None => MissingRoom
          case Some((room, _)) => GoTo(room)
        else Unrecognized
    else Say(text)
  }

  // ----- Steps -----

  /** Sends `m` to each of the sessions; stops at the first dead one (the `unwrap` of `text`). */
  function Deliver(lib: L.System<Call>, tokens: seq<nat>, m: Message): (r: (L.System<Call>, bool))
    ensures r.0 == lib.(sessions := r.0.sessions) && |r.0.sessions| == |lib.sessions|
    ensures forall t | 0 <= t < |lib.sessions| :: r.0.sessions[t] == lib.sessions[t].(actor := r.0.sessions[t].actor)
    ensures r.1 <==> forall k | 0 <= k < |tokens| ::
                       tokens[k] < |lib.sessions| && S.Unfinished(lib.sessions[tokens[k]].actor)
    decreases |tokens|
  {
    if tokens == [] then (lib, true)
    else if tokens[0] < |lib.sessions| && S.Unfinished(lib.sessions[tokens[0]].actor) then
      Deliver(L.Apply(lib, L.Session(tokens[0], S.Submit(m))), tokens[1..], m)
    else (lib, false)
  }

  function Panics(s: State, lib: L.System<Call>, p: Panic): State
    requires !L.Stopped(lib)
  {
    s.(lib := L.Apply(lib, L.Abort), panic := Some(p))
  }

  function Broadcast(s: State, lib: L.System<Call>, ids: seq<nat>, m: Message): State
    requires !L.Stopped(lib)
  {
    match Lookup(s.sessions, ids)
    case None => Panics(s, lib, NoSuchSession)
    case Some(tokens) =>
      var (after, ok) := Deliver(lib, tokens, m);
      if ok then s.(lib := after)
      else Panics(s, after, DeadSession)
  }

  function TextOf(a: S.Actor): Option<string> {
    match a.phase
    case InHandler(OnMessage(Text(t))) => Some(t)
    case _ => None
  }

  /** Library events that run none of the example's code: the others happen
      through `Connect`, `Disconnect`, `OnCall` and `OnText` only. */
  predicate Neutral(s: State, e: L.Event<Call>) {
    match e
    case PushServerCall(_) => false
    case ConnectAccepts(_, _) => false
    case ConnectRefuses(_) => false
    case TakeDisconnect => false
    case TakeServerCall => false
    case Session(i, HandlerReturns(_)) => i < |s.lib.sessions| && TextOf(s.lib.sessions[i].actor).None?
    case _ => true
  }

  predicate Enabled(s: State, e: Event) {
    match e
    case Lib(le) => Neutral(s, le) && L.Enabled(s.lib, le)
    case Connect => |s.sessions| < LIVE_LIMIT && L.Enabled(s.lib, L.ConnectAccepts(0, []))
    case Disconnect(pick) =>
      && L.Enabled(s.lib, L.TakeDisconnect)
      && s.lib.disconnectQ[0].token < |s.lib.sessions|
      && MayPick(s.rooms, s.lib.sessions[s.lib.disconnectQ[0].token].id, pick)
    case OnCall(pick) =>
      && L.Enabled(s.lib, L.TakeServerCall)
      && (s.lib.callQ[0].Join? ==> MayPick(s.rooms, s.lib.callQ[0].id, pick))
    case OnText(i) => i < |s.lib.sessions| && i < |s.local| && TextOf(s.lib.sessions[i].actor).Some?
  }

  function Apply(s: State, e: Event): State
    requires Enabled(s, e)
  {
    match e
    case Lib(le) => s.(lib := L.Apply(s.lib, le))
    case Connect => Connects(s)
    case Disconnect(pick) => Disconnects(s, pick)
    case OnCall(pick) =>
      var lib := L.Apply(s.lib, L.TakeServerCall);
      (match s.lib.callQ[0]
       case Send(from, room, text) => Sends(s, lib, from, room, text)
       case Join(id, room) => Joins(s, lib, pick, id, room))
    case OnText(i) => Texts(s, i)
  }

  /** Lines 37-57. */
  function Connects(s: State): State
    requires Enabled(s, Connect)
  {
    var id := FirstFreeFrom(s.sessions.Keys, 0);
    var token := |s.lib.sessions|;
    var t := s.(sessions := s.sessions[id := token]);
    if DEFAULT_ROOM !in s.rooms then Panics(t, s.lib, NoDefaultRoom)
    else t.(lib := L.Apply(s.lib, L.ConnectAccepts(id, [])), local := s.local + [DEFAULT_ROOM],
            rooms := s.rooms[DEFAULT_ROOM := s.rooms[DEFAULT_ROOM] + [id]])
  }

  /** Lines 59-73. */
  function Disconnects(s: State, pick: string): State
    requires Enabled(s, Disconnect(pick))
  {
    var lib := L.Apply(s.lib, L.TakeDisconnect);
    var id := s.lib.sessions[s.lib.disconnectQ[0].token].id;
    if id !in s.sessions then Panics(s, lib, UnknownSession)
    else
      var t := s.(sessions := s.sessions - {id});
      if !InSomeRoom(s.rooms, id) then Panics(t, lib, LostSession)
      else t.(lib := lib, rooms := Leave(s.rooms, pick, id))
  }

  /** Lines 77-98. */
  function Sends(s: State, lib: L.System<Call>, from: nat, room: string, text: string): State
    requires !L.Stopped(lib)
  {
    if room !in s.rooms then Panics(s, lib, NoSuchRoom)
    else Broadcast(s, lib, Others(s.rooms[room], from), Text(text))
  }

  function Greeting(id: nat, room: string): string {
    "User with ID: " + Decimal(id) + " just joined " + room + " room"
  }

  function Decimal(n: nat): string {
    var digit := ["0", "1", "2", "3", "4", "5", "6", "7", "8", "9"][n % 10];
    if n < 10 then digit else Decimal(n / 10) + digit
  }

  /** Lines 99-124. */
  function Joins(s: State, lib: L.System<Call>, pick: string, id: nat, room: string): State
    requires !L.Stopped(lib) && MayPick(s.rooms, id, pick)
  {
    if !InSomeRoom(s.rooms, id) then Panics(s, lib, JoinOfStranger)
    else
      var t := s.(rooms := Enter(Leave(s.rooms, pick, id), room, id));
      Broadcast(t, lib, t.rooms[room], Text(Greeting(id, room)))
  }

  /** Lines 146-171. */
  function Texts(s: State, i: nat): State
    requires Enabled(s, OnText(i))
  {
    var id := s.lib.sessions[i].id;
    match Parse(TextOf(s.lib.sessions[i].actor).value)
    case GoTo(room) => Calls(s.(local := s.local[i := room]), i, Join(id, room))
    case Say(text) => Calls(s, i, Send(id, s.local[i], text))
    case Unrecognized => s.(lib := L.Apply(s.lib, L.Session(i, S.HandlerReturns(None))))
    case _ => s.(lib := L.Apply(s.lib, L.Session(i, S.Crash)))
  }

  /** `self.server.call(..).unwrap()`, then the handler's return. */
  function Calls(s: State, i: nat, c: Call): State
    requires i < |s.lib.sessions| && TextOf(s.lib.sessions[i].actor).Some?
  {
    if L.Stopped(s.lib) then s.(lib := L.Apply(s.lib, L.Session(i, S.Crash)))
    else s.(lib := L.Apply(L.Apply(s.lib, L.PushServerCall(c)), L.Session(i, S.HandlerReturns(None))))
  }

  const START := State(L.Start(), map[], map[DEFAULT_ROOM := []], [], None)

  function After(es: seq<Event>): Option<State> {
    if es == [] then Some(START) else
      var before := After(es[..|es| - 1]);
      var e := es[|es| - 1];
      if before.Some? && Enabled(before.value, e) then Some(Apply(before.value, e)) else None
  }
}

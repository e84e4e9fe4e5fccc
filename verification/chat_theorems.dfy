/** The chat server's asserts, expects and unwraps: which can fail, and when. */
module ChatTheorems {
  import opened Wire
  import S = SessionSpec
  import L = ServerSpec
  import opened ChatSpec
  import ChatLines

  // ----- The index: every live id in exactly one place -----

  predicate NoDup(ids: seq<nat>) {
    forall j, k | 0 <= j < k < |ids| :: ids[j] != ids[k]
  }

  /** `live` are the ids in `sessions`. */
  predicate WellIndexed(live: set<nat>, rooms: Rooms) {
    && (forall r, id | r in rooms && id in rooms[r] :: id in live)
    && (forall id | id in live :: InSomeRoom(rooms, id))
    && (forall r | r in rooms :: NoDup(rooms[r]))
    && (forall r, q, id | r in rooms && q in rooms && id in rooms[r] && id in rooms[q] :: r == q)
  }

  /** The answer of `find_map` does not depend on the order of the HashMap. */
  lemma PickIsUnique(live: set<nat>, rooms: Rooms, id: nat, p: string, q: string)
    requires WellIndexed(live, rooms) && id in live && MayPick(rooms, id, p) && MayPick(rooms, id, q)
    ensures p == q
  {
  }

  lemma WithoutIs(ids: seq<nat>, id: nat)
    requires id in ids && NoDup(ids)
    ensures NoDup(Without(ids, id)) && id !in Without(ids, id)
    ensures forall x :: x in Without(ids, id) <==> x in ids && x != id
  {
    var n, rest := Position(ids, id), Without(ids, id);
    forall k | 0 <= k < |rest| ensures rest[k] == ids[if k < n then k else k + 1] {}
    forall x | x in ids && x != id ensures x in rest {
      var k :| 0 <= k < |ids| && ids[k] == x;
      assert rest[if k < n then k else k - 1] == x;
    }
  }

  lemma LeaveKeeps(live: set<nat>, rooms: Rooms, r: string, id: nat)
    requires WellIndexed(live, rooms) && Holds(rooms, r, id)
    ensures WellIndexed(live - {id}, Leave(rooms, r, id)) && Leave(rooms, r, id).Keys == rooms.Keys
  {
    var after := Leave(rooms, r, id);
    WithoutIs(rooms[r], id);
    forall x | x in live - {id} ensures InSomeRoom(after, x) {
      var q :| q in rooms && x in rooms[q];
      assert x in after[q];
    }
    forall q, x | q in after && x in after[q] ensures x in live - {id} {
      assert x in rooms[q];
    }
  }

  lemma EnterKeeps(live: set<nat>, rooms: Rooms, r: string, id: nat)
    requires WellIndexed(live, rooms) && id !in live
    ensures WellIndexed(live + {id}, Enter(rooms, r, id)) && Enter(rooms, r, id).Keys == rooms.Keys + {r}
  {
    var after := Enter(rooms, r, id);
    assert id in after[r] by { assert after[r][|after[r]| - 1] == id; }
    forall x | x in live + {id} ensures InSomeRoom(after, x) {
      if x in live {
        var q :| q in rooms && x in rooms[q];
        assert x in after[q];
      }
    }
    forall q | q in after
      ensures NoDup(after[q])
      ensures forall x :: x in after[q] <==> ((q in rooms && x in rooms[q]) || (q == r && x == id))
    {
    }
  }

  // ----- Sessions: the ids in the map are those of the sessions not yet given back -----

  predicate Given(lib: L.System<Call>, t: nat) {
    exists k | 0 <= k < |lib.given| :: lib.given[k].token == t
  }

  predicate SessionsInv(s: State) {
    && |s.local| == |s.lib.sessions|
    && (forall id | id in s.sessions ::
          var t := s.sessions[id];
          t < |s.lib.sessions| && !Given(s.lib, t) && s.lib.sessions[t].id == id)
    && (forall t | 0 <= t < |s.lib.sessions| && !Given(s.lib, t) ::
          s.lib.sessions[t].id in s.sessions && s.sessions[s.lib.sessions[t].id] == t)
  }

  // ----- Rooms: what a Send names exists by the time it is handled -----

  predicate Promised(rooms: Rooms, q: seq<Call>, room: string) {
    room in rooms || exists k | 0 <= k < |q| :: q[k].Join? && q[k].room == room
  }

  /** Every queued Send names a room that exists or that an earlier queued Join
      will create, and every session's `room` exists or is asked for in the queue. */
  predicate RoomsOk(rooms: Rooms, q: seq<Call>, local: seq<string>) {
    && DEFAULT_ROOM in rooms
    && (forall j | 0 <= j < |q| && q[j].Send? :: Promised(rooms, q[..j], q[j].room))
    && (forall t | 0 <= t < |local| :: Promised(rooms, q, local[t]))
  }

  /** The only two ways in which the server can be stopped by its own handlers. */
  predicate PanicOk(p: Option<Panic>) {
    p.None? || p.value.JoinOfStranger? || p.value.DeadSession?
  }

  predicate Inv(s: State) {
    && L.Inv(s.lib)
    && PanicOk(s.panic)
    && (!L.Stopped(s.lib) ==>
          && s.panic.None?
          && SessionsInv(s)
          && WellIndexed(s.sessions.Keys, s.rooms)
          && RoomsOk(s.rooms, s.lib.callQ, s.local))
  }

  // ----- Library moves -----

  lemma NeutralMove(s: State, e: L.Event<Call>)
    requires Neutral(s, e) && L.Enabled(s.lib, e)
    ensures var t := L.Apply(s.lib, e);
            && |t.sessions| == |s.lib.sessions| && t.given == s.lib.given && t.callQ == s.lib.callQ
            && (forall i | 0 <= i < |t.sessions| :: t.sessions[i].id == s.lib.sessions[i].id)
            && (L.Stopped(s.lib) ==> L.Stopped(t))
  {
  }

  lemma NeutralKeeps(s: State, e: L.Event<Call>)
    requires Inv(s) && Enabled(s, Lib(e))
    ensures Inv(Apply(s, Lib(e)))
  {
    L.Step(s.lib, e);
    NeutralMove(s, e);
    if !L.Stopped(Apply(s, Lib(e)).lib) {
      SameSessions(s, Apply(s, Lib(e)));
    }
  }

  lemma SameSessions(s: State, t: State)
    requires SessionsInv(s) && t.sessions == s.sessions && |t.local| == |s.local|
    requires |t.lib.sessions| == |s.lib.sessions| && t.lib.given == s.lib.given
    requires forall i | 0 <= i < |t.lib.sessions| :: t.lib.sessions[i].id == s.lib.sessions[i].id
    ensures SessionsInv(t)
  {
    assert forall i :: Given(t.lib, i) == Given(s.lib, i);
  }

  // ----- Room existence -----

  lemma Popped(rooms: Rooms, after: Rooms, q: seq<Call>, upTo: nat, room: string)
    requires 0 < upTo <= |q| && Promised(rooms, q[..upTo], room)
    requires rooms.Keys <= after.Keys && (q[0].Join? ==> q[0].room in after)
    ensures Promised(after, q[1..][..upTo - 1], room)
  {
    if room !in after {
      var k :| 0 <= k < upTo && q[..upTo][k].Join? && q[..upTo][k].room == room;
      assert q[1..][..upTo - 1][k - 1] == q[k];
    }
  }

  lemma RoomsPop(rooms: Rooms, after: Rooms, q: seq<Call>, local: seq<string>)
    requires RoomsOk(rooms, q, local) && |q| > 0
    requires rooms.Keys <= after.Keys && (q[0].Join? ==> q[0].room in after)
    ensures RoomsOk(after, q[1..], local)
  {
    forall j | 0 <= j < |q[1..]| && q[1..][j].Send? ensures Promised(after, q[1..][..j], q[1..][j].room) {
      assert q[1..][j] == q[j + 1];
      Popped(rooms, after, q, j + 1, q[j + 1].room);
    }
    forall t | 0 <= t < |local| ensures Promised(after, q[1..], local[t]) {
      assert q[..|q|] == q && q[1..][..|q| - 1] == q[1..];
      Popped(rooms, after, q, |q|, local[t]);
    }
  }

  /** A session pushes `c`: a Send for its own room, or a Join and then moves there. */
  lemma RoomsPush(rooms: Rooms, q: seq<Call>, local: seq<string>, i: nat, c: Call)
    requires RoomsOk(rooms, q, local) && i < |local|
    ensures c.Send? && c.room == local[i] ==> RoomsOk(rooms, q + [c], local)
    ensures c.Join? ==> RoomsOk(rooms, q + [c], local[i := c.room])
  {
    var longer := q + [c];
    forall room | Promised(rooms, q, room) ensures Promised(rooms, longer, room) {
      if room !in rooms {
        var k :| 0 <= k < |q| && q[k].Join? && q[k].room == room;
        assert longer[k].Join?;
      }
    }
    forall j | 0 <= j < |q| ensures longer[..j] == q[..j] {}
    assert longer[..|q|] == q;
    if c.Join? {
      assert longer[|q|] == c;
      var moved := local[i := c.room];
      forall t | 0 <= t < |moved| ensures Promised(rooms, longer, moved[t]) {
        if t != i { assert Promised(rooms, q, local[t]); }
      }
    }
  }

  // ----- What the library guarantees about tokens -----

  lemma FreshTokens(lib: L.System<Call>)
    requires L.Inv(lib) && !L.Stopped(lib)
    ensures !Given(lib, |lib.sessions|)
    ensures |lib.disconnectQ| > 0 ==> lib.disconnectQ[0].token < |lib.sessions| && !Given(lib, lib.disconnectQ[0].token)
  {
    var notes := lib.given + lib.disconnectQ;
    assert L.NotesInv(lib.sessions, notes);
    assert forall k | 0 <= k < |lib.given| :: notes[k] == lib.given[k];
    if |lib.disconnectQ| > 0 {
      assert notes[|lib.given|] == lib.disconnectQ[0];
    }
  }

  // ----- on_connect -----

  lemma {:induction false} SearchFrom(used: set<nat>, i: nat)
    requires i <= LIVE_LIMIT
    ensures var r := FirstFreeFrom(used, i);
            && i <= r <= LIVE_LIMIT && (r < LIVE_LIMIT ==> r !in used)
            && forall j | i <= j < r :: j in used
    decreases LIVE_LIMIT - i
  {
    if i < LIVE_LIMIT && i in used { SearchFrom(used, i + 1); }
  }

  lemma {:induction false} RangeFits(used: set<nat>, n: nat)
    requires forall j | 0 <= j < n :: j in used
    ensures n <= |used|
  {
    if n > 0 {
      RangeFits(used - {n - 1}, n - 1);
    }
  }

  /** With fewer than 255 live sessions the search ends within the `u8` range
      and finds the least free id. */
  lemma SearchSucceeds(used: set<nat>)
    requires |used| < LIVE_LIMIT
    ensures var r := FirstFreeFrom(used, 0);
            r < LIVE_LIMIT && r !in used && forall j | 0 <= j < r :: j in used
  {
    SearchFrom(used, 0);
    if FirstFreeFrom(used, 0) == LIVE_LIMIT { RangeFits(used, LIVE_LIMIT); }
  }

  lemma ConnectsSessions(s: State, t: State, id: nat)
    requires SessionsInv(s) && id !in s.sessions && !Given(s.lib, |s.lib.sessions|)
    requires t.sessions == s.sessions[id := |s.lib.sessions|] && |t.local| == |s.local| + 1
    requires |t.lib.sessions| == |s.lib.sessions| + 1 && t.lib.given == s.lib.given
    requires forall i | 0 <= i < |s.lib.sessions| :: t.lib.sessions[i] == s.lib.sessions[i]
    requires t.lib.sessions[|s.lib.sessions|].id == id
    ensures SessionsInv(t)
  {
    assert forall i :: Given(t.lib, i) == Given(s.lib, i);
  }

  lemma AcceptMove(lib: L.System<Call>, id: nat)
    requires L.Inv(lib) && L.Enabled(lib, L.ConnectAccepts(id, []))
    ensures var t := L.Apply(lib, L.ConnectAccepts(id, []));
            && L.Inv(t) && !L.Stopped(t) && t.given == lib.given && t.callQ == lib.callQ
            && |t.sessions| == |lib.sessions| + 1
            && (forall i | 0 <= i < |lib.sessions| :: t.sessions[i] == lib.sessions[i])
            && t.sessions[|lib.sessions|].id == id
  {
    L.Step(lib, L.ConnectAccepts(id, []));
  }

  lemma ConnectMoves(s: State)
    requires Inv(s) && Enabled(s, Connect)
    ensures var t, id := Apply(s, Connect), FirstFreeFrom(s.sessions.Keys, 0);
            && id !in s.sessions && t.panic == s.panic && L.Inv(t.lib) && !L.Stopped(t.lib)
            && t.lib == L.Apply(s.lib, L.ConnectAccepts(id, []))
            && t.sessions == s.sessions[id := |s.lib.sessions|]
            && t.local == s.local + [DEFAULT_ROOM]
            && t.rooms == Enter(s.rooms, DEFAULT_ROOM, id)
  {
    var id := FirstFreeFrom(s.sessions.Keys, 0);
    AcceptMove(s.lib, id);
    assert |s.sessions.Keys| == |s.sessions|;
    SearchSucceeds(s.sessions.Keys);
  }

  lemma ConnectMaps(s: State, t: State, id: nat)
    requires SessionsInv(s) && WellIndexed(s.sessions.Keys, s.rooms) && RoomsOk(s.rooms, s.lib.callQ, s.local)
    requires id !in s.sessions && !Given(s.lib, |s.lib.sessions|)
    requires t.sessions == s.sessions[id := |s.lib.sessions|] && t.local == s.local + [DEFAULT_ROOM]
    requires t.rooms == Enter(s.rooms, DEFAULT_ROOM, id)
    requires |t.lib.sessions| == |s.lib.sessions| + 1 && t.lib.given == s.lib.given && t.lib.callQ == s.lib.callQ
    requires forall i | 0 <= i < |s.lib.sessions| :: t.lib.sessions[i] == s.lib.sessions[i]
    requires t.lib.sessions[|s.lib.sessions|].id == id
    ensures SessionsInv(t) && WellIndexed(t.sessions.Keys, t.rooms) && RoomsOk(t.rooms, t.lib.callQ, t.local)
  {
    ConnectsSessions(s, t, id);
    EnterKeeps(s.sessions.Keys, s.rooms, DEFAULT_ROOM, id);
    assert t.sessions.Keys == s.sessions.Keys + {id};
    RoomsConnect(s.rooms, t.rooms, s.lib.callQ, s.local);
  }

  /** on_connect never panics while ids are left. */
  lemma ConnectKeeps(s: State)
    requires Inv(s) && Enabled(s, Connect)
    ensures Inv(Apply(s, Connect)) && Apply(s, Connect).panic.None?
  {
    var t, id := Apply(s, Connect), FirstFreeFrom(s.sessions.Keys, 0);
    ConnectMoves(s);
    AcceptMove(s.lib, id);
    FreshTokens(s.lib);
    ConnectMaps(s, t, id);
  }

  lemma RoomsConnect(rooms: Rooms, after: Rooms, q: seq<Call>, local: seq<string>)
    requires RoomsOk(rooms, q, local) && rooms.Keys <= after.Keys
    ensures RoomsOk(after, q, local + [DEFAULT_ROOM])
  {
    RoomsGrow(rooms, after, q, local);
    var longer := local + [DEFAULT_ROOM];
    forall t | 0 <= t < |longer| ensures Promised(after, q, longer[t]) {
      if t < |local| { assert Promised(after, q, local[t]); }
    }
  }

  // ----- on_disconnect -----

  lemma DisconnectsSessions(s: State, t: State, token: nat)
    requires SessionsInv(s) && token < |s.lib.sessions| && !Given(s.lib, token)
    requires t.sessions == s.sessions - {s.lib.sessions[token].id} && t.local == s.local
    requires t.lib.sessions == s.lib.sessions && |t.lib.given| == |s.lib.given| + 1
    requires t.lib.given[..|s.lib.given|] == s.lib.given && t.lib.given[|s.lib.given|].token == token
    ensures SessionsInv(t)
  {
    forall i ensures Given(t.lib, i) <==> Given(s.lib, i) || i == token {
      if Given(s.lib, i) {
        var k :| 0 <= k < |s.lib.given| && s.lib.given[k].token == i;
        assert t.lib.given[k] == t.lib.given[..|s.lib.given|][k];
      }
      if Given(t.lib, i) {
        var k :| 0 <= k < |t.lib.given| && t.lib.given[k].token == i;
        if k < |s.lib.given| { assert t.lib.given[k] == s.lib.given[k]; }
      }
    }
  }

  /** The assert and the expect of on_disconnect never fail. */
  lemma DisconnectKeeps(s: State, pick: string)
    requires Inv(s) && Enabled(s, Disconnect(pick))
    ensures Inv(Apply(s, Disconnect(pick))) && Apply(s, Disconnect(pick)).panic.None?
  {
    var t := Apply(s, Disconnect(pick));
    var token := s.lib.disconnectQ[0].token;
    var id := s.lib.sessions[token].id;
    FreshTokens(s.lib);
    L.Step(s.lib, L.TakeDisconnect);
    assert id in s.sessions && InSomeRoom(s.rooms, id);
    LeaveKeeps(s.sessions.Keys, s.rooms, pick, id);
    assert t.sessions.Keys == s.sessions.Keys - {id};
    DisconnectsSessions(s, t, token);
    RoomsGrow(s.rooms, t.rooms, s.lib.callQ, s.local);
  }

  lemma RoomsGrow(rooms: Rooms, after: Rooms, q: seq<Call>, local: seq<string>)
    requires RoomsOk(rooms, q, local) && rooms.Keys <= after.Keys
    ensures RoomsOk(after, q, local)
  {
    forall j | 0 <= j < |q| && q[j].Send? ensures Promised(after, q[..j], q[j].room) {
      assert Promised(rooms, q[..j], q[j].room);
    }
    forall t | 0 <= t < |local| ensures Promised(after, q, local[t]) {
      assert Promised(rooms, q, local[t]);
    }
  }

  // ----- on_call -----

  lemma {:induction false} DeliverKeeps(lib: L.System<Call>, tokens: seq<nat>, m: Message)
    requires L.Inv(lib)
    ensures L.Inv(Deliver(lib, tokens, m).0)
    decreases |tokens|
  {
    if tokens != [] && tokens[0] < |lib.sessions| && S.Unfinished(lib.sessions[tokens[0]].actor) {
      L.Step(lib, L.Session(tokens[0], S.Submit(m)));
      DeliverKeeps(L.Apply(lib, L.Session(tokens[0], S.Submit(m))), tokens[1..], m);
    }
  }

  lemma {:induction false} LookupSucceeds(sessions: map<nat, nat>, ids: seq<nat>)
    requires forall id | id in ids :: id in sessions
    ensures Lookup(sessions, ids).Some? && |Lookup(sessions, ids).value| == |ids|
    ensures forall k | 0 <= k < |ids| :: Lookup(sessions, ids).value[k] == sessions[ids[k]]
  {
    if ids != [] {
      assert ids[0] in ids;
      LookupSucceeds(sessions, ids[1..]);
    }
  }

  lemma {:induction false} OthersIn(ids: seq<nat>, from: nat)
    ensures forall id :: id in Others(ids, from) <==> id in ids && id != from
  {
    if ids != [] {
      OthersIn(ids[1..], from);
      assert ids == [ids[0]] + ids[1..];
    }
  }

  /** The session `id` has ended, though its disconnect is still to be handled. */
  predicate HasEnded(s: State, id: nat) {
    && id in s.sessions && s.sessions[id] < |s.lib.sessions|
    && !S.Unfinished(s.lib.sessions[s.sessions[id]].actor)
  }

  predicate AnyDead(s: State, ids: seq<nat>) {
    exists k | 0 <= k < |ids| :: HasEnded(s, ids[k])
  }

  /** A Join of `room` by `id` would tell an ended session: the newcomer's, or
      one that is in the room already. */
  predicate JoinMeetsDead(s: State, id: nat, room: string) {
    HasEnded(s, id) || (room in s.rooms && AnyDead(s, s.rooms[room]))
  }

  lemma DeliverOutcome(s: State, lib: L.System<Call>, ids: seq<nat>, m: Message)
    requires SessionsInv(s) && lib.sessions == s.lib.sessions
    requires forall id | id in ids :: id in s.sessions
    ensures Lookup(s.sessions, ids).Some?
    ensures Deliver(lib, Lookup(s.sessions, ids).value, m).1 <==> !AnyDead(s, ids)
  {
    LookupSucceeds(s.sessions, ids);
    var tokens := Lookup(s.sessions, ids).value;
    forall k | 0 <= k < |tokens| ensures tokens[k] == s.sessions[ids[k]] < |lib.sessions| {
      assert ids[k] in ids;
    }
    if k :| 0 <= k < |tokens| && !S.Unfinished(lib.sessions[tokens[k]].actor) {
      assert ids[k] in s.sessions && s.sessions[ids[k]] == tokens[k];
    }
  }

  /** A broadcast to known ids fails exactly if one of the sessions has ended. */
  lemma BroadcastOutcome(s: State, lib: L.System<Call>, ids: seq<nat>, m: Message)
    requires SessionsInv(s) && !L.Stopped(lib) && L.Inv(lib) && s.panic.None?
    requires lib.sessions == s.lib.sessions && lib.given == s.lib.given
    requires forall id | id in ids :: id in s.sessions
    ensures var t := Broadcast(s, lib, ids, m);
            && L.Inv(t.lib) && t.sessions == s.sessions && t.rooms == s.rooms && t.local == s.local
            && (AnyDead(s, ids) ==> t.panic == Some(DeadSession) && L.Stopped(t.lib))
            && (!AnyDead(s, ids) ==>
                  t.panic.None? && !L.Stopped(t.lib) && t.lib.callQ == lib.callQ && SessionsInv(t))
  {
    hide AnyDead, SessionsInv, L.Inv;
    DeliverOutcome(s, lib, ids, m);
    var tokens := Lookup(s.sessions, ids).value;
    DeliverKeeps(lib, tokens, m);
    var (after, ok) := Deliver(lib, tokens, m);
    if ok {
      SameSessions(s, s.(lib := after));
    } else {
      L.Step(after, L.Abort);
    }
  }

  // ----- Who hears what -----

  lemma {:induction false} DeliverReachesEach(lib: L.System<Call>, tokens: seq<nat>, m: Message, t: nat)
    requires Deliver(lib, tokens, m).1 && NoDup(tokens) && t < |lib.sessions|
    ensures Deliver(lib, tokens, m).0.sessions[t].actor.toSocket
            == lib.sessions[t].actor.toSocket + (if t in tokens then [m] else [])
    decreases |tokens|
  {
    if tokens != [] {
      var next := L.Apply(lib, L.Session(tokens[0], S.Submit(m)));
      var rest := tokens[1..];
      assert NoDup(rest);
      DeliverReachesEach(next, rest, m, t);
      assert t in tokens <==> t == tokens[0] || t in rest;
      assert tokens[0] !in rest;
    }
  }

  lemma {:induction false} OthersDiffer(ids: seq<nat>, from: nat)
    requires NoDup(ids)
    ensures NoDup(Others(ids, from))
  {
    if ids != [] {
      assert NoDup(ids[1..]) && ids[0] !in ids[1..];
      OthersDiffer(ids[1..], from);
      OthersIn(ids[1..], from);
    }
  }

  /** Unless it panics, a broadcast puts the message once into the queue of each
      session whose id is listed, at the end, and into no other. */
  lemma BroadcastReachesEach(s: State, lib: L.System<Call>, ids: seq<nat>, m: Message, id: nat)
    requires SessionsInv(s) && !L.Stopped(lib) && lib.sessions == s.lib.sessions && s.panic.None?
    requires (forall x | x in ids :: x in s.sessions) && NoDup(ids) && id in s.sessions
    requires Broadcast(s, lib, ids, m).panic.None?
    ensures var t, token := Broadcast(s, lib, ids, m), s.sessions[id];
            && |t.lib.sessions| == |s.lib.sessions|
            && t.lib.sessions[token].actor.toSocket
               == s.lib.sessions[token].actor.toSocket + (if id in ids then [m] else [])
  {
    LookupSucceeds(s.sessions, ids);
    var tokens, token := Lookup(s.sessions, ids).value, s.sessions[id];
    forall j, k | 0 <= j < k < |tokens| ensures tokens[j] != tokens[k] {
      assert ids[j] in ids && ids[k] in ids;
      assert s.lib.sessions[tokens[j]].id == ids[j] && s.lib.sessions[tokens[k]].id == ids[k];
    }
    assert token in tokens <==> id in ids by {
      if token in tokens {
        var k :| 0 <= k < |tokens| && tokens[k] == token;
        assert ids[k] in ids && s.lib.sessions[token].id == ids[k];
      }
      if id in ids {
        var k :| 0 <= k < |ids| && ids[k] == id;
        assert tokens[k] == token;
      }
    }
    DeliverReachesEach(lib, tokens, m, token);
  }

  /** A Send reaches everyone in the room but the sender, once, and nobody else. */
  lemma SendIsHeard(s: State, pick: string, id: nat)
    requires Inv(s) && Enabled(s, OnCall(pick)) && s.lib.callQ[0].Send? && id in s.sessions
    ensures var t, c, token := Apply(s, OnCall(pick)), s.lib.callQ[0], s.sessions[id];
            && c.room in s.rooms && token < |s.lib.sessions|
            && (t.panic.None? ==>
                  && |t.lib.sessions| == |s.lib.sessions|
                  && t.lib.sessions[token].actor.toSocket
                     == s.lib.sessions[token].actor.toSocket
                        + (if id in s.rooms[c.room] && id != c.from then [Text(c.text)] else []))
  {
    var c := s.lib.callQ[0];
    SendKeeps(s, pick);
    if Apply(s, OnCall(pick)).panic.None? {
      OthersIn(s.rooms[c.room], c.from);
      OthersDiffer(s.rooms[c.room], c.from);
      BroadcastReachesEach(s, L.Apply(s.lib, L.TakeServerCall), Others(s.rooms[c.room], c.from), Text(c.text), id);
    }
  }

  /** A Send panics exactly if a recipient has ended. */
  lemma SendKeeps(s: State, pick: string)
    requires Inv(s) && Enabled(s, OnCall(pick)) && s.lib.callQ[0].Send?
    ensures var t, c := Apply(s, OnCall(pick)), s.lib.callQ[0];
            && Inv(t) && c.room in s.rooms
            && (t.panic.None? <==> !AnyDead(s, Others(s.rooms[c.room], c.from)))
            && (t.panic.Some? ==> t.panic.value.DeadSession?)
  {
    var c, q := s.lib.callQ[0], s.lib.callQ;
    var lib := L.Apply(s.lib, L.TakeServerCall);
    L.Step(s.lib, L.TakeServerCall);
    assert Promised(s.rooms, q[..0], c.room);
    var ids := Others(s.rooms[c.room], c.from);
    OthersIn(s.rooms[c.room], c.from);
    BroadcastOutcome(s, lib, ids, Text(c.text));
    RoomsPop(s.rooms, s.rooms, q, s.local);
  }

  /** What a Join leads to: by the index, its id is in some room exactly if it is live. */
  lemma JoinOutcome(s: State, pick: string)
    requires Inv(s) && Enabled(s, OnCall(pick)) && s.lib.callQ[0].Join?
    ensures var t, c, lib := Apply(s, OnCall(pick)), s.lib.callQ[0], L.Apply(s.lib, L.TakeServerCall);
            if c.id !in s.sessions then t == Panics(s, lib, JoinOfStranger)
            else
              && Holds(s.rooms, pick, c.id)
              && var entered := Enter(Leave(s.rooms, pick, c.id), c.room, c.id);
                 t == Broadcast(s.(rooms := entered), lib, entered[c.room], Text(Greeting(c.id, c.room)))
  {
  }

  /** The room that a Join leaves behind is the one it found, and the newcomer. */
  lemma EnteredHas(live: set<nat>, rooms: Rooms, pick: string, id: nat, room: string)
    requires WellIndexed(live, rooms) && id in live && Holds(rooms, pick, id)
    ensures var entered := Enter(Leave(rooms, pick, id), room, id);
            forall x :: x in entered[room] <==> x == id || (room in rooms && x in rooms[room])
  {
    WithoutIs(rooms[pick], id);
  }

  lemma DeadInEntered(s: State, entered: seq<nat>, id: nat, room: string)
    requires forall x :: x in entered <==> x == id || (room in s.rooms && x in s.rooms[room])
    ensures AnyDead(s, entered) <==> JoinMeetsDead(s, id, room)
  {
    if AnyDead(s, entered) {
      var k :| 0 <= k < |entered| && HasEnded(s, entered[k]);
      assert entered[k] in entered;
    }
    if JoinMeetsDead(s, id, room) {
      var x :| x in entered && HasEnded(s, x);
      var k :| 0 <= k < |entered| && entered[k] == x;
    }
  }

  /** A Join panics exactly if its id is no longer live, or its session or someone
      in the room it goes to has ended: all of it known before the call. */
  lemma JoinKeeps(s: State, pick: string)
    requires Inv(s) && Enabled(s, OnCall(pick)) && s.lib.callQ[0].Join?
    ensures var t, c := Apply(s, OnCall(pick)), s.lib.callQ[0];
            && Inv(t)
            && (t.panic == Some(JoinOfStranger) <==> c.id !in s.sessions)
            && (c.id in s.sessions ==> c.room in t.rooms)
            && (t.panic == Some(DeadSession) <==> c.id in s.sessions && JoinMeetsDead(s, c.id, c.room))
            && (t.panic.None? <==> c.id in s.sessions && !JoinMeetsDead(s, c.id, c.room))
  {
    hide Apply, L.Apply, Broadcast, Leave, Without, Enter, RoomsOk, WellIndexed, SessionsInv, L.Inv, AnyDead,
         JoinMeetsDead;
    var c, q := s.lib.callQ[0], s.lib.callQ;
    var lib := L.Apply(s.lib, L.TakeServerCall);
    L.Step(s.lib, L.TakeServerCall);
    CallTakenIs(s.lib);
    JoinOutcome(s, pick);
    if c.id !in s.sessions {
      StopsAt(s, lib, JoinOfStranger);
    } else {
      JoinMoves(s.sessions.Keys, s.rooms, pick, c.id, c.room);
      var entered := Enter(Leave(s.rooms, pick, c.id), c.room, c.id);
      RoomsPop(s.rooms, entered, q, s.local);
      RoomIsTold(s, lib, entered, c.room, Text(Greeting(c.id, c.room)));
      EnteredHas(s.sessions.Keys, s.rooms, pick, c.id, c.room);
      DeadInEntered(s, entered[c.room], c.id, c.room);
    }
  }

  /** The rooms are in order again, and everyone in one of them is told `m`. */
  lemma RoomIsTold(s: State, lib: L.System<Call>, entered: Rooms, room: string, m: Message)
    requires SessionsInv(s) && s.panic.None? && L.Inv(lib) && !L.Stopped(lib)
    requires lib.sessions == s.lib.sessions && lib.given == s.lib.given
    requires WellIndexed(s.sessions.Keys, entered) && room in entered && RoomsOk(entered, lib.callQ, s.local)
    ensures var t := Broadcast(s.(rooms := entered), lib, entered[room], m);
            && Inv(t) && t.rooms == entered
            && t.panic == (if AnyDead(s, entered[room]) then Some(DeadSession) else None)
  {
    hide L.Inv, RoomsOk, SessionsInv, Broadcast;
    var u := s.(rooms := entered);
    assert SessionsInv(u) by { SameSessions(s, u); }
    BroadcastOutcome(u, lib, entered[room], m);
    assert AnyDead(u, entered[room]) == AnyDead(s, entered[room]);
  }

  lemma CallTakenIs(lib: L.System<Call>)
    requires L.Enabled(lib, L.TakeServerCall)
    ensures L.Apply(lib, L.TakeServerCall) == L.CallTaken(lib) && !L.Stopped(L.CallTaken(lib))
  {
  }

  /** A panic stops the library. */
  lemma StopsAt(s: State, lib: L.System<Call>, p: Panic)
    requires L.Inv(lib) && !L.Stopped(lib) && PanicOk(Some(p))
    ensures Inv(Panics(s, lib, p)) && Panics(s, lib, p).panic == Some(p)
  {
    L.Step(lib, L.Abort);
  }

  /** The greeting of a Join reaches everyone in the new room, the newcomer
      included, once, and nobody else. */
  lemma JoinIsHeard(s: State, pick: string, id: nat)
    requires Inv(s) && Enabled(s, OnCall(pick)) && s.lib.callQ[0].Join? && id in s.sessions
    ensures var t, c, token := Apply(s, OnCall(pick)), s.lib.callQ[0], s.sessions[id];
            && token < |s.lib.sessions|
            && (t.panic.None? ==>
                  && ChatLines.Greets(Greeting(c.id, c.room), c.id, c.room)
                  && (forall r, x :: Holds(t.rooms, r, x) <==> if x == c.id then r == c.room else Holds(s.rooms, r, x))
                  && c.room in t.rooms && |t.lib.sessions| == |s.lib.sessions|
                  && t.lib.sessions[token].actor.toSocket
                     == s.lib.sessions[token].actor.toSocket
                        + (if id in t.rooms[c.room] then [Text(Greeting(c.id, c.room))] else []))
  {
    hide Apply, L.Apply, Broadcast, Leave, Enter, RoomsOk, L.Inv, AnyDead;
    var c := s.lib.callQ[0];
    JoinKeeps(s, pick);
    JoinOutcome(s, pick);
    if Apply(s, OnCall(pick)).panic.None? {
      JoinMoves(s.sessions.Keys, s.rooms, pick, c.id, c.room);
      MovedMembers(s.sessions.Keys, s.rooms, pick, c.id, c.room);
      ChatLines.GreetingGreets(c.id, c.room);
      GreetingIsHeard(s, Enter(Leave(s.rooms, pick, c.id), c.room, c.id), c.room, Text(Greeting(c.id, c.room)), id);
    }
  }

  /** Who is where after `id` has left its room, and after it has moved. */
  lemma LeftMembers(live: set<nat>, rooms: Rooms, pick: string, id: nat)
    requires WellIndexed(live, rooms) && Holds(rooms, pick, id)
    ensures forall r, x :: Holds(Leave(rooms, pick, id), r, x) <==> Holds(rooms, r, x) && x != id
  {
    WithoutIs(rooms[pick], id);
  }

  lemma MovedMembers(live: set<nat>, rooms: Rooms, pick: string, id: nat, room: string)
    requires WellIndexed(live, rooms) && Holds(rooms, pick, id)
    ensures var entered := Enter(Leave(rooms, pick, id), room, id);
            forall r, x :: Holds(entered, r, x) <==> if x == id then r == room else Holds(rooms, r, x)
  {
    LeftMembers(live, rooms, pick, id);
    var left := Leave(rooms, pick, id);
    var before := if room in left then left[room] else [];
    assert forall x :: x in before + [id] <==> x in before || x == id;
  }

  lemma GreetingIsHeard(s: State, entered: Rooms, room: string, m: Message, id: nat)
    requires L.Enabled(s.lib, L.TakeServerCall) && SessionsInv(s) && s.panic.None?
    requires WellIndexed(s.sessions.Keys, entered) && room in entered && id in s.sessions
    requires Broadcast(s.(rooms := entered), L.Apply(s.lib, L.TakeServerCall), entered[room], m).panic.None?
    ensures var t := Broadcast(s.(rooms := entered), L.Apply(s.lib, L.TakeServerCall), entered[room], m);
            var token := s.sessions[id];
            && t.rooms == entered && token < |s.lib.sessions| == |t.lib.sessions|
            && t.lib.sessions[token].actor.toSocket
               == s.lib.sessions[token].actor.toSocket + (if id in entered[room] then [m] else [])
  {
    var u := s.(rooms := entered);
    assert SessionsInv(u) by { SameSessions(s, u); }
    BroadcastReachesEach(u, L.Apply(s.lib, L.TakeServerCall), entered[room], m, id);
  }

  lemma JoinMoves(live: set<nat>, rooms: Rooms, pick: string, id: nat, room: string)
    requires WellIndexed(live, rooms) && id in live && MayPick(rooms, id, pick)
    ensures Holds(rooms, pick, id)
    ensures var entered := Enter(Leave(rooms, pick, id), room, id);
            WellIndexed(live, entered) && room in entered && rooms.Keys <= entered.Keys
  {
    LeaveKeeps(live, rooms, pick, id);
    EnterKeeps(live - {id}, Leave(rooms, pick, id), room, id);
    assert live - {id} + {id} == live;
  }

  // ----- on_text -----

  /** A line that starts with a slash has a first word: the unwrap at line 150 is safe. */
  lemma SlashHasCommand(text: string)
    requires text != "" && text[0] == '/'
    ensures !Parse(text).NoCommand?
  {
  }

  lemma SessionMove(s: State, lib: L.System<Call>, i: nat, se: S.Event)
    requires L.Inv(lib) && L.Enabled(lib, L.Session(i, se))
    ensures var t := L.Apply(lib, L.Session(i, se));
            && L.Inv(t) && |t.sessions| == |lib.sessions| && t.given == lib.given && t.callQ == lib.callQ
            && (forall k | 0 <= k < |t.sessions| :: t.sessions[k].id == lib.sessions[k].id)
            && t.mode == lib.mode
  {
    L.Step(lib, L.Session(i, se));
  }

  lemma CallsKeep(s: State, local: seq<string>, i: nat, c: Call)
    requires Inv(s) && i < |s.lib.sessions| && TextOf(s.lib.sessions[i].actor).Some? && |local| == |s.local|
    requires !L.Stopped(s.lib) ==> RoomsOk(s.rooms, s.lib.callQ + [c], local)
    ensures Inv(Calls(s.(local := local), i, c))
  {
    if L.Stopped(s.lib) {
      SessionMove(s, s.lib, i, S.Crash);
    } else {
      L.Step(s.lib, L.PushServerCall(c));
      var lib := L.Apply(s.lib, L.PushServerCall(c));
      SessionMove(s, lib, i, S.HandlerReturns(None));
      SameSessions(s, Calls(s.(local := local), i, c));
    }
  }

  lemma QuietTextKeeps(s: State, i: nat, se: S.Event)
    requires Inv(s) && L.Enabled(s.lib, L.Session(i, se))
    ensures Inv(s.(lib := L.Apply(s.lib, L.Session(i, se))))
  {
    SessionMove(s, s.lib, i, se);
    if !L.Stopped(s.lib) { SameSessions(s, s.(lib := L.Apply(s.lib, L.Session(i, se)))); }
  }

  lemma TextKeeps(s: State, i: nat)
    requires Inv(s) && Enabled(s, OnText(i))
    ensures Inv(Apply(s, OnText(i)))
  {
    var id := s.lib.sessions[i].id;
    match Parse(TextOf(s.lib.sessions[i].actor).value) {
      case GoTo(room) =>
        if !L.Stopped(s.lib) { RoomsPush(s.rooms, s.lib.callQ, s.local, i, Join(id, room)); }
        CallsKeep(s, s.local[i := room], i, Join(id, room));
      case Say(text) =>
        if !L.Stopped(s.lib) { RoomsPush(s.rooms, s.lib.callQ, s.local, i, Send(id, s.local[i], text)); }
        CallsKeep(s, s.local, i, Send(id, s.local[i], text));
      case Unrecognized => QuietTextKeeps(s, i, S.HandlerReturns(None));
      case _ => QuietTextKeeps(s, i, S.Crash);
    }
  }

  // ----- Whole runs -----

  lemma Step(s: State, e: Event)
    requires Inv(s) && Enabled(s, e)
    ensures Inv(Apply(s, e))
  {
    match e {
      case Lib(le) => NeutralKeeps(s, le);
      case Connect => ConnectKeeps(s);
      case Disconnect(pick) => DisconnectKeeps(s, pick);
      case OnCall(pick) => if s.lib.callQ[0].Send? { SendKeeps(s, pick); } else { JoinKeeps(s, pick); }
      case OnText(i) => TextKeeps(s, i);
    }
  }

  /** In every run: each live id is in exactly one room, once, and rooms hold only
      live ids; every queued Send names a room that exists or is about to; and if
      a handler ever panics, it is a Join for an id already disconnected or a text
      to a session that has ended. */
  lemma {:induction false} ChatAlways(es: seq<Event>)
    requires After(es).Some?
    ensures Inv(After(es).value) && PanicOk(After(es).value.panic)
  {
    if es != [] {
      ChatAlways(es[..|es| - 1]);
      Step(After(es[..|es| - 1]).value, es[|es| - 1]);
    }
  }

  // ----- What the handlers do not touch -----

  /** Nobody's id and nobody's place changes. */
  predicate SameActors(s: State, t: State) {
    && |t.lib.sessions| == |s.lib.sessions| && t.local == s.local
    && forall k | 0 <= k < |t.lib.sessions| :: t.lib.sessions[k].id == s.lib.sessions[k].id
  }

  lemma BroadcastKeepsActors(s: State, lib: L.System<Call>, ids: seq<nat>, m: Message)
    requires !L.Stopped(lib) && lib.sessions == s.lib.sessions
    ensures SameActors(s, Broadcast(s, lib, ids, m))
  {
  }

  lemma CallKeepsActors(s: State, pick: string)
    requires Enabled(s, OnCall(pick))
    ensures SameActors(s, Apply(s, OnCall(pick)))
  {
    hide Broadcast;
    var lib := L.Apply(s.lib, L.TakeServerCall);
    match s.lib.callQ[0] {
      case Send(from, room, text) =>
        if room in s.rooms { BroadcastKeepsActors(s, lib, Others(s.rooms[room], from), Text(text)); }
      case Join(id, room) =>
        if InSomeRoom(s.rooms, id) {
          var u := s.(rooms := Enter(Leave(s.rooms, pick, id), room, id));
          BroadcastKeepsActors(u, lib, u.rooms[room], Text(Greeting(id, room)));
        }
    }
  }

  /** What session `i` says leads to. */
  lemma TextOutcome(s: State, i: nat)
    requires Enabled(s, OnText(i))
    ensures var t, id := Apply(s, OnText(i)), s.lib.sessions[i].id;
            match Parse(TextOf(s.lib.sessions[i].actor).value)
            case GoTo(room) => t == Calls(s.(local := s.local[i := room]), i, Join(id, room))
            case Say(text) => t == Calls(s, i, Send(id, s.local[i], text))
            case Unrecognized => t == s.(lib := L.Apply(s.lib, L.Session(i, S.HandlerReturns(None))))
            case _ => t == s.(lib := L.Apply(s.lib, L.Session(i, S.Crash)))
  {
  }

  /** The same told by the line itself: which call is queued, and which is not;
      and that the handler panics exactly at a bare "/join" or when the server it
      has something to ask is gone. */
  lemma LineEffect(s: State, i: nat)
    requires Enabled(s, OnText(i))
    ensures var t, id := Apply(s, OnText(i)), s.lib.sessions[i].id; var text := TextOf(s.lib.sessions[i].actor).value;
            && i < |t.local| && i < |t.lib.sessions|
            && (!ChatLines.Slash(text) ==>
                  && t.lib.callQ == Unless(L.Stopped(s.lib), s.lib.callQ, Send(id, s.local[i], text))
                  && t.local == s.local)
            && (forall room | ChatLines.AsksFor(text, room) ::
                  && t.lib.callQ == Unless(L.Stopped(s.lib), s.lib.callQ, Join(id, room))
                  && t.local == s.local[i := room])
            && (ChatLines.Slash(text) && (forall room :: !ChatLines.AsksFor(text, room)) ==>
                  t.lib.callQ == s.lib.callQ && t.local == s.local)
            && t.lib.sessions[i].actor.phase ==
                 (if ChatLines.AsksForNothing(text) then S.Crashed
                  else if ChatLines.Slash(text) && (forall room :: !ChatLines.AsksFor(text, room)) then S.Ready
                  else if L.Stopped(s.lib) then S.Crashed
                  else S.Ready)
  {
    hide Calls, Parse, Apply, L.Apply;
    var id, text := s.lib.sessions[i].id, TextOf(s.lib.sessions[i].actor).value;
    ChatLines.LineMeaning(text);
    TextOutcome(s, i);
    TextEnds(s.lib, i);
    match Parse(text) {
      case GoTo(room) => CallIsQueued(s.(local := s.local[i := room]), i, Join(id, room));
      case Say(_) => CallIsQueued(s, i, Send(id, s.local[i], text));
      case _ =>
    }
  }

  lemma CallIsQueued(s: State, i: nat, c: Call)
    requires i < |s.lib.sessions| && TextOf(s.lib.sessions[i].actor).Some?
    ensures var t := Calls(s, i, c);
            && t.lib.callQ == Unless(L.Stopped(s.lib), s.lib.callQ, c)
            && t.local == s.local && i < |t.lib.sessions|
            && t.lib.sessions[i].actor.phase == if L.Stopped(s.lib) then S.Crashed else S.Ready
  {
  }

  lemma TextEnds(lib: L.System<Call>, i: nat)
    requires i < |lib.sessions| && TextOf(lib.sessions[i].actor).Some?
    ensures forall e: S.Event | e == S.Crash || e == S.HandlerReturns(None) ::
              && L.Enabled(lib, L.Session(i, e))
              && var t := L.Apply(lib, L.Session(i, e));
                 && t.callQ == lib.callQ && i < |t.sessions|
                 && t.sessions[i].actor.phase == if e.Crash? then S.Crashed else S.Ready
  {
  }

  function Unless(gone: bool, calls: seq<Call>, c: Call): seq<Call> {
    if gone then calls else calls + [c]
  }

  lemma MoveKeepsActors(lib: L.System<Call>, i: nat, se: S.Event)
    requires L.Enabled(lib, L.Session(i, se))
    ensures var t := L.Apply(lib, L.Session(i, se));
            |t.sessions| == |lib.sessions| && forall k | 0 <= k < |t.sessions| :: t.sessions[k].id == lib.sessions[k].id
  {
  }

  lemma CallsKeepActors(s: State, i: nat, c: Call)
    requires i < |s.lib.sessions| && TextOf(s.lib.sessions[i].actor).Some?
    ensures SameActors(s, Calls(s, i, c))
  {
    if L.Stopped(s.lib) {
      MoveKeepsActors(s.lib, i, S.Crash);
    } else {
      MoveKeepsActors(L.Apply(s.lib, L.PushServerCall(c)), i, S.HandlerReturns(None));
    }
  }

  lemma ConnectOutcome(s: State)
    requires Inv(s) && Enabled(s, Connect)
    ensures var t, id := Apply(s, Connect), FirstFreeFrom(s.sessions.Keys, 0);
            && id !in s.sessions && DEFAULT_ROOM in s.rooms && s.panic.None? && |s.sessions| < LIVE_LIMIT
            && L.Enabled(s.lib, L.ConnectAccepts(id, []))
            && t == s.(lib := L.Apply(s.lib, L.ConnectAccepts(id, [])), sessions := s.sessions[id := |s.lib.sessions|],
                       rooms := Enter(s.rooms, DEFAULT_ROOM, id), local := s.local + [DEFAULT_ROOM])
            && |t.lib.sessions| == |s.lib.sessions| + 1 && t.lib.sessions[|s.lib.sessions|].id == id
            && (forall k | 0 <= k < |s.lib.sessions| :: t.lib.sessions[k] == s.lib.sessions[k])
  {
    ConnectMoves(s);
    AcceptMove(s.lib, FirstFreeFrom(s.sessions.Keys, 0));
  }

  /** A queued disconnect is of a live id, which is in some room. */
  lemma DisconnectIsKnown(s: State)
    requires Inv(s) && L.Enabled(s.lib, L.TakeDisconnect)
    ensures s.lib.disconnectQ[0].token < |s.lib.sessions|
    ensures var id := s.lib.sessions[s.lib.disconnectQ[0].token].id; id in s.sessions && InSomeRoom(s.rooms, id)
  {
    FreshTokens(s.lib);
  }

  lemma DisconnectOutcome(s: State, pick: string)
    requires Inv(s) && Enabled(s, Disconnect(pick))
    ensures var t, id := Apply(s, Disconnect(pick)), s.lib.sessions[s.lib.disconnectQ[0].token].id;
            && Holds(s.rooms, pick, id) && SameActors(s, t) && s.panic.None?
            && t == s.(lib := L.Apply(s.lib, L.TakeDisconnect), sessions := s.sessions - {id},
                       rooms := Leave(s.rooms, pick, id))
  {
    DisconnectIsKnown(s);
  }

  // ----- The library's side is a run of the server -----

  ghost predicate Reachable(lib: L.System<Call>) {
    exists es :: L.After(es) == Some(lib)
  }

  lemma Onward(lib: L.System<Call>, e: L.Event<Call>)
    requires Reachable(lib) && L.Enabled(lib, e)
    ensures Reachable(L.Apply(lib, e))
  {
    var es :| L.After(es) == Some(lib);
    L.Extend(L.Start(), es, e);
    assert L.After(es + [e]) == Some(L.Apply(lib, e));
  }

  lemma {:induction false} DeliverReaches(lib: L.System<Call>, tokens: seq<nat>, m: Message)
    requires Reachable(lib)
    ensures Reachable(Deliver(lib, tokens, m).0)
    decreases |tokens|
  {
    if tokens != [] && tokens[0] < |lib.sessions| && S.Unfinished(lib.sessions[tokens[0]].actor) {
      Onward(lib, L.Session(tokens[0], S.Submit(m)));
      DeliverReaches(L.Apply(lib, L.Session(tokens[0], S.Submit(m))), tokens[1..], m);
    }
  }

  lemma BroadcastReaches(s: State, lib: L.System<Call>, ids: seq<nat>, m: Message)
    requires Reachable(lib) && !L.Stopped(lib)
    ensures Reachable(Broadcast(s, lib, ids, m).lib)
  {
    Onward(lib, L.Abort);
    match Lookup(s.sessions, ids) {
      case None =>
      case Some(tokens) =>
        DeliverReaches(lib, tokens, m);
        Onward(Deliver(lib, tokens, m).0, L.Abort);
    }
  }

  lemma CallsReach(s: State, i: nat, c: Call)
    requires Reachable(s.lib) && i < |s.lib.sessions| && TextOf(s.lib.sessions[i].actor).Some?
    ensures Reachable(Calls(s, i, c).lib)
  {
    if L.Stopped(s.lib) {
      Onward(s.lib, L.Session(i, S.Crash));
    } else {
      Onward(s.lib, L.PushServerCall(c));
      Onward(L.Apply(s.lib, L.PushServerCall(c)), L.Session(i, S.HandlerReturns(None)));
    }
  }

  lemma TextReaches(s: State, i: nat)
    requires Reachable(s.lib) && Enabled(s, OnText(i))
    ensures Reachable(Apply(s, OnText(i)).lib)
  {
    var id := s.lib.sessions[i].id;
    match Parse(TextOf(s.lib.sessions[i].actor).value) {
      case GoTo(room) => CallsReach(s.(local := s.local[i := room]), i, Join(id, room));
      case Say(text) => CallsReach(s, i, Send(id, s.local[i], text));
      case Unrecognized => Onward(s.lib, L.Session(i, S.HandlerReturns(None)));
      case _ => Onward(s.lib, L.Session(i, S.Crash));
    }
  }

  lemma CallReaches(s: State, pick: string)
    requires Reachable(s.lib) && Enabled(s, OnCall(pick))
    ensures Reachable(Apply(s, OnCall(pick)).lib)
  {
    var lib := L.Apply(s.lib, L.TakeServerCall);
    Onward(s.lib, L.TakeServerCall);
    Onward(lib, L.Abort);
    match s.lib.callQ[0] {
      case Send(from, room, text) =>
        if room in s.rooms { BroadcastReaches(s, lib, Others(s.rooms[room], from), Text(text)); }
      case Join(id, room) =>
        if InSomeRoom(s.rooms, id) {
          var t := s.(rooms := Enter(Leave(s.rooms, pick, id), room, id));
          BroadcastReaches(t, lib, t.rooms[room], Text(Greeting(id, room)));
        }
    }
  }

  /** Every run of the chat server is a run of the library underneath, so all of
      the server's theorems hold of it. */
  lemma {:induction false} ChatRunsTheLibrary(es: seq<Event>)
    requires After(es).Some?
    ensures Reachable(After(es).value.lib)
  {
    if es == [] {
      assert L.After<Call>([]) == Some(L.Start());
    } else {
      var s, e := After(es[..|es| - 1]).value, es[|es| - 1];
      ChatRunsTheLibrary(es[..|es| - 1]);
      match e {
        case Lib(le) => Onward(s.lib, le);
        case Connect =>
          Onward(s.lib, L.ConnectAccepts(FirstFreeFrom(s.sessions.Keys, 0), []));
          Onward(s.lib, L.Abort);
        case Disconnect(_) =>
          Onward(s.lib, L.TakeDisconnect);
          Onward(L.Apply(s.lib, L.TakeDisconnect), L.Abort);
        case OnCall(pick) => CallReaches(s, pick);
        case OnText(i) => TextReaches(s, i);
      }
    }
  }
}

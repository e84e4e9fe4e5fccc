/** `watch_for_shutdown` (src/server.rs 229-247) as the loop it is.  `world` is
    everything the task shares with the rest of the system, and `history` the
    run that led to it; `Others` lets the rest move while the task waits. */
module WatcherTasks {
  import opened Wire
  import S = SessionSpec
  import opened ServerSpec
  import ServerInputs

  predicate StillRuns(w: Watcher) {
    w.Checking? || w.Parked?
  }

  /** The forwarder has spawned it. */
  predicate Begun(l: Live) {
    !l.forwarder.Spawned? && !l.watcher.Unspawned?
  }

  /** It has not seen a version still to come. */
  predicate SeenBefore(l: Live, version: nat) {
    StillRuns(l.watcher) ==> l.watcher.seen <= version
  }

  /** Between its own moves a watcher can only be aborted. */
  predicate Later(l: Live, m: Live) {
    && (m.watcher == l.watcher || (StillRuns(l.watcher) && m.watcher.Halted? && m.aborted))
    && (l.aborted ==> m.aborted)
    && l.actor.submitted <= m.actor.submitted
  }

  lemma OthersMove<C>(s: System<C>, e: Event<C>, i: nat)
    requires Enabled(s, e) && i < |s.sessions| && Begun(s.sessions[i])
    requires !(e.WatcherMoves? && e.i == i)
    ensures s.version <= Apply(s, e).version
    ensures i < |Apply(s, e).sessions| && Later(s.sessions[i], Apply(s, e).sessions[i])
    ensures Begun(Apply(s, e).sessions[i])
  {
  }

  class WatcherTask<C(==)> {
    const me: nat              // the session it was spawned for
    var world: System<C>
    var closes: nat            // calls of `session.close`
    ghost var history: seq<Event<C>>

    ghost predicate Valid()
      reads this
    {
      && After(history) == Some(world)
      && me < |world.sessions| && Begun(world.sessions[me]) && SeenBefore(world.sessions[me], world.version)
    }

    function Mine(): Live
      reads this
      requires me < |world.sessions|
    {
      world.sessions[me]
    }

    function Place(): Watcher
      reads this
      requires me < |world.sessions|
    {
      Mine().watcher
    }

    /** It still runs: neither returned nor aborted. */
    predicate Running()
      reads this
      requires me < |world.sessions|
    {
      StillRuns(Place())
    }

    /** The start of the task: the forwarder has just spawned it. */
    constructor (me: nat, world: System<C>, ghost history: seq<Event<C>>)
      requires After(history) == Some(world) && me < |world.sessions|
      requires !world.sessions[me].forwarder.Spawned? && world.sessions[me].watcher.Checking?
      requires SeenBefore(world.sessions[me], world.version)
      ensures Valid() && Place().Checking? && this.me == me && this.world == world && this.history == history
      ensures closes == 0
    {
      this.me, this.world, this.history, closes := me, world, history, 0;
    }

    method Move(e: Event<C>)
      requires Valid() && Enabled(world, e) && SeenBefore(Apply(world, e).sessions[me], Apply(world, e).version)
      modifies this`world, this`history
      ensures Valid() && world == Apply(old(world), e) && history == old(history) + [e]
    {
      Extend(Start(), history, e);
      world := Apply(world, e);
      history := history + [e];
    }

    /** Everyone else moves; that includes aborting this task. */
    method Others()
      requires Valid()
      modifies this`world, this`history
      ensures Valid() && old(history) <= history
      ensures Later(old(Mine()), Mine()) && old(world.version) <= world.version
    {
      var moves: nat := *;
      while moves > 0
        invariant Valid() && old(history) <= history
        invariant Later(old(Mine()), Mine()) && old(world.version) <= world.version
      {
        moves := moves - 1;
        var e: Event<C> := *;
        if Enabled(world, e) && !(e.WatcherMoves? && e.i == me) {
          OthersMove(world, e, me);
          Move(e);
        }
      }
    }

    /** The loop and the Close after it.  The Close is sent once if the flag was
        seen up and never otherwise; one turn is enough if the flag is up, and
        after two a task that still waits is right to: the flag is down. */
    method WatchForShutdown(turns: nat)
      requires Valid() && Place().Checking?
      modifies this
      ensures Valid() && old(history) <= history
      ensures closes == old(closes) + (if Place().Fired? then 1 else 0)
      ensures Place().Fired? && S.Unfinished(Mine().actor) ==>
                Close(Some(CloseFrame(1001, "server shutting down"))) in Mine().actor.toSocket
      ensures turns > 0 && old(world.version) != 0 ==> Place().Fired? || (Place().Halted? && Mine().aborted)
      ensures turns > 1 ==> Place().Fired? || Place().Halted? || (Place().Parked? && world.version == 0)
      ensures Running() && world.version != 0 ==> Enabled(world, WatcherMoves(me))
      ensures Place().Halted? && !Stopped(world) ==> Mine().aborted
    {
      var done := 0;
      while done < turns && Place().Checking?
        invariant 0 <= done <= turns && Valid() && old(history) <= history
        invariant closes == old(closes) + (if Place().Fired? then 1 else 0)
        invariant done == 0 ==> Place().Checking? && old(world.version) <= world.version
        invariant done > 0 && old(world.version) != 0 ==> Place().Fired? || (Place().Halted? && Mine().aborted)
        invariant done == 1 && Place().Checking? ==> world.version != 0
        invariant done > 1 ==> !Place().Checking?
        invariant Place().Parked? ==> world.version == 0
        decreases turns - done
      {
        Turn();
        done := done + 1;
      }
      Always(history);
      assert !world.mode.Aborted? ==> LiveInv(Mine(), world.version);
      if Place().Fired? && S.Unfinished(Mine().actor) { ServerInputs.AwayIsQueued(history, me); }
    }

    /** Lines 235-242: the flag is looked at, and if it is down the task waits. */
    method Turn()
      requires Valid() && Place().Checking?
      modifies this
      ensures Valid() && old(history) <= history
      ensures closes == old(closes) + (if Place().Fired? then 1 else 0)
      ensures old(world.version) != 0 ==> Place().Fired? || (Place().Halted? && Mine().aborted)
      ensures Place().Checking? ==> world.version != 0
      ensures Place().Parked? ==> world.version == 0
    {
      Others();
      if Place().Checking? {
        if world.version != 0 {
          SendClose();
        } else {
          Move(WatcherMoves(me));
          Changed();
        }
      }
    }

    /** Lines 243-246. */
    method SendClose()
      requires Valid() && Place().Checking? && world.version != 0
      modifies this
      ensures Valid() && history == old(history) + [WatcherMoves(me)]
      ensures Place().Fired? && closes == old(closes) + 1
      ensures var a, b := old(Mine().actor), Mine().actor;
              var away := Close(Some(CloseFrame(1001, "server shutting down")));
              if S.Unfinished(a) then b == a.(toSocket := a.toSocket + [away], submitted := a.submitted + [away])
              else b == a
    {
      Move(WatcherMoves(me));
      closes := closes + 1;
    }

    /** `rx.changed().await`: goes on when a version has been sent that this
        receiver has not seen, ends the task when every sender is gone, and
        otherwise stays pending. */
    method Changed()
      requires Valid() && Place().Parked?
      modifies this`world, this`history
      ensures Valid() && old(history) <= history && !Place().Fired?
      ensures Place().Checking? ==> Place().seen == world.version != old(Place()).seen
      ensures Place().Parked? ==> Place().seen == world.version == old(Place()).seen
    {
      Others();
      if Place().Parked? && (Place().seen != world.version || Stopped(world)) {
        Move(WatcherMoves(me));
      }
    }
  }
}

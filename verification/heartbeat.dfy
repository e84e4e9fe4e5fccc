/** The heartbeat of a socket as a timed transition system: src/socket.rs 548,
    612-632 and 660-695, with the update of `last_alive` at line 458.

    Time is an integer.  Frames arrive whenever they like; the task wakes at
    its deadline or up to `latency` later.  `delay` is the time from the creation
    of the socket to the task's first poll; `early` is when the partner was last
    heard until then, 0 being the creation itself. */
module Heartbeat {
  import opened Wire

  datatype Config = Config(heartbeat: nat, timeout: nat, latency: nat, delay: nat, early: nat)

  datatype Kind = PingSent | CloseSent(frame: CloseFrame)

  /** A message put on the sink's channel: when, and when the partner was last heard. */
  datatype Entry = Entry(at: nat, heard: nat, kind: Kind)

  function TimeoutClose(at: nat, heard: nat): Entry {
    Entry(at, heard, CloseSent(PARTNER_INACTIVE))
  }

  datatype Status = Beating | TimedOut | SinkClosed | Aborted

  datatype State = State(now: nat, lastAlive: nat, deadline: nat, status: Status, log: seq<Entry>)

  datatype Event =
    | Tick
    | FrameArrives
    | Wake(sinkOpen: bool)
    | AbortSignal

  predicate Proper(c: Config) {
    c.heartbeat > 0 && c.early <= c.delay
  }

  function Start(c: Config): State {
    State(c.delay, c.early, c.delay + c.heartbeat, Beating, [])
  }

  predicate Enabled(c: Config, s: State, e: Event) {
    match e
    case Tick => s.status.Beating? ==> s.now < s.deadline + c.latency
    case FrameArrives => true
    case Wake(_) => s.status.Beating? && s.deadline <= s.now
    case AbortSignal => s.status.Beating?
  }

  /** What `handle_heartbeat_sleep_elapsed` decides after `elapsed` of silence. */
  datatype Verdict = SendClose | SleepFor(duration: nat) | SendPing

  function Decide(c: Config, elapsed: nat): Verdict {
    if elapsed > c.timeout then SendClose
    else if elapsed < c.heartbeat then SleepFor(c.heartbeat - elapsed)
    else SendPing
  }

  function Apply(c: Config, s: State, e: Event): State
    requires Enabled(c, s, e) && s.lastAlive <= s.now
  {
    match e
    case Tick => s.(now := s.now + 1)
    case FrameArrives => s.(lastAlive := s.now)
    case AbortSignal => s.(status := Aborted)
    case Wake(sinkOpen) =>
      match Decide(c, s.now - s.lastAlive)
      case SendClose =>
        // the result of this send is ignored
        s.(status := TimedOut,
           log := if sinkOpen then s.log + [TimeoutClose(s.now, s.lastAlive)] else s.log)
      case SleepFor(duration) => s.(deadline := s.now + duration)
      case SendPing =>
        if sinkOpen then
          s.(deadline := s.now + c.heartbeat, log := s.log + [Entry(s.now, s.lastAlive, PingSent)])
        else s.(status := SinkClosed)
  }

  function From(c: Config, s: State, es: seq<Event>): Option<State> {
    if es == [] then Some(s) else
      var before := From(c, s, es[..|es| - 1]);
      var e := es[|es| - 1];
      if before.Some? && before.value.lastAlive <= before.value.now && Enabled(c, before.value, e)
      then Some(Apply(c, before.value, e)) else None
  }

  function After(c: Config, es: seq<Event>): Option<State> {
    From(c, Start(c), es)
  }

  // ----- The invariant of every run -----

  /** The last moment at which a silence since `heard` can go unexamined until
      the next beat: its timeout, or the first poll if that is later. */
  function Examined(c: Config, heard: nat): nat {
    if heard + c.timeout < c.delay then c.delay else heard + c.timeout
  }

  function Latest(c: Config, heard: nat): nat {
    Examined(c, heard) + c.heartbeat + c.latency
  }

  /** The bound is the plain one for every frame heard from the first poll on. */
  predicate Plain(c: Config, heard: nat) {
    Latest(c, heard) == heard + c.timeout + c.heartbeat + c.latency
  }

  predicate EntryOk(c: Config, e: Entry) {
    match e.kind
    case PingSent => e.heard + c.heartbeat <= e.at <= e.heard + c.timeout
    case CloseSent(frame) =>
      && frame == CloseFrame(1006, "remote partner is inactive")
      && e.heard + c.timeout < e.at <= Latest(c, e.heard)
  }

  /** Every entry follows a silence of the right length, all but the last are
      pings, and any two are at least a heartbeat apart. */
  predicate LogOk(c: Config, log: seq<Entry>) {
    && (forall k | 0 <= k < |log| :: EntryOk(c, log[k]))
    && (forall j, k | 0 <= j < k < |log| ::
          log[j].kind.PingSent? && log[j].at + c.heartbeat <= log[k].at)
  }

  predicate Inv(c: Config, s: State) {
    && Proper(c)
    && s.lastAlive <= s.now
    && LogOk(c, s.log)
    && (s.status.Beating? ==>
          && s.now <= s.deadline + c.latency
          && s.deadline <= s.now + c.heartbeat
          && s.deadline <= Examined(c, s.lastAlive) + c.heartbeat
          && (forall k | 0 <= k < |s.log| ::
                s.log[k].kind.PingSent? && s.log[k].at + c.heartbeat <= s.deadline))
  }

  lemma Step(c: Config, s: State, e: Event)
    requires Inv(c, s) && Enabled(c, s, e)
    ensures Inv(c, Apply(c, s, e))
  {
  }

  lemma {:induction false} Always(c: Config, es: seq<Event>)
    requires Proper(c) && After(c, es).Some?
    ensures Inv(c, After(c, es).value)
  {
    if es != [] {
      Always(c, es[..|es| - 1]);
      Step(c, After(c, es[..|es| - 1]).value, es[|es| - 1]);
    }
  }

  /** In every run: pings are at least `heartbeat` apart and follow a silence
      between `heartbeat` and `timeout`; a timeout Close is the last message,
      so there is at most one; and the silence of a beating task is bounded. */
  lemma HeartbeatSafety(c: Config, es: seq<Event>)
    requires Proper(c) && After(c, es).Some?
    ensures var s := After(c, es).value;
            && LogOk(c, s.log)
            && (s.status.Beating? ==> s.now <= Latest(c, s.lastAlive))
  {
    Always(c, es);
  }

  /** Time can always pass until the deadline is met: some move is enabled and
      the clock is stopped only by a wake-up that is overdue. */
  lemma ClockNeverJams(c: Config, s: State)
    ensures Enabled(c, s, Tick) || Enabled(c, s, Wake(true))
  {
  }

  // ----- Times and messages, read off the events alone -----

  function Clock(c: Config, es: seq<Event>): nat {
    if es == [] then c.delay else Clock(c, es[..|es| - 1]) + (if es[|es| - 1].Tick? then 1 else 0)
  }

  /** When the last frame arrived. */
  function LastHeard(c: Config, es: seq<Event>): nat {
    if es == [] then c.early
    else if es[|es| - 1].FrameArrives? then Clock(c, es[..|es| - 1])
    else LastHeard(c, es[..|es| - 1])
  }

  function Silence(c: Config, es: seq<Event>): int {
    Clock(c, es) - LastHeard(c, es)
  }

  /** What the wake-ups put on the open channel: a Close after a silence longer
      than `timeout`, a ping after one of `heartbeat` at least. */
  function Sent(c: Config, es: seq<Event>): seq<Entry> {
    if es == [] then []
    else
      var init, silence := es[..|es| - 1], Silence(c, es[..|es| - 1]);
      Sent(c, init)
      + (if es[|es| - 1] != Wake(true) || (silence < c.heartbeat && silence <= c.timeout) then []
         else if silence > c.timeout
         then [Entry(Clock(c, init), LastHeard(c, init), CloseSent(CloseFrame(1006, "remote partner is inactive")))]
         else [Entry(Clock(c, init), LastHeard(c, init), PingSent)])
  }

  /** The task has ended: it was aborted, found the timeout, or could not ping. */
  predicate Over(c: Config, es: seq<Event>) {
    es != [] &&
    var init, e := es[..|es| - 1], es[|es| - 1];
    || Over(c, init)
    || e.AbortSignal?
    || (e.Wake? && Silence(c, init) > c.timeout)
    || (e == Wake(false) && Silence(c, init) >= c.heartbeat)
  }

  /** In every run the clock, the last sign of life, the messages sent and whether
      the task still beats are those of the events. */
  lemma {:induction false} TimesAreRecorded(c: Config, es: seq<Event>)
    requires After(c, es).Some?
    ensures var s := After(c, es).value;
            && s.now == Clock(c, es) && s.lastAlive == LastHeard(c, es)
            && s.log == Sent(c, es) && (s.status.Beating? <==> !Over(c, es))
  {
    if es != [] { TimesAreRecorded(c, es[..|es| - 1]); }
  }

  // ----- Detection -----

  /** The partner is silent, the sink's channel open, and nobody aborts the task. */
  predicate Quiet(es: seq<Event>) {
    forall k | 0 <= k < |es| :: es[k] == Tick || es[k] == Wake(true)
  }

  lemma {:induction false} QuietKeeps(c: Config, s: State, es: seq<Event>)
    requires Inv(c, s) && s.status.Beating? && Quiet(es) && From(c, s, es).Some?
    ensures var t := From(c, s, es).value;
            && Inv(c, t) && s.now <= t.now && t.lastAlive == s.lastAlive && s.log <= t.log
            && (t.status.Beating? || t.status.TimedOut?)
            && (t.status.Beating? ==> forall k | |s.log| <= k < |t.log| :: t.log[k].kind.PingSent?)
            && (t.status.TimedOut? ==>
                  && |s.log| < |t.log|
                  && t.log[|t.log| - 1].kind.CloseSent? && t.log[|t.log| - 1].heard == s.lastAlive
                  && t.log[|t.log| - 1].at <= t.now)
  {
    if es != [] {
      assert Quiet(es[..|es| - 1]);
      QuietKeeps(c, s, es[..|es| - 1]);
      Step(c, From(c, s, es[..|es| - 1]).value, es[|es| - 1]);
    }
  }

  /** If the last frame arrives at `s.lastAlive`, no Close is queued up to
      `timeout` after it, and one has been queued, in time, once the bound is past.
      The bound is `timeout + heartbeat + latency` after that frame, if it arrived
      after the first poll or the first poll came within the timeout. */
  lemma DetectionBound(c: Config, before: seq<Event>, es: seq<Event>)
    requires Proper(c) && After(c, before).Some? && After(c, before).value.status.Beating?
    requires Quiet(es) && From(c, After(c, before).value, es).Some?
    ensures var s, t := After(c, before).value, From(c, After(c, before).value, es).value;
            && (c.delay <= s.lastAlive + c.timeout <==> Plain(c, s.lastAlive))
            && (t.now <= s.lastAlive + c.timeout ==> t.status.Beating?)
            && (t.now > Latest(c, s.lastAlive) ==> t.status.TimedOut?)
            && (t.status.TimedOut? ==>
                  |t.log| > 0 && var last := t.log[|t.log| - 1];
                  last.kind.CloseSent? && s.lastAlive + c.timeout < last.at <= Latest(c, s.lastAlive))
  {
    Always(c, before);
    QuietKeeps(c, After(c, before).value, es);
  }

  // ----- Exact times, when wake-ups are not late -----

  /** The first `n` pings of an idle connection last heard at `t0`. */
  function Pings(t0: nat, heartbeat: nat, n: nat): seq<Entry> {
    seq(n, k requires 0 <= k < n => Entry(t0 + (k + 1) * heartbeat, t0, PingSent))
  }

  lemma PingsGrow(t0: nat, heartbeat: nat, n: nat)
    ensures Pings(t0, heartbeat, n) + [Entry(t0 + (n + 1) * heartbeat, t0, PingSent)] == Pings(t0, heartbeat, n + 1)
  {
  }

  lemma WithinQuotient(timeout: nat, heartbeat: nat, k: nat)
    requires heartbeat > 0
    ensures k * heartbeat <= timeout <==> k <= timeout / heartbeat
  {
    var q := timeout / heartbeat;
    assert q * heartbeat <= timeout < (q + 1) * heartbeat;
    if k <= q { assert k * heartbeat <= q * heartbeat; }
    if q < k { assert (q + 1) * heartbeat <= k * heartbeat; }
  }

  /** An idle connection after `n` pings: what the exact schedule says of it. */
  predicate OnSchedule(c: Config, s: State, t: State, n: nat)
    requires Proper(c)
  {
    var t0, h, q := s.lastAlive, c.heartbeat, c.timeout / c.heartbeat;
    && n <= q && t.lastAlive == t0 && t0 <= t.now
    && (t.status.Beating? ==>
          && t.log == s.log + Pings(t0, h, n)
          && t.now <= t.deadline
          && (if n == 0 then t.deadline <= t0 + h else t.deadline == t0 + (n + 1) * h))
    && (!t.status.Beating? ==>
          && t.status.TimedOut? && n == q
          && t.log == s.log + Pings(t0, h, q) + [TimeoutClose(t0 + (q + 1) * h, t0)])
  }

  lemma ScheduleStep(c: Config, s: State, t: State, n: nat, e: Event) returns (m: nat)
    requires Proper(c) && c.latency == 0 && c.timeout >= c.heartbeat
    requires OnSchedule(c, s, t, n) && (e == Tick || e == Wake(true)) && Enabled(c, t, e)
    ensures OnSchedule(c, s, Apply(c, t, e), m)
  {
    m := n;
    if e.Wake? {
      var t0, h := s.lastAlive, c.heartbeat;
      var elapsed := t.now - t0;
      WithinQuotient(c.timeout, h, n + 1);
      WithinQuotient(c.timeout, h, 1);
      if h <= elapsed {
        assert elapsed == (n + 1) * h;
        PingsGrow(t0, h, n);
        if elapsed <= c.timeout {
          assert (n + 1) * h + h == (n + 2) * h;
          assert s.log + Pings(t0, h, n) + [Entry(t.now, t0, PingSent)] == s.log + Pings(t0, h, n + 1);
          m := n + 1;
        }
      }
    }
  }

  lemma {:induction false} ScheduleRun(c: Config, s: State, es: seq<Event>) returns (n: nat)
    requires Proper(c) && c.latency == 0 && c.timeout >= c.heartbeat
    requires Inv(c, s) && s.status.Beating? && s.lastAlive == s.now
    requires Quiet(es) && From(c, s, es).Some?
    ensures OnSchedule(c, s, From(c, s, es).value, n)
  {
    n := 0;
    if es == [] {
      assert s.log + Pings(s.lastAlive, c.heartbeat, 0) == s.log;
    } else {
      assert Quiet(es[..|es| - 1]);
      n := ScheduleRun(c, s, es[..|es| - 1]);
      n := ScheduleStep(c, s, From(c, s, es[..|es| - 1]).value, n, es[|es| - 1]);
    }
  }

  /** With prompt wake-ups and `timeout >= heartbeat`, a partner last heard now
      is sent exactly `timeout / heartbeat` pings, one per heartbeat, and then
      the Close at exactly the next beat. */
  lemma ExactDetection(c: Config, before: seq<Event>, es: seq<Event>)
    requires Proper(c) && c.latency == 0 && c.timeout >= c.heartbeat
    requires After(c, before).Some? && After(c, before).value.status.Beating?
    requires After(c, before).value.lastAlive == After(c, before).value.now
    requires Quiet(es) && From(c, After(c, before).value, es).Some?
    ensures var s, t := After(c, before).value, From(c, After(c, before).value, es).value;
            var t0, q := s.now, c.timeout / c.heartbeat;
            && (t.status.TimedOut? ==>
                  t.log == s.log + Pings(t0, c.heartbeat, q) + [TimeoutClose(t0 + (q + 1) * c.heartbeat, t0)])
            && (t.status.Beating? ==> exists n | 0 <= n <= q :: t.log == s.log + Pings(t0, c.heartbeat, n))
            && (t.now > t0 + (q + 1) * c.heartbeat ==> t.status.TimedOut?)
  {
    Always(c, before);
    var s := After(c, before).value;
    var n := ScheduleRun(c, s, es);
    OnScheduleInTime(c, s, From(c, s, es).value, n);
  }

  lemma OnScheduleInTime(c: Config, s: State, t: State, n: nat)
    requires Proper(c) && OnSchedule(c, s, t, n)
    ensures t.status.Beating? ==> t.now <= s.lastAlive + (c.timeout / c.heartbeat + 1) * c.heartbeat
  {
    var q := c.timeout / c.heartbeat;
    assert (n + 1) * c.heartbeat <= (q + 1) * c.heartbeat;
    assert c.heartbeat <= (q + 1) * c.heartbeat;
  }

  // ----- The task itself -----

  function Wakes(es: seq<Event>): nat {
    if es == [] then 0 else Wakes(es[..|es| - 1]) + (if es[|es| - 1].Wake? then 1 else 0)
  }

  /** After `n` wake-ups without a frame the task sleeps past `n` beats of silence. */
  predicate SilentFor(c: Config, heard: nat, deadline: nat, n: nat) {
    n > 0 ==> heard + n * c.heartbeat <= deadline && (n - 1) * c.heartbeat <= c.timeout
  }

  /** When the task is to wake up after a wake-up that finds no timeout. */
  function NextBeat(c: Config, now: nat, heard: nat): nat {
    (if now < heard + c.heartbeat then heard else now) + c.heartbeat
  }

  lemma OneMoreBeat(c: Config, heard: nat, due: nat, now: nat, deadline: nat, n: nat)
    requires Proper(c) && SilentFor(c, heard, due, n)
    requires due <= now && heard <= now && now - heard <= c.timeout
    requires deadline == NextBeat(c, now, heard)
    ensures SilentFor(c, heard, deadline, n + 1)
  {
    assert (n + 1) * c.heartbeat == n * c.heartbeat + c.heartbeat;
    if n > 0 { assert c.heartbeat <= n * c.heartbeat; }
  }

  lemma SilenceEnds(c: Config, heard: nat, deadline: nat, n: nat)
    requires Proper(c) && SilentFor(c, heard, deadline, n)
    ensures n <= c.timeout / c.heartbeat + 1
  {
    if n > 0 { WithinQuotient(c.timeout, c.heartbeat, n - 1); }
  }

  predicate Undisturbed(turns: nat, aborts: nat -> bool) {
    forall k: nat | k < turns :: !aborts(k)
  }

  predicate AlwaysOpen(turns: nat, open: nat -> bool) {
    forall k: nat | k < turns :: open(k)
  }

  class HeartbeatTask {
    const config: Config
    var now: nat
    var lastAlive: nat
    var deadline: nat
    var status: Status
    var log: seq<Entry>
    ghost var history: seq<Event>

    function View(): State
      reads this
    {
      State(now, lastAlive, deadline, status, log)
    }

    ghost predicate Valid()
      reads this
    {
      Proper(config) && After(config, history) == Some(View())
    }

    constructor (c: Config)
      requires Proper(c)
      ensures Valid() && config == c && View() == Start(c)
      ensures now == c.delay && lastAlive == c.early && deadline == now + c.heartbeat && log == []
    {
      config := c;
      now, lastAlive, deadline, status, log := c.delay, c.early, c.delay + c.heartbeat, Beating, [];
      history := [];
    }

    ghost method Record(before: State, e: Event)
      requires Proper(config) && After(config, history) == Some(before) && before.lastAlive <= before.now
      requires Enabled(config, before, e) && View() == Apply(config, before, e)
      modifies this`history
      ensures Valid() && history == old(history) + [e]
      ensures Wakes(history) == Wakes(old(history)) + (if e.Wake? then 1 else 0)
    {
      history := history + [e];
      assert history[..|history| - 1] == old(history);
    }

    /** The clock runs and frames arrive while the task sleeps: until the sleep
        has elapsed, unless the abort interrupts it. */
    method Sleep(interrupted: bool)
      requires Valid() && status.Beating?
      modifies this
      ensures Valid() && Wakes(history) == Wakes(old(history)) && old(history) <= history
      ensures old(now) <= now && old(lastAlive) <= lastAlive
      ensures status.Beating? && log == old(log) && deadline == old(deadline)
      ensures now <= deadline + config.latency && (!interrupted ==> deadline <= now)
    {
      var moves: nat := *;
      Always(config, history);
      while moves > 0 || (!interrupted && now < deadline)
        invariant Valid() && Wakes(history) == Wakes(old(history)) && old(history) <= history
        invariant old(now) <= now && old(lastAlive) <= lastAlive
        invariant status.Beating? && log == old(log) && deadline == old(deadline)
        invariant lastAlive <= now <= deadline + config.latency
        decreases moves, deadline - now
      {
        var frame: bool := *;
        if moves > 0 && frame {
          FrameHeard();
        } else if now < deadline + config.latency {
          ClockTicks();
        }
        if moves > 0 { moves := moves - 1; }
      }
    }

    method FrameHeard()
      requires Valid() && lastAlive <= now
      modifies this`lastAlive, this`history
      ensures Valid() && history == old(history) + [FrameArrives]
      ensures Wakes(history) == Wakes(old(history)) && lastAlive == now
    {
      ghost var before := View();
      lastAlive := now;
      Record(before, FrameArrives);
    }

    method ClockTicks()
      requires Valid() && status.Beating? && lastAlive <= now < deadline + config.latency
      modifies this`now, this`history
      ensures Valid() && history == old(history) + [Tick]
      ensures Wakes(history) == Wakes(old(history)) && now == old(now) + 1
    {
      ghost var before := View();
      now := now + 1;
      Record(before, Tick);
    }

    /** Lines 660-695: the next sleep, or `None` when the task is over. */
    method HandleSleepElapsed(sinkOpen: bool) returns (next: Option<nat>)
      requires Valid() && status.Beating? && deadline <= now && lastAlive <= now
      modifies this`status, this`log
      ensures lastAlive == old(lastAlive) && deadline == old(deadline)
      ensures var elapsed := now - lastAlive;
              match next
              case None =>
                || (elapsed > config.timeout && status == TimedOut
                    && var close := CloseSent(CloseFrame(1006, "remote partner is inactive"));
                       log == if sinkOpen then old(log) + [Entry(now, lastAlive, close)] else old(log))
                || (config.heartbeat <= elapsed <= config.timeout && !sinkOpen
                    && status == SinkClosed && log == old(log))
              case Some(duration) =>
                && status == old(status)
                && 0 < duration <= config.heartbeat
                && (if elapsed < config.heartbeat
                    then elapsed + duration == config.heartbeat && log == old(log) && elapsed <= config.timeout
                    else duration == config.heartbeat && sinkOpen && elapsed <= config.timeout
                         && log == old(log) + [Entry(now, lastAlive, PingSent)])
    {
      var elapsed := now - lastAlive;
      if elapsed > config.timeout {
        if sinkOpen { log := log + [TimeoutClose(now, lastAlive)]; }
        status := TimedOut;
        return None;
      } else if elapsed < config.heartbeat {
        return Some(config.heartbeat - elapsed);
      }
      if !sinkOpen {
        status := SinkClosed;
        return None;
      }
      log := log + [Entry(now, lastAlive, PingSent)];
      return Some(config.heartbeat);
    }

    /** One wait of the loop: the sleep elapses and is handled, or the abort arrives. */
    method Turn(aborted: bool, sinkOpen: bool)
      requires Valid() && status.Beating?
      modifies this
      ensures Valid() && old(history) <= history && old(log) <= log
      ensures old(lastAlive) <= lastAlive
      ensures aborted ==> status.Aborted? && log == old(log)
      ensures !aborted ==>
                && !status.Aborted? && Wakes(history) == Wakes(old(history)) + 1 && old(deadline) <= now
                && (status.Beating? ==> now - lastAlive <= config.timeout)
                && (status.Beating? ==> deadline == NextBeat(config, now, lastAlive))
                && (sinkOpen && !status.Beating? ==>
                      status.TimedOut? && log == old(log) + [TimeoutClose(now, lastAlive)])
    {
      Sleep(aborted);
      Always(config, history);
      if aborted {
        Interrupt();
      } else {
        Elapse(sinkOpen);
      }
    }

    method Interrupt()
      requires Valid() && status.Beating? && lastAlive <= now
      modifies this`status, this`history
      ensures Valid() && history == old(history) + [AbortSignal] && status.Aborted?
    {
      ghost var before := View();
      status := Aborted;
      Record(before, AbortSignal);
    }

    method Elapse(sinkOpen: bool)
      requires Valid() && status.Beating? && deadline <= now && lastAlive <= now
      modifies this`status, this`log, this`deadline, this`history
      ensures Valid() && history == old(history) + [Wake(sinkOpen)] && Wakes(history) == Wakes(old(history)) + 1
      ensures old(log) <= log && !status.Aborted?
      ensures status.Beating? ==> now - lastAlive <= config.timeout
      ensures status.Beating? ==> deadline == NextBeat(config, now, lastAlive)
      ensures sinkOpen ==> status.Beating? || (status.TimedOut? && log == old(log) + [TimeoutClose(now, lastAlive)])
    {
      ghost var before := View();
      var next := HandleSleepElapsed(sinkOpen);
      match next {
        case None =>
        case Some(duration) => deadline := now + duration;
      }
      Record(before, Wake(sinkOpen));
    }

    /** Lines 612-632, for as many turns as the scheduler grants.  `aborts` and
        `open` say what becomes of each.  Every turn is a wake-up, and a task
        that still beats after more than `timeout / heartbeat + 1` of them has
        heard its partner: in silence, undisturbed and with the sink open, the
        Close has been sent by then. */
    method Run(turns: nat, aborts: nat -> bool, open: nat -> bool)
      requires Valid() && status.Beating?
      modifies this
      ensures Valid() && old(history) <= history && old(log) <= log
      ensures LogOk(config, log)
      ensures status.Beating? ==> now <= Latest(config, lastAlive)
      ensures status.Beating? ==> Wakes(history) == Wakes(old(history)) + turns && Undisturbed(turns, aborts)
      ensures Undisturbed(turns, aborts) ==> !status.Aborted?
      ensures AlwaysOpen(turns, open) ==> !status.SinkClosed?
      ensures status.TimedOut? && AlwaysOpen(turns, open) ==> log != [] && log[|log| - 1].kind.CloseSent?
      ensures status.Beating? && lastAlive == old(lastAlive) ==> turns <= config.timeout / config.heartbeat + 1
    {
      var done := 0;
      while done < turns && status.Beating?
        invariant 0 <= done <= turns
        invariant Valid() && old(history) <= history && old(log) <= log && old(lastAlive) <= lastAlive
        invariant status.Beating? ==> Wakes(history) == Wakes(old(history)) + done && Undisturbed(done, aborts)
        invariant (Undisturbed(turns, aborts) ==> !status.Aborted?) && (AlwaysOpen(turns, open) ==> !status.SinkClosed?)
        invariant status.TimedOut? && AlwaysOpen(turns, open) ==> log != [] && log[|log| - 1].kind.CloseSent?
        invariant status.Beating? && lastAlive == old(lastAlive) ==> SilentFor(config, lastAlive, deadline, done)
        decreases turns - done
      {
        ghost var due := deadline;
        Turn(aborts(done), open(done));
        if status.Beating? && lastAlive == old(lastAlive) {
          Always(config, history);
          OneMoreBeat(config, lastAlive, due, now, deadline, done);
        }
        done := done + 1;
      }
      HeartbeatSafety(config, history);
      if status.Beating? && lastAlive == old(lastAlive) {
        SilenceEnds(config, lastAlive, deadline, done);
      }
    }
  }
}

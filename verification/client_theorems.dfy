/** What every run of the client guarantees. */
module ClientTheorems {
  import opened Wire
  import opened ClientSpec

  // ----- Reconnect isolation -----

  /** The first message that has not left the queue. */
  function Oldest(m: Mail): int {
    m.issued - |m.outgoing|
  }

  /** A message handed to a socket was issued between that socket's last drain
      and the next socket's. */
  predicate HandOk(m: Mail, h: Hand) {
    && 0 < h.epoch <= m.epoch <= |m.barriers|
    && m.barriers[h.epoch - 1] <= h.id < Oldest(m)
    && (h.epoch < m.epoch ==> h.id < m.barriers[h.epoch])
  }

  /** The queue holds the youngest messages, in order, none older than the last drain. */
  predicate MailInv(m: Mail) {
    && |m.barriers| == m.epoch
    && m.drained <= Oldest(m)
    && (forall k | 0 <= k < |m.outgoing| :: m.outgoing[k].id == Oldest(m) + k)
    && (forall k | 0 <= k < |m.barriers| :: m.barriers[k] <= m.drained)
    && (forall k | 0 <= k < |m.handed| :: HandOk(m, m.handed[k]))
    && (forall j, k | 0 <= j < k < |m.handed| :: m.handed[j].id < m.handed[k].id)
  }

  lemma SubmitKeeps(m: Mail, message: Message)
    requires MailInv(m)
    ensures MailInv(m.Submit(message))
  {
    var n := m.Submit(message);
    forall k | 0 <= k < |n.handed| ensures HandOk(n, n.handed[k]) { assert HandOk(m, m.handed[k]); }
  }

  lemma DiscardKeeps(m: Mail)
    requires MailInv(m) && m.outgoing != []
    ensures MailInv(m.Discard())
  {
    var n := m.Discard();
    forall k | 0 <= k < |n.handed| ensures HandOk(n, n.handed[k]) { assert HandOk(m, m.handed[k]); }
  }

  lemma HandKeeps(m: Mail)
    requires MailInv(m) && m.outgoing != [] && m.epoch > 0
    ensures MailInv(m.HandOver())
  {
    var n := m.HandOver();
    forall k | 0 <= k < |n.handed| ensures HandOk(n, n.handed[k]) {
      if k < |m.handed| { assert HandOk(m, m.handed[k]); }
    }
  }

  lemma DrainedKeeps(m: Mail)
    requires MailInv(m) && m.outgoing == []
    ensures MailInv(m.(drained := m.issued))
  {
    var n := m.(drained := m.issued);
    forall k | 0 <= k < |n.handed| ensures HandOk(n, n.handed[k]) { assert HandOk(m, m.handed[k]); }
  }

  /** Nothing has been handed over since the last drain. */
  predicate Untouched(m: Mail) {
    forall k | 0 <= k < |m.handed| :: m.handed[k].id < m.drained
  }

  lemma NewSocketKeeps(m: Mail)
    requires MailInv(m) && Untouched(m)
    ensures MailInv(m.NewSocket())
  {
    var n := m.NewSocket();
    forall k | 0 <= k < |n.handed| ensures HandOk(n, n.handed[k]) { assert HandOk(m, m.handed[k]); }
  }

  predicate HasSocket(s: State) {
    || s.phase.Serving? || s.phase.SinkFailed?
    || (s.phase.InHandler? && (s.phase.callback.OnText? || s.phase.callback.OnBinary? || s.phase.callback.OnCall?))
  }

  /** A connection attempt is under way or has just ended. */
  predicate Attempting(s: State) {
    || s.phase.Connecting?
    || (s.phase.InHandler? && (s.phase.callback.OnConnect? || s.phase.callback.OnConnectFail?))
  }

  predicate IsolationInv(s: State) {
    && MailInv(s.mail)
    && (HasSocket(s) ==> s.mail.epoch > 0)
    && (Attempting(s) ==> Untouched(s.mail))
  }

  lemma SameMail(m: Mail, n: Mail)
    requires MailInv(m)
    requires n == m.(open := n.open, connected := n.connected, lost := n.lost)
    ensures MailInv(n)
    ensures Untouched(m) ==> Untouched(n)
  {
    forall k | 0 <= k < |n.handed| ensures HandOk(n, n.handed[k]) { assert HandOk(m, m.handed[k]); }
  }

  lemma IsolationStep(c: Config, s: State, e: Event)
    requires IsolationInv(s) && Enabled(s, e)
    ensures IsolationInv(Apply(c, s, e))
  {
    match e {
      case Submit(_) => QueueMoves(c, s, e);
      case DrainOne => QueueMoves(c, s, e);
      case TakeOutgoing(_) => QueueMoves(c, s, e);
      case DrainEmpty => DrainEmptyStep(c, s);
      case Returns(o) => ReturnsStep(c, s, o);
      case _ =>
        OtherSteps(c, s, e);
        SameMail(s.mail, Apply(c, s, e).mail);
    }
  }

  lemma QueueMoves(c: Config, s: State, e: Event)
    requires IsolationInv(s) && Enabled(s, e) && (e.Submit? || e.DrainOne? || e.TakeOutgoing?)
    ensures IsolationInv(Apply(c, s, e))
  {
    match e {
      case Submit(m) => SubmitKeeps(s.mail, m);
      case DrainOne => DiscardKeeps(s.mail);
      case TakeOutgoing(_) => HandKeeps(s.mail);
    }
  }

  lemma ReturnsStep(c: Config, s: State, o: Outcome)
    requires IsolationInv(s) && Enabled(s, Returns(o))
    ensures IsolationInv(Apply(c, s, Returns(o)))
  {
    if s.phase.callback.OnConnect? && o.Continue? {
      NewSocketKeeps(s.mail);
    } else {
      assert Apply(c, s, Returns(o)).mail == s.mail;
    }
  }

  lemma OtherSteps(c: Config, s: State, e: Event)
    requires Enabled(s, e)
    requires !(e.Submit? || e.DrainOne? || e.DrainEmpty? || e.TakeOutgoing? || e.Returns?)
    ensures var t := Apply(c, s, e);
            && t.mail == s.mail.(open := t.mail.open, connected := t.mail.connected, lost := t.mail.lost)
            && (HasSocket(t) ==> HasSocket(s)) && (Attempting(t) ==> Attempting(s))
  {
  }

  lemma DrainEmptyStep(c: Config, s: State)
    requires IsolationInv(s) && Enabled(s, DrainEmpty)
    ensures IsolationInv(Apply(c, s, DrainEmpty))
  {
    DrainedKeeps(s.mail);
    forall k | 0 <= k < |s.mail.handed| ensures s.mail.handed[k].id < s.mail.issued {
      assert HandOk(s.mail, s.mail.handed[k]);
    }
  }

  /** In every run, a message handed to a socket was issued after the last drain
      before that socket and before the last drain for the next one; it is handed
      over once, in the order of issue.  So what was queued before a drain never
      reaches the socket obtained after it or any later one. */
  lemma {:induction false} ReconnectIsolation(c: Config, es: seq<Event>)
    requires After(c, es).Some?
    ensures IsolationInv(After(c, es).value)
  {
    if es != [] {
      ReconnectIsolation(c, es[..|es| - 1]);
      IsolationStep(c, After(c, es[..|es| - 1]).value, es[|es| - 1]);
    }
  }

  // ----- Quiet users: nothing crosses a reconnect -----

  /** Where the losses and the calls of on_connect stand between the drains. */
  predicate MarksOk(m: Mail) {
    && |m.barriers| == m.epoch <= |m.connected|
    && m.epoch <= |m.lost| + 1
    && m.drained <= m.issued
    && (forall k | 0 <= k < |m.lost| :: m.lost[k] <= m.issued)
    && (forall k | 0 <= k < m.epoch :: m.barriers[k] <= m.connected[k])
    && (forall k | 0 < k < m.epoch :: m.lost[k - 1] <= m.barriers[k])
  }

  predicate MarksPhase(s: State) {
    var m := s.mail;
    && (!s.phase.Done? ==>
          && |m.lost| == (if HasSocket(s) then m.epoch - 1 else m.epoch)
          && |m.connected| == (if s.phase == InHandler(OnConnect) then m.epoch + 1 else m.epoch))
    && (Attempting(s) ==> m.lost == [] || m.lost[|m.lost| - 1] <= m.drained)
    && (s.phase == InHandler(OnConnect) ==> m.drained <= m.connected[|m.connected| - 1])
  }

  predicate MarksInv(s: State) {
    MarksOk(s.mail) && MarksPhase(s)
  }

  /** How a handler's return moves the client between connecting and serving. */
  lemma ReturnedPhase(c: Config, s: State, o: Outcome)
    requires Enabled(s, Returns(o))
    ensures var t := Apply(c, s, Returns(o));
            if s.phase.callback.OnConnect? && o.Continue?
            then t.phase.Serving? && t.mail == s.mail.NewSocket()
            else && t.mail == s.mail && !t.phase.InHandler? && !Attempting(t)
                 && (t.phase.Done? || (HasSocket(t) == HasSocket(s) && !s.phase.callback.OnConnect?))
  {
  }

  lemma NewSocketMarks(m: Mail)
    requires MarksOk(m) && |m.lost| == m.epoch && |m.connected| == m.epoch + 1
    requires m.lost == [] || m.lost[|m.lost| - 1] <= m.drained
    requires m.drained <= m.connected[|m.connected| - 1]
    ensures MarksOk(m.NewSocket())
  {
  }

  lemma ReturnsMarks(c: Config, s: State, o: Outcome)
    requires MarksInv(s) && Enabled(s, Returns(o))
    ensures MarksInv(Apply(c, s, Returns(o)))
  {
    hide Apply, Returned, MarksOk;
    ReturnedPhase(c, s, o);
    if s.phase.callback.OnConnect? && o.Continue? {
      NewSocketMarks(s.mail);
    }
  }

  lemma LosesMarks(s: State, cb: Callback)
    requires MarksInv(s) && HasSocket(s) && s.mail.epoch > 0 && (cb.OnClose? || cb.OnDisconnect?)
    ensures MarksInv(Lose(s, cb))
  {
  }

  lemma MarksGrow(m: Mail, n: Mail)
    requires MarksOk(m) && n.barriers == m.barriers && n.epoch == m.epoch && n.lost == m.lost
    requires m.connected <= n.connected && m.issued <= n.issued && n.drained <= n.issued
    ensures MarksOk(n)
  {
  }

  /** The moves that neither lose a socket nor end a handler. */
  lemma OtherMarks(c: Config, s: State, e: Event)
    requires s.mail.drained <= s.mail.issued && Enabled(s, e)
    requires !(e.Returns? || e.IncomingOver? || e.TakeIncoming? || e.SinkReports?)
    ensures var m, n := s.mail, Apply(c, s, e).mail;
            && n.barriers == m.barriers && n.epoch == m.epoch && n.lost == m.lost
            && m.connected <= n.connected && m.issued <= n.issued && n.drained <= n.issued
  {
  }

  lemma AttemptMarks(c: Config, s: State, e: Event)
    requires MarksInv(s) && Enabled(s, e) && (e.DrainEmpty? || e.Connected?)
    ensures MarksPhase(Apply(c, s, e))
  {
    var t := Apply(c, s, e);
    if e.DrainEmpty? {
      assert t.phase.Connecting? && t.mail == s.mail.(drained := s.mail.issued);
    } else {
      assert t.mail == s.mail.(connected := t.mail.connected);
    }
  }

  lemma OtherPhases(c: Config, s: State, e: Event)
    requires MarksPhase(s) && Enabled(s, e)
    requires !(e.Returns? || e.IncomingOver? || e.TakeIncoming? || e.SinkReports? || e.DrainEmpty? || e.Connected?)
    ensures MarksPhase(Apply(c, s, e))
  {
    var t := Apply(c, s, e);
    OtherMails(c, s, e);
    if !t.phase.Done? {
      assert HasSocket(t) == HasSocket(s) && Attempting(t) == Attempting(s);
    }
  }

  lemma OtherMails(c: Config, s: State, e: Event)
    requires Enabled(s, e)
    requires !(e.Returns? || e.IncomingOver? || e.TakeIncoming? || e.SinkReports? || e.DrainEmpty? || e.Connected?)
    ensures var m, n := s.mail, Apply(c, s, e).mail;
            n.lost == m.lost && n.connected == m.connected && n.epoch == m.epoch && n.drained == m.drained
  {
  }

  lemma TakeIncomingMarks(c: Config, s: State)
    requires MarksInv(s) && Enabled(s, TakeIncoming) && s.mail.epoch > 0
    ensures MarksInv(Apply(c, s, TakeIncoming))
  {
    var t := s.(socket := s.socket.Take());
    if s.socket.inbox[0].Broken? {
      LosesMarks(t, OnDisconnect);
    } else if s.socket.inbox[0].message.Close? {
      LosesMarks(t, OnClose);
    }
  }

  lemma SinkReportsMarks(c: Config, s: State, r: SinkResult)
    requires MarksInv(s) && Enabled(s, SinkReports(r)) && s.mail.epoch > 0
    ensures MarksInv(Apply(c, s, SinkReports(r)))
  {
    LosesMarks(s.(socket := s.socket.(resultTaken := true)), OnDisconnect);
  }

  lemma MarksStep(c: Config, s: State, e: Event)
    requires MarksInv(s) && Enabled(s, e) && (HasSocket(s) ==> s.mail.epoch > 0)
    ensures MarksInv(Apply(c, s, e))
  {
    match e {
      case Returns(o) => ReturnsMarks(c, s, o);
      case IncomingOver => LosesMarks(s, OnDisconnect);
      case TakeIncoming => TakeIncomingMarks(c, s);
      case SinkReports(r) => SinkReportsMarks(c, s, r);
      case _ =>
        OtherMarks(c, s, e);
        MarksGrow(s.mail, Apply(c, s, e).mail);
        if e.DrainEmpty? || e.Connected? { AttemptMarks(c, s, e); } else { OtherPhases(c, s, e); }
    }
  }

  lemma {:induction false} MarksAlways(c: Config, es: seq<Event>)
    requires After(c, es).Some?
    ensures MarksInv(After(c, es).value)
  {
    if es != [] {
      MarksAlways(c, es[..|es| - 1]);
      ReconnectIsolation(c, es[..|es| - 1]);
      MarksStep(c, After(c, es[..|es| - 1]).value, es[|es| - 1]);
    }
  }

  /** If the queue accepted nothing between the loss of socket `k` and the next
      on_connect, everything the next socket is given was issued after that call. */
  lemma QuietReconnect(c: Config, es: seq<Event>, k: nat)
    requires After(c, es).Some?
    requires 0 < k < After(c, es).value.mail.epoch
    ensures var m := After(c, es).value.mail;
            && k <= |m.lost| && k < |m.connected|
            && (m.connected[k] == m.lost[k - 1] ==>
                  forall j | 0 <= j < |m.handed| && m.handed[j].epoch == k + 1 :: m.handed[j].id >= m.connected[k])
  {
    ReconnectIsolation(c, es);
    MarksAlways(c, es);
    var m := After(c, es).value.mail;
    assert m.lost[k - 1] <= m.barriers[k] <= m.connected[k];
    forall j | 0 <= j < |m.handed| && m.handed[j].epoch == k + 1 ensures m.handed[j].id >= m.barriers[k] {
      assert HandOk(m, m.handed[j]);
    }
  }

  // ----- Exactness of the retry loop -----

  function AttemptsAllowed(r: Retry): nat {
    if r.limit == 0 then 1 else r.limit
  }

  predicate RetryInv(s: State) {
    var r, m := s.retry, AttemptsAllowed(s.retry);
    && r.attempts <= m
    && (match s.phase
        case Draining => r.kept == r.attempts == r.sleeps < m
        case Retrying => r.kept == r.attempts == r.sleeps + 1 < m + 1 && r.attempts < m
        case Done(Exhausted(n)) => n == r.attempts == r.kept == m == r.sleeps + 1
        case Done(_) => r.kept < m && r.sleeps < m
        case _ => r.kept < m && r.sleeps < m)
    && (Attempting(s) ==> r.kept == r.sleeps == r.attempts - 1)
  }

  lemma RetryReturns(c: Config, s: State, o: Outcome)
    requires RetryInv(s) && Enabled(s, Returns(o))
    ensures RetryInv(Apply(c, s, Returns(o)))
  {
  }

  lemma RetryStep(c: Config, s: State, e: Event)
    requires RetryInv(s) && Enabled(s, e)
    ensures RetryInv(Apply(c, s, e))
  {
    if e.Returns? { RetryReturns(c, s, e.outcome); }
  }

  lemma {:induction false} RetryAlways(c: Config, es: seq<Event>)
    requires After(c, es).Some?
    ensures RetryInv(After(c, es).value)
  {
    if es != [] {
      RetryAlways(c, es[..|es| - 1]);
      RetryStep(c, After(c, es[..|es| - 1]).value, es[|es| - 1]);
    }
  }

  /** A call of client_connect makes at most max(1, max_attempts) attempts.  It
      ends with the attempts-exhausted error exactly when that many attempts have
      failed and on_connect_fail has answered each of them with Reconnect; it has
      then slept one time fewer. */
  lemma RetryExactness(c: Config, es: seq<Event>)
    requires After(c, es).Some?
    ensures var s := After(c, es).value; var m := AttemptsAllowed(s.retry);
            && s.retry.attempts <= m
            && (s.retry.kept == m <==> s.phase == Done(Exhausted(m)))
            && (forall n :: s.phase == Done(Exhausted(n)) ==>
                  n == m && s.retry.attempts == m && s.retry.sleeps == m - 1)
  {
    RetryAlways(c, es);
  }

  // ----- The handlers' outcomes -----

  predicate LogInv(s: State) {
    && (forall k | 0 <= k < |s.log| - 1 :: s.log[k].outcome.Continue?)
    && (s.phase.InHandler? ==> |s.log| > 0 && s.log[|s.log| - 1] == Entry(s.phase.callback, Pending))
    && (|s.log| > 0 && !s.log[|s.log| - 1].outcome.Continue? ==> s.phase.InHandler? || s.phase.Done?)
    && (s.selfClosed ==> s.phase.Done? || s.phase == SinkFailed(true))
    && (s.phase == SinkFailed(true) ==> s.selfClosed)
  }

  lemma LogReturns(c: Config, s: State, o: Outcome)
    requires LogInv(s) && Enabled(s, Returns(o))
    ensures LogInv(Apply(c, s, Returns(o)))
  {
  }

  lemma LogStep(c: Config, s: State, e: Event)
    requires LogInv(s) && Enabled(s, e)
    ensures LogInv(Apply(c, s, e))
  {
    if e.Returns? { LogReturns(c, s, e.outcome); }
  }

  lemma {:induction false} LogAlways(c: Config, es: seq<Event>)
    requires After(c, es).Some?
    ensures LogInv(After(c, es).value)
  {
    if es != [] {
      LogAlways(c, es[..|es| - 1]);
      LogStep(c, After(c, es[..|es| - 1]).value, es[|es| - 1]);
    }
  }

  /** Once the task has returned, say because a drain or the loop took a Close,
      nothing is called, sent or attempted any more. */
  lemma {:induction false} DoneIsSilent(c: Config, s: State, es: seq<Event>)
    requires s.phase.Done? && From(c, s, es).Some?
    ensures From(c, s, es).value.phase == s.phase && From(c, s, es).value.log == s.log
    ensures From(c, s, es).value.mail.handed == s.mail.handed && From(c, s, es).value.retry == s.retry
  {
    if es != [] {
      DoneIsSilent(c, s, es[..|es| - 1]);
    }
  }

  /** No handler is called after one that failed or asked to close, and none after
      the client has taken a Close of its own. */
  lemma NothingAfterTheEnd(c: Config, es: seq<Event>, more: seq<Event>)
    requires After(c, es).Some? && From(c, After(c, es).value, more).Some?
    ensures var s, t := After(c, es).value, From(c, After(c, es).value, more).value;
            && (forall k | 0 <= k < |s.log| - 1 :: s.log[k].outcome.Continue?)
            && (|s.log| > 0 && (s.log[|s.log| - 1].outcome.Failure? || s.log[|s.log| - 1].outcome.CloseMode?) ==>
                  t.log == s.log)
            && (s.selfClosed ==> t.log == s.log)
  {
    LogAlways(c, es);
    var s := After(c, es).value;
    if s.phase.Done? {
      DoneIsSilent(c, s, more);
    } else if s.phase == SinkFailed(true) {
      ClosingIsSilent(c, s, more);
    }
  }

  lemma {:induction false} ClosingIsSilent(c: Config, s: State, es: seq<Event>)
    requires (s.phase == SinkFailed(true) || s.phase.Done?) && From(c, s, es).Some?
    ensures var t := From(c, s, es).value; (t.phase == SinkFailed(true) || t.phase.Done?) && t.log == s.log
  {
    if es != [] {
      ClosingIsSilent(c, s, es[..|es| - 1]);
    }
  }

  // ----- Nothing waits while the client is granted turns -----

  /** Messages and calls that wait for the client. */
  function Waiting(s: State): nat {
    |s.mail.outgoing| + |s.calls.queue|
  }

  /** A move of the client serves or discards at most one of them, and nobody else
      takes any away. */
  lemma PendingStep(c: Config, s: State, e: Event)
    requires Enabled(s, e)
    ensures Waiting(Apply(c, s, e)) + (if Environmental(e) then 0 else 1) >= Waiting(s)
  {
  }

  lemma {:induction false} PendingAlong(c: Config, s: State, es: seq<Event>)
    requires From(c, s, es).Some?
    ensures |Own(es)| + Waiting(From(c, s, es).value) >= Waiting(s)
  {
    if es != [] {
      PendingAlong(c, s, es[..|es| - 1]);
      PendingStep(c, From(c, s, es[..|es| - 1]).value, es[|es| - 1]);
    }
  }

  lemma {:induction false} Resumed(c: Config, es: seq<Event>, more: seq<Event>)
    requires After(c, es + more).Some?
    ensures After(c, es).Some? && From(c, After(c, es).value, more) == After(c, es + more)
    ensures Own(es + more) == Own(es) + Own(more)
  {
    if more == [] {
      assert es + more == es;
    } else {
      var shorter := more[..|more| - 1];
      assert (es + more)[..|es + more| - 1] == es + shorter;
      Resumed(c, es, shorter);
    }
  }

  /** A client for which nothing waits has made a move for each message and call
      that waited at any earlier moment. */
  lemma IdleMeansServed(c: Config, before: seq<Event>, after: seq<Event>)
    requires before <= after && After(c, after).Some? && Waiting(After(c, after).value) == 0
    ensures After(c, before).Some? && |Own(after)| >= |Own(before)| + Waiting(After(c, before).value)
  {
    var more := after[|before|..];
    assert before + more == after;
    Resumed(c, before, more);
    PendingAlong(c, After(c, before).value, more);
  }
}

/** What goes through the pipeline, read off the events of a run alone: the
    payloads of src/socket.rs 205-213 and 328-335, and their order. */
module PipelineInputs {
  import opened Wire
  import S = SessionSpec
  import SessionInputs
  import opened PipelineSpec

  // ----- What was created, and what the session's queue accepted -----

  predicate UpAfter(es: seq<Event>) {
    After(es).Some? && After(es).value.sessionUp
  }

  /** The messages of the Submit events while the session received. */
  function Submitted(es: seq<Event>): seq<Message> {
    if es == [] then []
    else
      var init, e := es[..|es| - 1], es[|es| - 1];
      Submitted(init) + (if e.Submit? && UpAfter(init) then [e.message] else [])
  }

  /** The events that made messages, in order: message number `i` is from the i-th. */
  function Creations(es: seq<Event>): seq<Event> {
    if es == [] then []
    else Creations(es[..|es| - 1]) + (if es[|es| - 1].Submit? || es[|es| - 1].SendDirect? then [es[|es| - 1]] else [])
  }

  /** The partner's stream actor makes `m` of the raw message. */
  predicate ReadsAs(raw: RawMessage, m: Message) {
    S.Forwarded(Good(raw)) == [Delivered(m)]
  }

  /** Message `i` is what its creation says. */
  predicate MadeBy(p: Pipe, i: nat, e: Event) {
    && i < |p.messages| && i < |p.origins|
    && (e.Submit? ==> p.origins[i].User? && ReadsAs(p.messages[i], e.message))
    && (e.SendDirect? ==> p.origins[i].Direct? && p.messages[i] == e.raw)
  }

  predicate CreationInv(p: Pipe, made: seq<Event>) {
    && |p.messages| == |p.statuses| == |p.origins| == |made|
    && forall i | 0 <= i < |made| :: MadeBy(p, i, made[i])
  }

  lemma CreationStep(p: Pipe, made: seq<Event>, e: Event)
    requires CreationInv(p, made) && Enabled(p, e)
    ensures CreationInv(Apply(p, e), if e.Submit? || e.SendDirect? then made + [e] else made)
  {
    if e.Submit? { SessionInputs.DeliveredAsSent(e.message); }
    var q := Apply(p, e);
    assert p.messages <= q.messages && p.origins <= q.origins;
    forall i | 0 <= i < |made| ensures MadeBy(q, i, made[i]) {
      assert MadeBy(p, i, made[i]);
    }
  }

  /** In every run: each message carries what its user or the heartbeat asked to send. */
  lemma {:induction false} PayloadsAreKept(es: seq<Event>)
    requires After(es).Some?
    ensures CreationInv(After(es).value, Creations(es))
  {
    if es != [] {
      PayloadsAreKept(es[..|es| - 1]);
      CreationStep(After(es[..|es| - 1]).value, Creations(es[..|es| - 1]), es[|es| - 1]);
    }
  }

  /** The session's queue accepted exactly those. */
  predicate SubmittedInv(p: Pipe, ms: seq<Message>) {
    && |p.submitted| == |ms|
    && forall k | 0 <= k < |ms| ::
         p.submitted[k] < |p.messages| && ReadsAs(p.messages[p.submitted[k]], ms[k])
  }

  lemma SubmittedStep(p: Pipe, ms: seq<Message>, e: Event)
    requires SubmittedInv(p, ms) && |p.messages| == |p.statuses| && Enabled(p, e)
    ensures SubmittedInv(Apply(p, e), ms + (if e.Submit? && p.sessionUp then [e.message] else []))
  {
    if e.Submit? { SessionInputs.DeliveredAsSent(e.message); }
    assert p.messages <= Apply(p, e).messages;
  }

  lemma {:induction false} SubmissionsAreKept(es: seq<Event>)
    requires After(es).Some?
    ensures SubmittedInv(After(es).value, Submitted(es))
  {
    if es != [] {
      SubmissionsAreKept(es[..|es| - 1]);
      PayloadsAreKept(es[..|es| - 1]);
      SubmittedStep(After(es[..|es| - 1]).value, Submitted(es[..|es| - 1]), es[|es| - 1]);
    }
  }

  // ----- What the partner reads -----

  /** The frames of the users' messages that the underlying sink has accepted. */
  function UserFrames(p: Pipe): seq<NetItem> {
    var ids := Users(p.origins, p.accepted);
    seq(|ids|, k requires 0 <= k < |ids| =>
      if ids[k] < |p.messages| then Good(p.messages[ids[k]]) else Bad(0))
  }

  function Delivereds(ms: seq<Message>): seq<Inbound> {
    seq(|ms|, k requires 0 <= k < |ms| => Delivered(ms[k]))
  }

  lemma {:induction false} ReadAll(frames: seq<NetItem>, ms: seq<Message>)
    requires |frames| == |ms|
    requires forall k | 0 <= k < |ms| :: frames[k].Good? && ReadsAs(frames[k].raw, ms[k])
    ensures S.ForwardedAll(frames) == Delivereds(ms)
  {
    if frames != [] {
      var n := |ms| - 1;
      ReadAll(frames[..n], ms[..n]);
      assert frames[n].Good? && S.Forwarded(frames[n]) == [Delivered(ms[n])];
      assert Delivereds(ms) == Delivereds(ms[..n]) + [Delivered(ms[n])];
    }
  }

  /** In every run, what the partner's stream actor makes of the users' messages
      that the sink accepted is, payload by payload, a prefix of what the users
      submitted while the session received. */
  lemma PartnerReadsThePrefix(es: seq<Event>)
    requires After(es).Some?
    ensures var frames := UserFrames(After(es).value);
            && |frames| <= |Submitted(es)|
            && S.ForwardedAll(frames) == Delivereds(Submitted(es)[..|frames|])
  {
    var p := After(es).value;
    InOrderDelivery(es);
    SubmissionsAreKept(es);
    var frames, ms := UserFrames(p), Submitted(es);
    var ids := Users(p.origins, p.accepted);
    forall k | 0 <= k < |frames|
      ensures frames[k].Good? && ReadsAs(frames[k].raw, ms[..|frames|][k])
    {
      assert ids[k] == p.submitted[k];
    }
    ReadAll(frames, ms[..|frames|]);
  }

  // ----- Nothing follows a Close -----

  /** Of what the session handed over only the last can be a Close, and then the
      session is gone. */
  predicate CloseInv(p: Pipe) {
    && (forall k | 0 <= k < |p.handed| :: p.handed[k] < |p.messages|)
    && (forall k | 0 <= k < |p.handed| - 1 :: !p.messages[p.handed[k]].RawClose?)
    && (p.sessionUp ==> forall k | 0 <= k < |p.handed| :: !p.messages[p.handed[k]].RawClose?)
  }

  lemma CloseStep(p: Pipe, e: Event)
    requires CloseInv(p) && SignalInv(p) && QueueInv(p) && Enabled(p, e)
    ensures CloseInv(Apply(p, e))
  {
    assert p.messages <= Apply(p, e).messages;
  }

  lemma {:induction false} NothingFollowsAClose(es: seq<Event>)
    requires After(es).Some?
    ensures CloseInv(After(es).value)
  {
    if es != [] {
      NothingFollowsAClose(es[..|es| - 1]);
      SignalConservation(es[..|es| - 1]);
      InOrderDelivery(es[..|es| - 1]);
      CloseStep(After(es[..|es| - 1]).value, es[|es| - 1]);
    }
  }
}

# A model of ezsockets, with proofs

ezsockets runs websocket servers and clients as communicating actors: tasks
that own their state and talk through unbounded FIFO queues.  This project
models those actors in Dafny and proves what they guarantee under every
interleaving.

Each part comes in two layers.

* A transition system: a state, the events that can happen, when each is
  `Enabled`, and its effect `Apply`.  A run is a sequence of events in any
  order; `After(es)` is the state it reaches.  Users, network, handlers and
  scheduler are nondeterministic.  The theorems quantify over every run.
* The task itself as imperative code: a class with the actor's fields, loops
  and branches in the source's order.  A ghost `history` records the events,
  and `Valid` says that the fields are exactly `After(history)`, so every
  theorem about runs holds of the code.  Where the source awaits, `Others` lets
  everyone else move.  What a task cannot know, such as how a handler ends or
  whether a send succeeds, is a function it is given (`world`, `onConnect`,
  `fate`, `aborts`, `open`); the contracts say what it does for every such
  function.  A loop is granted a number of turns, and its contract says what so
  many turns get done.

The `*_inputs.dfy` files fix what the histories in a state mean: functions of the
list of events alone say what users and network put in, and theorems show that
the queues and histories of every run hold exactly that, payloads included.

| files | part |
|---|---|
| `wire.dfy` | messages, frames, close codes |
| `session_spec.dfy`, `session_inputs.dfy`, `session_actor.dfy` | session actor with the stream actor that feeds it |
| `server_spec.dfy`, `server_theorems.dfy`, `server_inputs.dfy`, `server_actor.dfy`, `watcher_task.dfy` | server actor, forwarders, watchers, graceful shutdown: safety |
| `shutdown_gate.dfy` | what becomes of connections once a shutdown has begun |
| `drain.dfy` | termination of the graceful shutdown, an answer for every caller |
| `answers.dfy` | which callers of `graceful_shutdown` are certain of Ok when they call |
| `pipeline_spec.dfy`, `pipeline_inputs.dfy`, `pipeline.dfy` | outgoing pipeline and message signals, on values and on the heap |
| `settling.dfy` | every signal settles |
| `heartbeat.dfy`, `latency.dfy` | heartbeat in real time, ping payload |
| `client_spec.dfy`, `client_theorems.dfy`, `client_inputs.dfy`, `client_language.dfy`, `client_actor.dfy` | client with reconnection |
| `chat_spec.dfy`, `chat_lines.dfy`, `chat_theorems.dfy`, `chat_panics.dfy`, `chat_server.dfy` | the chat-server example, on top of the server model |

## Main results

* Drain safety and counter exactness: whoever gets Ok from `graceful_shutdown`
  can rely on every session ever accepted having ended and having been given to
  `on_disconnect` exactly once; `active_sessions` is always exact.
* Drain termination: under weak fairness of the tasks the shutdown ends,
  however many calls, frames, connections and requests keep arriving, and every
  caller of `graceful_shutdown` is answered.
* The shutdown gate: nothing new begins, a connection is sent its one Away Close
  exactly if it is taken, and the waiting ones stay queued for good exactly if
  no session is left.
* Conservation and order of messages: a signal is Sending exactly while its
  message sits in exactly one place, is set at most once, and in every fair run
  is set; the underlying sink accepts a prefix of what was submitted.
* Detection of a silent partner within stated real-time bounds, and at an exact
  time with an exact number of pings when wake-ups are prompt.
* Reconnect isolation, exactness of the retry loop and the regular language of
  the client's handler calls.
* Nothing put in is lost, altered or reordered: calls to servers, sessions and
  clients, messages and their payloads, frames and connections, each against the
  list of events; and every session or client that ends has a reason among them.
* The chat server's asserts, expects and unwraps: which never fail, exactly when
  the remaining two do, and a run for each of these.

## Where the code differs from its documentation

* src/server.rs:393-394 says that every concurrent caller of `graceful_shutdown`
  is acknowledged.  A request still queued when the actor leaves its loop is
  answered with `ServerStopped`; `ConcurrentCallerRefused` is such a run.  While
  the actor runs and no handler panics, a caller is certain of its Ok if and only
  if its request has been received or nobody called before it
  (`WhoIsCertainOfOk`); a new caller, if and only if nobody has called yet
  (`CertainAtTheCall`).  `WhoIsAnswered` says who has it afterwards.
* src/server.rs:379-380 says that connections queued before the shutdown remain
  queued.  That is so exactly when there is none or no session is left when the
  first request is taken (`QueuedAtTheFirstRequest`; `WhenQueuedRemainQueued` for
  any later moment).  `QueuedConnectionRejected` is a run in which a queued
  connection is taken and sent an Away Close.  In every run a connection still
  waiting then, or arriving later, is sent its one Away Close if and only if the
  actor takes it before it stops (`FarewellIffTaken`).
* src/socket.rs:470 casts a 128-bit timestamp to 64 bits.  `PayloadRoundTrip`
  shows that the echoed timestamp is read back exactly if and only if it is
  below 2^64 milliseconds.
* src/client.rs:711 returns an error after a loop that has no end;
  `Clients.ClientActor.ClientConnect` proves that each call returns from inside
  the loop.

## Assumptions

* Queues are FIFO and unbounded; the store to a signal is atomic; the biased
  `select!` of the session takes the first ready branch; the other `select!`s
  take any ready branch.
* For termination only: every task that can move for ever eventually does, and
  handlers return.  For the server's `select!` this means that a waiting
  disconnect, and for `EveryCallerIsAnswered` a waiting shutdown request, is not
  passed over for ever; and the queue of a stopped actor is destroyed to its end.
  For signals it means that a send ends, and that a live session gets to its
  outgoing queue or ends.
* `on_connect` returns a session that was not returned before, since
  `await_close` may be awaited once (src/session.rs:104-106).
* The chat server has fewer than 255 live sessions when a connection arrives,
  so that the `u8` search at line 43 stays in range.
* Time is an integer.  The heartbeat wakes at its deadline or at most `latency`
  later; `delay` is the time from the creation of the socket to the first poll
  of the task.  The detection bound is the plain one for every frame heard within
  `timeout` before that poll or at any time after it, and only then.

## Model

| member | source | states |
|---|---|---|
| ServerTheorems.DrainSafety | src/server.rs:136-143 | In every run, once any caller has its Ok, every session ever accepted has ended, was reported by its forwarder and was given to on_disconnect exactly once with its own result; the disconnect queue is empty. |
| ServerTheorems.ExitIsDrained | src/server.rs:136-143 | The same whenever the actor has left its loop by itself, whoever is listening. |
| ServerTheorems.CounterExact | src/server.rs:178-204 | In every run the counter equals the forwarders in progress plus the queued disconnects, which is sessions accepted minus disconnects taken; taking one lowers it by exactly one, so `saturating_sub` never saturates. |
| ServerTheorems.QueuedMeansActive | src/server.rs:204-213 | A queued disconnect implies a positive counter. |
| ServerTheorems.DisconnectsInOrder | src/server.rs:385-386 | In every run the disconnects given to on_disconnect, followed by those queued, are exactly the forwarders' reports in their order. |
| ServerTheorems.ReportStep | src/server.rs:187-213 | Every event keeps that; a report is added exactly when a forwarder reports to a running actor. |
| ServerTheorems.WhoIsAnswered | src/server.rs:136-148 | No caller is answered while the actor runs; Ok goes to exactly the requests received before the loop was left; afterwards those not in the dead queue have an answer. |
| Answering.WhoIsCertainOfOk | src/server.rs:393-394 | While the actor runs, a caller gets Ok in every continuation in which the actor leaves its loop, if and only if its request has been received or it was the first to call. |
| Answering.CertainAtTheCall | src/server.rs:395-403 | At the moment of its call a new caller is certain of Ok if and only if nobody has called before. |
| Answering.CanDrain | src/server.rs:136-213 | From any moment of a drain the actor can come to leave its loop without taking another request. |
| Answering.CanBeRefused | src/server.rs:136-148 | A run in which any caller that is neither first nor received is refused. |
| Answering.ReceivedAlong | src/server.rs:146-154 | In every continuation what was received stays received, and the flag is up exactly from the first request on. |
| ServerTheorems.AnswersAreFinal | src/server.rs:395-403 | An answer, once given, is never changed in any continuation. |
| ServerTheorems.NobodyIsLeftWaiting | src/server.rs:395-403 | Destroying the stopped actor's queue leaves no caller unanswered. |
| ServerTheorems.ConcurrentCallerRefused | src/server.rs:393-394 | A run in which one concurrent caller has Ok and the other ServerStopped: the documented sentence is false. |
| ShutdownGate.NothingNewBegins | src/server.rs:146-175 | In every continuation of a run that received a shutdown request there is no further on_connect or on_call and no new session, and the connections taken are sent exactly one Away Close each, in order. |
| ShutdownGate.GateStep | src/server.rs:162-217 | The same for one step of any task. |
| ShutdownGate.Arrivals | src/server.rs:326-339 | In every run the connections taken followed by those waiting are exactly those that arrived, in order. |
| ShutdownGate.FarewellIffTaken | src/server.rs:162-175 | Of the connections waiting when shutdown began or arriving later, number k is sent its one Away Close if and only if it has been taken; nobody else is sent anything. |
| ShutdownGate.WhenQueuedRemainQueued | src/server.rs:378-380 | At any moment of a shutdown the waiting connections remain queued in every continuation if and only if there is none, the actor has stopped, or no session is left. |
| ShutdownGate.QueuedAtTheFirstRequest | src/server.rs:378-380 | Just after the first request: they remain queued if and only if there is none or no session is active. |
| ShutdownGate.QueuedConnectionRejected | src/server.rs:379-380 | A run in which a connection queued before the shutdown is taken and sent an Away Close: the documented sentence is false. |
| ShutdownGate.NeverTakenAgain | src/server.rs:137-143 | With no session left, or the actor stopped, no connection is ever taken again. |
| ShutdownGate.CanBeTaken | src/server.rs:162-175 | With a session left, the first waiting connection can come to be taken. |
| ServerTheorems.NoWatcherMissesTheFlip | src/server.rs:229-247 | During shutdown every live session has the Close with code 1001 and the shutdown's reason in its queue, or its watcher can move, or its forwarder is about to spawn the watcher, whether the watcher first looked before or after the flip. |
| ServerInputs.ShutdownCloseIsGiven | src/server.rs:183-190 | In every run a session that no user closed and that ended by a Close from its own queue was told so by its watcher, has the Away frame as its result, and on_disconnect is given that result. |
| ServerInputs.WatcherSends | src/server.rs:243-246 | A watcher that fires adds exactly the Close with code 1001 and its reason to a session that lives, and changes no other. |
| ServerInputs.AwayIsQueued | src/server.rs:235-246 | In every run a session that still lives after its watcher has fired has the Away Close waiting in its queue. |
| ServerInputs.FarewellOnly | src/server.rs:183-192 | In every run all Closes submitted to a session that no user closed are Away Closes of its watcher. |
| ServerInputs.GivenResults | src/server.rs:187-191 | In every run on_disconnect is given what its session returned, and an error after a crash. |
| ServerInputs.SessionsRun | src/session.rs:86-98 | Every session in every run of the server goes through a run of the session model, read off the server's events, so the theorems on sessions hold of it. |
| ServerInputs.InputsAreRecorded | src/server.rs:324-372 | In every run the recorded connections are those of the accept events while the actor ran, the calls handled and queued are exactly those made then, in order, and there is one caller for each request. |
| ServerInputs.InputStep | src/server.rs:324-372 | Every event keeps that. |
| ServerInputs.NobodyIsBlocked | src/server.rs:324-372 | A connection, a call or a request can arrive at any moment. |
| ServerSpec.Step | src/server.rs:131-247 | Every event of every task keeps the invariant tying counter, in-flight forwarders, disconnect queue, watchers and callers. |
| ServerSpec.Always | src/server.rs:131-247 | Hence it holds in every reachable state. |
| ServerSpec.NothingLeft | src/server.rs:137-143 | When the counter is zero every accepted session has ended and been reported, and no disconnect is queued. |
| ServerSpec.CounterPositive | src/server.rs:204-213 | Counter plus reported sessions equals accepted sessions plus queued disconnects. |
| ServerSpec.TaskStep | src/server.rs:183-192 | Moves of sessions, watchers and forwarders keep the invariant. |
| ServerSpec.ReportKeeps | src/server.rs:187-191 | A forwarder's report puts the session's own result in the queue once. |
| ServerSpec.AcceptKeeps | src/server.rs:178-192 | Accepting a session, whatever it did before on_connect returned, keeps the invariant. |
| ServerSpec.CallersStep | src/server.rs:137-148 | Every event keeps who waits, who is answered and with what. |
| ServerActors.ServerActor.constructor | src/server.rs:296-321 | A created server starts in the initial state. |
| ServerActors.ServerActor.Run | src/server.rs:131-226 | The loop realizes a run; it ends early only drained, with Ok for every request received; a turn with a ready branch takes something, so that as much of what waited at the start is served as there were turns: requests, connections, disconnects, and calls unless it is shutting down by the end. |
| ServerActors.ServerActor.Turn | src/server.rs:136-226 | The header leaves exactly when shutting down with no session; otherwise one thing is taken, or no branch is ready. |
| ServerActors.ServerActor.Serve | src/server.rs:145-218 | The branch picked takes the head of its queue. |
| ServerActors.IdleMeansServed | src/server.rs:145-218 | A running actor with no branch ready has served everything that waited at any earlier moment, calls included unless it is shutting down. |
| ServerActors.ServerActor.Leave | src/server.rs:137-143 | Leaving the loop answers every request received and finds the server drained. |
| ServerActors.ServerActor.SendAcks | src/server.rs:137-143 | The acks vector is drained into Ok answers, nothing else changes. |
| ServerActors.ServerActor.AnswerAll | src/server.rs:139-141 | Exactly the listed callers are answered. |
| ServerActors.ServerActor.OnShutdownRequest | src/server.rs:146-161 | Taking a request is the step of the system that stores the ack and raises the flag. |
| ServerActors.ServerActor.BeginShutdown | src/server.rs:147-154 | Every ack is stored; the flag is raised and signalled only by the first. |
| ServerActors.ServerActor.OnNewConnection | src/server.rs:162-203 | During shutdown: one Away Close and nothing else. Otherwise one on_connect, and its answer adds and counts one session or sends the refusal to that connection. |
| ServerActors.ServerActor.Reject | src/server.rs:163-175 | The rejection is the corresponding step of the system. |
| ServerActors.ServerActor.BeginConnect | src/server.rs:176-177 | The call of on_connect is the corresponding step. |
| ServerActors.ServerActor.ConnectDone | src/server.rs:177-202 | After acceptance one session is added and counted; after refusal its Close is sent to that connection. |
| ServerActors.ServerActor.Refused | src/server.rs:196-201 | The refusal is the corresponding step. |
| ServerActors.ServerActor.Accepted | src/server.rs:178-193 | Counting, subscribing and spawning is the corresponding step. |
| ServerActors.ServerActor.OnDisconnected | src/server.rs:204-214 | The counter falls by exactly one whatever on_disconnect returns, and the handler gets the head of the queue. |
| ServerActors.ServerActor.CountDown | src/server.rs:204-214 | The saturating decrement and the call are the corresponding step. |
| ServerActors.ServerActor.HandlerDone | src/server.rs:222-224 | A handler's error is only logged; the loop goes on. |
| ServerActors.ServerActor.OnServerCall | src/server.rs:215-217 | One queued call is handled, in order, and only before shutdown. |
| ServerActors.ServerActor.BeginCall | src/server.rs:215-217 | The call of on_call is the corresponding step. |
| WatcherTasks.WatcherTask.WatchForShutdown | src/server.rs:229-247 | The watcher's loop: one Close if and only if it saw the flag up, and a session that still lives then has the Away Close in its queue; one turn is enough if the flag is up and nobody aborts it; after two turns a task that still waits does so with the flag down. |
| WatcherTasks.WatcherTask.Turn | src/server.rs:235-242 | With the flag up it sends the Close or was aborted; with the flag down it waits. |
| WatcherTasks.WatcherTask.SendClose | src/server.rs:243-246 | The queue of a session that lives, and what was submitted to it, grow by exactly the Close with code 1001 and the shutdown's reason; a session that has ended is left as it is. |
| WatcherTasks.WatcherTask.Changed | src/server.rs:236-241 | It wakes only for a version it has not seen. |
| WatcherTasks.OthersMove | src/server.rs:183-192 | Between its own moves a watcher can only be aborted. |
| Drain.DrainTerminates | src/server.rs:137-161 | Every infinite fair run that has received a shutdown request leaves the loop. |
| Drain.ShutdownSucceeds | src/server.rs:395-403 | If no handler panics, every request received is eventually answered with Ok. |
| Drain.EveryCallerIsAnswered | src/server.rs:395-403 | Every call of graceful_shutdown, made at any moment of a fair run, is eventually answered. |
| Drain.RequestStartsShutdown | src/server.rs:146-154 | A waiting request makes the actor shut down, or is answered, or finds it stopped. |
| Drain.StoppedAnswers | src/server.rs:400-402 | Destroying the queue of a stopped actor answers each caller. |
| Drain.StepRank | src/server.rs:137-247 | No step of any task or of the environment raises the rank (watchers to fire, messages ahead of the Closes, running sessions, reports, queued disconnects), and every progress step lowers it. |
| Drain.SomeTaskIsDue | src/server.rs:183-213 | During the drain some progress step is always owed. |
| Drain.StaysDue | src/server.rs:183-213 | A task that owes a move owes it until the rank falls. |
| Drain.SessionRank | src/session.rs:202-218 | A session with a queued Close only comes closer to its end. |
| Drain.RankAlong | src/server.rs:137-247 | Along a whole run the rank falls or the owed move is still owed. |
| SessionSpec.OrderedHandover | src/session.rs:203-218 | In every run what reached the sink is a prefix of what was submitted; a session that returned by popping a Close had handed over everything submitted before it, and returns that Close's frame. |
| SessionSpec.OutgoingStep | src/session.rs:203-218 | Every event keeps that. |
| SessionSpec.InboundRefinesFilter | src/socket.rs:454-500 | In every run the on_text and on_binary calls are a prefix of the frames filtered of pings, pongs and errors and cut at the first Close, and all of it once a live session has emptied its channel. |
| SessionSpec.ForwardingIsExpected | src/socket.rs:461-486 | What the stream actor forwards carries exactly the filtered data. |
| SessionSpec.InboundStep | src/session.rs:222-237 | Every event keeps channel and handler calls in step with the frames read. |
| SessionInputs.CallsInOrder | src/session.rs:141-143 | In every run the arguments of on_call so far, followed by the queue, are exactly the calls made while the session lived, in order. |
| SessionInputs.HandedIsSubmitted | src/session.rs:117-174 | In every run what reached the sink is a prefix of what users sent while the session lived, and with the queue all of it while it lives. |
| SessionInputs.HandledIsReceived | src/socket.rs:454-500 | In every run the handlers of data got a prefix of the data that the network yielded before its first Close, and all of it once a live session has emptied its channel. |
| SessionInputs.InputsAreRecorded | src/socket.rs:454-500 | In every run the histories of submissions and frames are those of the events, and the stream actor has stopped exactly when its network did or an item other than ping and pong found the session gone. |
| SessionInputs.InputStep | src/socket.rs:454-500 | Every event keeps that. |
| SessionInputs.NobodyIsBlocked | src/session.rs:117-143 | Users can send and call at any moment, and the network can yield anything while it is read. |
| SessionInputs.DeliveredAsSent | src/socket.rs:205-213 | What is sent is what the partner's stream actor delivers: the conversion to a raw message and back loses nothing. |
| SessionInputs.ForwardedOtherwise | src/socket.rs:461-486 | The stream actor passes on exactly what some message is sent as, and transport errors; pings and pongs stay behind. |
| SessionInputs.RemoteCloseIsReturned | src/session.rs:227-231 | A session that its partner closed returns the frame of the first Close the network yielded. |
| SessionInputs.EndsForAReason | src/session.rs:202-242 | In every run a session that has ended has one of six reasons, with the event and the frame or error that go with it: a panic, the end of the stream, a failed send, a failed handler, the partner's Close, or a submitted Close. |
| SessionInputs.OutcomeIs | src/session.rs:104-110 | await_close yields the returned result, and the error of a crashed actor after a panic. |
| SessionSpec.CloseIsReached | src/session.rs:203-218 | With a Close queued no run has more than a computed number of moves of the actor, and after that many it has ended. |
| SessionSpec.WorkStep | src/session.rs:203-238 | Every move of the actor lowers that number, nobody else changes it. |
| SessionSpec.ClosedInTime | src/session.rs:203-218 | An actor with a Close in its queue has ended after that many moves of its own. |
| SessionSpec.IdleMeansServed | src/session.rs:204-237 | A live actor that finds nothing to do has served all that waited at any earlier moment, and no Close was among it. |
| SessionActors.SessionActor.Run | src/session.rs:202-242 | The loop realizes a run: its result is how the session ended, with the two guarantees above; a turn serves something if anything waits; with a Close in the queue, `Work` turns are enough to end the session. |
| SessionActors.SessionActor.Turn | src/session.rs:204-239 | The first ready branch in the order written makes a move; without one nothing waits and the stream is open. |
| SessionActors.SessionActor.SendOut | src/session.rs:206-218 | A Close ends the session with its frame even if the send fails; another message ends it exactly if the send fails. |
| SessionActors.SessionActor.OnSessionCall | src/session.rs:219-221 | A call is taken only when nothing is outgoing; on_call is given the head of the queue, and the session goes on, ends or crashes as its handler does. |
| SessionActors.SessionActor.OnStreamItem | src/session.rs:222-237 | Data goes to its handler, whose end decides; a Close ends the session with its frame, an error is skipped. |
| SessionActors.SessionActor.StreamEnds | src/session.rs:235-241 | The end of the stream ends the session without a frame. |
| SessionActors.SessionActor.Handled | src/session.rs:219-226 | A handler's error becomes the session's result; a panic leaves none. |
| PipelineSpec.SignalConservation | src/socket.rs:287-345 | In every run a message is Sending exactly while it sits in exactly one queue or in the sink actor's hand, and Sent exactly if the underlying sink accepted it. |
| PipelineSpec.SignalStep | src/socket.rs:364-390 | Each event settles at most one signal, one that was Sending, and leaves the others. |
| PipelineSpec.HeldStep | src/socket.rs:328-335 | The books of one event: what was held or came is held or settled. |
| PipelineSpec.TerminalStays | src/socket.rs:254-260 | A terminal status is never left in any continuation. |
| PipelineSpec.InOrderDelivery | src/socket.rs:364-390 | In every run the users' messages the sink accepted are a prefix of those submitted, in order, whatever pings are interleaved and wherever the sink or the session ends. |
| PipelineInputs.PartnerReadsThePrefix | src/socket.rs:328-335 | In every run what the partner's stream actor makes of the users' messages that the sink accepted is, payload by payload, a prefix of the messages submitted while the session received. |
| PipelineInputs.PayloadsAreKept | src/socket.rs:205-213 | In every run message number i carries what its creation asked to send: the user's payload, or the raw message. |
| PipelineInputs.SubmissionsAreKept | src/session.rs:117-174 | In every run the session's queue has accepted exactly the messages submitted while the session received, in order, with their payloads. |
| PipelineInputs.NothingFollowsAClose | src/session.rs:206-218 | In every run a Close is the last message the session hands over, and it has then stopped receiving. |
| PipelineInputs.CreationStep | src/socket.rs:309-335 | Every event keeps the payloads. |
| PipelineSpec.LineGrows | src/socket.rs:364-390 | While the sink is up its line of accepted, taken and waiting messages is only added to at the end. |
| Settling.EverySignalSettles | src/socket.rs:287-345 | In every fair infinite run each message that is ever submitted becomes Sent or Failed. |
| Settling.RankStep | src/socket.rs:364-390 | No event sets a travelling message back, and every move of the task responsible for it brings it closer to its end. |
| Settling.ComesCloser | src/socket.rs:364-390 | A message that travelled for ever would come closer to its end. |
| PipelineSpec.LineStep | src/socket.rs:364-435 | Every event keeps the order in the sink's channel. |
| PipelineSpec.QueueStep | src/session.rs:206-211 | Every event keeps the order in the session's queue. |
| Pipelines.MessageSignal.Set | src/socket.rs:254-260 | One write to the shared cell. |
| Pipelines.InRawMessage.TakeMessage | src/socket.rs:287-289 | The payload is moved out. |
| Pipelines.InRawMessage.SetSignal | src/socket.rs:291-297 | The first call writes the signal and gives it up; later calls write nothing. |
| Pipelines.InRawMessage.Drop | src/socket.rs:300-305 | A message dropped with its signal fails it. |
| Pipelines.InRawMessage.Finish | src/socket.rs:375-383 | After the result is known the drop at the end of the scope writes nothing more. |
| Pipelines.InMessage.IntoRaw | src/socket.rs:328-335 | Message and signal move, a text as that text, bytes as those bytes, a Close with its frame; dropping the emptied message writes nothing. |
| Pipelines.InMessage.Drop | src/socket.rs:337-345 | A message dropped with its signal fails it. |
| Pipelines.InMessage.SendFails | src/socket.rs:423-428 | A message converted and refused by the channel fails exactly once. |
| Pipelines.Pipeline.constructor | src/socket.rs:398-417 | A new pipeline holds nothing. |
| Pipelines.Pipeline.Submit | src/session.rs:117-126 | The caller gets a fresh signal; refused messages fail it at once. |
| Pipelines.Pipeline.SendRaw | src/socket.rs:430-435 | Messages for the sink's channel enter it or fail at once. |
| Pipelines.Pipeline.Forward | src/session.rs:206-217 | The session's transfer to the sink's channel on objects is the transfer on values. |
| Pipelines.Pipeline.TakeFromQueue | src/session.rs:206-211 | The head leaves the queue converted, with the signal it had; the rest is untouched. |
| Pipelines.Pipeline.HandOver | src/socket.rs:423-428 | The message keeps its signal on the way into the channel; the session ends exactly if it was a Close. |
| Pipelines.Pipeline.LoseInSession | src/session.rs:211-217 | With the sink gone the message fails and the session ends. |
| Pipelines.Pipeline.TakeFromChannel | src/socket.rs:367-373 | The head of the channel is in hand with its payload taken out, still Sending. |
| Pipelines.Pipeline.SendOk | src/socket.rs:375-376 | Accepted means Sent, although the message is dropped afterwards. |
| Pipelines.Pipeline.SendErr | src/socket.rs:377-381 | A failed send fails that message and stops the actor. |
| Pipelines.Pipeline.Abort | src/socket.rs:384-386 | The abort stops the actor and settles nothing. |
| Pipelines.Pipeline.Cancel | src/socket.rs:300-305 | A send cut off in the middle fails its message. |
| Pipelines.Pipeline.DropInSession | src/socket.rs:337-345 | Destroying a dead session's queue fails its entries one by one. |
| Pipelines.Pipeline.DropInChannel | src/socket.rs:300-305 | Likewise the sink's channel. |
| Pipelines.Pipeline.SinkTurn | src/socket.rs:365-388 | The head of the channel is accepted, or its send fails and stops the actor, or the abort stops it; with nothing waiting nothing changes. |
| Pipelines.Pipeline.RunSink | src/socket.rs:364-390 | The loop realizes a run: unless a send fails or the abort arrives, each turn gets one message accepted or none was waiting, longest waiting first; no terminal signal changes. |
| Pipelines.AllSent | src/socket.rs:364-390 | With the channel empty and the sink up, all that once waited has been accepted. |
| Pipelines.OnceInSession | src/socket.rs:309-313 | The head of the session's queue is in it once, and all messages there are Sending. |
| Pipelines.OnceInChannel | src/socket.rs:273-277 | Likewise in the sink's channel. |
| Pipelines.OnlyInHand | src/socket.rs:367-376 | The message in hand is Sending and in no queue. |
| Pipelines.TerminalKept | src/socket.rs:291-297 | Extending a run changes no terminal status. |
| Pipelines.AllKept | src/socket.rs:364-390 | Between two moments of a run no terminal status changes and the line of a sink that is up only grows. |
| Heartbeat.HeartbeatSafety | src/socket.rs:660-695 | In every run pings are at least `heartbeat` apart and follow a silence in [heartbeat, timeout]; a Close (Abnormal) follows one longer than timeout, is the last message and unique. |
| Heartbeat.TimesAreRecorded | src/socket.rs:660-695 | In every run the clock, the last sign of life, the pings and the Close sent, and whether the task still beats are those computed from the list of events. |
| Heartbeat.DetectionBound | src/socket.rs:612-632 | After the last frame at t0 no Close is queued up to t0+timeout, and one has been queued by t0+timeout+heartbeat+latency, for every t0 from `delay - timeout` on, hence for every frame after the first poll; before that, by delay+heartbeat+latency. |
| Heartbeat.ExactDetection | src/socket.rs:660-695 | With prompt wake-ups and timeout >= heartbeat: exactly timeout/heartbeat pings, one a beat, then the Close at exactly t0+(timeout/heartbeat+1)*heartbeat. |
| Heartbeat.ClockNeverJams | src/socket.rs:618-629 | Time can pass until a wake-up is due, so the bounds are not met by stopping the clock. |
| Heartbeat.ScheduleStep | src/socket.rs:666-694 | One event of an idle connection keeps the exact schedule. |
| Heartbeat.Step | src/socket.rs:612-695 | Every event keeps the timing invariant. |
| Heartbeat.HeartbeatTask.Sleep | src/socket.rs:618-629 | The sleep ends at its deadline or at most `latency` later, unless the abort interrupts it; frames may arrive meanwhile. |
| Heartbeat.HeartbeatTask.HandleSleepElapsed | src/socket.rs:660-695 | Exactly when it sends the Close with code 1006 and its reason, pings, stops or sleeps on, and for how long. |
| Heartbeat.HeartbeatTask.Turn | src/socket.rs:621-631 | One wake-up and its consequence, or the abort. |
| Heartbeat.HeartbeatTask.Run | src/socket.rs:612-632 | The loop realizes a run with those guarantees; every turn is a wake-up, and a task that still beats without a frame has had at most timeout/heartbeat + 1 of them. |
| Heartbeat.OneMoreBeat | src/socket.rs:676-694 | A wake-up in silence moves the deadline at least one beat on. |
| Latency.PayloadRoundTrip | src/socket.rs:466-472 | The default ping has 16 bytes and, echoed, decodes to the timestamp modulo 2^64, and to the timestamp itself if and only if it is below 2^64. |
| Latency.ReadBack | src/socket.rs:48-52 | Decoding inverts big-endian encoding in every width. |
| Latency.WriteBack | src/socket.rs:467-469 | Encoding inverts decoding. |
| Latency.FirstByteCountsMost | src/socket.rs:467-469 | The first byte of a payload is its most significant. |
| Latency.ReadPongIsFaithful | src/socket.rs:467-470 | A pong is read if and only if it is the echo of some 16-byte timestamp. |
| ClientTheorems.ReconnectIsolation | src/client.rs:645-669 | In every run a message handed to a socket was issued between the last drain before that socket and the last drain before the next; each is handed over at most once, in order. |
| ClientTheorems.IsolationStep | src/client.rs:494-711 | Every event keeps that. |
| ClientTheorems.QuietReconnect | src/client.rs:645-649 | If nothing is submitted between on_close or on_disconnect and the next on_connect, the next socket is given only what was issued after that on_connect. |
| ClientTheorems.RetryExactness | src/client.rs:638-711 | At most max(1, max_attempts) attempts; the attempts-exhausted error exactly when that many failed and each was answered with Reconnect, after one sleep fewer. |
| ClientTheorems.RetryStep | src/client.rs:638-711 | Every event keeps attempts, failures and sleeps in step. |
| ClientTheorems.DoneIsSilent | src/client.rs:655-658 | After the task has returned, for instance because a drain saw a Close, nothing is called, handed over or attempted. |
| ClientTheorems.NothingAfterTheEnd | src/client.rs:494-634 | In every run no handler is called after one that failed or asked to close, or after the client took its own Close. |
| ClientInputs.CallsSurvive | src/client.rs:506-512 | In every run the handled calls followed by the queued ones are exactly the calls made while the client lived, in order, whether it had a socket, was draining, connecting or asleep: reconnecting discards none. |
| ClientInputs.CallsStep | src/client.rs:506-512 | Every event keeps that. |
| ClientInputs.NobodyIsBlocked | src/client.rs:494-517 | As long as a handle is left, messages can be sent and calls made in every phase of the client. |
| ClientInputs.EveryMessageAccounted | src/client.rs:645-669 | In every run each message submitted while the client lived waits unchanged, was handed to one socket once, or was discarded once. |
| ClientInputs.EachItemIsHandled | src/client.rs:564-592 | In every run what was taken from the current socket's stream, followed by what is left, is exactly what the network gave that socket, and each item taken was answered by the handler for its kind. |
| ClientInputs.MarksAreRecorded | src/client.rs:645-683 | The marks that isolation speaks of are those of the events: how much had been submitted at the last drain before each socket, at each on_connect and at each loss of a socket. |
| ClientInputs.RetryIsCounted | src/client.rs:638-711 | The attempts, failures and sleeps that exactness speaks of are the numbers of such events since client_connect was last called. |
| ClientInputs.LimitsApply | src/client.rs:457-480 | In every run the initial limit applies until there is a socket, the reconnection limit ever after. |
| ClientInputs.EndsForAReason | src/client.rs:494-562 | In every run a client that has ended did so for its own Close, its handler's answer, its dropped handles or its sink's error, each with its result; a queue is closed exactly when its handles were dropped. |
| ClientTheorems.IdleMeansServed | src/client.rs:496-517 | A client for which no message or call waits has made a move for each that waited at any earlier moment. |
| ClientLanguage.CallbackLanguage | src/client.rs:494-711 | In every run the handler trace is a prefix of a word of (on_connect_fail, or on_connect (on_text, on_binary, on_call)* then one of on_close and on_disconnect)*, and a word between sockets. |
| ClientLanguage.LanguageStep | src/client.rs:494-711 | Every event keeps that. |
| ClientLanguage.CallerPhase | src/client.rs:564-634 | The connection handlers are called only from a connection attempt, the others only with a socket. |
| Clients.ClientActor.Task | src/client.rs:454-481 | The whole task realizes a run, with the language, the calls, the isolation and the account of every message guaranteed. |
| Clients.ClientActor.Run | src/client.rs:494-520 | The loop hands the one socket from turn to turn and realizes a run; a turn with something ready makes a move, so that as much of what waited is served as there were turns. |
| Clients.ClientActor.Turn | src/client.rs:496-517 | A ready branch is served; without one nothing waits and every channel is open. |
| Clients.ClientActor.ClientConnect | src/client.rs:638-711 | The retry loop returns from inside; which result it returns, after how many attempts and sleeps; it calls on_connect or on_connect_fail as the attempts succeed or fail, and hands no message over. |
| Clients.ClientActor.Attempt | src/client.rs:643-709 | One turn: at most one handler call, and another turn only below the limit. |
| Clients.ClientActor.Drain | src/client.rs:650-669 | A connection attempt begins only with an empty queue; otherwise the client has closed itself or is dead. |
| Clients.ClientActor.DiscardOne | src/client.rs:653-663 | A Close ends the client, any other message is discarded. |
| Clients.ClientActor.FoundEmpty | src/client.rs:664-668 | An empty queue starts the attempt exactly if a handle is left. |
| Clients.ClientActor.Connect | src/client.rs:675-683 | on_connect is called; exactly if it does not fail there is a socket, a fresh one with an empty stream, otherwise its error. |
| Clients.ClientActor.ConnectFails | src/client.rs:685-705 | on_connect_fail is called; another attempt exactly after Reconnect and below the limit, and what is returned otherwise. |
| Clients.ClientActor.RetryOrGiveUp | src/client.rs:688-705 | The limit is compared after the attempt. |
| Clients.ClientActor.WakeUp | src/client.rs:604-614 | A retry keeps its count; a reconnection after a close starts a new one. |
| Clients.ClientActor.HandleCall | src/client.rs:506-512 | The head of the call queue reaches on_call; an error ends the client, otherwise the socket is kept. |
| Clients.ClientActor.HandleOutgoing | src/client.rs:522-562 | The head of the queue is handed to the socket; a Close ends the client without another handler call even if the send fails; after a successful send of anything else the socket is kept; after a failed send the sink's result is awaited. |
| Clients.ClientActor.Send | src/client.rs:527-528 | The message leaves the queue for this socket, and what follows depends on the send and on whether it is a Close. |
| Clients.ClientActor.AwaitSinkClose | src/socket.rs:600-608 | The result can be had once; afterwards it is AlreadyClosed. |
| Clients.ClientActor.SinkClosed | src/client.rs:529-561 | Exactly which sink results keep the socket, abort the client, or lead to on_disconnect and what it decides; after a Close of its own all end the client. |
| Clients.ClientActor.HandleIncoming | src/client.rs:564-592 | The head of the stream is taken: a text reaches on_text, bytes on_binary, a Close on_close, an error on_disconnect; the handler's answer decides whether the socket is kept, a reconnection is tried or the client ends. |
| Clients.ClientActor.ServeIncoming | src/client.rs:586-589 | The end of the stream counts as a disconnect: on_disconnect is called, and its answer decides. |
| Clients.ClientActor.HandleClose | src/client.rs:594-616 | After Reconnect a sleep and then a new call of client_connect, whose result is returned; otherwise the client ends. |
| Clients.ClientActor.HandleDisconnect | src/client.rs:618-634 | After Reconnect a new call of client_connect without a sleep; otherwise the client ends. |
| ChatTheorems.ChatAlways | examples/chat-server/src/main.rs:26-184 | In every run each live id is in exactly one room, once; rooms hold only live ids; every queued Send names a room that exists or that an earlier queued Join creates; the only possible panics of the server are a Join for an id already disconnected and a text to an ended session. |
| ChatTheorems.Step | examples/chat-server/src/main.rs:26-184 | Every event keeps that. |
| ChatTheorems.ChatRunsTheLibrary | src/server.rs:131-226 | Every run of the chat server is a run of the server model underneath. |
| ChatTheorems.PickIsUnique | examples/chat-server/src/main.rs:66-70 | The result of find_map does not depend on the order of the HashMap. |
| ChatTheorems.SearchSucceeds | examples/chat-server/src/main.rs:43 | With fewer than 255 live sessions the search finds the least free id. |
| ChatTheorems.ConnectKeeps | examples/chat-server/src/main.rs:37-57 | on_connect keeps the index and never panics. |
| ChatTheorems.DisconnectKeeps | examples/chat-server/src/main.rs:59-73 | The assert and the expect of on_disconnect never fail. |
| ChatTheorems.SendKeeps | examples/chat-server/src/main.rs:77-98 | The room and the sessions of a Send are always found; it panics exactly if a recipient has ended. |
| ChatTheorems.JoinKeeps | examples/chat-server/src/main.rs:99-124 | A Join panics exactly if its id is no longer live, or its own session or one already in the room it goes to has ended, all read off the state before the call; otherwise it keeps the index. |
| ChatTheorems.SendIsHeard | examples/chat-server/src/main.rs:95-97 | Unless it panics, a Send puts its text once into the queue of everyone in the room but the sender, and of nobody else. |
| ChatTheorems.JoinIsHeard | examples/chat-server/src/main.rs:112-123 | Unless it panics, a Join leaves everyone where they were but its id, which is in the new room alone, and puts one text, naming the id in decimal digits and the room, once into the queue of everyone in the new room, the newcomer included, and of nobody else. |
| ChatPanics.TextToTheDead | examples/chat-server/src/main.rs:119-123 | A run in which the unwrap of a text fails: a session asks to join a room and ends before its call is handled. |
| ChatPanics.JoinOfTheGone | examples/chat-server/src/main.rs:100-104 | A run in which the expect of a Join fails: that session's disconnect is handled first. |
| ChatPanics.JoinLine | examples/chat-server/src/main.rs:148-152 | The line of that session is parsed as a command to join. |
| ChatTheorems.TextKeeps | examples/chat-server/src/main.rs:146-171 | on_text keeps every promise about rooms, its session's own included. |
| ChatTheorems.LineEffect | examples/chat-server/src/main.rs:146-171 | Which call on_text puts in the server's queue, which room the session is in, and when it crashes, told by the line itself and by whether the server is gone. |
| ChatLines.LineMeaning | examples/chat-server/src/main.rs:146-171 | What a line means, said without the parser, in both directions: it is said exactly if it has no slash; it goes to a room exactly if it is "/join", whitespace, that word and a tail; it lacks a room exactly if "/join" stands alone; otherwise it is nothing. |
| ChatLines.JoinParses | examples/chat-server/src/main.rs:148-152 | Every line of that form is a command to join that room. |
| ChatLines.ParsedJoin | examples/chat-server/src/main.rs:148-160 | Every command found in a line is there in that form. |
| ChatLines.DecimalReads | examples/chat-server/src/main.rs:121 | The digits that name an id read back as that id, without a needless zero. |
| ChatLines.GreetingGreets | examples/chat-server/src/main.rs:121 | The greeting names the id and the room. |
| ChatTheorems.MovedMembers | examples/chat-server/src/main.rs:99-110 | After a Join its id is in the new room and no other, and everyone else is where they were. |
| ChatTheorems.LeftMembers | examples/chat-server/src/main.rs:66-71 | After an id has left its room, everyone else is where they were. |
| ChatTheorems.RoomsPush | examples/chat-server/src/main.rs:151-168 | Queuing a Send for one's own room, or a Join and moving there, keeps room existence. |
| ChatTheorems.RoomsPop | examples/chat-server/src/main.rs:75-81 | Handling the head of the queue keeps room existence. |
| ChatTheorems.BroadcastOutcome | examples/chat-server/src/main.rs:95-97 | Texts to known ids fail exactly if one of the sessions has ended. |
| ChatTheorems.SlashHasCommand | examples/chat-server/src/main.rs:148-150 | A line that starts with a slash has a first word. |
| ChatServers.ChatServer.constructor | examples/chat-server/src/main.rs:26-30 | The server starts with an empty default room, in the initial state. |
| ChatServers.ChatServer.FindId | examples/chat-server/src/main.rs:43 | The least id not in use. |
| ChatServers.ChatServer.OnConnect | examples/chat-server/src/main.rs:37-57 | Realizes on_connect's step: the new session, its id and its place in the default room are entered, and it never panics. |
| ChatServers.ChatServer.FindPosition | examples/chat-server/src/main.rs:69 | The first position of the id, if there is one. |
| ChatServers.ChatServer.FindRoom | examples/chat-server/src/main.rs:66-70 | A room with the id and its position there, if some room has it, in any order of the map. |
| ChatServers.ChatServer.TakeFromRoom | examples/chat-server/src/main.rs:66-71 | One entry is removed from one room that held the id; nothing if none did. |
| ChatServers.ChatServer.OnDisconnect | examples/chat-server/src/main.rs:59-73 | Realizes on_disconnect's step: both maps lose the id, and it never panics. |
| ChatServers.ChatServer.Tell | examples/chat-server/src/main.rs:84-97 | Realizes a broadcast, with its two panics. |
| ChatServers.ChatServer.SendAll | examples/chat-server/src/main.rs:95-97 | Every session is sent the text, in order, up to the first that has ended. |
| ChatServers.ChatServer.SendText | src/session.rs:118-126 | A text is queued exactly if the session's actor has not ended. |
| ChatServers.ChatServer.Except | examples/chat-server/src/main.rs:82-83 | The ids of the room but the sender's, in order. |
| ChatServers.ChatServer.OnSend | examples/chat-server/src/main.rs:77-98 | Realizes a Send's step: the room and the sessions are found, and it panics exactly if a recipient has ended. |
| ChatServers.ChatServer.OnJoin | examples/chat-server/src/main.rs:99-124 | Realizes a Join's step: exactly when it panics and at which of the two places, told from the state before the call. |
| ChatServers.ChatServer.AddToRoom | examples/chat-server/src/main.rs:106-110 | The id is added at the end of the room, created if need be. |
| ChatServers.ChatServer.OnText | examples/chat-server/src/main.rs:146-171 | Realizes on_text's step: which call the line adds to the server's queue, and the session's room with it. |
| ChatServers.ChatServer.React | examples/chat-server/src/main.rs:155-169 | The call is queued, or the session crashes because the server is gone. |
| ChatServers.ChatSession.OnText | examples/chat-server/src/main.rs:146-171 | Said without the parser: a line without a slash asks for a Send of that text to the session's room; a line asks to join a room exactly if it is "/join", whitespace, that word and nothing or whitespace and anything, and then the session is there; it panics exactly at a bare "/join"; any other slash line does nothing. |

## Left out

- Accept loops, TLS, the HTTP upgrade and the axum extractor (src/server_runners/): I/O over libraries that are not part of this model.
- Connectors (src/client_connectors/): `connect` is a nondeterministic success or failure.
- Configuration builders, URLs and headers of the client (src/client.rs:91-229), and the conversions of close codes and message enums: each would add only easy members.
- `call_with` of server, session and client: a reply channel around an ordinary call.
- The wasm variants, logging, the latency trace beyond its payload, and the other examples.
- Internals of the channels and the scheduler: wakers, cooperative budgets and memory ordering.  A queue whose receiver is gone is destroyed one entry at a time, at any moment.
- Clones of an `InMessage` that a user makes from a send error: the crate never clones one, and here the message inside the error is dropped at once.
- Closed queues of a session or of the server while they run: a session's own handles and the server's own handle stay alive, so `recv` returning `None` and the `else` branch at src/server.rs:218 are not modelled.
- A session created inside an `on_connect` that then refuses the connection: it is no part of the server's state.
- The order of teardown in `Socket::new` (src/socket.rs:563-572) and when `await_sink_close` returns: the remote stream controls it.  The sink's abort and the heartbeat's abort are free events; of the sink's result it is kept that it can be had once.
- Loops that may go on for ever (`Run`, `RunSink`, `Task`, `WatchForShutdown`) take a number of turns; what happens in the limit is the subject of `drain.dfy`.
- Which of several ready branches an unbiased `select!` picks: any.
- Composition into one state of sessions, pipelines and heartbeats: the server model contains the session actors; the pipeline, the heartbeat and the client have their own runs, with the rest as their environment.
- Clients.ClientActor.Send: a message handed to a socket is an attempt to send it; whether its sink accepts it is the pipeline's subject.
- Heartbeat.HeartbeatTask.HandleSleepElapsed: the silence is read and the ping queued at one instant; delays between them count as wake-up latency.
- Heartbeat.DetectionBound: a silence already longer than `timeout` at the first poll is found one heartbeat after that poll, so there the bound is counted from `delay`; the lemma says for which frames.
- ChatServers.ChatServer.Tell: the ids of the room are all looked up before the first text is sent, where a Join in the source alternates; this differs only when a lookup panics, and `JoinKeeps` shows that none does.
- ChatSpec: what a handler does happens when the actor calls it, sessions do nothing before `on_connect` returns, and the echo of binary messages (lines 173-178) is an ordinary submission.

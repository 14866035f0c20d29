# A verified model of the DistRes coordination engine

DistRes lets several client nodes share one append-only specification file through one server. This project
models the parts that make that safe, and proves what they promise over whole runs.

* **Readers-writer lock and data layer.** `ReadWriteLock.dfy` holds the monitor, as a class and as functions on
  its value. `LockSystem.dfy` runs any finite set of reads and writes over it: every region that holds the mutex is
  one step, a wait queue holds the threads not yet notified, `notify` may pick any of them, a thread whose wait timed
  out stays in its queue until it retakes the mutex, the clock never goes back, and inside the critical section the
  file access and the version access are separate steps. `Linearizability.dfy`, `LockTheorems.dfy` and `Progress.dfy`
  prove the theorems; `DataLayer.dfy` is the data layer object, and `FileLines.dfy` reads writers and texts back off the
  lines of the file.
* **Wire protocol.** `Json.dfy` is the printer and the parser for what travels (objects, strings, integers, null),
  over Python strings, that is, code points including surrogates. `JsonRoundTrip.dfy` proves what survives.
  `JsonGrammar.dfy` is the grammar of RFC 8259, written down without the printer and the parser: what is printed follows
  it, and `JsonReading.dfy` proves that the parser accepts exactly its texts. `Framing.dfy` proves re-assembly from
  arbitrary chunks, with many senders on one socket.
* **Correlation.** `Correlation.dfy` is the client connection with its callers, heartbeat and listener, against the
  server's dispatch loop, over connections that are replaced; `CallAnswers.dfy` says exactly why a call returned what it
  did, and what was written for it. `Connection.dfy` is the connection object.
* **Admission, broker and publishing.** `Admission.dfy` is the session semaphore and the registries under concurrent
  handlers, `Sessions.dfy` what a LOGIN is answered and what a logged-in connection may rely on; `PubSub.dfy` is the
  broker; `PublishOrder.dfy` puts replies and events after the data layer.
* **Client cache.** `ClientCache.dfy` is the node's snapshot and stale flag.
* **Everything together.** `Messages.dfy` and `OperationMessages.dfy` are the vocabulary of the protocol as JSON
  objects, and `MessagesOnWire.dfy` shows what the receivers read in the objects that arrive. `Cluster.dfy` is the
  product of the data layer of `LockSystem`, any number of client connections of `Correlation` and their caches: the
  handlers run requests as operations, reply with what these returned and announce committed writes. It proves what
  users see: displayed snapshots are states of the log, and calls at all nodes together are ordered as the log is.
  `NodeViews.dfy` says what a node displays there, and what its stale mark means.

`Runs.dfy` holds runs and the induction over them, `Option.dfy` an optional value.

How the parts join: `Framing` shows that a connection delivers whole messages in order, and `DownArrives` and
`UpArrives` that a listener and a handler read off the bytes exactly the responses, events and requests of the other
side, with their ids and bodies, so `Correlation`, `PublishOrder` and `Cluster` use sequences of messages;
`PublishOrder` runs over the same data layer and over the registry of `PubSub`.

Promises that the code does not keep in full, each with a run that shows it and the exact condition. Where a comment
promises more than the code does, the code was followed:

* A writer that gives up notifies nobody, so readers queued behind it stay asleep although the gate is open
  (`LateReader`). `LateReaderIff` says exactly when a reader is in that position: a write acquire timed out while
  readers were queued, nobody wrote and no other writer waited (`BeginsIff`), and since then neither has a writer
  entered or queued nor has the last queued reader admitted itself at its own deadline (`EndsIff`).
* The docstring of connection.py promises a transparent re-login. The re-login runs on the listener thread, which alone
  could deliver its reply, so it never gets one (`ReloginNeverAnswered`); `ReloginInVain` is a run in which the server
  does answer it and it still times out.
* A second LOGIN on a connection that holds a session takes a second slot and forgets the first (`SecondLoginLeaks`);
  `SlotsConserved` counts exactly what is lost.
* A logged-in engineer is meant to be active and subscribed. Two connections that race to log in as the same engineer
  both get in, and when one leaves the other is neither (`RaceDelists`). `ListedIff` says exactly when it is: unless
  another handler has withdrawn that engineer, or a delivery to it has failed, and nobody has put it back since.
* The comment on `content_stale` in client_node.py says that the mark reports a newer version. An event that comes late
  marks a snapshot that is still the whole log (`LateEventAlarms`). `MarkMeaning` says exactly when: a current snapshot
  is marked if and only if an older version was told since it was read, and otherwise a mark means the log has moved.
* A failed delivery unsubscribes by id, so it can remove the newer callback of a reconnected client (`StaleFailure`).
  It removes a newer callback exactly if the last change naming that id since the snapshot subscribed that callback
  (`StaleFailureIff`).
* An adjacent pair of lone surrogates in a string comes back as one character (`PairBecomesOne`); `SurvivesIff` says
  exactly which values come back as they were sent.
* Every committed write is meant to be published; it is exactly when its reply could be sent (`PublishedIffReplied`),
  and `CommittedUnpublished` is a run in which it could not.

## Model

| member | source | states |
|---|---|---|
| ReadWriteLocks.ReadWriteLock.AcquireRead | rwlock.py:46-59 | the wait loop of a reader, for every sequence of wake-ups, is a chain of passes, each the atomic region of the step system |
| ReadWriteLocks.ReadWriteLock.AcquireWrite | rwlock.py:69-87 | the same for a writer, which announces itself first and withdraws on every way out |
| ReadWriteLocks.ReadWriteLock.ReleaseRead | rwlock.py:61-67 | one reader fewer; the last one notifies one queued writer |
| ReadWriteLocks.ReadWriteLock.ReleaseWrite | rwlock.py:89-96 | one writer fewer; all queued readers and one queued writer are notified |
| LockSystem.LockInvAlways | rwlock.py:42-96 | in every reachable state the counters equal the sizes of the sets reading, writing and waiting to write, the queues hold only waiters, and no wake-up is lost |
| LockTheorems.MutualExclusion | rwlock.py:3-21 | at most one thread writes, and none reads while one writes |
| LockTheorems.TimeoutSound | rwlock.py:46-87 | an acquire returns False only at or after call time plus timeout, while its guard is blocked, and leaves nothing behind |
| LockTheorems.DeadlineFromCall | rwlock.py:50-50 | the deadline of a thread is the clock at its own call plus its timeout |
| LockTheorems.FlagMeaning | rwlock.py:76-96 | the observation flag is set only after a timed-out write acquire with no write released since |
| LockTheorems.BeginsIff | rwlock.py:75-87 | a step leaves readers queued behind an open gate if and only if it times out a write acquire while readers are queued, nobody writes and no other writer waits |
| LockTheorems.EndsIff | rwlock.py:53-87 | a step ends that if and only if it admits the last queued reader at its own deadline, or a writer enters or starts to wait |
| LockTheorems.LateReaderIff | rwlock.py:53-96 | over whole runs: a reader is queued behind an open gate if and only if such a timeout has happened and nothing has ended it since |
| LockTheorems.ReaderWakeUp | rwlock.py:53-58 | so it has a timed-out write to blame with no write released since, and its own deadline wake-up admits it |
| LockTheorems.LateReader | rwlock.py:76-87 | a run in which a reader stays queued behind an open gate |
| LockTheorems.NoLostWriterWakeUp | rwlock.py:61-67 | whenever the lock is empty and a writer waits, some notified writer has not resumed yet |
| LockTheorems.WriterPreferred | rwlock.py:69-87 | while a writer waits no reader is admitted, readers drain one per release, and when they are gone a writer is notified |
| LockTheorems.AcquireIsLoop | rwlock.py:46-87 | every acquire of every run is the loop of the class fed with the wake-ups of that run |
| Progress.StepLowers | rwlock.py:46-96 | every step, timeouts included, lowers phases left, then notified threads |
| Progress.RunsAreShort | data_layer.py:121-167 | a run over n operations has at most 6n(n + 1) steps |
| Progress.SomeoneMoves | rwlock.py:46-96 | unless a write acquire timed out, an unfinished system has a thread that can move without a deadline |
| Progress.Completes | rwlock.py:18-20 | a run without write timeouts that only deadlines could extend has answered every operation |
| Progress.NeverStuck | rwlock.py:18-20 | whatever has timed out, an unfinished operation can always be moved, if need be by its own deadline |
| Progress.MaximalRunsComplete | rwlock.py:18-20 | every run that cannot be extended has answered every operation |
| Linearizability.SystemInvAlways | data_layer.py:121-167 | at every step the file and the counter agree with the log, except between a writer's two accesses |
| Linearizability.Linearizable | data_layer.py:121-167 | every concurrent run has a legal sequential history of an atomic append-only log that contains only operations of the run and every returned one with its answer, and respects real time |
| Linearizability.ReturnedMeaning | data_layer.py:121-167 | a read returned the initial text and exactly the first `version` lines; a write's line is line `version` |
| Linearizability.VersionsExact | data_layer.py:158-165 | the versions of successful writes are exactly 1..n, each once |
| DataLayers.DataLayer.ReadResource | data_layer.py:121-140 | a read returns the file as the other threads left it, with its version, or reports the timeout; the lock is released |
| DataLayers.DataLayer.WriteResource | data_layer.py:142-167 | a write appends exactly one line, with stamp, user id and text spelled out, to the content as the others left it, and returns the new number of lines, or changes nothing |
| FileLines.LineTells | data_layer.py:156-159 | a reader of one line, defined without the writer of lines, recovers stamp, user id and text, for stamps without `]` and ids without `:` |
| FileLines.LogTells | data_layer.py:156-165 | line `v` of the log is read as stamp, writer and text of the write that returned version `v` |
| JsonRoundTrip.CharsRoundTrip | protocol.py:52-88 | parsing a printed string gives it back with adjacent surrogate pairs joined |
| JsonRoundTrip.ValueRoundTrip | protocol.py:52-88 | parsing the printed text of a value, whatever follows it, gives the value as the wire leaves it |
| JsonRoundTrip.DumpsLoads | protocol.py:85-88 | json.loads of json.dumps gives that value |
| JsonRoundTrip.SurvivesIff | protocol.py:52-88 | a value comes back as it was sent if and only if keys are unique and no string holds an adjacent surrogate pair |
| JsonRoundTrip.TextPrintable | protocol.py:9-16 | the printed text is printable ASCII, so the delimiter cannot occur in it |
| JsonGrammar.PrintFollows | protocol.py:52-56 | the printed text of every value is a text of that value in the grammar of RFC 8259 |
| JsonGrammar.EncodeFollows | protocol.py:9-16 | every message sent is one such text, without a newline in it, and a newline |
| JsonReading.LoadsIff | protocol.py:85-88 | for any bytes at all: json.loads gives a value if and only if they are a text of the grammar, and the value is that of the text, as it is received |
| JsonReading.DictMeaning | protocol.py:85-88 | a received object has each key once, in the order of first occurrence, with the last value that the text gives for it |
| JsonReading.UnreadableIff | connection.py:212-221 | a line is reported as unreadable if and only if it is no text of the grammar |
| Framing.FramedReader.ReadMessage | protocol.py:75-88 | for every cutting into chunks it returns the first line of the stream decoded and keeps the rest, or None when no whole line is left |
| Framing.FramedReader.ReadAll | server.py:75-80 | the loop around it returns exactly the frames of the stream |
| Framing.FramesOfEncodings | protocol.py:52-88 | the frames of a list of encoded messages and an unfinished line are the messages, in order |
| Framing.TruncatedStream | protocol.py:75-88 | of a truncated stream exactly the messages whose delimiter arrived come out |
| Framing.WellFormedArrive | protocol.py:9-16 | well-formed messages arrive exactly as sent |
| Framing.InterleavedSenders | server.py:55-68 | with sends under one lock, possibly failing half way, the receiver decodes exactly the completed sends, each sender's in its own order |
| Correlation.InvAlways | connection.py:119-239 | ids, slots, pending table, listener and connections stay consistent in every interleaving |
| Correlation.EndToEnd | connection.py:119-146 | a call returns the server's answer to its very request or one of three local errors, lost only if its slot was failed; each slot is filled at most once |
| Correlation.NobodyForgotten | connection.py:186-194 | a caller whose event is not set has its slot in the table or in the listener's hands, so a reply or a reconnect will find it |
| Correlation.Exchange | connection.py:119-146 | any quiet run goes on with a request that is answered with whatever the handler replies |
| Correlation.IdsAreUnique | connection.py:74-74 | ids are never reused, by calls, heartbeats or across connections |
| Correlation.AnsweredInOrder | server.py:88-115 | on a connection the responses answer the first requests taken, in order, once each |
| Correlation.StrayReplyIgnored | connection.py:225-235 | late replies and replies to heartbeats alter no slot |
| Correlation.ReloginNeverAnswered | connection.py:180-200 | the re-login inside `_reconnect` ends as unavailable or timed out in every run |
| Correlation.ReloginInVain | connection.py:196-223 | any run goes on with a re-login that the server answers and that times out all the same |
| CallAnswers.AnswerIff | connection.py:119-146 | over whole runs: a call is unavailable if and only if its send failed, timed out if and only if its wait ran out with the event not set, lost if and only if neither and a reconnect found its slot, and gets a reply if and only if neither and the listener put that reply there |
| CallAnswers.WrittenIff | connection.py:125-138 | the request of a call is on a wire if and only if its send succeeded, or raised after it had gone out |
| CallAnswers.HeartbeatWritten | connection.py:241-255 | a heartbeat that goes out is a PING under an id that no wire carries yet |
| CallAnswers.ReconnectWakesAll | connection.py:186-194 | once a reconnect has begun, the event of every caller that is waiting is set and the table is empty |
| CallAnswers.ReadInOrder | connection.py:208-223 | on every connection the listener has read the first messages that the server wrote there, each once, in order |
| Connections.ServerConnection.HandleIncoming | connection.py:225-239 | a response fills exactly the slot under its id and takes it out of the table |
| Connections.ServerConnection.FailPending | connection.py:188-194 | every pending slot is failed and the table emptied |
| Connections.ServerConnection.Request | connection.py:119-146 | a request draws the next id, answers by what the listener does first, and leaves no slot behind |
| Connections.ResolveMeaning | connection.py:141-146 | the answer is the first reply under the own id unless a reconnect comes first, and a timeout exactly if neither comes |
| Admission.InvAlways | server.py:119-251 | handlers, slots, semaphore and registries stay consistent in every interleaving |
| Admission.AdmissionBound | server.py:136-150 | active users and subscribers are always labels of slots that are out, so at most five of each |
| Admission.NeverOverReleased | server.py:237-239 | a slot is returned only while fewer than all are free |
| Admission.SlotsConserved | server.py:230-239 | free slots, holders and slots forgotten by second logins are MAX_SESSIONS at every step |
| Admission.NothingLeaks | server.py:241-246 | when all handlers have ended the pool is whole if and only if there was no second login, and then the registries are empty |
| Admission.SecondLoginLeaks | server.py:139-147 | a run in which a second login loses a slot |
| Sessions.ListedIff | server.py:139-155 | a logged-in connection's engineer is active, and subscribed, exactly unless another handler has withdrawn it or a delivery to it has failed since its own login, and nobody has put it back |
| Sessions.RaceDelists | server.py:131-155 | a run in which two connections log in as one engineer and the one that stays is listed nowhere |
| Admission.ClientHandler.HandleLogin | server.py:119-162 | logged in if and only if the login is authentic, the engineer was not active and a slot was free, and exactly then a session and a slot are taken; each refusal if and only if its own cause holds, and then nothing changes |
| Admission.ClientHandler.ReleaseSession | server.py:230-239 | the release withdraws subscription and registration exactly of a logged-in engineer, returns a slot exactly if one was held, and is idempotent |
| Admission.LoginContinues | server.py:119-162 | the steps of an undisturbed login do what the method does and give its answer, from any state of any run |
| Sessions.LoginAnswered | server.py:119-162 | in every interleaving each answer to a LOGIN has its own cause: wrong credentials, the engineer seen active, no free slot seen, or a slot taken |
| Sessions.LoggedInIff | server.py:136-162 | a LOGIN was answered "logged in" if and only if it took exactly one slot, and otherwise it took none |
| Admission.ReleaseContinues | server.py:230-246 | the steps of an undisturbed logout or cleanup do what the method does |
| PubSub.PubSubBroker.Publish | pubsub.py:55-81 | every callback of the snapshot is called once in order, the result counts those that did not raise, and the registry is what the interleaved changes make of it |
| PubSub.PubSubBroker.Subscribe | pubsub.py:40-43 | the id has the new callback, every other id keeps its own, and the order of delivery stays with a new id last |
| PubSub.PubSubBroker.Unsubscribe | pubsub.py:45-48 | the id has no callback, whether it had one or not; every other id keeps its own and its place |
| PubSub.Determined | pubsub.py:34-34 | ids in order and their callbacks determine the registry, so these contracts leave nothing open |
| PubSub.RegistryMeaning | pubsub.py:40-48 | the last change naming an id decides whether it is registered and with which callback |
| PubSub.LeavesIff | pubsub.py:66-75 | at any moment of a publish a registered id leaves with the next change if and only if another thread unsubscribes it or a delivery to it has failed |
| PubSub.LeavesOnlyForCause | pubsub.py:66-75 | an id registered at one moment of a publish and not at a later one has left for one of these causes in between |
| PubSub.FailureRemoves | pubsub.py:72-75 | a failed delivery takes away whatever registration its id has by then |
| PubSub.StaleFailureIff | pubsub.py:63-75 | that is a newer callback if and only if the last change naming that id since the snapshot subscribed that callback |
| PubSub.StaleFailure | pubsub.py:72-75 | a failed delivery to an old callback removes a newer registration of the same id |
| PublishOrder.EventsFollowCommits | server.py:207-217 | every event on a wire announces a version committed before, and on the writer's own connection comes after the reply to that write |
| PublishOrder.RepliesAreAnswers | server.py:108-115 | every reply on a wire was sent by the handler of its operation and is the answer of the atomic log |
| PublishOrder.EveryoneServed | pubsub.py:63-75 | whoever is registered when a publish begins has the event on its wire when it has finished, unless its own delivery raised |
| PublishOrder.RegistrationStep | pubsub.py:40-75 | a failed delivery takes away the registration of its own id, a change does what it says to the id it names, and nothing else touches the callback of any id |
| PublishOrder.StaysSubscribed | pubsub.py:40-75 | over whole runs: who is subscribed stays so with the same callback until its own delivery fails or its own subscription is changed |
| PublishOrder.SubscriberServed | pubsub.py:63-75 | so it gets the event of every later publish, unless that delivery raises, whatever happens to the others |
| PublishOrder.OnlySubscribersServed | pubsub.py:63-75 | whoever has the event was registered when that write's publish began |
| PublishOrder.VersionsPublishedOnce | server.py:207-217 | no version is published twice |
| PublishOrder.PublishedIffReplied | server.py:207-217 | in the end a committed write has been published if and only if its reply was sent |
| PublishOrder.CommittedUnpublished | server.py:207-217 | any run with a free lock goes on with a write that is committed and never published |
| ClientCache.ClientNode.OnEventReceived | client_node.py:61-87 | an event records its version; content, its version and the loaded flag stay, and the snapshot is marked exactly if it was or the event names another version |
| ClientCache.ClientNode.ApiLogin | client_node.py:122-138 | a successful login leaves nothing loaded, no content and no mark, with the replied version; a failed one changes nothing |
| ClientCache.ClientNode.ApiLogout | client_node.py:140-152 | after a logout nothing is loaded, the content is empty, and there is no version and no mark |
| ClientCache.ClientNode.ApiRead | client_node.py:154-167 | a successful read displays its content and version, loaded and unmarked; a failed one changes nothing |
| ClientCache.ClientNode.ApiWrite | client_node.py:169-186 | a successful write records its version and leaves the content, and the snapshot is marked exactly if it was or the version is another; a failed one changes nothing |
| ClientCache.StaleIff | client_node.py:71-82 | since the last read the snapshot is marked stale if and only if an event or write reply named another version |
| ClientCache.MarkIsRightIff | client_node.py:54-82 | the mark reports a newer version exactly unless the only other versions named since the read are older |
| OperationMessages.ReplyTells | server.py:181-213 | a node reads back from a reply exactly whether the operation succeeded, its version, its content or its message |
| OperationMessages.AskTells | connection.py:111-117 | the dispatch runs exactly the operation that the node's call asks for, and a write that names no content is one of the empty text |
| OperationMessages.AnnounceTells | server.py:207-217 | a node finds in the event of a write its topic, its version, who wrote and what |
| OperationMessages.PingAsksNothing | server.py:224-226 | a heartbeat asks for no operation |
| MessagesOnWire.ReadAsSent | connection.py:225-239 | a receiver, which looks only at type and id, finds in each kind of message the type, the id and the body that were put in, and no id in an event |
| MessagesOnWire.DownArrives | connection.py:208-239 | a listener hears off the bytes exactly the responses and events that the server wrote, in order, with ids and bodies |
| MessagesOnWire.UpArrives | server.py:75-92 | a handler takes off the bytes exactly the requests that the client wrote |
| MessagesOnWire.ExchangeArrives | protocol.py:52-88 | requests for operations and their replies arrive over the byte stream as they were sent, for every content, and are read as that request and that response, with that id |
| MessagesOnWire.EventArrives | server.py:60-68 | the event that announces a committed write arrives over the byte stream and is read as that event, with its version |
| Cluster.WorldInvAlways | server.py:88-217 | data layer, connections, requests being run, replies, events and views stay consistent in every interleaving |
| Cluster.OkIsOperation | server.py:172-213 | a call that came back with success was run by the server as the operation it asked for and carries exactly its outcome |
| Cluster.OnlyCallsRun | connection.py:241-255 | every operation that the server has run was asked for by a call of the node, so none was run for a heartbeat |
| Cluster.CacheIsSnapshot | client_node.py:61-186 | in every interleaving the content a node displays is the server's log at its version, and loaded and not stale means the last recorded version is that version |
| Cluster.CallsInOrder | data_layer.py:121-167 | if one call was replied to before another began, at any two nodes, its operation comes first in the log's order |
| Cluster.VersionsGrow | client_node.py:154-186 | a call begun after a successful one came back never carries an older version, and a write carries a newer one |
| Cluster.ReadsGrow | client_node.py:154-167 | what one read showed is the beginning of what every later read shows, at any node |
| Cluster.WritesAreRead | client_node.py:154-186 | a read begun after a write came back with version `v` shows content in which everything before line `v`, then the line itself with stamp, user id and exactly the written text, then what came later can be told apart |
| Cluster.ReadIsServed | client_node.py:154-167 | any run with a quiet node and an open gate goes on with a read that shows the whole log |
| NodeViews.MarkedIff | client_node.py:61-82 | over whole runs: since its last read a node's snapshot is unchanged, and marked stale if and only if the node was told another version |
| NodeViews.MarkMeaning | client_node.py:71-82 | told a newer version, the snapshot is marked and outdated; a snapshot that is still the whole log is marked if and only if an older version was told |
| NodeViews.LateEventAlarms | client_node.py:71-74 | any run with a quiet node that shows the whole log and an event still to come goes on with a false alarm |
| NodeViews.DisplaysIff | client_node.py:122-167 | over whole runs: a node displays content if and only if a successful read was shown there with no login and no logout since, and it is the content and version of that read; otherwise it displays nothing and no mark |
| NodeViews.VersionIff | client_node.py:61-186 | a node displays a version if and only if it is the last one given to it, and it has not logged out since |
| NodeViews.RepliesAreShown | client_node.py:122-186 | what a user sees after a call is what the reply to it says: its version and, for a read, its content if the status is OK, and otherwise no change, but for a logout, which always clears |
| NodeViews.EventsNoted | connection.py:225-239 | no event is lost, doubled or reordered between listener and view: the callback has run with exactly the events that the listener has read, in order, but for the one in its hands |
| NodeViews.ShownOnce | client_node.py:122-186 | a call that has come back updates the view at most once |

## Left out

- Sockets, threads, SQLite, Flask, the dashboard, argparse and console output; authentication is a parameter of a login.
- The console display state of the server: reader and writer sets, log ring, `list_users`, and the node's notification feed.
- `cli_client.py`, and the back-off times between connection attempts.
- `close()` of a client connection, and the `_running` flag it clears.
- File newline translation, encoding errors, failing file I/O and a server restart, after which versions begin at 0 again.
- JSON beyond what is sent: arrays, booleans and floats, and bytes outside ASCII, are read errors and not in the grammar; Python's limits on nesting depth and on digits of an integer.
- The order in which `notify` picks a waiter: any queued thread may be picked, which covers every order.
- ReadWriteLocks.ReadWriteLock.AcquireRead: one method call cannot be interrupted, so what other threads do during `wait` is handed in as the list of wake-ups; `AcquireIsLoop` shows that the runs provide such lists.
- DataLayers.DataLayer.ReadResource: for the same reason the lines committed by others meanwhile are handed in; the unrestricted interleaving is that of `LockSystem`.
- A write request whose content is not a string of Unicode scalar values: the server formats other values into the line, or fails to encode them, after taking the lock.
- Sessions inside `Cluster`: whether a handler runs an operation or answers "Not logged in" is left open there; `Admission` is where sessions are proved.
- The fan-out inside `Cluster`: an event that announces a committed write may be sent to a node at any later time, once, often or never; `PublishOrder` is where the fan-out is proved.
- Connections.ServerConnection.Request: for the same reason the listener's acts during the wait are handed in; the unrestricted interleaving is that of `Correlation`.
- PubSub.PubSubBroker.Publish: the other threads' changes to the registry around each delivery are handed in.

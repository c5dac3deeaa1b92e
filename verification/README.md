# Three-tier equipment controller: a verified model

A client talks to `equipmentd`; `equipmentd` talks to two controllers, the PMC (process chambers) and the
TMC (transfer module); the PMC talks to the device simulators and, for chamber 1, to a heater on a serial
line. All TCP links carry one line per message. This project models the six layers that decide what the
system does and proves how they behave, alone and together:

| file | what it holds |
|---|---|
| `Text`, `Decimal`, `Message`, `Codec`, `CodecBuffers`, `CodecCases` | the line format: printer and parser as functions, the same as in-place code on buffers, how they undo each other, and the lines where they do not |
| `Stream`, `Session`, `WireTrip` | the 4096-byte framing buffer, reads of any size, and the whole wire stack |
| `Tracker`, `Registry`, `Scheduler`, `Router`, `Daemon`, `DaemonRuns`, `Replies`, `TagRuns`, `ClientEvents`, `ConnTable`, `Links`, `DaemonCases` | `equipmentd` as a class, as a step machine, over all runs, field by field, and the runs in which it fails |
| `PmcConnections`, `AuxLink`, `Pmc` | the PMC: connection list, heater gate, interlock, routing |
| `Fsm`, `ProcessModel`, `Sim`, `Cluster`, `ClusterCases` | a simulator, and the PMC joined to any number of simulators by channels |
| `Tmc` | the transfer module and what its reports mean for the registry |
| `Correlation`, `Plant`, `PlantRuns` | who answers whom: the whole plant as one state machine, end to end |

Code that updates fields, buffers, arrays or lists is modelled as classes and in-place methods, each proved
against a specification function; the theorems about runs are about those functions. `dfyconfig.toml` lists
the files.

## How the program's world is modelled

- A byte is a `char`, a C string ends at its first NUL, and a `has_x` flag with its field is an `Option`.
- `uint32_t` and `int32_t` casts wrap; sequence numbers are 32 bits wide; times are unbounded integers.
- Doubles are integer hundredths on the wire and reals in the process model.
- Every `write`, `send` and serial exchange of a class has an arbitrary outcome given from outside. What is written
  goes to an outbox, whole or not at all. Closed connections vanish from their tables.
- `accept` returns a descriptor number that is not open, so numbers come again (`Links`); in `Plant` a client is a descriptor
  number, and the number of a controller's closed connection is not given again.
- Time is a parameter of each step; it need not be monotone unless a theorem says so.
- TMC and `equipmentd` read the same clock in the health theorem.
- In `Plant` any client may send any line at any time, at any descriptor but the controllers', except a REGISTER that
  would make it a controller; `equipmentd`'s writes may fail; the lines between the nodes are lossless queues.

## Results that contradict what one would expect

The members named below prove each: an input or run where the expected property fails, and the exact condition
under which it holds.

- The round trip fails when the last printed text ends in CR or LF (`CodecCases.NotCanonical`; `Codec.RoundTripExact`,
  `Codec.CanonicalForm`).
- A 512-byte buffer can print a 511-byte line, which `line_parse` refuses (`CodecCases.PrintedOnceReadNever`;
  `Codec.PrintedButUnreadable`).
- A line that does not fit the caller's buffer is never dropped: nothing behind it is ever delivered
  (`CodecCases.LongLineBlocks`; `Stream.DrainIsSplit`, `Stream.StuckForever`).
- The scheduler never starts anything. `module_registry_touch_status` receives the state but does not store
  it, so the modules never have one (`Registry.StaysStateless`, `DaemonRuns.SchedulerIsInert`); the job state is
  just the last acknowledged command (`DaemonRuns.JobIsLastAck`). The job theorems of `Scheduler` hold for any
  module snapshots, as if states were stored.
- The job moves before its START is written. A failed write loses the START and nothing repeats it
  (`DaemonCases.LostStart`; `DaemonRuns.SchedulerSends`, `DaemonRuns.LostStartWaits`, `Scheduler.LostStartIsNotRetried`,
  `Scheduler.WaitEnds`). As the program is composed no START is ever due, for the reason above: the state of `LostStart`
  has module states recorded, and no run from the start reaches it.
- A relay that cannot be printed again or written keeps its entry, blocks the scheduler until the timeout, and drops
  the healthy controller (`DaemonCases.UnprintableAnswer`; `DaemonRuns.FailedRelayDropsController`).
- Lookup takes the first matching slot, not the oldest request: a younger request can take an older one's response
  (`DaemonCases.YoungerIsAnswered`). For each key the age order is kept exactly while no accepted request gets a slot
  before an older live one with the key (`DaemonRuns.AgeOrderOverRuns`, `DaemonRuns.OldestFirst`).
- A controller closed by the idle scan or after an overflow stays entered as the link. While nobody has its number,
  requests for it reach nobody and cost the asking clients their connections (`DaemonCases.StaleLinkRun`;
  `Links.StaleLinkCost`). A client that is given the number - the next one, if no lower number is free - is taken for the
  controller (`DaemonCases.NewcomerIsTakenForPmc`; `Links.HolderIsAsked`, `Links.HolderAnswers`). A link leads to the connection
  that attached it exactly while nothing happened to it since (`Links.LinkIs`, `Links.WrongLinkEnds`).
- A response reaches the connection that asked exactly if no connection under its number was closed since; else the
  client that was given the number later is handed it (`DaemonCases.NewcomerIsAnswered`; `Links.AnswerReachesAsker`).
- The interlock blocks START in READY although the device would take it; no simulator ever reports READY
  (`Pmc.InterlockIsGuard`, `Cluster.CacheFollowsSimulator`).
- A STOP that passed the interlock is refused by the device when processing runs out first
  (`ClusterCases.LateStop`; `Cluster.RoutedCommandOutcome`).

The protocol document names the device states RUNNING and ERROR where the code says PROCESSING and FAULT, and knows
READY, DONE and RECOVERING besides; the model follows the code.

## Model

| member | source | states |
|---|---|---|
| Codec.RoundTripExact | common/src/protocol/line_codec.c:70-196 | for every message the C struct can hold: printing and parsing gives it back if and only if role and type are known, the texts hold no blank, the last printed value does not end in CR or LF, and the line has at most 510 bytes |
| Codec.ParseOfRender | common/src/protocol/line_codec.c:61-136 | what the printed line of any blank-free message parses to: the message with its last text value stripped of trailing CR/LF, or a refusal exactly when role or type is unknown or the line has more than 510 bytes |
| Codec.ParseRange | common/src/protocol/line_codec.c:70-136 | every accepted line yields a known role and type, texts cut to 31 and 127 bytes, without NUL, space or tab |
| Codec.CanonicalForm | common/src/protocol/line_codec.c:93-196 | for every accepted float-free line: parse, format, parse again returns the first parse exactly when its last value is clean; the stripped message is a fixed point |
| Codec.CanonicalSessionLine | common/src/protocol/line_codec.c:93-196 | a line whose CR/LF are all at its end, as the framing delivers it, is always canonical |
| Codec.RedundantToken | common/src/protocol/line_codec.c:93-133 | a token without `=`, with an unknown key, or whose key is assigned again later can be deleted: the last duplicate wins |
| Codec.ForwardCompatible | common/src/protocol/line_codec.c:83-133 | forward compatibility: inserting such a token, for instance one with an unknown key, anywhere after role and type leaves the parsed message as it was |
| Codec.KeyOrderVanishes | common/src/protocol/line_codec.c:93-133 | swapping two neighbouring tokens with different keys, or without a known one, leaves the parse of the line unchanged |
| Codec.FloatFreeSize | common/src/protocol/line_codec.c:138-196 | every float-free message prints to at most 247 bytes, so every buffer of 248 bytes or more takes it |
| Codec.SizeBoundIsTight | common/src/protocol/line_codec.c:138-196 | the message with the widest fields needs all 247 bytes and fails in a 247-byte buffer |
| Codec.PrintedButUnreadable | common/src/protocol/line_codec.c:74-196 | with 512-byte buffers on both sides exactly the 511-byte lines can be printed but not parsed |
| Codec.LaterHopsLoseNothing | common/src/protocol/line_codec.c:70-196 | what was printed and read once is printed on no more bytes and read as it is on every later hop |
| CodecCases.NotCanonical | common/src/protocol/line_codec.c:61-196 | the line `EVT STATUS msg=a<CR> ok=1` is accepted; printed and parsed again it has lost its carriage return |
| CodecCases.PrintedOnceReadNever | common/src/protocol/line_codec.c:74-196 | a 502-byte line is accepted and printed again on 511 bytes, and that line is refused |
| CodecCases.AcceptedNotPrinted | common/src/protocol/line_codec.c:121-194 | a 508-byte line is accepted, but its message cannot be printed into 512 bytes: each number grows by two decimals |
| CodecCases.LineLayout | common/src/protocol/line_codec.c:138-196 | the line of a message with all its fields, byte by byte: keys, their order, separators, numbers |
| CodecCases.RequestLine | common/src/protocol/line_codec.c:15-59 | the request line of every type, literally, parses to that request |
| Codec.BodyReads | common/src/protocol/line_codec.c:138-189 | the fields printed in the fixed order tokenize and assign back to the same message |
| Codec.BodyEnd | common/src/protocol/line_codec.c:61-68 | which printed values survive the CR/LF strip: all numbers, and texts up to their trailing CR/LF |
| Messages.Vocabulary | common/src/protocol/line_codec.c:15-59 | the role and type words are distinct blank-free tokens that read back; the unknown ones do not |
| Messages.KeyVocabulary | common/src/protocol/line_codec.c:100-132 | the same for the nine keys |
| Decimal.UnsignedReads | common/src/protocol/line_codec.c:101-106 | a printed `uint32_t` reads back through `strtoul` and the cast |
| Decimal.SignedReads | common/src/protocol/line_codec.c:107-112 | a printed `int32_t` reads back through `strtol` and the cast |
| Decimal.Fixed2Reads | common/src/protocol/line_codec.c:121-129 | a value printed with two decimals reads back, in hundredths |
| Text.TokensConcat | common/src/protocol/line_codec.c:83-93 | tokenizing is compositional at a blank |
| CodecBuffers.LineFormat | common/src/protocol/line_codec.c:138-196 | the byte-by-byte printer leaves the line and its NUL in the buffer and returns its length, or -1 exactly when the line, newline and NUL do not fit or the buffer is smaller than 8 |
| CodecBuffers.AppendPiece | common/src/protocol/line_codec.c:145-189 | one snprintf step: appends the field behind what is there, or fails when it would fill the buffer |
| CodecBuffers.LineParse | common/src/protocol/line_codec.c:70-136 | the in-place parser, with its scratch copy, strip, tokenizer and overwritten `=`, computes the parse of the line |
| CodecBuffers.RStripCrlf | common/src/protocol/line_codec.c:61-68 | strips exactly the trailing CR/LF in place |
| CodecBuffers.StrtokR | common/src/protocol/line_codec.c:83-93 | one tokenizer call takes the first token and leaves exactly the text of the later ones |
| CodecBuffers.ApplyField | common/src/protocol/line_codec.c:94-132 | one key=value token, split in place, has the effect of the token; the bytes after it stay |
| CodecBuffers.ParseFields | common/src/protocol/line_codec.c:93-133 | the token loop applies all tokens, later ones over earlier ones |
| Sessions.Session.Feed | common/src/protocol/session.c:9-22 | appends the bytes, or refuses and changes nothing exactly when they would not fit 4096 |
| Sessions.Session.PopLine | common/src/protocol/session.c:24-44 | takes the first line off the front in place and delivers it NUL-terminated; 0 and -1 leave the buffer as it was |
| Sessions.Session.Shift | common/src/protocol/session.c:36-38 | the overlapping move to the front keeps exactly the unread bytes |
| Stream.DrainConserves | common/src/protocol/session.c:24-44 | popped lines followed by the rest are the bytes fed; each popped line ends in its only newline and fits; nothing poppable is left |
| Stream.HistoryConserves | common/src/protocol/session.c:9-44 | after any history of feeds and pops, with any buffer size per pop: popped lines followed by the buffer are the bytes accepted, and the lines are those of the stream, in order, none skipped or cut |
| Stream.DrainAppend | common/src/protocol/session.c:9-44 | popping before or after a feed gives the same lines and rest |
| Stream.ServeIsDrain | services/equipmentd/src/main.c:460-511 | what the read loop delivers is one drain of all bytes, however they were cut |
| Stream.ChunkIndependence | services/equipmentd/src/main.c:460-511 | two ways of cutting one stream deliver the same lines and residue |
| Stream.DrainIsSplit | common/src/protocol/session.c:24-44 | every line of the stream is delivered if and only if every line fits the caller's buffer |
| Stream.StuckForever | common/src/protocol/session.c:27-27 | behind an over-long head line nothing is ever delivered again, and the connection is closed exactly when more than 4096 bytes have come |
| CodecCases.LongLineBlocks | common/src/protocol/session.c:24-44 | 600 letters and a newline, then a PING: nothing is delivered, nothing closed |
| Stream.NeverOverflows | services/equipmentd/src/main.c:460-500 | with lines shorter than the line buffer (2 to 1024 bytes) and reads of at most 1024 bytes no feed ever overflows and every line arrives |
| Stream.SplitAppend | common/src/protocol/session.c:24-44 | splitting a stream into lines is compositional in the unfinished rest |
| WireTrip.WireRoundTrip | services/equipmentd/src/main.c:460-511 | any list of messages that survive the codec, printed, concatenated, cut into any reads of at most 1024 bytes, framed and parsed, comes out as that list, in order, with nothing left and no failure |
| WireTrip.RenderIsLine | common/src/protocol/line_codec.c:191-195 | a printed line has its only newline at its end |
| WireTrip.ReceiveAll | services/equipmentd/src/main.c:460-500 | feed, pop and parse over all reads of an event deliver the parses of exactly the lines of the stream |
| WireTrip.DrainMessages | services/equipmentd/src/main.c:492-511 | the pop loop parses every complete line in order |
| Tracker.RequestTracker.Alloc | services/equipmentd/src/request_tracker.c:9-19 | takes the first free of 16 slots, zeroed; fails exactly when none is free |
| Tracker.RequestTracker.Find | services/equipmentd/src/request_tracker.c:21-31 | the first slot with the sequence number and device, or none |
| Tracker.RequestTracker.Remove | services/equipmentd/src/request_tracker.c:33-37 | frees exactly that slot |
| Tracker.RequestTracker.SweepTimeouts | services/equipmentd/src/request_tracker.c:39-47 | frees exactly the slots older than 10000 ms |
| Tracker.RequestTracker.HasPending | services/equipmentd/src/main.c:74-84 | true if and only if some slot is live |
| Tracker.LiveSwept | services/equipmentd/src/request_tracker.c:39-47 | kept and dropped entries together are the live ones before; all dropped ones are too old, no kept one is |
| Tracker.LiveUpdate | services/equipmentd/src/request_tracker.c:9-37 | overwriting a slot exchanges exactly its own entry in the multiset of live entries |
| Tracker.NoneLive | services/equipmentd/src/main.c:74-84 | the table has a live entry if and only if its multiset is not empty; an empty table allocates slot 0 |
| Registry.ModuleRegistry.HandleEvent | services/equipmentd/src/router.c:95-216 | the effect of an event on the three module entries, field by field (name, type and telemetry values aside) |
| Registry.ModuleRegistry.RefreshHealth | services/equipmentd/src/main.c:309-324 | each module is healthy exactly when registered, updated, and not older than 3000 ms |
| Registry.StaysStateless | services/equipmentd/src/module_registry.c:16-30 | no event, acknowledgement or refresh ever records a module's state |
| Router.ResolveController | services/equipmentd/src/router.c:33-50 | 0 exactly when the device has a connected controller; else which of the three reasons |
| Router.HandleReq | services/equipmentd/src/router.c:52-93 | answer, error or forward, by the routing table: every error code and text |
| Router.RouterHandle | services/equipmentd/src/router.c:218-234 | requests are routed, events reach the registry and nothing else does |
| Scheduler.SchedulerTick | services/equipmentd/src/scheduler.c:41-162 | one tick, branch by branch, is the transition and START decision of the nine-state job, and draws a sequence number exactly when it sends |
| Scheduler.StartsOnceInOrder | services/equipmentd/src/scheduler.c:41-162 | over every history of ticks on any snapshots and acknowledgements: two STARTs with no acknowledged RESET between them are device 1 first, then device 2 |
| Scheduler.DepositionNeedsPreclean | services/equipmentd/src/scheduler.c:41-162 | device 2 is started, and the job completes, only after preclean was observed DONE since the last RESET |
| Scheduler.StartsOnlyFrom | services/equipmentd/src/scheduler.c:96-143 | a START leaves Idle or PrecleanDone only: never a stopped, complete or failed job |
| Scheduler.TickMovesOn | services/equipmentd/src/scheduler.c:54-153 | progress: what a tick that sees unfaulted, healthy modules in given states does next: device 1 started, device 2 started after preclean, completion after deposition |
| Scheduler.TickFails | services/equipmentd/src/scheduler.c:41-153 | a tick fails the job if and only if it had failed, a module shows FAULT, or the module at work is registered and unhealthy; with a request pending it does nothing |
| Scheduler.JobCompletes | services/equipmentd/src/scheduler.c:41-162 | a job whose modules are seen idle, preclean processing and done, then deposition processing and done, for any number of ticks each, completes and starts device 1 and then device 2, once each |
| Scheduler.RunConsistent | services/equipmentd/src/scheduler.c:41-162 | the run invariant: what each job state says about the STARTs issued and observations made since the last RESET |
| Scheduler.TicksSettle | services/equipmentd/src/scheduler.c:41-162 | a run of ticks alone changes the job state at most 7 times |
| Scheduler.LostStartIsNotRetried | services/equipmentd/src/scheduler.c:96-153 | after a START to either device that got lost no tick repeats it: through a run of ticks the job goes on waiting if and only if at every tick a request is pending, or that device is healthy and shows neither PROCESSING nor DONE and neither device shows FAULT |
| Scheduler.WaitEnds | services/equipmentd/src/scheduler.c:54-153 | one tick leaves that wait if and only if one of those conditions fails, and issues no START |
| Scheduler.StatelessTick | services/equipmentd/src/scheduler.c:41-162 | on modules without a recorded state a tick starts and completes nothing |
| Daemon.App.HandleOneLine | services/equipmentd/src/main.c:127-307 | the whole of handle_one_line: new links, table, job, latches, registry, what is written where, and the return value, for every line and every write outcome |
| Daemon.App.AnswerSlot | services/equipmentd/src/main.c:188-237 | the response branch: relay, job update, release; a failed relay returns before the release |
| Daemon.App.Settle | services/equipmentd/src/main.c:205-233 | only a positive acknowledgement of STOP, RESET or FAULT moves the job, and RESET clears the latch of its device |
| Replies.AcknowledgementSays | services/equipmentd/src/main.c:205-233 | whatever frees an entry is a response; if it is an ERROR or lacks ok=1, job and modules stay; else STOP stops, RESET idles, FAULT fails the job, and RESET clears the fault latch of the module with the entry's device and changes nothing else |
| Replies.EventSays | services/equipmentd/src/router.c:95-216 | an event changes the module of its own device alone, in these fields, answers nobody and moves no job |
| Replies.LatchedIff | services/equipmentd/src/router.c:166-168 | in every run from the start a module's fault latch is set if and only if it reported FAULT and no RESET for it was confirmed since |
| Replies.RefusalSays | services/equipmentd/src/router.c:52-93 | a request that cannot go to a controller is answered at once, to its sender, with the first reason that applies, code and text; PING ok=1; nothing else happens |
| Replies.BadLineSays | services/equipmentd/src/main.c:132-134 | an unreadable line is answered ERROR ok=0 code=400 msg=PARSE_ERROR, without a key |
| Replies.RequestSays | services/equipmentd/src/main.c:248-291 | a request for a connected controller goes to it unchanged and waits in the first free slot; when it cannot be printed, written or tracked its sender is dropped and nothing waits |
| Replies.TickSays | services/equipmentd/src/main.c:309-341 | a scheduler tick decides anew who is healthy; without a PMC it does nothing else |
| Replies.StartSays | services/equipmentd/src/main.c:358-392 | a START that is due is written to the PMC as this message, under the next number |
| Daemon.App.TrackAndSend | services/equipmentd/src/main.c:261-288 | take a slot, write, give the slot back when format or write fails |
| Daemon.App.RunScheduler | services/equipmentd/src/main.c:326-395 | health refresh, tick, slot and START line; the job has moved even when the write fails |
| Daemon.App.SweepTimeouts | services/equipmentd/src/main.c:593-593 | the sweep of the main loop |
| Daemon.App.Do | services/equipmentd/src/main.c:447-518 | each input of the event loop - a line, a tick, a sweep, a closed connection - is exactly one step of the daemon |
| ClientEvents.LoopTurn | services/equipmentd/src/main.c:575-595 | one turn of the main loop, from bytes: every reported connection with all its reads, then the scheduler, the sweep and the idle scan, each with its own clock; new state, everything written, and the table: closed connections leave it, and so do exactly those not read for more than 60000 ms; a connection read since then stays, the others keep their time |
| ClientEvents.HandleEvent | services/equipmentd/src/main.c:447-523 | one client event: read until nothing is there, the end, an overflow or a failed line; state, what was written, the bytes kept, whether the connection stays open, and its activity time: that of the last read with data, or unchanged if there was none |
| ClientEvents.EventIsRun | services/equipmentd/src/main.c:466-523 | an event is the run of the daemon over its lines up to the first that fails, then the loss of the connection if it ended; open exactly when undisturbed and nothing failed |
| ClientEvents.ReadInputsAreLines | services/equipmentd/src/main.c:472-511 | undisturbed reads offer the daemon exactly the lines of all their bytes |
| ClientEvents.OpenEvent | services/equipmentd/src/main.c:466-523 | an event that leaves its connection open keeps the bytes behind the last complete line and has heard it at its last read |
| ClientEvents.HeardAtLast | services/equipmentd/src/main.c:484-484 | the time an event marks is that of the last read with data among those performed |
| ClientEvents.TurnIsRun | services/equipmentd/src/main.c:575-594 | the events of a turn, scheduler and sweep are a run of the daemon over exactly the lines the reads hold, each event cut at the first line that fails, and a connection stays open exactly when nothing disturbed its reads and no line failed; so every run theorem holds of raw reads |
| ClientEvents.HandleRead | services/equipmentd/src/main.c:472-511 | one read on bytes: framing, parsing and handling of every complete line in order, until one fails; an overflow closes without handling |
| ClientEvents.ReadIsRun | services/equipmentd/src/main.c:492-511 | a read is a run of the daemon over the lines it handled, all of them unless the last one failed: every run theorem holds of raw bytes |
| DaemonRuns.StepMoves | services/equipmentd/src/main.c:127-395 | every step keeps the table, releases one entry, takes one slot, takes and gives it back, or sweeps |
| DaemonRuns.PendingConserved | services/equipmentd/src/main.c:178-291 | in every run, entry by entry: requests taken = answered + timed out + rolled back + still live; only answered ones are relayed |
| DaemonRuns.EveryAnswerWasAsked | services/equipmentd/src/main.c:178-291 | in every run, for every client and key: responses handed to the client never exceed the requests with that key it had accepted |
| DaemonRuns.RelayMeans | services/equipmentd/src/main.c:178-200 | a response is relayed only from a controller, to the client of a live entry with its key, unchanged |
| DaemonRuns.ForwardMeans | services/equipmentd/src/main.c:248-291 | an accepted request is tracked under its own connection and key and goes, unchanged, to the controller of its device |
| DaemonRuns.StrayResponse | services/equipmentd/src/main.c:178-295 | a response without a live entry is written nowhere and changes nothing |
| DaemonRuns.FailedRelayDropsController | services/equipmentd/src/main.c:188-200 | a response for a client frees its entry and leaves the controller its link if and only if it can be printed again and the write succeeds; otherwise the entry stays, nothing is sent, and the controller is dropped |
| DaemonCases.UnprintableAnswer | services/equipmentd/src/main.c:188-193 | a run from the start in which every write succeeds and an accepted answer of the PMC still costs it its link |
| DaemonCases.YoungerIsAnswered | services/equipmentd/src/main.c:178-237 | a run from the start after which the response to one client is delivered to another that asked later under the same key |
| DaemonRuns.OldestIsAnswered | services/equipmentd/src/request_tracker.c:21-31 | while entries with one key lie in the table in the order of their age, the oldest is found |
| DaemonRuns.AgeOrderKept | services/equipmentd/src/request_tracker.c:9-47 | a step keeps that order for a key if and only if it accepts no request with the key whose free slot lies before an older live entry with the key |
| DaemonRuns.AgeOrderOverRuns | services/equipmentd/src/request_tracker.c:9-47 | over every run with a clock that does not go back, key by key: the order holds at every moment if and only if no accepted request with the key overtakes an older one, whatever happens under other keys |
| DaemonRuns.OldestFirst | services/equipmentd/src/request_tracker.c:21-47 | in such a run the requests with the key are answered in the order in which they came |
| DaemonRuns.UniqueKept | services/equipmentd/src/main.c:261-275 | live keys stay unique in every step that accepts no request under a live key |
| DaemonRuns.EntryStays | services/equipmentd/src/main.c:178-291 | through any such run a live entry stays in its slot and live keys stay unique, whatever links come and go |
| DaemonRuns.OneScheduledEver | services/equipmentd/src/main.c:340-395 | whatever the modules are found to be at each step, as if states were stored, and from any state with at most one live entry of the scheduler's own: there is never more than one |
| DaemonRuns.WaitsForItsAnswer | services/equipmentd/src/main.c:340-363 | while such an entry is live a tick sends nothing and leaves table and job as they are |
| DaemonRuns.SchedulerSends | services/equipmentd/src/main.c:340-392 | a tick that starts finds slot 0 free and its line fits 256 bytes; only the write can fail, and then the START is lost although the job moved on |
| DaemonRuns.LostStartWaits | services/equipmentd/src/main.c:340-392 | after a lost START, through any run of ticks that find the modules as the wait needs them: nothing is sent, no slot is taken, the job stays |
| DaemonCases.LostStart | services/equipmentd/src/main.c:340-392 | a state with both modules healthy in IDLE, as if states were stored: the START of device 1 is due; sent, it holds slot 0; with a failing write it is lost, and the job waits for it through any number of ticks |
| DaemonRuns.SweepBoundsWaiting | services/equipmentd/src/main.c:593-593 | from a sweep at time t on, in every run with a clock not behind t, nothing created more than 10 s before t is live: a lost response blocks the scheduler no longer |
| DaemonRuns.SchedulerIsInert | services/equipmentd/src/main.c:326-395 | as composed, whatever arrives, the daemon never sends a START of its own |
| DaemonRuns.JobIsLastAck | services/equipmentd/src/main.c:205-229 | as composed, the job state after any run is that of the last STOP, RESET or FAULT whose entry was freed by a response other than ERROR with ok=1 |
| DaemonRuns.InitIsInert | services/equipmentd/src/main.c:523-535 | the start state has an empty table, unique keys and no module state |
| Links.StaleLinkCost | services/equipmentd/src/main.c:248-288 | while nobody has the number of a closed link, a request for it reaches nobody and costs the client that asked its connection; the table and the link stay as they were |
| Links.LinkIs | services/equipmentd/src/main.c:464-520 | in every run from the start, with descriptor numbers given again after a close: a controller link leads to the connection that attached it if and only if that attach is the last thing that concerned it; it points elsewhere if and only if the idle scan or an overflow last closed the connection under its number; it is unset if and only if it was last forgotten or never set |
| Links.WrongLinkEnds | services/equipmentd/src/main.c:135-176 | a link that points elsewhere leads to its attacher again by a REGISTER alone, and is forgotten by nothing but the end of the connection that was given its number or of the one that just attached |
| Links.NewcomerTakesNumber | services/equipmentd/src/main.c:397-445 | a client that is given the number of such a link is where the link then leads, and does not make it right |
| Links.HolderIsAsked | services/equipmentd/src/main.c:248-288 | whoever has the number of a link is sent every request for it that can be printed and written and finds a slot; the request waits for the client that asked |
| Links.HolderAnswers | services/equipmentd/src/main.c:178-237 | the responses of whoever has the number of a link are passed on to the number of the client that asked, and free the entry |
| Links.AskerThereIff | services/equipmentd/src/main.c:262-267 | in every run from the start, for every waiting entry: its client number is that of the connection that asked if and only if no connection under the number was closed since |
| Links.AnswerReachesAsker | services/equipmentd/src/main.c:188-196 | a response that is passed on reaches the connection that asked if and only if no connection under its number was closed since it asked |
| DaemonCases.StaleLinkRun | services/equipmentd/src/connection_table.c:29-47 | a run from the start that accept can produce: the idle scan closes a silent PMC, the next request of a client connected before is lost and that client closed |
| DaemonCases.NewcomerIsTakenForPmc | services/equipmentd/src/connection_table.c:29-47 | a run from the start that accept can produce: the idle scan closes a silent PMC, the next client gets its number, is sent another client's START, and its response is passed on |
| DaemonCases.NewcomerIsAnswered | services/equipmentd/src/main.c:188-196 | a run from the start that accept can produce: a client asks and leaves, the next one gets its number and is handed the response |
| ConnTable.Table.ScanTimeouts | services/equipmentd/src/connection_table.c:29-47 | the swap-remove scan closes exactly the connections idle for more than 60000 ms, each once, keeps exactly the others, and keeps them distinct |
| ConnTable.Table.Unregister | services/equipmentd/src/connection_table.c:19-27 | removes the first entry equal to c by moving the last one into its place |
| ConnTable.Table.Register | services/equipmentd/src/connection_table.c:14-17 | appends; the 1025th connection is silently not tracked |
| PmcConnections.ConnList.Add | nodes/pmc/src/pmc_connection.c:5-9 | the new connection becomes the head; the list stays acyclic |
| PmcConnections.ConnList.Remove | nodes/pmc/src/pmc_connection.c:11-21 | unlinks exactly the given node, keeps the order of the others, leaves an absent node and the node itself alone |
| PmcConnections.ConnList.FindEqd | nodes/pmc/src/pmc_connection.c:23-33 | the most recently added registered equipmentd link, or none |
| PmcConnections.ConnList.FindSim | nodes/pmc/src/pmc_connection.c:35-45 | the most recently added registered simulator of a device, or none |
| PmcConnections.ConnList.CloseNewestSim | nodes/pmc/src/main.c:85-92 | closing the newest simulator of a device re-exposes the next older one: what is found then is the first simulator of the device behind it, or none |
| Pmc.LookupOnEntries | nodes/pmc/src/pmc_connection.c:35-45 | the lookup in the linked list is the first serving entry of the list, newest first |
| Pmc.InterlockIsGuard | nodes/pmc/src/interlock.c:5-26 | the interlock on the state string and the guard of the device agree on every state and command except START in READY, which the device takes and the interlock blocks |
| Pmc.Router.RouteRequest | nodes/pmc/src/pmc_router.c:52-125 | a request is refused, answered from the cache or forwarded, as its device's entry and the serial line decide; a heater command for device 1 passes exactly when the line confirmed it; a status of device 1 carries what heater and temperature reported; refused requests leave the line alone |
| Pmc.VerdictSays | nodes/pmc/src/pmc_router.c:52-125 | field by field: no device is 400 MISSING_DEV, no simulator 404 SIM_NOT_FOUND, a closed interlock 409 PMC_INTERLOCK_BLOCKED, a failed heater step 502; STATUS is answered ok=1 with the cached state, or UNKNOWN exactly when none is cached; everything else is forwarded |
| Pmc.PeerSays | nodes/pmc/src/pmc_router.c:10-38 | which messages make a peer an equipmentd link or a simulator, which of a registered peer are requests or reports, and that only a reported state changes its cache |
| Pmc.RoutedSays | nodes/pmc/src/pmc_router.c:96-141 | a forwarded request reaches the simulator unchanged, or, when it cannot be printed or written, is answered 500 SIM_CMD_FAILED |
| Pmc.Router.RouteReport | nodes/pmc/src/pmc_router.c:127-141 | a report updates the cached state and goes to the newest equipmentd link, if there is one |
| Pmc.Router.HandleRegister | nodes/pmc/src/pmc_router.c:10-38 | who becomes an equipmentd link, who a simulator, and which messages register nobody |
| Pmc.Router.HandlePeer | nodes/pmc/src/main.c:206-232 | any message of any peer: its entry afterwards, what is written and to whom, and what the serial line saw and how it is left, from what it answers |
| AuxLink.AuxGate.ApplyForCommand | nodes/pmc/src/io_manager.c:431-517 | what a heater command does with the line and whether it passes, from the line's answers: START passes if and only if `OK PONG` and then `OK HEATER ON` were seen, STOP, RESET, FAULT if and only if `OK HEATER OFF` was; at most 4 lines and 3 openings |
| AuxLink.AuxGate.ReadSnapshot | nodes/pmc/src/io_manager.c:519-571 | a status of device 1 reopens the line if there is no session, then asks for the heater and the temperature, each retried once, all of it determined by what the line answers; what is reported is what the two replies say; other devices leave the line alone |
| Plant.NotesAreOk | nodes/pmc/src/io_manager.c:304-327 | the text built from a snapshot fits the message and holds no blank, NUL, CR or LF, whatever was reported |
| AuxLink.AuxGate.WithRetry | nodes/pmc/src/io_manager.c:92-162 | the result, the trace and the line afterwards, from what the line would answer: an answered first exchange is the result; a lost one, or none because the line is down, is followed by one reopening and, if that succeeds, by a second exchange whose reply is the result; a failure leaves the session not ready |
| AuxLink.RefusalText | nodes/pmc/src/io_manager.c:431-517 | the text of each refusal from the first and second reply: no answer, a wrong one, to PING, HEATER ON or HEATER OFF; none exactly when all answers are right |
| AuxLink.OneLossIsMended | nodes/pmc/src/io_manager.c:92-162 | whichever single exchange is lost, a heater command passes when the other replies confirm it |
| AuxLink.NoteSays | nodes/pmc/src/io_manager.c:304-327 | which note a status carries, word for word, for each of the heater and temperature readings that came |
| AuxLink.AuxGate.Reconnect | nodes/pmc/src/io_manager.c:54-90 | closes an open line, reopens it once with the outcome the line gives; ready, connected and success coincide |
| AuxLink.AuxGate.Configure | nodes/pmc/src/io_manager.c:395-425 | enabled even when the first open fails; ready exactly when it succeeded, which the line decides |
| AuxLink.RetryBounds | nodes/pmc/src/io_manager.c:92-162 | no retried operation has three exchanges or two openings |
| Fsm.Machine.HandleCommand | nodes/deviced/sim/src/fsm.c:9-45 | the guarded command, with its three return values |
| Fsm.Machine.Tick | nodes/deviced/sim/src/fsm.c:47-75 | one tick of the seven-state machine |
| Fsm.CommandLeadsTo | nodes/deviced/sim/src/fsm.c:9-75 | where any command in any state leads and where the machine is after n further ticks: START to DONE, STOP to IDLE, RESET to IDLE, FAULT to FAULT; every other command changes nothing |
| Fsm.TicksBounded | nodes/deviced/sim/src/fsm.c:47-75 | in every run the counter is at most 4 and zero outside PROCESSING |
| Fsm.ReadyReachesDone | nodes/deviced/sim/src/fsm.c:47-75 | left alone READY is PROCESSING for exactly five ticks and DONE from the sixth on |
| Fsm.StableStates | nodes/deviced/sim/src/fsm.c:47-75 | IDLE, DONE and FAULT outlast any number of ticks |
| Fsm.DoneAgain | nodes/deviced/sim/src/fsm.c:9-75 | between two entries into DONE there are a FAULT, then an accepted RESET, then an accepted START, and at least seven ticks |
| ProcessModel.Process.Update | nodes/deviced/sim/src/process_model.c:43-71 | one update of the clamped dynamics |
| ProcessModel.Envelope | nodes/deviced/sim/src/process_model.c:17-71 | temperature at least 25 and at most 25 + 1.5 per processing iteration, pressure in [0.1, 1.0], flow in [0, 100]; heater and pump on exactly when processing |
| ProcessModel.BackToAmbient | nodes/deviced/sim/src/process_model.c:43-71 | exactly how many iterations without processing bring all three values back to ambient |
| ProcessModel.HeatedClosedForm | nodes/deviced/sim/src/process_model.c:43-71 | the three values after n processing iterations, in closed form: 1.5 degrees more each time, pressure and flow up to their limits |
| ProcessModel.ProcessingRunHeats | nodes/deviced/sim/src/main.c:172-189 | any run of iterations that end in PROCESSING is such a heating |
| ProcessModel.RestedClosedForm | nodes/deviced/sim/src/process_model.c:43-71 | the three values after n such iterations, in closed form |
| ProcessModel.RestingRun | nodes/deviced/sim/src/main.c:172-189 | any run of iterations that end outside PROCESSING is such a rest |
| Sim.Simulator.Iteration | nodes/deviced/sim/src/main.c:152-198 | one pass of the main loop: the batch answered in order, then tick, then a status event exactly on a change, then telemetry |
| Sim.Simulator.HandleMessage | nodes/deviced/sim/src/main.c:52-86 | one message: the command and its response under the device's own number |
| Sim.AnswerSays | nodes/deviced/sim/src/main.c:55-86 | a request is answered with its own type and ok=1 exactly when the machine takes it, with ERROR, ok=0 and 500 SIM_CMD_FAILED otherwise, and then changes nothing; what is no request is not answered |
| Sim.StatusSays | nodes/deviced/sim/src/main.c:172-189 | an iteration sends its responses, then one status event with the word of the new state exactly if that differs from the last reported, then telemetry |
| Sim.TelemetrySays | nodes/deviced/sim/src/main.c:172-189 | each iteration ends with a telemetry event whose temp, pressure and flow are the new model values, rounded to hundredths |
| Sim.Simulator.constructor | nodes/deviced/sim/src/main.c:104-150 | start-up registers, leaves BOOTING and reports IDLE |
| Cluster.CacheFollowsSimulator | nodes/deviced/sim/src/main.c:137-189 | in every run of the PMC and any number of simulators, for each: cache and reports in flight end in its state; only IDLE, PROCESSING, DONE, FAULT are ever reported or cached; requests reach only the device they are for |
| Cluster.StatusFromCache | nodes/pmc/src/io_manager.c:268-332 | in every run a STATUS for a connected simulator is answered at once, under its key, ok=1, with the cached state, and with UNKNOWN exactly when nothing is cached |
| Cluster.StatusIsTrue | nodes/pmc/src/io_manager.c:301-306 | in every run, when all reports of a simulator have been read, that state is the simulator's own |
| Cluster.ChamberEnvelope | nodes/deviced/sim/src/main.c:172-189 | in every such run: temperature at least 25 and at most 25 + 1.5 per iteration that ended in PROCESSING, pressure and flow in their ranges, heater and pump on exactly while PROCESSING is reported |
| Cluster.AnsweredExactlyOnce | nodes/pmc/src/pmc_router.c:52-141 | in every such run and for every sequence number and device: requests asked = requests on their way + responses given; nothing is lost, doubled or made up |
| Cluster.GuardStaysOpen | nodes/deviced/sim/src/fsm.c:9-75 | a guard the interlock saw open stays open through n more ticks unless the command is a STOP and processing has run out |
| Cluster.RoutedCommandOutcome | nodes/pmc/src/pmc_router.c:96-123 | a command routed on a settled cache and read after n iterations is answered with its type and ok=1 unless it is such a late STOP, which is answered ERROR, ok=0, 500; never refused when n is 0 |
| ClusterCases.LateStop | nodes/deviced/sim/src/fsm.c:21-27 | a reachable system in which a STOP that passed the interlock arrives five iterations later and is refused; at once it would have been accepted |
| Tmc.Node.HandleReq | nodes/tmc/src/main.c:194-246 | every request: state, start time, responses and status event, for every send outcome |
| Tmc.Node.Tick | nodes/tmc/src/main.c:248-267 | one tick: completion at 2000 ms and the periodic report |
| Tmc.RequestSays | nodes/tmc/src/main.c:129-246 | field by field: START from IDLE or DONE starts, STOP of a transfer and RESET of a fault end in IDLE, FAULT is taken, each answered ok=1 and followed by a status event; what the state does not allow is answered 409 INVALID_STATE_TRANSITION, an unknown type 404, and changes nothing |
| Tmc.TickSays | nodes/tmc/src/main.c:248-267 | a tick ends a transfer of 2000 ms in DONE and sends one status event for that and one when 1000 ms have passed since the last |
| Tmc.StartedWhileTransferring | nodes/tmc/src/main.c:194-267 | with a positive clock the start time is positive if and only if a transfer runs |
| Tmc.Transitions | nodes/tmc/src/main.c:194-267 | DONE is entered only by a tick 2000 ms or more after START; FAULT is left only by RESET; a transfer ends only in DONE or by STOP or FAULT |
| Tmc.TransferTime | nodes/tmc/src/main.c:248-262 | a transfer is DONE if and only if one of the ticks so far came 2000 ms or more after START |
| Tmc.ReportGaps | nodes/tmc/src/main.c:248-267 | with ticks at most P apart and sends of at most D, reports are less than 1000 + P + D ms apart |
| Tmc.StaysHealthy | services/equipmentd/src/module_registry.c:39-44 | reports whose gaps and delivery delay stay within 3000 ms keep the module healthy at every moment |
| Tmc.TimelyLoopStaysHealthy | nodes/tmc/src/main.c:308-363 | so a loop with 1000 + P + D + delay at most 3000 is healthy from its first report on |
| Correlation.EveryResponderEchoes | nodes/pmc/src/io_manager.c:240-332 | every error, cached status and simulator response carries the sequence number and device of its request |
| Correlation.TransferModuleEchoes | nodes/tmc/src/main.c:129-192 | so does every response of the transfer module, and it is the first thing it sends |
| Correlation.SimulatorAnswersInOrder | nodes/deviced/sim/src/main.c:157-169 | a batch is answered one by one, in order, each under its own key |
| Correlation.RequestIsAnswered | services/equipmentd/src/main.c:178-291 | equipmentd's side on lines: a request under a fresh key reaches its controller; after any run that neither answers it, nor outlasts its 10 s, nor reuses a live key, a response that echoes it goes to that client and no one else and frees exactly its slot |
| Correlation.ResponseReachesClient | services/equipmentd/src/main.c:178-237 | a response under a unique live key is relayed unchanged to its client and frees its entry |
| Correlation.RegisterAttaches | services/equipmentd/src/main.c:135-176 | a controller's REGISTER is answered ok=1 under its own key and redirects exactly the requests of its devices to it |
| Correlation.PlainIsWirable | common/src/protocol/line_codec.c:70-196 | every float-free message with plain texts survives the wire |
| TagRuns.HeldRun | services/equipmentd/src/main.c:178-291 | in every run, for every sequence number and device: live entries = accepted requests - answered - timed out |
| TagRuns.OwnerIsAnswered | services/equipmentd/src/main.c:188-200 | while one client alone uses a key, it is handed exactly one response per answered request, and nobody else any |
| TagRuns.NoneExpires | services/equipmentd/src/request_tracker.c:39-47 | in a run whose sweeps come within 10 s of the first use of a key no request with it times out |
| PlantRuns.EveryRequestAccounted | services/equipmentd/src/main.c:178-291 | the whole plant - equipmentd, PMC, simulators, TMC and all lines between them: in every run each accepted request is answered once, or on its way, or lost for one of four named reasons: behind a cut link, reprinted too long to read, answered after the timeout, not passed on; the first and last need a cut link, the third a timeout |
| PlantRuns.StrandedForGood | services/equipmentd/src/main.c:464-520 | what is behind a cut link stays there for the rest of every run, and nothing is added to it |
| PlantRuns.OwnRequestsAnswered | services/equipmentd/src/main.c:178-291 | from client to client, over every run of the plant in which a client alone uses a key: others are handed no response with it; its requests are exactly those answered to it, on their way, or lost for one of the four reasons; while nothing else was lost, all but the timed-out ones are answered or on their way |
| PlantRuns.AnsweredInTime | services/equipmentd/src/main.c:178-291 | if moreover no sweep comes more than 10 s after the first use of the key, nothing was lost and the channels have drained, it was handed exactly one response per request |
| PlantRuns.AnswerIsPassedOn | services/equipmentd/src/main.c:188-237 | while both controller links are up, every response for a live entry has been passed on |
| PlantRuns.InnerHopsLoseNothing | nodes/pmc/src/io_manager.c:216-230 | in every run of the plant each request and response between the PMC and its simulators survives being printed and read |

## Left out

- Sockets, epoll, `accept`, `connect`, `select`, retries of partial writes: replaced by step inputs, outboxes and outcome oracles.
- `malloc`, `free` and use of a connection after it was closed: a closed connection is one that left its table.
- Reuse of a controller's descriptor number in `Plant`: after a controller's connection is closed its number is not given to a client there; `Links` has it.
- Terminal output, environment and argument parsing, sleeps, `job_state_to_string`, registry dump: no effect on the state.
- IEEE rounding and `strtod` beyond optional sign, digits and two decimals: values are hundredths, and the simulator's telemetry is rounded half up.
- NULL-pointer guards of the C functions: references in the model are never null where the code's callers never pass null.
- Registry fields `name`, `type`, `dev`, telemetry values and the unused `module_registry_touch`: written, never read by the logic.
- `device_manager.c`, `alarm_manager.c`, `hostsim`: a table the router never calls, a last-value store, and a stub.
- `pico_device.c` and `serial_transport.c`: the serial device is an arbitrary sequence of replies and open results; boot lines are drained without effect.
- `sscanf` and `printf` of the temperature that the heater device reports: an arbitrary function from replies to texts; the other members of the snapshot are never read.
- The simulator's and TMC's own receive loops: their framing is the one proved for `equipmentd`; the model starts from the parsed messages of one read, and all sends of a simulator succeed.
- Cluster.CacheFollowsSimulator: simulators never disconnect, and channels are lossless; a connection's cache and channel end with it, and the list operations are proved for any order of connections.
- PlantRuns.OwnRequestsAnswered: each controller connects once and the PMC, its simulators and the TMC write without failure; a controller whose connection was closed does not connect again, and what it still sends is lost.
- Which peers may register as a controller: any may, as in the code; `Plant` looks at runs in which only the controllers do.

# Aether OS: models and proofs of its stateful protocols

Aether OS is a desktop shell around command-line agents, with a collector beside it. Most of what it promises is about
whole runs: what a client of a terminal or of a thread has been sent, what a database holds after crashes, when a command
may be typed into a terminal. This project models those protocols and proves the promises for every run. `dafny verify
dfyconfig.toml` checks it.

What is modelled, file by file:

- **Terminals** (`Utf16`, `SlotEvents`, `TerminalSlot`, `TerminalRing`, `TerminalHub`, `TerminalMirror`, `MirroredSlot`,
  `LiveTerminal`, `SnapshotText`). A slot numbers what its pty reports. The hub keeps a byte-bounded ring of output, feeds a
  headless mirror and fans events out to clients that joined by exact resume, by an asynchronous snapshot with live output
  held back, or at a process start. The main statement is the stream invariant `StreamOk` with its consequence
  `StreamIsComplete`: every registered client has been sent its join and then every event since, once and in order. The
  mirror's queue is proved to answer each snapshot request with exactly the changes called for before it, never to be stuck
  and to answer everything once xterm has parsed its text. `MirroredSlot` joins hub and mirrors, so a delivered snapshot
  shows exactly what preceded its request; `LiveTerminal` joins the slot to both, so what a client has been told is exactly
  what the live ptys have printed since it joined, and with a snapshot's screen all that was printed since its mirror
  was made.
- **Thread feed** (`LineTail`, `ThreadRing`, `ThreadFeed`). The incremental tailer is proved equal to a byte-at-a-time
  reference, for any chunking and through its discard mode. On top of it the snapshot-plus-delta protocol keeps every
  client's list ending in the current snapshot, across every await of a tick.
- **Dispatch scores** (`Baseline`, `UsageIngest`). The median is defined by counting; query and sort are proved to meet
  it. Completions may arrive in any order; the durable watermark tells which scores may be partial, and once rescored the
  scores are those of the whole table, whatever the order was, as long as no dispatch is opened twice.
- **Transcript ingestion** (`Utf8`, `TranscriptTailer`, `TranscriptScan`), **hook events and rollups** (`Retention`).
  Decoding with replacement is defined on bytes, and with it exactly-once by offset; conservation of counts from spool file
  to daily rollup.
- **Agent memory** (`MemoryStore`, `MemoryReads`). Five operations, one transaction per batch, hard delete with
  tombstones, chains of supersession, isolation between writers.
- **Trackers and caches** (`SuccessorFinder`, `LiveAgentTracker`, `PhoneView`). A memoised scan that answers as a scan
  from scratch; asynchronous ticks that a respawn makes harmless; rate-limited delivery that leaves no client behind.
- **Written and framed text** (`ApplyEngine`, `PickHost`, `ChoiceRuntime`, `Json`, `AnswerPages`, `PromptSafety`). When an
  effort command may be typed into a thread, that it never rests on the screen of an earlier process, that commands keep
  their distance and that what a record wishes for is the last pick accepted; answer pages within three sizes at once; cleaning text until no tag is left.

`Options` and `Sets` hold the two small notions several modules share.

The models take the form of the code. A closure or object with mutable fields is a class; an `await` ends a method and the
continuation is another method, so anything may happen between; a loop is a loop, proved against a specification function
or a predicate. Results of files, databases, timers, parsers and screens are parameters, including their failures.

Five promises do not hold as the code stands. For each there is the exact condition, for all inputs, and a concrete run
that fails:

- `TerminalMirror.Dispose`: disposing a mirror does not reset the count of queued text, so afterwards the number is
  right if and only if no text was waiting in the queue (`electron/terminalMirror.ts:175-187`). `DisposedWhileQueued` is
  a run.
- `ThreadFeed.SeedDone`, `StatDone`, `ReadDone`: a tick that outlives the last detach commits nothing except the flag that
  throttles a log line, which is set before the epoch is checked (`electron/threadFeed.ts:205-229`). Each says what the
  flag becomes and so exactly when the feed is unchanged. `StaleTickSetsFlag` is a run.
- `UsageIngest.IngestExactly`: storing a completion over an earlier row keeps every score below the watermark right if and
  only if no baseline there needed that row (`collector/src/usageIngest.ts:106-130`). The guard on open entries
  (`collector/src/usageIngest.ts:91-92`) rules this out while no dispatch is opened twice; histories are kept per file,
  so a call that appears in a second transcript is opened again. `OpenedTwiceKeepsOldBaseline` is a run.
- `TranscriptTailer.OffsetRightExactly`: the next offset is computed from decoded text and is right if and only if every
  ill-formed part of what was read is three bytes long, as its replacement is; valid UTF-8 has none
  (`collector/src/transcriptScan.ts:51-56`). `InvalidByteLosesLine` is a run.
- `Retention.EventStore.TailSpoolOnce`, `Compact`: a spool file may survive its commit, and compaction is not one
  transaction; right counts stay right if and only if every file that survives is without events, and if and only if
  compaction finishes or dies before its first group (`collector/src/spoolTailer.ts:77-84`,
  `collector/src/retention.ts:45-54`). `DeletionFailsOnce` and `CompactionDiesOnce` are runs.

Where comments and code disagree the model follows the code. `collector/src/transcriptScan.ts:330-336` calls the ingestion
of a usage event idempotent; its insert has no unique key, so only the offset makes it exactly once.
`collector/src/retention.ts:24-25` calls compaction idempotent, which an interrupted one is not. The pending count of
`electron/terminalMirror.ts:46` is not what it says once the mirror is disposed.

Assumptions made throughout: a callback of one client does not cause new output, attach or detach while an event is being
delivered; xterm neither calls back from inside a write nor throws from a resize; timers do not fire early; the clock does
not run backwards; transcripts are only appended to.

## Model

| member | source | states |
|---|---|---|
| `Utf16.SplitUtf8` | electron/terminalHub.ts:25-37 | the pieces join to the original, none is empty or over the cap when the cap is at least 4, every cut lies between code points, and each cut was forced: one code point more would not have fitted |
| `Utf16.SliceGrows` | electron/terminalHub.ts:28-34 | extending a slice by one code point adds exactly that code point's UTF-8 width |
| `TerminalSlot.TerminalSlot.Start` | electron/ptyLifecycle.ts:37-52 | whatever the old pty prints or does while it is killed, whether or not killing it throws, and whatever the new one prints or does while it is wired, the log, the state, the size and the number end as the code says; numbering stays gapless, and output stays announced exactly if the new pty printed nothing so early or the old process was still reported running |
| `TerminalSlot.TerminalSlot.OnAlive` | electron/terminalHub.ts:81-94 | the start marker takes the next number and the size asked for, or the default; a pty that is gone again is not reported running |
| `TerminalSlot.TerminalSlot.OnData` | electron/terminalHub.ts:69-79 | output of the live pty is reported as the capped split of it under consecutive numbers; a superseded pty is not heard |
| `TerminalSlot.TerminalSlot.OnExit` | electron/ptyLifecycle.ts:45-49 | only the live pty's exit is reported; a superseded one changes nothing |
| `TerminalSlot.TerminalSlot.Resize` | electron/terminalHub.ts:111-117 | a size is recorded and reported exactly when there is a live pty, it accepted the size and the size is valid |
| `SlotEvents.WithOutput` | electron/terminalHub.ts:74-77 | reporting pieces under the next numbers keeps the log gapless and appends exactly their text; it keeps output announced exactly if the process is reported running or there is none |
| `TerminalRing.RingPush` | electron/terminalHub.ts:222-231 | after every push the live ring is exactly the output from its floor on, at its exact cost, within the cap, and evicted no further than needed; compaction changes nothing |
| `TerminalRing.OutputConsecutive` | electron/terminalHub.ts:304-304 | retained output is numbered floor, floor + 1, ... up to the last number, so the resume index is in bounds |
| `TerminalRing.EvictOldest` | electron/terminalHub.ts:225-229 | raising the floor by one drops exactly the oldest piece and its cost |
| `TerminalRing.ReplayIsFeed` | electron/terminalHub.ts:299-309 | whenever the resume test passes, replaying the ring after lastQ is the whole feed since that number: no output, resize or start is missed |
| `TerminalRing.ReplayFrom` | electron/terminalHub.ts:302-306 | the loop over the ring from the computed index queues exactly that feed |
| `TerminalRing.FeedNumbers` | electron/terminalHub.ts:233-247 | the feed from any position carries every later number exactly once and in order |
| `TerminalRing.FeedText` | electron/terminalHub.ts:233-247 | a client with the text up to a position has all the text after applying the feed from there |
| `TerminalRing.NotedNext` | electron/terminalHub.ts:242-246 | lastResizeQ covers every resize a later resume could step over, retained or not |
| `TerminalHub.StreamIsComplete` | electron/terminalHub.ts:233-260 | what a registered client has been handed: its numbers run from its join to the last one without gap or repeat, and its text is exactly what the process produced since |
| `TerminalHub.Drain` | electron/terminalHub.ts:183-200 | queued frames are handed over in order, up to and including the first on which the callback throws, which removes the tap |
| `TerminalHub.Push` | electron/terminalHub.ts:201-206 | a frame is held back while a snapshot is pending and delivered in order otherwise |
| `TerminalHub.DeliverAll` | electron/terminalHub.ts:183-200 | a tap gets all its frames and stays, or a prefix ending in the frame it threw on and is gone |
| `TerminalHub.StreamGrows` | electron/terminalHub.ts:233-246 | an output or size event extends every registered stream by exactly its frame; a tap leaves only by throwing on it |
| `TerminalHub.EventKeepsTaps` | electron/terminalHub.ts:233-246 | one event with its whole fan-out keeps every tap's stream, pending or not |
| `TerminalHub.EventKeepsBoxes` | electron/terminalHub.ts:235-243 | one event keeps every mirror's books: what it absorbed, whom it owes a snapshot |
| `TerminalHub.PendingRestarts` | electron/terminalHub.ts:247-260 | a start abandons a pending snapshot: the tap's stream begins again at that start's own marker |
| `TerminalHub.OthersContinue` | electron/terminalHub.ts:247-260 | a tap with nothing pending just continues its stream with the start marker |
| `TerminalHub.SettledStream` | electron/terminalHub.ts:325-332 | a settled snapshot is delivered first, then all that was held back for it, and the stream is faithful from the number fixed at the request |
| `TerminalHub.SettledShows` | electron/terminalHub.ts:325-331 | the first frame a waiting tap is handed carries the mirror's screen and size exactly if the answer shows something and has columns, and an empty screen of the slot's size otherwise |
| `TerminalHub.TextSinceBorn` | electron/terminalHub.ts:235-241 | a mirror made at some point and written everything since holds exactly the text produced since |
| `TerminalHub.SizeSinceBorn` | electron/terminalHub.ts:242-246 | and it ends at the size the terminal reported last |
| `TerminalHub.SettleChecks` | electron/terminalHub.ts:323-325 | a tap that is still waiting when a snapshot settles waits for a snapshot of the current generation |
| `TerminalHub.SettleKeepsAll` | electron/terminalHub.ts:323-326 | settling keeps all other streams and the counts of owed snapshots; a retired mirror that owes none is disposed |
| `TerminalHub.SlotRead.StillAwaited` | electron/terminalHub.ts:325-326 | no mirror is disposed while a client still waits for its snapshot |
| `TerminalHub.AddTap` | electron/terminalHub.ts:299-335 | registering a tap, waiting or not, disturbs no other stream and no mirror |
| `TerminalHub.DetachKeepsAll` | electron/terminalHub.ts:177-182 | removing a tap disturbs no other stream; the snapshot it was owed still settles |
| `TerminalHub.StartRetained` | electron/terminalHub.ts:247-260 | a process start retires the old mirror and restarts every stream in order |
| `TerminalHub.FirstRetain` | electron/terminalHub.ts:337-345 | the first retain starts a generation with an empty ring and perhaps a fresh mirror, with no tap registered |
| `TerminalHub.LastRelease` | electron/terminalHub.ts:347-358 | the last release drops every tap and disposes the mirror, leaving nothing registered |
| `TerminalHub.SlotRead.OnOut` | electron/terminalHub.ts:235-241 | an output event reaches every registered tap and the mirror, and the ring if retained; all invariants hold after it |
| `TerminalHub.SlotRead.OnSize` | electron/terminalHub.ts:242-246 | a resize reaches every tap and the mirror; resuming across it is ruled out from then on |
| `TerminalHub.SlotRead.OnStart` | electron/terminalHub.ts:247-260 | a start begins a new generation, restarts every tap at its marker and, while retained, replaces ring and mirror |
| `TerminalHub.SlotRead.OnState` | electron/terminalHub.ts:261-271 | a state change reaches no tap; an exit while retained drops mirror and ring |
| `TerminalHub.SlotRead.Attach` | electron/terminalHub.ts:284-335 | the four ways to join: one empty snapshot unregistered, an exact resume with the whole missed feed, an empty snapshot, or waiting for the mirror's |
| `TerminalHub.SlotRead.ResumableExactly` | electron/terminalHub.ts:297-301 | a client resumes exactly if all output after its number is retained and no resize is known to have come since |
| `TerminalHub.SlotRead.Settle` | electron/terminalHub.ts:322-333 | the mirror's answer is delivered only to a tap still waiting in this generation: first the screen the mirror had as it was asked, of its size then and under the number fixed at the request, or an empty one exactly if there is none to show, then the held frames |
| `MirroredSlot.MirroredSlot.Settle` | electron/terminalHub.ts:322-333 | hub and mirror together: a waiting tap is first handed the screen of a mirror that had absorbed exactly what the hub fed it up to the attach, of its size then, exactly if that screen could be serialized, and otherwise an empty one; then what was held back |
| `MirroredSlot.MirroredSlot.Attach` | electron/terminalHub.ts:318-322 | the four ways to join, each with its frames; a tap that has to wait makes one request to the current mirror, and the hub and the mirror agree on what precedes it |
| `MirroredSlot.MirroredSlot.OnOut` | electron/terminalHub.ts:235-241 | output reaches the current mirror as the hub notes it, so their books stay equal |
| `MirroredSlot.MirroredSlot.OnStart` | electron/terminalHub.ts:247-256 | a start retires the old mirror, disposes it once it owes nothing, and links the fresh one |
| `MirroredSlot.MirroredSlot.Release` | electron/terminalHub.ts:346-358 | the last release disposes the current mirror; every other mirror stays linked to its books |
| `MirroredSlot.AskLinked` | electron/terminalHub.ts:318-322 | a new request disturbs no other tap's request, and finds the mirror having been asked for exactly what the tap remembers |
| `MirroredSlot.MirroredSlot.WaitingIsServed` | electron/terminalHub.ts:318-325 | a tap that waits is owed an answer by a mirror that was asked for it, and once that mirror's text is parsed the answer is there |
| `MirroredSlot.MirroredSlot.ServeAll` | electron/terminalHub.ts:318-333 | once all text is parsed and all answers are delivered no tap waits |
| `LiveTerminal.LiveTerminal.OnData` | electron/terminalHub.ts:69-79 | what the live pty prints, and nothing else, reaches the read side, in pieces under the slot's own numbers |
| `LiveTerminal.LiveTerminal.Start` | electron/terminalHub.ts:67-99 | everything reported while the old pty is killed and the new one wired is heard, with the slot's own state and size |
| `LiveTerminal.LiveTerminal.OnExit` | electron/terminalHub.ts:93-97 | the live pty's exit is heard, a superseded one's is not |
| `LiveTerminal.LiveTerminal.Resize` | electron/terminalHub.ts:111-117 | a resize is heard exactly if it was recorded |
| `LiveTerminal.LiveTerminal.Settle` | electron/terminalHub.ts:322-333 | the screen a waiting client is handed, exactly if it could be serialized, carries all the text printed since its mirror was made up to the attach, at the size the terminal had then |
| `LiveTerminal.AskedForAll` | electron/terminalHub.ts:235-246 | the mirror a client waits for was asked for exactly the text and the sizes since it was made |
| `LiveTerminal.LiveTerminal.ClientsAreTold` | electron/terminalHub.ts:74-77 | after any run of the whole terminal an attached client that waits for nothing has been handed, after a faithful start, exactly what the live ptys printed since, under numbers without a gap up to the slot's own; if it started from a mirror's screen, screen and feed together are all that was printed since the mirror was made |
| `LiveTerminal.LiveTerminal.ServeAll` | electron/terminalHub.ts:318-333 | once all text is parsed and all answers are delivered this holds of every attached client |
| `TerminalHub.SlotRead.Detach` | electron/terminalHub.ts:290-290 | a client that leaves is removed and nothing else changes |
| `TerminalHub.SlotRead.Retain` | electron/terminalHub.ts:337-345 | only the first retain starts a generation, a ring and a mirror |
| `TerminalHub.SlotRead.Release` | electron/terminalHub.ts:346-358 | a handle counts once; the last release drops taps, mirror and ring |
| `TerminalMirror.TerminalMirror.Pump` | electron/terminalMirror.ts:111-147 | queued calls take effect in order, up to exactly where the flow comes to rest; every answered request shows exactly the changes called for before it; what remains is blocked only by text xterm still holds |
| `TerminalMirror.NeverStuck` | electron/terminalMirror.ts:115-125 | while calls are queued and the pump is not running, some write is still unparsed, so a parse callback will resume the queue |
| `TerminalMirror.TerminalMirror.AnswerShows` | electron/terminalMirror.ts:134-139 | a mirror that is not disposed answers a request with the screen of exactly what was called for before it if that could be serialized, and with nothing otherwise |
| `TerminalMirror.TerminalMirror.QuietAnswersAll` | electron/terminalMirror.ts:111-147 | with all text parsed every request has its answer, the queue is empty and the screen shows all that was ever called for |
| `TerminalMirror.TerminalMirror.ParseAll` | electron/terminalMirror.ts:111-125 | parse callbacks come to an end, and then every request has its answer |
| `TerminalMirror.PopAsk` | electron/terminalMirror.ts:125-141 | a request whose turn has come finds on the screen exactly what was called for before it |
| `TerminalMirror.TerminalMirror.Write` | electron/terminalMirror.ts:150-155 | a write joins the queue unless it is empty or the mirror is disposed; answers given so far stay |
| `TerminalMirror.TerminalMirror.Resize` | electron/terminalMirror.ts:156-160 | a resize takes its place among the writes in call order |
| `TerminalMirror.TerminalMirror.Request` | electron/terminalMirror.ts:161-174 | a request is noted with exactly the changes preceding it; a disposed mirror answers at once with nothing |
| `TerminalMirror.TerminalMirror.ParseDone` | electron/terminalMirror.ts:123-123 | a parse callback credits exactly its own write, also after a dispose, and lets the queue go on |
| `TerminalMirror.TerminalMirror.Dispose` | electron/terminalMirror.ts:175-186 | every request still waiting is answered with nothing; from then on the count of pending text is right if and only if no text was waiting in the queue |
| `TerminalMirror.TerminalMirror.PendingBytes` | electron/terminalMirror.ts:187-187 | over every run the count is the text xterm holds, the text queued, and the text a dispose threw away |
| `TerminalMirror.DisposedWhileQueued` | electron/terminalMirror.ts:150-187 | a run Write, Resize, Write, Dispose after which one unit is counted that nothing holds |
| `SnapshotText.SerializeBounded` | electron/terminalMirror.ts:83-91 | the snapshot text always fits the cap; it carries the most scrollback, of the amounts tried, that fits, and plain rows only when none does |
| `SnapshotText.PlainViewport` | electron/terminalMirror.ts:93-109 | the plain rows fit and no more of them were dropped from the top than needed |
| `SnapshotText.PlainShows` | electron/terminalMirror.ts:96-101 | what a terminal reads from the plain text: the alternate screen if it was on, the kept rows from the top, and the cursor at its row among them, or the first, and its column |
| `SnapshotText.LinesJoin` | electron/terminalMirror.ts:100-100 | the rows stand one below the other, each on its own line |
| `SnapshotText.AmountsTried` | electron/terminalMirror.ts:84-89 | the amounts of scrollback tried |
| `SnapshotText.BareFits` | electron/terminalMirror.ts:98-107 | with every row dropped the cursor escape alone fits the cap on any screen of ordinary size |
| `LineTail.AnyChunking` | electron/threadFeed.ts:158-198 | however the bytes are cut into reads, the reference yields the same lines under the same absolute keys |
| `LineTail.LinesAreLines` | electron/threadFeed.ts:174-194 | the reference keeps exactly the complete, non-empty lines within the length cap, each under its own offset, and from a start inside a line all but that line's rest |
| `LineTail.LinesInOrder` | electron/threadFeed.ts:174-194 | their keys rise strictly: the lines come in the order of the file and none comes twice |
| `LineTail.Consume` | electron/threadFeed.ts:158-198 | one incremental read, with its pending tail and discard mode, yields exactly what the reference would, so discarding loses no line a whole read keeps |
| `LineTail.ReadsGoodLines` | electron/threadFeed.ts:158-198 | reading on from any place in a file yields exactly the good lines that the bytes read complete and whose beginning was seen, each under its own offset in the file |
| `LineTail.ChunkGoodLines` | electron/threadFeed.ts:158-198 | the same for one chunk read from where the tailer stands |
| `ThreadRing.SnapshotEvents` | electron/threadFeed.ts:98-106 | the snapshot is the longest suffix of at most 200 events whose JSON fits, with the running byte count exact |
| `ThreadRing.TrimKeepsMost` | electron/threadFeed.ts:98-106 | no longer suffix would have fitted |
| `ThreadRing.PushRing` | electron/threadFeed.ts:200-203 | the ring keeps the last 200 events |
| `ThreadRing.SnapshotAdvances` | electron/threadFeed.ts:98-106 | despite both trims, the next snapshot is a suffix of the previous one followed by the new events |
| `ThreadRing.ClientFollows` | electron/threadFeed.ts:98-106 | a client list that ends in the snapshot still does after appending the next events |
| `ThreadFeed.EventsTold` | electron/threadFeed.ts:276-283 | an events frame keeps a client's numbers rising by one and its list ending in the current snapshot |
| `ThreadFeed.SnapTold` | electron/threadFeed.ts:138-144 | a snapshot frame brings any client to exactly the current snapshot |
| `ThreadFeed.FollowsOn` | electron/threadFeed.ts:158-203 | reading on and bounding early give the last 200 events of everything read |
| `ThreadFeed.ThreadFeed.StopIfIdle` | electron/threadFeed.ts:113-125 | when nobody listens the timer stops, the session is forgotten and a running tick becomes stale |
| `ThreadFeed.ThreadFeed.Broadcast` | electron/threadFeed.ts:127-136 | every live client is told once, those that throw are dropped, and the last to go stops the feed |
| `ThreadFeed.ThreadFeed.CommitSession` | electron/threadFeed.ts:229-239 | a session is committed in one step: list, tailer and every client's snapshot agree with the seed |
| `ThreadFeed.ThreadFeed.TickStart` | electron/threadFeed.ts:286-301 | one tick at a time, none while nobody listens, and exactly which await it comes to first |
| `ThreadFeed.ThreadFeed.SeedDone` | electron/threadFeed.ts:210-239 | a tick overtaken by the last detach commits nothing but the log flag, which becomes whether the read failed, so the feed is unchanged if and only if the flag said so already; otherwise, if what was read is the end of the file, every client gets the snapshot of the last 200 events of exactly the file's good lines that begin after the seed's first byte, or from the start if the seed is the whole file, and the next read is from the file's end |
| `ThreadFeed.ThreadFeed.StatDone` | electron/threadFeed.ts:241-264 | a replaced or cut file is attached afresh, an unchanged one ends the tick, and otherwise the range to read ends at the file's end and is within the read cap; a stale tick changes the log flag if and only if stat threw and it was clear |
| `ThreadFeed.ThreadFeed.ReadDone` | electron/threadFeed.ts:265-284 | the events of exactly the good lines that the range of the file completes go into the ring and out as one frame, and the next read is from the range's end; a stale tick changes nothing, except the log flag if and only if reading threw and it was clear |
| `ThreadFeed.SeedTells` | electron/threadFeed.ts:215-239 | a seed that is the end of a file yields the last 200 events of exactly its good lines in there and leaves the tailer at the file's end |
| `ThreadFeed.RangeTells` | electron/threadFeed.ts:256-284 | a range of the file, read on or skipped to, yields the events of exactly the good lines it completes |
| `ThreadFeed.StaleTickSetsFlag` | electron/threadFeed.ts:205-229 | a run attach, detach, failed read in which a stale tick sets the log flag of a feed nobody listens to |
| `ThreadFeed.ThreadFeed.EndTick` | electron/threadFeed.ts:146-155 | one state frame under the next number, only when something changed and the tick is not stale |
| `ThreadFeed.ThreadFeed.Attach` | electron/threadFeed.ts:304-317 | a client gets the current snapshot under the current number before it is registered; one that throws on it leaves no trace |
| `ThreadFeed.ThreadFeed.Detach` | electron/threadFeed.ts:319-321 | a client leaves; the last one stops the feed and makes a running tick stale |
| `Baseline.MedianDurationMsFor` | collector/src/usageIngest.ts:67-78 | the query and the sort give the median, defined by counting alone, of the last 20 admissible earlier runs of the agent, none below 5 |
| `Baseline.SelectLatest` | collector/src/usageIngest.ts:70-76 | ordering by end time and limiting to 20 selects exactly the rows that fewer than 20 others ended after |
| `Baseline.MedianOfDurations` | collector/src/severity/baselineMath.ts:22-29 | sorting and taking the middle one or two meets the counting definition of the median |
| `Baseline.SortedRank` | collector/src/severity/baselineMath.ts:25-28 | the entry at a rank of the sorted list has exactly the right number of samples below it |
| `Baseline.MedianUnique` | collector/src/usageIngest.ts:67-78 | a run has one baseline |
| `Baseline.MedianFrame` | collector/src/usageIngest.ts:159-161 | the baseline reads nothing but the eligible rows' ends and durations, so the rescore order does not matter |
| `Baseline.RunsThatCount` | collector/src/usageIngest.ts:71-73 | a run counts for a baseline exactly if it has an agent and a duration above zero, ended ok and is stored as completed or without a status |
| `Baseline.SeverityBands` | collector/src/severity/computeSeverity.ts:46-85 | failed runs score 4, killed ones 2, finished ones 1 to 3 with 3 exactly when tool errors reach the floor |
| `Baseline.SeverityIs` | collector/src/severity/computeSeverity.ts:54-80 | the score of every exit, slow being strictly above three times the baseline |
| `UsageIngest.DispatchStore.IngestDispatchEvent` | collector/src/usageIngest.ts:80-136 | a completion is stored exactly if the file's history holds the dispatch open and it has a time, so a second one is refused unless the dispatch is opened again; the row is scored against the rows stored so far, the watermark falls to its end in the same step, and scores below it stay right if and only if no baseline needed the row it replaces; over every run without a re-opening they are right |
| `UsageIngest.DispatchStore.Open` | collector/src/toolCallHistory.ts:80-86 | a tool call opens its dispatch in that file's history, again if it was seen before |
| `UsageIngest.DispatchStore.Close` | collector/src/toolCallHistory.ts:88-106 | its result closes it, in that file only |
| `UsageIngest.DispatchStore.RescorePendingDispatches` | collector/src/usageIngest.ts:162-187 | afterwards every completion's severity and median are those of the whole table if and only if those below the watermark were; rows below it are not touched |
| `UsageIngest.DispatchStore.SweepStale` | collector/src/staleDispatchSweep.ts:84-133 | a stale dispatch gets one final fatal row, unless it has a row, and no baseline moves |
| `UsageIngest.RescoreRows` | collector/src/usageIngest.ts:166-184 | the loop rescores exactly the rows from the watermark on, from stored columns only, whatever order it visits them in |
| `UsageIngest.Rescored` | collector/src/usageIngest.ts:174-183 | one row's new score, computed from stored columns only, is the one its completion would get |
| `UsageIngest.RowTells` | collector/src/usageIngest.ts:152-161 | a stored severity above 2 stands for the tool errors that were not stored, so rescoring needs no transcript |
| `UsageIngest.ScoreIs` | collector/src/usageIngest.ts:107-113 | the score of a completion: failed 4, killed 2, completed 3 from three tool errors on, 2 above three times its baseline and 1 otherwise |
| `UsageIngest.OrderIndependent` | collector/src/usageIngest.ts:138-146 | two stores given the same completions, in any order and with any crashes between steps, have equal rows once rescored |
| `UsageIngest.IngestExactly` | collector/src/usageIngest.ts:106-130 | storing a row leaves every score below the lowered watermark right if and only if each row there whose window held the replaced row has the same baseline without it |
| `UsageIngest.OpenedTwiceKeepsOldBaseline` | collector/src/usageIngest.ts:91-134 | a run from an empty store: six completions, rescoring, the first dispatch open in a second transcript and completed there later, rescoring; the sixth row keeps a baseline the table no longer gives |
| `UsageIngest.RefusedUnlessReopened` | collector/src/usageIngest.ts:91-92 | an open dispatch that was never opened again has no completion yet, no row that counts, and is open in one file only |
| `UsageIngest.PositiveMedian` | collector/src/severity/computeSeverity.ts:54-55 | a baseline is positive, so storing it only if positive stores it |
| `MemoryStore.OpKeepsOk` | collector/src/memoryStore.ts:563-727 | every operation keeps the tables in order: live and tombstoned ids disjoint and together all ids ever allocated, supersedes links and successors the same relation, every row legal |
| `MemoryStore.SupersedeOk` | collector/src/memoryStore.ts:518-536 | removing a row leaves its tombstone, and its link if it has a successor, with scope and owner constant along the chain |
| `MemoryStore.ChainEnd` | collector/src/memoryStore.ts:518-536 | following successors strictly increases the id and ends in one live row or in a row removed without a successor, of the same scope and owner |
| `MemoryStore.SupersedeMovesEnds` | collector/src/memoryStore.ts:645-682 | superseding a row moves the end of every chain that led to it, and of no other |
| `MemoryStore.OpIsolated` | collector/src/memoryStore.ts:736-754 | a writer adds, changes or removes only rows it may write; tombstones and links are only ever added |
| `MemoryStore.OpCounts` | collector/src/memoryStore.ts:566-727 | how each outcome moves the numbers of live rows, tombstones and ids |
| `MemoryStore.AcceptedExactly` | collector/src/memoryStore.ts:566-727 | an operation is accepted exactly under the stated conditions, whatever the order in which they are looked at |
| `MemoryStore.LoadWritable` | collector/src/memoryStore.ts:736-754 | an operation may address exactly the live rows its writer may write |
| `MemoryStore.ClampSalience` | collector/src/memoryStore.ts:386-391 | salience is refused only if not a number and is otherwise 1 to 5 |
| `MemoryStore.UpdateTwice` | collector/src/memoryStore.ts:616-642 | the same update twice is the same as once |
| `MemoryStore.SupersedeKeepsText` | collector/src/memoryStore.ts:645-682 | the tombstone keeps the old text, the new row says the new one and inherits what the operation leaves out |
| `MemoryStore.StoresAsGiven` | collector/src/memoryStore.ts:566-727 | after an accepted operation the row holds what was given, the salience brought into range, and what was there where nothing was given, for an addition, an update, a supersession, a revision and a touch, which adds exactly one reference |
| `MemoryStore.ReasonIsSo` | collector/src/memoryStore.ts:566-727 | a refusal changes nothing and its reason is true of the operation |
| `MemoryStore.MemoryStore.ApplyOps` | collector/src/memoryStore.ts:542-733 | a batch is all or nothing, whether an operation throws or the commit; its counters and refusals account for every operation, and rows, tombstones and ids move as the counters say |
| `MemoryStore.MemoryStore.DeleteMemory` | collector/src/memoryStore.ts:788-795 | the operator's removal leaves a tombstone without successor and no link |
| `MemoryStore.MemoryStore.MarkReferenced` | collector/src/memoryStore.ts:782-785 | showing rows to an agent moves nothing but their reference counts |
| `MemoryReads.GetPrivateCandidates` | collector/src/memoryStore.ts:770-780 | of the agent's own private rows the 500 most salient, the fresher first among equals, are fetched, and the best of them by score come in that order; no other agent's row does, and while the agent has no more than 500 none is left unfetched |
| `MemoryReads.Top` | collector/src/memoryStore.ts:414-418 | ordering and limiting keeps the first rows and leaves out nothing that comes before one of them |
| `SuccessorFinder.SuccessorFinder.Find` | electron/clearSuccessorFinder.ts:54-131 | over any history of appends and calls the memoised scan answers as a scan from scratch: the newest-born present file not older than the pin that qualifies, or none exactly when there is none |
| `SuccessorFinder.Look` | electron/clearSuccessorFinder.ts:76-119 | whatever is concluded about one file is true of it, and the file need not be read again until it grows |
| `SuccessorFinder.Stable` | electron/clearSuccessorFinder.ts:89-116 | what was learnt of a file stays true as it grows: a match stays one, a file ruled out stays out |
| `SuccessorFinder.ForeignGrows` | electron/clearSuccessorFinder.ts:102-108 | once found, the first foreign id never changes as the text grows |
| `SuccessorFinder.TruthGrows` | electron/clearSuccessorFinder.ts:48-52 | all caches stay true as files grow and the pin moves to a younger file |
| `SuccessorFinder.MatchesAreCandidates` | electron/clearSuccessorFinder.ts:122-130 | after a sweep the matches are exactly the candidates of a scan from scratch |
| `SuccessorFinder.NotOwn` | electron/clearSuccessorFinder.ts:100-108 | the launch's own file never qualifies |
| `SuccessorFinder.QualifiesExactly` | electron/clearSuccessorFinder.ts:89-116 | a file qualifies exactly if its first 256 KiB hold the record or the tag of a clear and the first foreign id in its first 2 MiB is the launch's |
| `SuccessorFinder.FieldIs` | electron/clearSuccessorFinder.ts:44-44 | an id field is the pattern's: the key, 36 characters of its class and a quote |
| `SuccessorFinder.ForeignFirst` | electron/clearSuccessorFinder.ts:102-108 | fields are looked at from left to right without overlap and the first id that is not the file's own counts |
| `SuccessorFinder.Sweep` | electron/clearSuccessorFinder.ts:76-120 | after the sweep every listed file but the pinned one is decided, matched or known at its present size |
| `Utf8.EncodeDecodes` | electron/transcriptTailer.ts:12-12 | every character decodes from its UTF-8 encoding |
| `Utf8.DecodeEncodes` | electron/transcriptTailer.ts:12-12 | only a character's own encoding decodes to it; anything else becomes replacement characters |
| `Utf8.DecodedLengthExactly` | electron/transcriptTailer.ts:16-16 | decoding keeps the length of a text if and only if each maximal part that is no character is three bytes long; valid text keeps it, and no text gets shorter |
| `Utf8.DecodeConcat` | electron/transcriptTailer.ts:12-16 | between characters a text can be decoded in two pieces, so decoded lines are the lines decoded |
| `TranscriptTailer.CompleteLines` | electron/transcriptTailer.ts:12-18 | decoding, searching for the last newline and splitting yield exactly the decoded complete lines of the bytes read |
| `TranscriptTailer.ReadNewLines` | electron/transcriptTailer.ts:3-22 | a read from any offset yields those lines and moves the offset past the last newline, further by what decoding added |
| `TranscriptTailer.OffsetRightExactly` | collector/src/transcriptScan.ts:51-56 | from a line boundary the next offset is just past the last newline if and only if decoding keeps the length of what was read, as in valid UTF-8; otherwise it is too far |
| `TranscriptTailer.ReadRight` | collector/src/transcriptScan.ts:42-60 | over any sequence of reads: from a right offset the next is right if and only if every complete line of the file keeps its length, and then the lines so far are all of them |
| `TranscriptTailer.InvalidByteLosesLine` | collector/src/transcriptScan.ts:51-56 | one byte 0xFF before a newline moves the offset two bytes too far, and a line appended then is never read |
| `TranscriptTailer.SplitDecoded` | electron/transcriptTailer.ts:15-17 | splitting the decoded text gives the decoded lines |
| `TranscriptTailer.SplitRejoins` | collector/src/transcriptScan.ts:54-56 | splitting loses nothing: the lines with their newlines and the rest are the text |
| `TranscriptScan.TranscriptScan.IngestFile` | collector/src/transcriptScan.ts:168-245 | rows and offset of one file land together or not at all, the rows being those of the lines read; it throws exactly if its transaction fails and there is something new; no other file's rows or offset move; a file right so far is read through its last newline if and only if decoding keeps the length of its lines |
| `TranscriptScan.TranscriptScan.VisitSession` | collector/src/transcriptScan.ts:302-363 | the same for a session's subagent files, which are visited only if the session's own file could be read; the visit throws if and only if a transaction fails for a file that has something new, and otherwise leaves nothing new in any of them |
| `TranscriptScan.TranscriptScan.ScanTranscriptsOnce` | collector/src/transcriptScan.ts:145-366 | after any appends, passes and failed transactions the usage rows of every file whose lines keep their length, valid UTF-8 or not, are exactly those of its lines before its offset, each once; a pass finishes if and only if no transaction fails for a listed file that has something new, and then every listed file is read through its last newline |
| `TranscriptScan.PassedOne` | collector/src/transcriptScan.ts:145-154 | a transaction fails at the next file exactly if it is one of the failing ones, the file has something new and was not read earlier in the session |
| `TranscriptScan.TripsNow` | collector/src/transcriptScan.ts:145-154 | the same for the next session of a pass |
| `TranscriptScan.DoneMeansAll` | collector/src/transcriptScan.ts:145-366 | such a file then holds each of its complete lines' usages once and in order |
| `TranscriptScan.AddUsages` | collector/src/usageIngest.ts:15-31 | a file's new rows are its new lines' usages, in order, and no other file's |
| `AnswerPages.BuildAnswerPages` | electron/communicationBridge/exchangeController.ts:43-67 | the pages join to the answer, split no code point and form one cursor chain; where one code point fits, each keeps its source text within the page bound and, below a million pages, both serialized forms stay within the envelope |
| `AnswerPages.CutPages` | electron/communicationBridge/exchangeController.ts:49-65 | the loop's three running sizes are exact, every chunk is within all three bounds, and every cut was forced |
| `AnswerPages.PageWithinEnvelope` | electron/communicationBridge/exchangeController.ts:51-57 | a page whose text fits stays within the envelope as JSON and doubly encoded in its wrapper, with any status within its reserve |
| `AnswerPages.SizesAdd` | electron/communicationBridge/exchangeController.ts:58-64 | the three sizes add up over any join that splits no surrogate pair |
| `AnswerPages.PointSizes` | electron/communicationBridge/exchangeController.ts:59-60 | the two sizes the loop computes for a code point are those of its escape and of its escape's escape |
| `AnswerPages.PointBounds` | electron/communicationBridge/exchangeController.ts:50-50 | one code point takes at most 4 bytes, 6 escaped and 7 escaped twice |
| `AnswerPages.LimitsSuffice` | electron/communicationBridge/exchangeController.ts:50-57 | under the configured limits, and ids of UUID length, one code point always fits |
| `AnswerPages.CursorsDiffer` | electron/communicationBridge/exchangeController.ts:46-46 | pages of one answer have different cursors |
| `AnswerPages.FindPage` | electron/communicationBridge/exchangeController.ts:238-238 | the search by cursor text returns the first page under it, the first page without one, or nothing |
| `AnswerPages.FollowingReadsAll` | electron/communicationBridge/exchangeController.ts:66-66 | a client that looks each next cursor up by its text reads the whole answer, page by page, in as many requests as there are pages |
| `AnswerPages.PageFields` | electron/communicationBridge/exchangeController.ts:43-48 | a page's JSON is its fields in order, the next cursor being null on the last page |
| `Json.EscapeReadsBack` | electron/communicationBridge/exchangeController.ts:57-60 | reading an escaped text back gives the text, so nothing is lost by escaping |
| `Json.EscapeForms` | electron/communicationBridge/exchangeController.ts:57-58 | an escape is one character, two for the short forms and six for other controls and lone surrogates |
| `ApplyEngine.BudgetOnlyLowers` | src/shared/aetherChoice/pickPolicy.ts:83-126 | the budget never raises an effort, leaves a manual pick alone and gives up a level only five points below its threshold |
| `ApplyEngine.LevelKept` | src/shared/aetherChoice/pickPolicy.ts:83-98 | without a past the level is the usage's own, and one once reached is kept as long as five points more would reach it |
| `ApplyEngine.BudgetSteps` | src/shared/aetherChoice/pickPolicy.ts:100-126 | a step goes down exactly one rung of the ladder, the floor is its lowest rung and a manual pick is left alone |
| `ApplyEngine.SubmitRespects` | src/shared/aetherChoice/pickRecord.ts:84-169 | a submitted pick never touches what is running, an automatic one never replaces a pending manual one, a budget step is never taken for a wish |
| `ApplyEngine.PickIsWished` | src/shared/aetherChoice/pickRecord.ts:84-167 | an accepted pick becomes the wish: while something runs, the model waits exactly if it differs and the effort is queued exactly if it differs, with the picker's source, and what differs in nothing is intended; otherwise all of it is intended at once |
| `ApplyEngine.StepWaits` | src/shared/aetherChoice/pickRecord.ts:84-167 | a budget step changes no wish and is queued exactly if it differs from what runs, nothing wished waits and no user picked |
| `ApplyEngine.RejectedExactly` | src/shared/aetherChoice/pickRecord.ts:84-100 | only an automatic pick is rejected: one reserved to users, or one against a user's pending pick |
| `ApplyEngine.LaunchKeepsWish` | src/shared/aetherChoice/pickRecord.ts:212-242 | a launch changes no wish: what it runs waits no longer, everything else does, and a budget step is forgotten |
| `ApplyEngine.LaunchSource` | src/shared/aetherChoice/pickRecord.ts:212-242 | a wish that a launch fulfils hands its source to the record |
| `ApplyEngine.ExitKeepsWish` | src/shared/aetherChoice/pickRecord.ts:244-246 | an exit changes no wish and ends only the mark that a command was sent |
| `ApplyEngine.OnIdleCheck` | electron/aetherChoice/applyEngine.ts:89-148 | a command is written if and only if the record is live, unhalted and queued, the effort its queue comes to is launchable and not the running one, the gap has passed, the screen is idle, or generating for a budget step down, and the port accepts it; it is that effort, the queue is done with exactly if it was written or runs already, and no wish changes |
| `PickHost.PickHost.ReadDone` | electron/aetherChoice/pickHost.ts:196-211 | a reading that outlived its epoch is dropped; a settled shell, after the launch's grace time, ends the record and nothing else does; otherwise one write follows exactly if one is due on this reading, it is of the effort the queue comes to and rests on a reading begun in the current epoch, recent and after a quiet time; then the next slot with a queue waiting is read |
| `PickHost.PickHost.Judge` | electron/aetherChoice/pickHost.ts:202-211 | the write, made exactly if due, is logged with what it relied on; a shell where a thread should be demotes the record instead |
| `PickHost.LogGrows` | electron/aetherChoice/applyEngine.ts:125-131 | two writes to a slot in one epoch are at least the minimum gap apart |
| `PickHost.SpacedWrite` | electron/aetherChoice/applyEngine.ts:125-131 | between the same starts and exits of a slot's process two writes are at least the gap apart, whatever epochs they fall in |
| `PickHost.SpacedOne` | electron/aetherChoice/pickHost.ts:185-220 | that stays so through every start, exit, demotion and plan, because a record that died writes nothing until a launch makes it live |
| `PickHost.ReadingRests` | electron/aetherChoice/pickHost.ts:131-151 | the engine is told an idle or generating screen if and only if the last reading said so, is of this epoch, not too old, with no input since a quiet time before it began and, if idle, no output either |
| `PickHost.PickHost.TickStart` | electron/aetherChoice/pickHost.ts:185-189 | ticks run one at a time and none after disposal; the screen read first is that of the first owned slot with a queue waiting |
| `PickHost.PickHost.LaunchFor` | electron/aetherChoice/pickHost.ts:297-322 | planning a launch gives up a live process first, bumping its epoch, and plans nothing for a halted record |
| `PickHost.PlanIsWish` | src/shared/aetherChoice/pickRecord.ts:179-210 | a launch runs the wish as far as the budget lets whoever made it, a user's wish unchanged; only a halted record or an effort that cannot be launched has no plan |
| `PickHost.PickHost.OnLaunched` | electron/aetherChoice/pickHost.ts:324-340 | a planned launch starts a new epoch with no reading, no output and no last write, and its grace time; an unplanned or halted one concludes nothing, which keeps the promise about readings if and only if a plan was waiting, the record was not live or its epoch began just now |
| `ChoiceRuntime.ChoiceRuntime.ReadDone` | electron/aetherChoice/runtime.ts:177-201 | over every run of starts, exits, launches, picks and statuslines a command is written exactly if one is due on a reading of the current epoch; no write relied on a reading begun before its slot's latest start or exit, of whatever kind, any two writes between the same starts and exits are the gap apart, and after disposal nothing is written |
| `ChoiceRuntime.ChoiceRuntime.OnStart` | electron/aetherChoice/runtime.ts:182-188 | a start that no plan of ours waits for is reported as foreign, and that keeps the promise |
| `ChoiceRuntime.ChoiceRuntime.OnExit` | electron/aetherChoice/runtime.ts:189-198 | an exit retires the session; a plan made while it ran is made again for its replacement |
| `ChoiceRuntime.ChoiceRuntime.LaunchCommandFor` | electron/aetherChoice/runtime.ts:204-220 | a slot waits for a planned start exactly while the host has a command for it, and then has no live record |
| `ChoiceRuntime.ChoiceRuntime.OnStatusline` | electron/aetherChoice/runtime.ts:241-243 | the budget's picks are submitted one after the other, and a judged launch is confirmed or halts the terminal; the promises are kept and nothing happens after disposal |
| `ChoiceRuntime.ChoiceRuntime.SubmitPick` | electron/aetherChoice/runtime.ts:252-259 | a user's pick is rejected exactly for a slot that is not owned, an effort that cannot be launched or after disposal; otherwise it is the slot's wish from then on, and the promises are kept |
| `ChoiceRuntime.ChoiceRuntime.ClearHalt` | electron/aetherChoice/runtime.ts:260-263 | a cleared halt keeps the promises, clears nothing else and concerns owned slots only |
| `ChoiceRuntime.ChoiceRuntime.Dispose` | electron/aetherChoice/runtime.ts:265-273 | disposing keeps the promises and reaches the host |
| `PickHost.PickHost.Dispose` | electron/aetherChoice/pickHost.ts:419-425 | disposal ends every epoch, so no reading is kept |
| `PickHost.WriteCovered` | electron/aetherChoice/pickHost.ts:131-136 | an allowed write relies on a reading begun after the slot's latest start or exit |
| `PickHost.PickHost.ResetSlot` | electron/aetherChoice/pickHost.ts:288-294 | an exit or a foreign launch starts a new epoch, with the record marked as exited and no plan left, and touches no other slot's record |
| `PickHost.PickHost.OnPick` | electron/aetherChoice/applyEngine.ts:76-87 | over every run each owned record wishes for the last pick accepted that was no budget step; a pick is rejected exactly as stated, and nothing else changes |
| `PickHost.PickHost.ReportNotApplied` | electron/aetherChoice/applyEngine.ts:150-172 | a launch that did not take halts the slot, which then has nothing to write; the pick reported replaces the assumed one, and what was wished stays |
| `LiveAgentTracker.LiveAgentTracker.ReadDone` | electron/liveAgentTracker.ts:119-154 | the token sums are those of the lines fed; from a right offset, and whatever part of the file the read saw, these are all complete lines, each once, if and only if decoding keeps their length; a stale tick leaves the session untouched |
| `LiveAgentTracker.LiveAgentTracker.FindDone` | electron/liveAgentTracker.ts:101-117 | the found file is pinned with everything at zero; a stale tick pins nothing |
| `LiveAgentTracker.LiveAgentTracker.ScanDone` | electron/liveAgentTracker.ts:156-176 | a successor takes the pin and everything starts over; a stale or failed scan changes nothing |
| `LiveAgentTracker.LiveAgentTracker.NotifyPtySpawned` | electron/liveAgentTracker.ts:191-203 | a respawn starts the session over and makes a running tick stale |
| `LiveAgentTracker.LiveAgentTracker.Tick` | electron/liveAgentTracker.ts:205-209 | a tick begins at once with the await its session calls for, or waits its turn while one runs |
| `LiveAgentTracker.AddTokens` | electron/liveAgentTracker.ts:134-139 | the running sums stay the sums over all lines fed |
| `Retention.EventStore.TailSpoolOnce` | collector/src/spoolTailer.ts:35-88 | exactly which files stay, which events become rows, which lines will be seen again and how many files were done or kept; right counts stay right if and only if every file whose deletion fails is without events |
| `Retention.EventStore.RightExactly` | collector/src/spoolTailer.ts:28-30 | over every run each event is counted once, and once more for each time it was left behind or doubled; the counts are right exactly if that never happened to an event |
| `Retention.EventStore.TailFile` | collector/src/spoolTailer.ts:47-84 | one file's events are committed whole or kept whole |
| `Retention.DeletionFailsOnce` | collector/src/spoolTailer.ts:77-84 | a run with one event and one failed deletion ends with two rows |
| `Retention.AgainPlain` | collector/src/spoolTailer.ts:77-84 | nothing that holds an event is seen again exactly if every file whose deletion failed decodes to no event |
| `Retention.EventStore.Compact` | collector/src/retention.ts:16-94 | compaction finishes exactly if it does not die by the time all groups are added; right counts stay right if and only if it finishes or dies before the first group; otherwise the stale rows of the groups added are counted twice, no more and no less |
| `Retention.CompactionDiesOnce` | collector/src/retention.ts:45-54 | a run with one event, one death after its group was added and one good compaction ends with a count of two |
| `Retention.RollUp` | collector/src/retention.ts:19-58 | grouping, adding and deleting move every stale row into its group's count, once; a death in between doubles exactly the groups added |
| `Retention.Group` | collector/src/retention.ts:32-43 | the groups are the distinct keys of the stale rows, in order of first appearance, with their exact numbers |
| `Retention.DiedAfter` | collector/src/retention.ts:45-54 | after the first n groups were added and before any row is deleted, every stale row of those groups is counted once more and nothing else is |
| `Retention.DoubledExactly` | collector/src/retention.ts:45-54 | something is counted twice exactly if at least one group was added before the death |
| `PhoneView.OnChange` | electron/phoneViewCache.ts:91-104 | how a client reacts to a change of its view: told at once that it is empty, handed a payload at once if the gap is over, and otherwise at the gap's end unless a send is scheduled already |
| `PhoneView.PhoneView.Ingest` | electron/phoneViewCache.ts:38-47 | a payload is stored exactly when control is on and it may be held; then every client of the view, and no other, reacts to it |
| `PhoneView.PhoneView.NoneBehind` | electron/phoneViewCache.ts:91-104 | after any run a client for whom nothing is scheduled has last been sent what the cache holds |
| `PhoneView.PhoneView.Clear` | electron/phoneViewCache.ts:49-53 | every client of a view that held something is told it is empty in the same step, no other client hears anything |
| `PhoneView.PhoneView.Attach` | electron/phoneViewCache.ts:81-90 | a client gets the current state at once |
| `PhoneView.PhoneView.TimerFires` | electron/phoneViewCache.ts:101-104 | a scheduled send carries what the cache holds then, at least the gap after the send before |
| `PhoneView.PhoneView.Detach` | electron/phoneViewCache.ts:106-112 | a client that leaves has nothing scheduled any more |
| `PromptSafety.SanitizeUntrusted` | collector/src/promptSafety.ts:56-66 | a fixpoint is always reached within the pass bound, and the result has no control character and no substring that is a tag |
| `PromptSafety.TagEndExact` | collector/src/promptSafety.ts:25-25 | the scanner matches exactly the substrings that are tags |
| `PromptSafety.ClassesAre` | collector/src/promptSafety.ts:20-25 | which characters are controls and which may begin a tag's name |
| `PromptSafety.UnchangedExactly` | collector/src/promptSafety.ts:60-64 | a pass leaves the text alone exactly if it holds no tag, and shortens it otherwise |
| `PromptSafety.SafeIsKept` | collector/src/promptSafety.ts:56-66 | safe text passes through unchanged |
| `PromptSafety.StripWithin` | collector/src/promptSafety.ts:61-61 | a pass only leaves characters out |
| `PromptSafety.FenceClosesOnce` | collector/src/promptSafety.ts:68-71 | a fence holds its closing tag exactly once, at the end, and its opening tag exactly once, at the start |

## Left out

- TerminalHub.SlotRead.Attach: one slot is modelled; the three slots of the hub share only the retain count. Taps and mirrors are values under ids, so sharing by reference is not captured, and a screen is named by what it absorbed instead of drawn.
- MirroredSlot.MirroredSlot.OnOut: a mirror that throws on a write or a resize is not modelled.
- TerminalHub.SlotRead.OnStart: the draining flag is not modelled, because no callback re-enters the hub.
- TerminalSlot.TerminalSlot.Start: the renderer's own handlers and the restarter on a bare Enter (electron/terminalHub.ts:101-109) are not modelled.
- TerminalMirror.TerminalMirror.Pump: the pumping flag is not modelled, because xterm does not call back from inside a write; whether the screen shown can be serialized is a parameter.
- SnapshotText.SerializeBounded: the serializer is a parameter; that the bare cursor escape fits is required and proved for screens up to ten thousand columns.
- ThreadFeed.ThreadFeed.EndTick: whether the working state changed is a parameter; the busy marks and the staleness clock behind it are not modelled.
- LineTail.Consume: parsing a line is a parameter, and a line that fails to parse yields no event.
- UsageIngest.DispatchStore.IngestDispatchEvent: admissible runs of one agent are assumed to end at different times, since with ties the database may pick either; the text of the notification is not modelled.
- UsageIngest.DispatchStore.SweepStale: whether a dispatch is stale is the caller's verdict, and retention's deletion of old dispatches is not modelled.
- MemoryStore.MemoryStore.ApplyOps: fields arrive already read as text, numbers or choices, and the forbidden-content rules are an arbitrary predicate on text.
- MemoryReads.GetPrivateCandidates: the score is an arbitrary function of a row; its weights and half-lives are not modelled.
- SuccessorFinder.SuccessorFinder.Find: a call sees one state of the files and every read succeeds; in the code files may grow between two reads and an unreadable entry is skipped. The caller pins the launch's own file and later only answers, as the live tracker does.
- TranscriptScan.TranscriptScan.IngestFile: a read returns all bytes it was asked for, and the files stand still during one pass.
- TranscriptScan.TranscriptScan.ScanTranscriptsOnce: of the tables one transaction writes, only usage rows and offsets are here; dispatch rows are in UsageIngest, tool calls and anomalies are not modelled.
- AnswerPages.BuildAnswerPages: the fixed advisory sentence is a parameter, and the status added when a page is served is any text within its reserve.
- ChoiceRuntime.ChoiceRuntime.OnStatusline: the budget's picks and the verdict on a launch are parameters.
- ChoiceRuntime.ChoiceRuntime.OnStart: exceptions thrown inside the host's callbacks, which the runtime swallows, are not modelled, nor are its quiet-time traces.
- PickHost.PickHost.ReadDone: one clock value stands for all reads of the clock in one synchronous step; which picks the budget pass makes, when the readback window is open and the serialized saving of records are not modelled.
- LiveAgentTracker.LiveAgentTracker.ReadDone: the folds over open dispatches, open work and history are represented by the lines they were fed; anomaly detection and the cache hit ratio are not modelled.
- Retention.EventStore.Compact: the second half of compaction, the same grouping for anomalies, and the deletions without a rollup are not modelled.
- PhoneView.PhoneView.Ingest: payloads are described by what the cache tests; encoding is a parameter.
- The job lifecycle and the waiters of electron/communicationBridge/exchangeController.ts: most of their decisions are in the shared lifecycle module, which is not part of this model.
- Electron windows, IPC, preload scripts, dialogs and views: wiring and user interface.
- HTTP, authentication, child processes and launch configuration: calls into foreign code.
- Paging backwards through a transcript (electron/transcriptReader.ts:121-133) and the anomaly store (collector/src/anomalyIngest.ts): their tiling and exactly-once claims do not hold of the code as written.
- Settings installers, throttles, window bounds, small parsers and atomic file writes: they would add only easy members.

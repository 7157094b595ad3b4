# Verified model of TVStreammerSAT5's stateful core

TVStreammerSAT5 moves MPEG transport streams between network inputs, satellite frontends and
paced outputs. Most of it is plumbing around GStreamer, curl and plugins. The parts modelled
here are the ones that keep their own state and do their own arithmetic:

| modules | component |
|---|---|
| `HlsLedger`, `HlsRateWindow`, `HlsPlaylist`, `HlsScheduler`, `HlsWatermarks`, `HlsImpl` | the duration-controlled HLS scheduler: byte/duration ledger, rolling media rate, playlist parsing and numbering, the refill loop against the terminal queue and the clock, its watermarks, the published deadline |
| `PacerQueue`, `PacerClock` | the NETUP output reservoir: a bounded byte FIFO cut into 7 x 188-byte chunks, sent on absolute deadlines |
| `QualityHistory`, `QualitySamples` | the quality recorder: spacing, retention, three-resolution compaction, the cap, levels and what the remaining samples stand for |
| `PsiFraming`, `PsiSections`, `PsiScanner`, `PsiPrinted` | the PSI scanner: packet framing with resync, section reassembly, the PAT, and tables printed byte by byte |
| `DvbUri`, `DvbTexts` | the `dvb://` URI printer and parser, texts written by others, and the separate PID extractor |
| `CaBackend`, `CaServices` | conditional-access sessions and reader references with a teardown that leaves the mutex, and what starts, buffers and configurations come to |
| `CcTrace`, `CcHistory` | the continuity-counter tracer, and its counters read off a stream's history |

`Ts` holds bytes and the packet header, `Helpers` a few shared definitions. Each concurrent component is a step system: a state,
actions that are what one thread does under the lock (or one plugin call outside it), a total
`Apply` in which a disabled action changes nothing, and `Exec` over arbitrary action lists, so a
statement about `Exec` from the initial state is one about every run and every interleaving. The
classes have the fields of the C++ objects; their methods follow the source's branches and loops
and are proved equal to those steps.

Where the code does not do what is claimed for it, the model follows the code:

- The comment at `src/HlsSegmentScheduler.cpp:928-934` says that between two publications the
  consumption cannot outrun the clock, so the published deadline never over-reports. It can: a downstream
  that lagged may catch up in one burst. `HlsScheduler.TruthfulExactlyWhenCovered` gives the exact
  condition and `LaggingDownstreamIsOverReported` a run.
- The raise to 1 ns lets the byte/duration ledger run ahead of the proportional amount. Over all terminal
  buffers it never does exactly for segments of at least one nanosecond a byte, of no duration or of one
  byte (`NeverAheadExactlyAtANanosecondAByte`).
- A media-sequence tag between segments renumbers (`RenumberingIsNotContiguous`); parsed segments are
  numbered without a gap exactly when each such tag carries the number then due
  (`ContiguousExactlyWhenTagsFit`). A gap makes the inner loop spin (`CheckSpinsExactlyInAGap`).
- The inner loop over a playlist ends in every run exactly when the playlist has no gap and no absent number
  between its startup choice and its first number (`LoopEndsExactlyWithoutTraps`). Over 10, 3, 4, 5 it can go
  round 4, 5, 4, 5 without end though no number lies in a gap (`BackJumpCycle`).
- A playlist jump is meant to go forward. It goes backwards exactly when an absent number lies between
  the startup choice and the first number (`JumpGoesBackExactly`, `BackJumpExample`); without such
  numbers, and only then, processed numbers rise in every run (`RisesExactlyWhenJumpsForward`).
- The bytes the PSI framer keeps can depend on how the stream was split, exactly when more than a packet's
  worth of noise follows the last packet and what is behind it is not one byte short of a packet
  (`RemaindersDifferExactly`).
- A section header cut by a payload start is dropped (`ReassemblyInvertsPacketisation`).
- A reader can be closed after a later service opened it (`LateClose`). Opens and closes of a reader
  alternate over a run exactly when no start opens it while a teardown that will close it is under way
  (`AlternatesExactlyWithoutEarlyOpens`); opens wait for the closes before them to come back, and calls on
  one reader never overlap, when no start opens it while such a teardown has not come back from the close
  (`OpensInTurnExactlyWithoutEarlyCalls`).
- The NETUP comment at `src/NetupOutputPacer.cpp:261-263` speaks of never sending several chunks at
  once; up to six can leave together (`BoundIsTight`). A chunk is certain to follow an interval behind
  another exactly when that one left on its deadline (`IntervalKeptExactlyOnTime`), and two can leave at
  one instant exactly when the first is an interval late (`TwoAtOnceExactlyWhenLate`).
- When downstream refuses a chunk the sender leaves its loop without telling the producer: a producer
  waiting for space then never gets any (`SpaceExactlyWhileActive`).
- A reservoir that ends with less than a chunk queued before the startup level never finishes
  (`StartupWaitEndsExactlyWithAChunk`).

To check everything: `dafny verify --resource-limit 2000000 --verification-time-limit 0 dfyconfig.toml`.

## Model

| member | source | states |
|---|---|---|
| HlsLedger.DrainConserves | src/HlsSegmentScheduler.cpp:444-475 | One terminal buffer of any size: consumed ns plus ns left in the ledger is what was there, and exactly its bytes leave |
| HlsLedger.DrainAllConserves | src/HlsSegmentScheduler.cpp:434-482 | The same over any sequence of terminal buffers |
| HlsLedger.DrainedSegmentsAreExact | src/HlsSegmentScheduler.cpp:457-460 | However the bytes of the first m segments are split into buffers, draining them consumes exactly the durations of those m segments |
| HlsLedger.FluidTake | src/HlsSegmentScheduler.cpp:455-472 | One partial take moves the lead over the proportional amount by at most one ns up (only when raised to 1 ns) and less than one ns down |
| HlsLedger.FluidBound | src/HlsSegmentScheduler.cpp:448-474 | The same bound accumulated over any takes inside a segment, from any position in it |
| HlsLedger.FluidBoundFromStart | src/HlsSegmentScheduler.cpp:448-474 | After i takes totalling k of N bytes the consumed time is at most k*D/N plus the number of raised takes and lags k*D/N by less than i ns |
| HlsLedger.NeverAheadExactlyAtANanosecondAByte | src/HlsSegmentScheduler.cpp:455-472 | For a segment of N bytes and D ns the consumed time is at most k*D/N after k bytes, however they are split into buffers, exactly when N <= 1, D = 0 or D >= N |
| HlsLedger.RaiseRunsAhead | src/HlsSegmentScheduler.cpp:465-465 | One packet of 1 ns: its first byte consumes all of it |
| HlsRateWindow.OverflowIsMonotone | src/HlsSegmentScheduler.cpp:515-517 | A run of segments that does not fit the window never fits again by growing |
| HlsRateWindow.LongestSuffixIsUnique | src/HlsSegmentScheduler.cpp:511-522 | At most one window is the longest fitting run of most recent segments |
| HlsRateWindow.WindowIsMaximal | src/HlsSegmentScheduler.cpp:511-522 | The window is a single segment, or at most twelve of at most 30 s, and with the segment before them it would be more than one of the two |
| HlsRateWindow.RateIsBitsPerSecond | src/HlsSegmentScheduler.cpp:524-528 | The rate is the whole bits a second its bytes and nanoseconds give |
| HlsRateWindow.PublishedExactly | src/HlsSegmentScheduler.cpp:529-546 | A rate is published exactly from 100 kbit/s to 200 Mbit/s |
| HlsRateWindow.WindowRateIsBetweenSegmentRates | src/HlsSegmentScheduler.cpp:524-528 | The floored window bitrate lies between any bounds on the floored rates of its segments |
| HlsRateWindow.RateWindow.Append | src/HlsSegmentScheduler.cpp:511-522 | Appending and trimming keeps the cached sums equal to those of the deque and leaves it non-empty |
| HlsRateWindow.RateWindow.Admit | src/HlsSegmentScheduler.cpp:511-546 | The window becomes the longest fitting suffix of all admitted segments and the rate is published exactly when it is in range |
| HlsRateWindow.RateWindow.PublishRate | src/HlsSegmentScheduler.cpp:524-546 | The marker changes exactly when the computed rate is in range |
| HlsRateWindow.RateWindow.Publish | src/HlsSegmentScheduler.cpp:501-547 | Empty segments change nothing, a discontinuity forgets the history, otherwise the outcome is that of the longest fitting suffix |
| HlsPlaylist.ParsePlaylist | src/HlsSegmentScheduler.cpp:277-340 | The loop over pending state computes the parse under which printed playlists come back and which the numbering lemmas are about |
| HlsPlaylist.PrintedPlaylistComesBack | src/HlsSegmentScheduler.cpp:277-340 | For every media sequence, target and list of segments with positive durations, parsing the printed lines (key lines, discontinuity marks, EXTINF, address) gives exactly these segments numbered from the media sequence |
| HlsPlaylist.DurationIsExtInfOrTarget | src/HlsSegmentScheduler.cpp:301-328 | Behind any lines of a media playlist EXTINF and an address add a segment exactly when the duration is not negative; it has that duration, or the last readable target if it is zero or unreadable |
| HlsPlaylist.TargetIsInForce | src/HlsSegmentScheduler.cpp:294-295 | The target in force is the last one that could be read, or two seconds |
| HlsPlaylist.VariantsComeBack | src/HlsSegmentScheduler.cpp:296-320 | A printed master playlist gives its variants in order and no segments |
| HlsPlaylist.SegmentsAreNumberedFromMediaSequence | src/HlsSegmentScheduler.cpp:291-336 | With the sequence tag before the segments the i-th segment has number mediaSequence + i |
| HlsPlaylist.ContiguousExactlyWhenTagsFit | src/HlsSegmentScheduler.cpp:291-336 | For every line sequence: the segments are numbered without a gap exactly when the last sequence tag between any two neighbours, if there is one, carries the number then due |
| HlsPlaylist.RenumberingIsNotContiguous | src/HlsSegmentScheduler.cpp:291-293 | A tag between segments breaks contiguity: a concrete playlist |
| HlsPlaylist.DurationsArePositive | src/HlsSegmentScheduler.cpp:294-328 | With positive target durations every segment has a positive duration, whatever its EXTINF says |
| HlsPlaylist.FindSegmentIndex | src/HlsSegmentScheduler.cpp:789-794 | The first index with the number, or nothing exactly when no segment has it |
| HlsPlaylist.MissingOnlyOutside | src/HlsSegmentScheduler.cpp:1068-1081 | In a contiguous playlist a number is found exactly between the first and the last one |
| HlsPlaylist.StartupIndexIsStartupPoint | src/HlsSegmentScheduler.cpp:796-810 | The startup walk ends at the segment its duration and count limits characterise |
| HlsPlaylist.ChooseStartupSequence | src/HlsSegmentScheduler.cpp:796-810 | The loop returns the number of that segment, or the media sequence of an empty playlist |
| HlsScheduler.RoundingGap | src/HlsSegmentScheduler.cpp:1084-1085 | The truncated duration used for the projection is the rounded one of the ledger or one ns less |
| HlsWatermarks.DurationIsNearest | src/HlsSegmentScheduler.cpp:884-893 | The ledger duration is the nearest whole nanosecond to the parsed seconds, halves up, and never less than one |
| HlsScheduler.StepKeepsInv | src/HlsSegmentScheduler.cpp:1001-1140 | Every step of worker, terminal queue and clock keeps the reservoir invariant |
| HlsScheduler.FinishKeepsInv | src/HlsSegmentScheduler.cpp:924-946 | Finishing a push keeps the bound, whatever was drained since its guard was evaluated |
| HlsScheduler.ReservoirIsBounded | src/HlsSegmentScheduler.cpp:484-499 | Over every run ahead is at most max(HIGH + 1 ns, TARGET + D, 2D); registered time is consumed, pending or in the ledger; unavailable means at least three definitive failures in a row |
| HlsScheduler.PostStartupPushIsBounded | src/HlsSegmentScheduler.cpp:1097-1111 | Over every run a push after startup leaves ahead at most max(HIGH + 1 ns, LOW + that segment) |
| HlsWatermarks.StartupEndsExactly | src/HlsSegmentScheduler.cpp:1062-1066 | Startup holds behind a head of the refill loop exactly when it held before and not (two segments pushed and pushed minus effective consumption is at least 8 s) |
| HlsWatermarks.StartupEndsAtFirstReading | src/HlsSegmentScheduler.cpp:1059-1066 | Over every run from every state startup holds exactly when it held at the beginning and no head of the loop has seen that reading |
| HlsWatermarks.PushBoundBehindFirstReading | src/HlsSegmentScheduler.cpp:1097-1111 | Over every run with such a reading every later push leaves at most 12 s and a nanosecond, or 6 s plus the pushed segment |
| HlsWatermarks.FetchedExactly | src/HlsSegmentScheduler.cpp:1059-1100 | The wanted segment is fetched exactly when it is there, the loop is not left, and it is startup, at most 6 s are ahead, or ahead plus its truncated duration is at most 12 s |
| HlsWatermarks.OuterLoopChoosesExactly | src/HlsSegmentScheduler.cpp:1002-1056 | The outer loop probes an unavailable source, polls above 6 s behind startup and enters the refill loop otherwise |
| HlsWatermarks.PassKnowsProgress | src/HlsSegmentScheduler.cpp:1057-1124 | Over every pass through the refill loop the worker knows exactly whether it processed a segment in it |
| HlsWatermarks.RefreshedExactly | src/HlsSegmentScheduler.cpp:1124-1140 | Behind the loop the playlist is replaced exactly when a fetch failed, nothing was processed in the pass, or the wanted number is not in it |
| HlsWatermarks.FailedFetchIsRetried | src/HlsSegmentScheduler.cpp:1112-1140 | A failed fetch is followed by a refresh and leaves number and log alone |
| HlsWatermarks.UnavailableExactlyWhenConfirmed | src/HlsSegmentScheduler.cpp:564-612 | Over every sequence of replies from a reset on the source counts as unavailable exactly when three definitive absences came in a row and no success behind them; other failures break the row before the third and change nothing after it |
| HlsScheduler.SequenceDiscipline | src/HlsSegmentScheduler.cpp:1059-1123 | Over playlists whose first number is their least, gaps allowed: between recoveries processed numbers strictly increase, are consecutive without a jump, and a jump happens only below the playlist's first number |
| HlsScheduler.RunKeepsSeqInv | src/HlsSegmentScheduler.cpp:1020-1123 | Every run keeps the log linked: each entry starts at the number the entries before it led to, so a failed fetch leaves it alone, and every jump of the log goes forward |
| HlsScheduler.JumpGoesBackExactly | src/HlsSegmentScheduler.cpp:1068-1081 | The head of the loop lowers the wanted number exactly when it is absent and lies between the startup choice and the playlist's first number |
| HlsScheduler.RisesExactlyWhenJumpsForward | src/HlsSegmentScheduler.cpp:1059-1123 | A playlist P keeps processed numbers rising between recoveries in every run over P and contiguous playlists exactly when no absent number lies between its startup choice and its first number |
| HlsScheduler.BackJumpExample | src/HlsSegmentScheduler.cpp:1068-1081 | Playlist lines with a second sequence tag parse to the numbers 10, 3, 4, 5, and over them a worker at startup that wants 7 goes back to 4 |
| HlsScheduler.RecoveryGoesBackExactly | src/HlsSegmentScheduler.cpp:1020-1027 | A recovery moves the next number backwards exactly when the recovered playlist lacks it and it is above the startup choice, for every playlist |
| HlsScheduler.RecoveryGoesBackPastTheLiveEdge | src/HlsSegmentScheduler.cpp:1020-1027 | For a contiguous playlist that is exactly when it was past the last number |
| HlsScheduler.CheckSpinsExactlyInAGap | src/HlsSegmentScheduler.cpp:1059-1082 | Evaluating the head of the inner loop changes nothing exactly when the wanted number lies in a gap |
| HlsScheduler.ContiguousHasNoGap | src/HlsSegmentScheduler.cpp:1068-1081 | A contiguous playlist has no gap and no absent number between its startup choice and its first number |
| HlsScheduler.RefillStepsDecreaseRank | src/HlsSegmentScheduler.cpp:1059-1123 | Over every playlist without these two traps each inner-loop step decreases a rank that no other step increases |
| HlsScheduler.RefillLoopTerminates | src/HlsSegmentScheduler.cpp:1059-1124 | Over such a playlist no run takes more inner-loop steps than that rank before the loop is entered again |
| HlsScheduler.ContiguousLoopTerminates | src/HlsSegmentScheduler.cpp:1059-1124 | Over a contiguous playlist of n segments at most 3n + 5 |
| HlsScheduler.LoopEndsExactlyWithoutTraps | src/HlsSegmentScheduler.cpp:1059-1124 | Some bound on inner-loop steps holds for every run over a playlist, from every start and after every earlier run, exactly when the playlist has neither trap |
| HlsScheduler.BackJumpCycle | src/HlsSegmentScheduler.cpp:1068-1081 | Over the numbers 10, 3, 4, 5, none in a gap, a worker at startup whose bodies cannot be pushed processes 4 and 5 and is back at 4 |
| HlsScheduler.TruthfulExactlyWhenCovered | src/HlsSegmentScheduler.cpp:928-944 | Until the next push the reported time exceeds the true ahead by less than a second in every interleaving, exactly when the published deadline is covered |
| HlsScheduler.CoveredIsTruthful | src/HlsSegmentScheduler.cpp:1185-1194 | A covered deadline stays truthful over every run without a push |
| HlsScheduler.KeepingUpCovers | src/HlsSegmentScheduler.cpp:928-944 | A push made while downstream had kept up with the clock publishes a covered deadline |
| HlsScheduler.LaggingDownstreamIsOverReported | src/HlsSegmentScheduler.cpp:928-934 | A concrete push whose deadline is not covered, and a run behind it whose report is untruthful |
| HlsScheduler.ReportExpires | src/HlsSegmentScheduler.cpp:936-943 | Without another push the report is zero from the published number of whole seconds on |
| HlsWatermarks.ReportIsTightAtPush | src/HlsSegmentScheduler.cpp:924-944 | Behind a push the report is what is ahead rounded down to whole seconds while the deadline fits 32 bits |
| HlsWatermarks.DeadlineExactly | src/HlsSegmentScheduler.cpp:935-944 | The published second is the sampled one plus the whole seconds ahead, saturated at 4294967295 |
| HlsWatermarks.NothingReportedAtFirst | src/HlsSegmentScheduler.cpp:936-944 | Nothing is reported over any run before the first push is finished |
| HlsImpl.Impl.OnTerminalBuffer | src/HlsSegmentScheduler.cpp:434-475 | The drain loop is the ledger step on the object's fields |
| HlsImpl.Impl.Commit | src/HlsSegmentScheduler.cpp:477-480 | The drained time is added to the counter in a step of its own |
| HlsImpl.Impl.AheadNs | src/HlsSegmentScheduler.cpp:484-499 | Ahead is pushed time minus the smaller of downstream and wall-clock consumption, never negative |
| HlsImpl.Impl.NoteControlRequest | src/HlsSegmentScheduler.cpp:564-627 | Successes reset, 404 and 410 count, the third confirms unavailability |
| HlsImpl.Impl.LoadPlaylist | src/HlsSegmentScheduler.cpp:780-787 | A reload succeeds exactly with a non-empty playlist and notes every reply |
| HlsImpl.Impl.ProbeSource | src/HlsSegmentScheduler.cpp:1002-1029 | The recovery branch, including the re-chosen number |
| HlsImpl.Impl.CheckRefillNeed | src/HlsSegmentScheduler.cpp:1059-1100 | The head of the inner loop: leave it and end startup, jump, spin or start a segment, as the exact decisions above say |
| HlsImpl.Impl.RegisterSegment | src/HlsSegmentScheduler.cpp:884-893 | The segment enters the ledger before its first buffer is pushed |
| HlsImpl.Impl.PublishDeadline | src/HlsSegmentScheduler.cpp:935-944 | The whole-second deadline with its 32-bit saturation |
| HlsImpl.Impl.FinishSegment | src/HlsSegmentScheduler.cpp:924-946 | The whole state after a push is accounted and the number advanced |
| HlsImpl.Impl.GuaranteedBufferedAheadMilliseconds | src/HlsSegmentScheduler.cpp:1185-1194 | The report read from the published marker and the clock |
| PacerQueue.RoundUpToChunk | src/NetupOutputPacer.cpp:84-92 | The least multiple of the chunk size that is at least the value, one chunk at minimum |
| PacerQueue.StartupFits | src/NetupOutputPacer.cpp:117-123 | The startup threshold is whole chunks, below the byte limit, and covers the startup time unless clamped |
| PacerQueue.StartupExactly | src/NetupOutputPacer.cpp:117-123 | The threshold is the least whole number of chunks, one at least, that hold a second and a half at the bitrate, and 12748 chunks beyond that |
| PacerQueue.FillNullChunk | src/NetupOutputPacer.cpp:94-104 | Seven NULL packets with consecutive counters are written in place |
| PacerQueue.StepKeepsInv | src/NetupOutputPacer.cpp:146-224 | Every producer, sender and end step keeps queued bytes equal to the buffers minus the front offset, within 16 MiB, and the sent chunks in order |
| PacerQueue.FifoRefinement | src/NetupOutputPacer.cpp:146-332 | In every interleaving the sent chunks are the accepted bytes cut at chunk boundaries with whole NULL chunks between, and the queue holds the rest |
| PacerQueue.AcceptedIsBroughtIn | src/NetupOutputPacer.cpp:146-176 | Over every run the accepted bytes are the buffers that fitted when they were pushed, whole and in order |
| PacerQueue.PushEnabledExactly | src/NetupOutputPacer.cpp:146-176 | A buffer is taken exactly when it is not empty, nothing is stopping, and the queue stays within 16 MiB |
| PacerQueue.StopIsObeyed | src/NetupOutputPacer.cpp:247-332 | Once stopped the sender takes at most four more steps in any run and has left its loop when it has none left |
| PacerQueue.LoopLeftExactly | src/NetupOutputPacer.cpp:212-325 | Over every run the sender has left its loop exactly when a chunk was refused, it saw the stop flag, or it found less than a chunk behind the end of upstream |
| PacerQueue.SignalsAreSeen | src/NetupOutputPacer.cpp:130-184 | Over every run the end and stop flags are set exactly by their signals |
| PacerQueue.InOrderIsPrefix | src/NetupOutputPacer.cpp:187-210 | The real chunks concatenated are a prefix of the accepted bytes |
| PacerQueue.OutputPackets | src/NetupOutputPacer.cpp:267-316 | Every 188-byte packet of the output is a packet-aligned slice of the input or a NULL packet, whose counter is its number modulo 16 |
| PacerQueue.EndedMeansAllWholeChunksSent | src/NetupOutputPacer.cpp:269-273 | When the sender ends because upstream ended, exactly the largest whole-chunk prefix has been sent |
| PacerQueue.DeadlockExactlyForLargeBuffers | src/NetupOutputPacer.cpp:166-219 | Producer and sender can wait for each other exactly when buffers may exceed the limit minus the startup threshold by two bytes or more |
| PacerQueue.SenderNeverWaits | src/NetupOutputPacer.cpp:247-332 | Past startup the sender always has an enabled next step and stays past startup until it has ended |
| PacerQueue.EveryLongRunMakesSpace | src/NetupOutputPacer.cpp:166-208 | Wherever the sender stands, every run in which it takes more steps than the queued chunks account for makes space for a blocked producer's buffer exactly when the buffer fits beside the incomplete chunk |
| PacerQueue.SpaceExactlyBesideTheRemainder | src/NetupOutputPacer.cpp:166-208 | From every state of the sender's loop some run without pushes makes space for a buffer exactly when it fits beside the incomplete chunk |
| PacerQueue.SpaceExactlyWhileActive | src/NetupOutputPacer.cpp:166-208 | From every state past startup that has not been stopped, refused chunks included: some run without pushes makes space exactly when there is space already, or the sender has not left its loop and the buffer fits beside the incomplete chunk |
| PacerQueue.LoopLeftNeverMakesSpace | src/NetupOutputPacer.cpp:317-325 | Once the sender has left its loop, for a refused chunk for example, no run ever takes a byte from the queue |
| PacerQueue.ModestBuffersGetSpaceWhileActive | src/NetupOutputPacer.cpp:166-208 | A blocked producer of buffers too small for the deadlock can get space exactly while the sender has not left its loop, and gets it in every run of enough sender steps |
| PacerQueue.ModestBuffersAlwaysGetSpace | src/NetupOutputPacer.cpp:166-208 | For such buffers every run of enough sender steps makes space, whatever the remainder and whether or not downstream refuses a chunk at its end |
| PacerQueue.EndedAfterFinitelyManySteps | src/NetupOutputPacer.cpp:269-273 | After upstream end a sender past startup takes at most as many steps as its rank in every run, and has ended when it has taken that many; a refused chunk only makes them fewer |
| PacerQueue.StartupWaitEndsExactlyWithAChunk | src/NetupOutputPacer.cpp:212-219 | When upstream ends during the startup wait some run finishes exactly when a whole chunk is queued; otherwise the sender waits in every run until it is stopped |
| PacerQueue.ReservoirBridge.PushBuffer | src/NetupOutputPacer.cpp:146-176 | Empty, oversized, flushing, accepted or still waiting, and the state after each |
| PacerQueue.ReservoirBridge.PopChunk | src/NetupOutputPacer.cpp:187-210 | A chunk is handed out exactly when one is queued, and it is the front of the queue |
| PacerQueue.ReservoirBridge.CopyChunk | src/NetupOutputPacer.cpp:193-207 | The copy loop fills the chunk with the next 1316 bytes and leaves the queue without them |
| PacerQueue.ReservoirBridge.TakeFront | src/NetupOutputPacer.cpp:195-206 | One turn of it |
| PacerQueue.ReservoirBridge.WaitForStartup | src/NetupOutputPacer.cpp:212-219 | The wake-up: go on exactly when not stopping with a whole chunk queued |
| PacerQueue.ReservoirBridge.FillOrEnd | src/NetupOutputPacer.cpp:269-281 | Without real data the sender ends after upstream did, or holds a NULL chunk |
| PacerClock.EmissionsAreSpaced | src/NetupOutputPacer.cpp:257-265 | Emissions a and b are at least b - a - 5 intervals apart, whatever the sleeps and pushes take |
| PacerClock.RateBound | src/NetupOutputPacer.cpp:247-332 | Every window of length L holds at most L / interval + 6 chunks |
| PacerClock.BitrateBound | src/NetupOutputPacer.cpp:124-332 | In bits: of n > 6 chunks in a window of L ns all but six take no more than the bitrate allows in L, up to the nanosecond cut off each interval |
| PacerClock.BoundIsTight | src/NetupOutputPacer.cpp:260-265 | The bound is reached after a push that blocks for five intervals |
| PacerClock.Interval | src/NetupOutputPacer.cpp:124-125 | The chunk interval is never zero, also for bitrate 0 |
| PacerClock.IntervalExactly | src/NetupOutputPacer.cpp:124-125 | The interval is the whole nanoseconds a chunk takes at the bitrate, and one exactly for rates beyond that and for none |
| PacerClock.EarliestNext | src/NetupOutputPacer.cpp:257-265 | Behind any timely run the next chunk can leave at an instant exactly when it is neither before the last chunk nor before the last deadline plus the interval |
| PacerClock.IntervalKeptExactlyOnTime | src/NetupOutputPacer.cpp:257-265 | Every next chunk is an interval behind the last one exactly when the last one left on its deadline |
| PacerClock.TwoAtOnceExactlyWhenLate | src/NetupOutputPacer.cpp:260-265 | Two chunks can leave at one instant exactly when the first left a whole interval or more late |
| PacerClock.DelaysAreTimely | src/NetupOutputPacer.cpp:247-332 | Whatever the clock advances, the sleeps overshoot and the pushes take, the trips of the loop leave no chunk before its deadline |
| PacerClock.TimelyHasDelays | src/NetupOutputPacer.cpp:247-332 | Every timely sequence of trips comes from some delays, so the bounds are about exactly the loop's behaviours |
| PacerClock.SendLoop | src/NetupOutputPacer.cpp:247-332 | From unconstrained delays the loop computes deadlines, sleeps and emissions; the trips are timely and every window of length L holds at most L / interval + 6 chunks |
| QualityHistory.CompactionHolds | src/HttpServer.cpp:2492-2524 | Compaction keeps both error sums and the 30 s spacing, leaves one sample per resolution and bucket, and invents no timestamp |
| QualityHistory.CompactionIsIdempotent | src/HttpServer.cpp:2495-2523 | Compacting again at the same instant changes nothing |
| QualityHistory.CompactedCount | src/HttpServer.cpp:51-56 | A compacted, retained history has at most 9855 samples |
| QualityHistory.RecordAllKeepsInv | src/HttpServer.cpp:2471-2530 | Every sequence of recordings keeps the history spaced, retained and compacted or one sample past it |
| QualityHistory.CapNeverFires | src/HttpServer.cpp:2528-2530 | For every recording sequence the cap discards nothing |
| QualityHistory.SameSecondIsTooSoon | src/HttpServer.cpp:2475-2481 | The branch that overwrites a sample of the same second is never taken |
| QualityHistory.RecordConservesErrors | src/HttpServer.cpp:2471-2530 | A recording adds its own errors and removes only those of samples past the retention |
| QualityHistory.ErrorsTelescope | src/HttpServer.cpp:2424-2437 | With monotone totals and nothing expired the retained errors are the newest total minus the first one plus the first sample's own count |
| QualityHistory.CompactNext | src/HttpServer.cpp:2496-2522 | One turn of the merge loop: which branch is taken, the merged counters and level, and the remembered bucket |
| QualityHistory.CompactSamples | src/HttpServer.cpp:2492-2524 | The merge loop computes the compaction whose shape and sums are proved |
| QualityHistory.ExpireOld | src/HttpServer.cpp:2485-2488 | The retention loop keeps exactly the suffix inside the retention |
| QualityHistory.DropToCap | src/HttpServer.cpp:2528-2530 | The cap loop keeps the newest samples |
| QualityHistory.QualityRecorder.PrepareSample | src/HttpServer.cpp:2400-2469 | The early skip, the deltas against the last totals and the level |
| QualityHistory.QualityRecorder.RecordSample | src/HttpServer.cpp:2471-2531 | The locked part records into one stream's history and touches no other |
| QualitySamples.LevelExactly | src/HttpServer.cpp:2439-2469 | A level is offline exactly when inactive, an error for a bad status or counted errors on a live input, a warning without input or with an output more than a fifth off its target |
| QualitySamples.LastHourIsKept | src/HttpServer.cpp:2492-2524 | A compaction leaves the samples of the last hour as they are, behind what it makes of the older ones |
| QualitySamples.OlderAreThinned | src/HttpServer.cpp:2492-2524 | No two samples of one minute are left past the hour, none of five minutes past the day |
| QualitySamples.CompactedStand | src/HttpServer.cpp:2492-2524 | Every sample left is one of those given, with the errors of its bucket and shown as an error if there are any |
| QualitySamples.RetentionExactly | src/HttpServer.cpp:2485-2488 | Exactly the samples older than thirty days are dropped |
| QualitySamples.NewestIsRecorded | src/HttpServer.cpp:2471-2530 | In every state of the invariant a recording that is not too soon leaves its sample whole as the newest |
| QualitySamples.PolledSampleIs | src/HttpServer.cpp:2400-2469 | The newest sample behind a poll is what was read, its errors the difference of the totals, or the new total of a restarted counter |
| QualitySamples.RecordedExactly | src/HttpServer.cpp:2471-2530 | In every state of the invariant a recording changes nothing within 30 s of the newest sample; otherwise the sample is appended, expired ones go, and a minute after the last compaction all is compacted |
| QualitySamples.CapExactly | src/HttpServer.cpp:2528-2530 | The cap keeps the newest ten thousand samples |
| PsiFraming.FrameIsScan | src/DvbSatellite.cpp:303-317 | One call cuts the packets of the skip-and-take reference and keeps its remainder up to leading noise |
| PsiFraming.ScanResumes | src/DvbSatellite.cpp:302-317 | The reference can be stopped at any byte and resumed with what it kept |
| PsiFraming.FramingIgnoresChunking | src/DvbSatellite.cpp:300-318 | Any two splits of a byte stream give the same packets and remainders equal up to leading non-sync bytes, both below 188 bytes |
| PsiFraming.RemaindersDifferExactly | src/DvbSatellite.cpp:303-317 | Two splits of a stream can leave different remainders exactly when more than 188 non-sync bytes follow the last packet and fewer than 187 bytes follow those |
| PsiFraming.RemaindersMayDiffer | src/DvbSatellite.cpp:305-310 | The shortest such stream: 189 bytes of noise |
| PsiFraming.AnyTablesIgnoreChunking | src/DvbSatellite.cpp:300-318 | Whatever a packet does to the scanner's tables, services, conditional access and scrambling marks included, two splits of a byte stream leave equal tables |
| PsiFraming.ReadLast | src/DvbSatellite.cpp:303-317 | Every packet is read once, behind the ones before it |
| PsiFraming.PacketsComeBack | src/DvbSatellite.cpp:300-318 | A stream of whole packets comes back packet by packet, however split |
| PsiSections.Consume | src/DvbSatellite.cpp:407-451 | For arbitrary payloads the bytes held of an open section stay fewer than its declared 8 to 4096, or fewer than three while its size is unknown |
| PsiSections.FeedSection | src/DvbSatellite.cpp:392-452 | The same for whole payloads with their pointer field |
| PsiSections.OnlySectionsComeOut | src/DvbSatellite.cpp:392-462 | For arbitrary payloads every delivered section has exactly the size it declares, 8 to 4096 bytes, and is not stuffing |
| PsiSections.Append | src/DvbSatellite.cpp:454-462 | What appendSection delivers is a complete section |
| PsiSections.UnitInStep | src/DvbSatellite.cpp:392-462 | After every payload the receiver holds exactly what the packetiser has sent of the open section, and has delivered what it completed |
| PsiSections.RunInStep | src/DvbSatellite.cpp:392-462 | So it does over every legal run of the packetiser, for every payload size and pointer |
| PsiSections.CompletedCount | src/DvbSatellite.cpp:454-462 | Sections delivered, owed and lost to a cut header add up |
| PsiSections.ReassemblyInvertsPacketisation | src/DvbSatellite.cpp:392-462 | Sections come out whole and in order exactly when no payload start cuts a section header; each such cut loses one section |
| PsiSections.HeaderStraddleLosesSection | src/DvbSatellite.cpp:454-461 | Two payloads that lose a section |
| PsiSections.SectionsAreSendable | src/DvbSatellite.cpp:389-406 | Every section list has a run in payloads of at most 184 bytes that cuts no header, so it can be received complete |
| PsiPrinted.SectionsAreThePrinted | src/DvbSatellite.cpp:409-441 | The sections are exactly the printed ones: a table id other than 0xFF, four free bits, a 12-bit length of 5 to 4093 and that many bytes |
| PsiPrinted.PrintedIsSection | src/DvbSatellite.cpp:415-441 | A printed section is declared, and is, three bytes longer than its body |
| PsiPrinted.PrintedTablesComeBack | src/DvbSatellite.cpp:392-462 | Printed tables cut into payloads in any legal way come back whole and in order exactly when no payload start cuts a header |
| PsiSections.AppendSection | src/DvbSatellite.cpp:454-462 | The bytes taken and delivered |
| PsiSections.TakeHeader | src/DvbSatellite.cpp:409-422 | Completing a split header, whose size is that of the printed section |
| PsiSections.TakeBody | src/DvbSatellite.cpp:423-431 | Filling the open section |
| PsiSections.ConsumeFrom | src/DvbSatellite.cpp:407-451 | The payload loop |
| PsiSections.ReassemblePayload | src/DvbSatellite.cpp:392-452 | feedSection with its pointer branch |
| PsiScanner.PayloadOf | src/DvbSatellite.cpp:382-389 | At most 184 payload bytes; none for adaptation-only packets and oversized adaptation fields |
| PsiPrinted.PacketReads | src/DvbSatellite.cpp:374-390 | A packet printed by its header fields, with or without an adaptation field of any length, is read as the PID, start mark and payload that were printed |
| PsiPrinted.OtherPacketsAreIgnored | src/DvbSatellite.cpp:374-381 | Packets without sync or payload, with a transport error or of a PID nobody listens to change nothing |
| PsiScanner.PidsAreIndependent | src/DvbSatellite.cpp:374-390 | However PIDs are interleaved, each one listened to is reassembled as if alone |
| PsiScanner.AlwaysListening | src/DvbSatellite.cpp:380-380 | The PAT, CAT and SDT PIDs are always listened to |
| PsiScanner.ListeningToPmt | src/DvbSatellite.cpp:356-380 | A PMT PID is listened to over every run whose association sections leave its program on it |
| PsiScanner.OnlySectionsAreDelivered | src/DvbSatellite.cpp:464-469 | Whatever bytes arrive, table readers see only well-formed sections |
| PsiScanner.TablesIgnoreChunking | src/DvbSatellite.cpp:300-318 | The scanner's tables do not depend on how the bytes were split over calls |
| PsiScanner.SectionsAreParsed | src/DvbSatellite.cpp:374-469 | From any state in which a PID is idle and listened to, sections packetised on it and interleaved with any other packets are parsed complete and in order exactly when no header was cut |
| PsiScanner.ScannerInvertsPacketisation | src/DvbSatellite.cpp:300-462 | The same from the start of a byte stream fed in any pieces |
| PsiPrinted.PrintedTablesAreScanned | src/DvbSatellite.cpp:300-462 | Whatever tables are printed into packets of the PAT, CAT or SDT PID, and however the bytes are split over calls, exactly those sections are handed on |
| PsiPrinted.ProgramsFollowLog | src/DvbSatellite.cpp:464-484 | Whatever bytes are fed, the program map is what the association sections handed on so far assign |
| PsiPrinted.PrintedProgramsAreKnown | src/DvbSatellite.cpp:300-484 | Printed association tables split over calls in any way give exactly the programs they list, later ones winning |
| PsiPrinted.AnnouncedTablesAreScanned | src/DvbSatellite.cpp:300-469 | Tables printed on a PID behind the association tables that announce it are handed on whole and in order, however the bytes are split |
| PsiPrinted.OtherTablesKeepPrograms | src/DvbSatellite.cpp:471-473 | Sections with another table id leave the program map alone |
| PsiScanner.EntriesRoundTrip | src/DvbSatellite.cpp:474-483 | Reading printed PAT entries assigns exactly them, later ones winning |
| PsiScanner.PatRoundTrip | src/DvbSatellite.cpp:471-484 | The same for a whole program association section |
| PsiScanner.PatKeepsProgram | src/DvbSatellite.cpp:471-484 | A repeated association table that does not move a program keeps its PMT PID listened to |
| PsiScanner.ReadPat | src/DvbSatellite.cpp:471-484 | The entry loop reads what the round trip is about |
| PsiScanner.PsiScanner.ParseSections | src/DvbSatellite.cpp:464-469 | PAT sections update the program map, every section is logged |
| PsiScanner.PsiScanner.ParsePacket | src/DvbSatellite.cpp:374-390 | The header checks and the offset arithmetic |
| PsiScanner.PsiScanner.FeedPid | src/DvbSatellite.cpp:392-406 | The state of one PID is replaced, all others stay |
| PsiScanner.PsiScanner.Feed | src/DvbSatellite.cpp:300-318 | The offset loop over the remainder |
| DvbUri.DecodeInvertsEncode | src/DvbSatellite.cpp:69-106 | percentDecode(percentEncode(s)) is s for every byte string |
| DvbTexts.EscapedExactly | src/DvbSatellite.cpp:69-80 | Printing escapes exactly the bytes that section 2.3 of RFC 3986 does not leave unreserved, in capitals |
| DvbTexts.FormTextComesBack | src/DvbSatellite.cpp:89-106 | Form-encoded texts, plus signs for spaces and lower-case codes, decode to the text |
| DvbTexts.MalformedEscapeIsKept | src/DvbSatellite.cpp:93-103 | A percent sign without two hexadecimal digits stands for itself |
| DvbUri.DecimalRoundTrip | src/DvbSatellite.cpp:132-132 | Reading the decimal text of a number gives the number |
| DvbUri.IntTextRoundTrip | src/DvbSatellite.cpp:127-153 | stoi and stoul read back every printed value of their range |
| DvbTexts.IntTextsExactly | src/DvbSatellite.cpp:127-139 | An int parameter takes exactly spaces, a sign or none, and digits to the end of the text, in 32-bit range |
| DvbTexts.UIntTextsExactly | src/DvbSatellite.cpp:141-153 | An unsigned parameter takes them up to 4294967295, negative ones as they wrap at 64 bits |
| DvbUri.QueryRoundTrip | src/DvbSatellite.cpp:108-125 | Parsing printed items puts every one of them, in order |
| DvbUri.KeysAreDistinct | src/DvbSatellite.cpp:946-959 | No printed key overrides another |
| DvbUri.QueryHas | src/DvbSatellite.cpp:108-125 | Every printed field is found with its value |
| DvbUri.ParseOfBuild | src/DvbSatellite.cpp:910-961 | Whatever the parameters held before, parsing a printed record gives it with normalised case and PID list, or rejects it exactly when that cannot be tuned |
| DvbUri.RoundTrip | src/DvbSatellite.cpp:910-961 | A record survives printing and parsing exactly when it is tunable, has a PID list and lower-case texts |
| DvbTexts.PartialUriSetsExactly | src/DvbSatellite.cpp:910-943 | A URI that names some of the parameters, in any order, sets exactly those, in normal form, and is judged with the others as they were |
| DvbTexts.AcceptedExactly | src/DvbSatellite.cpp:932-940 | A printed record is accepted exactly within the tuning limits |
| DvbTexts.CasesExactly | src/DvbSatellite.cpp:928-931 | The 26 letters change case, everything else stays |
| DvbTexts.SchemeInAnyCase | src/DvbSatellite.cpp:910-912 | The scheme dvb:// is read in any letter case |
| DvbUri.ExtractorAgrees | src/CaBackend.cpp:95-114 | The separate extractor returns the printed PID list exactly when it is made of unreserved characters and colons; decoding its result always gives the list |
| DvbUri.FindsPids | src/CaBackend.cpp:98-101 | No earlier key or value contains the searched text |
| DvbUri.UpperCodes | src/CaBackend.cpp:105-108 | Replacing %3A restores exactly the colons |
| DvbUri.LowerCodes | src/CaBackend.cpp:109-112 | Replacing %3a then changes nothing |
| DvbUri.PercentEncode | src/DvbSatellite.cpp:69-80 | The encoding loop computes the text that decodes back |
| DvbUri.PercentDecode | src/DvbSatellite.cpp:89-106 | The decoding loop computes the inverse of the encoding, and defines malformed escapes and plus signs |
| DvbUri.NextItem | src/DvbSatellite.cpp:114-123 | One turn of the item loop adds the next piece and leaves the rest to be added |
| DvbUri.ReadQuery | src/DvbSatellite.cpp:108-125 | The whole query is read into the map of the round trip |
| DvbUri.ReplaceCode | src/CaBackend.cpp:105-108 | The replacement loop replaces every occurrence from the left, none across a written colon |
| DvbUri.ExtractDvbPids | src/CaBackend.cpp:95-114 | The extractor computes the text its agreement with the parser is proved for |
| CaBackend.StepKeepsInv | src/CaBackend.cpp:116-446 | Every critical section and every plugin call keeps references, loaded backends, reader balance and service alternation |
| CaBackend.RunKeepsInv | src/CaBackend.cpp:116-446 | So does every interleaving |
| CaBackend.ReferencesCountServices | src/CaBackend.cpp:260-305 | At every lock release a reader's count is the number of services on it that are not stopping; backends of sessions and of running teardowns are loaded |
| CaBackend.UnloadingIsSafe | src/CaBackend.cpp:116-146 | configure unloads only while no thread is inside stopService, with every reader closed and every service stopped |
| CaBackend.OpensAndClosesBalance | src/CaBackend.cpp:267-441 | Per reader, opens are closes made plus closes pending plus one while referenced, failed starts included |
| CaBackend.StartsAreSeparatedByStops | src/CaBackend.cpp:312-441 | Between two successful starts of a stream lies its stop on the same backend |
| CaBackend.StopsAreSeparatedByStarts | src/CaBackend.cpp:312-441 | Between two stops of a stream lies its start on the backend that is stopped |
| CaServices.StartYieldsSessionExactly | src/CaBackend.cpp:307-371 | In every reachable state a start of a stream without a session yields one exactly when its backend is loaded and either built in, or the plugin accepts the service and the reader is in use or opens; it is the session asked for, with counters at zero, and no other session, backend or teardown changes |
| CaServices.StartAddsUser | src/CaBackend.cpp:260-371 | Such a start raises the services of that reader by one, and of no other; the reader counts them |
| CaServices.ManyServicesShareAReader | src/CaBackend.cpp:267-270 | On a reader in use or opening the starts of any number of streams all succeed and are counted |
| CaServices.StartCallsPlugin | src/CaBackend.cpp:272-365 | The plugin calls of a start: open for the first service, start, and close again if the first is refused |
| CaServices.MarkedActiveExactly | src/CaBackend.cpp:373-379 | A service becomes active exactly when it is there and not stopping |
| CaServices.StopMarksExactly | src/CaBackend.cpp:388-423 | The first part of a stop keeps the session, marked as stopping and not active |
| CaServices.BufferCountsExactly | src/CaBackend.cpp:463-515 | Every buffer of a running session counts; passthrough, retry and error follow from size and reply; nothing else changes |
| CaServices.OtherBuffersAreIgnored | src/CaBackend.cpp:463-475 | Empty buffers, unknown and stopping streams are left alone |
| CaServices.ConfiguredExactly | src/CaBackend.cpp:116-146 | Without sessions the backends become the built-in one and the usable plugins, none with a reader in use |
| CaBackend.RollBackChangesNoRefs | src/CaBackend.cpp:353-359 | A refused start leaves the references as they were and closes the reader exactly when it had opened it |
| CaBackend.StepAlternates | src/CaBackend.cpp:267-446 | In every state of the invariant a step breaks the alternation of opens and closes of a reader exactly by opening it while a teardown will still close it |
| CaBackend.AlternatesExactlyWithoutEarlyOpens | src/CaBackend.cpp:267-446 | Over every run opens and closes of a reader alternate in every prefix of the log exactly when no step of the run opens the reader while a teardown will still close it |
| CaBackend.OpensInTurnExactlyWithoutEarlyCalls | src/CaBackend.cpp:267-446 | Over every run each open_reader call finds as many closes come back as successful opens before it exactly when no start calls open_reader while a teardown that took the last reference has not come back from close_reader; then calls on that reader never overlap |
| CaBackend.LateClose | src/CaBackend.cpp:414-433 | From every state with one user of a reader: a start during its teardown ends with open, close and the new service on a closed reader |
| CaBackend.CloseAfterALaterOpen | src/CaBackend.cpp:414-433 | Such a run from the initial state |
| CaBackend.StopAllLeavesNothing | src/CaBackend.cpp:448-461 | stopAll without other threads leaves no session, no referenced reader and as many closes as opens |
| CaBackend.Manager.Configure | src/CaBackend.cpp:116-146 | Nothing happens while sessions exist; otherwise plugins are replaced |
| CaBackend.Manager.EnsureReaderOpen | src/CaBackend.cpp:260-292 | The first service opens the reader, later ones count |
| CaBackend.Manager.ReleaseReader | src/CaBackend.cpp:294-305 | The last reference closes the reader |
| CaBackend.Manager.StartService | src/CaBackend.cpp:307-371 | The start step, whose session and conditions are those above, and its result |
| CaBackend.Manager.CallStart | src/CaBackend.cpp:341-365 | The plugin's answer: a session, or the rollback |
| CaBackend.Manager.MarkServiceActive | src/CaBackend.cpp:373-379 | Only a service that is not stopping becomes active |
| CaBackend.Manager.BeginStop | src/CaBackend.cpp:388-423 | The first critical section of stopService and what the thread takes away |
| CaBackend.Manager.CallPlugin | src/CaBackend.cpp:428-433 | The plugin calls outside the mutex are stop_service unless the backend is built in, then close_reader if this thread took the last reference, and amount to that many steps of the run |
| CaBackend.Manager.StopService | src/CaBackend.cpp:381-446 | Uninterrupted, it erases the session, keeps the invariant, and calls stop_service once and close_reader exactly when no other service uses the reader |
| CaBackend.Manager.EndStop | src/CaBackend.cpp:435-441 | The second critical section erases the session |
| CaBackend.Manager.ProcessTransport | src/CaBackend.cpp:463-515 | False exactly for misaligned sizes and plugin failures, and the error counter moves exactly then |
| CcTrace.PidsAreIndependent | src/TsCcStageTrace.h:126-195 | A PID's state depends only on its own packets |
| CcTrace.TotalsAreSums | src/TsCcStageTrace.h:110-124 | Total errors and duplicates are the sums over the PIDs |
| CcTrace.LossAddsOneError | src/TsCcStageTrace.h:178-194 | Losing k interior packets of a clean run adds exactly one error unless k is a multiple of 16, or one less with equal hashes |
| CcTrace.LossInAStream | src/TsCcStageTrace.h:126-195 | The same for the total of a stream with other PIDs interleaved |
| CcHistory.CountersAreTheTally | src/TsCcStageTrace.h:126-195 | Over every stream each of the nine counters is the number of packets it names, errors and duplicates decided by the last payload packet of the same PID with no signal or reserved packet behind it |
| CcHistory.PacketsAreCounted | src/TsCcStageTrace.h:30-69 | So they are however the bytes of the packets are split into buffers, and nothing is left over |
| CcHistory.SignalAddsNoError | src/TsCcStageTrace.h:152-176 | In a whole stream with other PIDs interleaved a payload packet with the discontinuity indicator, whatever its counter, and the run that goes on from it add no error |
| CcHistory.SignalledRestart | src/TsCcStageTrace.h:152-194 | From any state such a packet and run add no error and no duplicate |
| CcHistory.ReservedAddsNoError | src/TsCcStageTrace.h:142-176 | So do a packet with adaptation field control 0 and the payload packets behind it |
| CcHistory.LoneFieldAddsAtMostOneError | src/TsCcStageTrace.h:158-167 | A lone adaptation field without the indicator adds one error to the stream exactly when there is a packet to compare it with and the counters differ; what comes behind is judged as if it were not there |
| CcHistory.StreamIsFound | src/TsCcStageTrace.h:91-101 | A stream in sync behind fewer than 188 bytes of noise is found where it starts, unless an earlier byte passes for a sync byte |
| CcHistory.NoiseIsSkipped | src/TsCcStageTrace.h:47-101 | Such noise is counted as resync bytes, and the stream is traced as if it had not been there |
| CcHistory.WholeBufferIsTraced | src/TsCcStageTrace.h:39-45 | A buffer of whole packets behind no remainder is traced packet by packet, packets without a sync byte included |
| CcHistory.UnalignedTailIsKept | src/TsCcStageTrace.h:53-58 | Without a packet start nothing is traced and at most the last 751 bytes are kept |
| CcTrace.ChunkingDoesNotMatter | src/TsCcStageTrace.h:30-69 | On a stream in sync every chunking keeps the trace equal to that of the packets so far |
| CcTrace.SyncedStreamCounters | src/TsCcStageTrace.h:30-69 | So the packet-derived counters and the remainder are the same for every chunking |
| CcTrace.StageTrace.InspectPacket | src/TsCcStageTrace.h:126-195 | The branches over the per-PID arrays are the step whose counters are the tally |
| CcTrace.StageTrace.InspectTraced | src/TsCcStageTrace.h:139-175 | One PID's arrays and the counters change, no other PID's |
| CcTrace.StageTrace.TakePayload | src/TsCcStageTrace.h:169-194 | First packet, exact duplicate, in sequence or error |
| CcTrace.StageTrace.RecordCcError | src/TsCcStageTrace.h:110-124 | Both error counters move together |
| CcTrace.StageTrace.FindOffset | src/TsCcStageTrace.h:91-101 | The alignment search |
| CcTrace.StageTrace.InspectFrom | src/TsCcStageTrace.h:64-66 | The packet loop from an offset on |
| CcTrace.StageTrace.InspectChunk | src/TsCcStageTrace.h:30-69 | Fast path, resync and kept tail |

## Left out

- HlsLedger.FluidBoundFromStart: charges one ns for each take raised to 1 ns, because the bound k*D/N alone holds exactly for the segments NeverAheadExactlyAtANanosecondAByte names.
- HlsScheduler.TruthfulExactlyWhenCovered: the unconditional claim of the source's comment is false, so the exact condition is stated.
- HlsScheduler.SequenceDiscipline: assumes that every playlist's first number is its least, because a jump can go backwards without it (see RisesExactlyWhenJumpsForward for the exact condition).
- HlsScheduler.ReservoirIsBounded: consumed time and clock are read in one step, where the source reads an atomic counter and then the clock; durations are non-negative finite numbers, where the source converts whatever it parsed.
- HlsPlaylist.ParsePlaylist: lines arrive trimmed and classified, with their numbers and attributes read and addresses resolved; a key is one text for address and IV.
- Choosing a variant by its bandwidth (`src/HlsSegmentScheduler.cpp:342-358`) and resolving addresses are not modelled; they would add easy members.
- HlsImpl.Impl.LoadPlaylist: the replies of root and media playlist requests and their retries are one list of replies.
- PacerQueue.FifoRefinement: a downstream error is a step that stops the sender; underflow bookkeeping for the log is left out.
- PacerClock.SendLoop: how far the clock advances, a sleep overshoots and a push takes are inputs without constraints; when stopping the loop ends between trips.
- QualityHistory.QualityRecorder.PrepareSample: texts of status and message and the JSON fields they come from are left out, except for what decides the level.
- PsiSections.ReassemblyInvertsPacketisation: sections whose header is cut by a payload start are lost by the code, so the exact condition is stated.
- PsiScanner.PsiScanner.ParseSections: the SDT, CAT and PMT readers and the scrambling marks are not modelled beyond the sections they are given, in order; text conversion is a library's.
- DvbUri.ParseUri: what a rejected number leaves behind in the out-parameter is not modelled; letter classes are those of the C locale.
- DvbUri.Uri: printed as one expression, as the source does with one stream expression.
- CaBackend.Manager.Configure: finding, opening and checking plugin files is the parameter that lists the usable plugins; the destructor is not modelled.
- CaBackend.OpensAndClosesBalance: strict alternation of opens and closes per reader is false of the code (see LateClose), so the balance is stated; AlternatesExactlyWithoutEarlyOpens gives the exact condition for the calls as they begin, OpensInTurnExactlyWithoutEarlyCalls for the calls as they end.
- CaBackend.Manager.StopService: with other threads in between, only the step system speaks of it.
- CaBackend.Manager.ProcessTransport: status texts, the packet statistics of plugins and plugins without process_ts are left out.
- CcTrace.LossAddsOneError: the 64-bit packet hash is a function parameter about which nothing is assumed.
- Counters, sequence numbers and times are unbounded; their 64-bit wrap-around is not modelled, except for the 32-bit saturation of the published deadline.
- Seconds parsed from playlists are reals; floating-point rounding is not modelled.
- The worker thread's outer loop is its steps in any order the program counter allows, not a diverging method.
- GStreamer elements, sockets, curl, OpenSSL, dlopen and the DVB ioctls are environment steps or not modelled.
- The HTTP server apart from the quality recorder, the configuration store, card slots, the OSCam editor, notifications and the other input and output stages are not modelled.

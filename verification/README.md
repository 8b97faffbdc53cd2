# ToolDAQ services layer: a verified model

A Dafny 4.11 model of the stateful parts of the ToolDAQ framework's services layer, with proofs about whole runs.
`dafny verify dfyconfig.toml` checks everything.

The program keeps its state in objects that threads update in place. Each such object is a class here, whose methods
follow the source's loops and branches and are proved against a step function on the object's value; what the program
promises is then proved about every run of those steps. Sockets are queues of frames with zmq's more flag, an archive
is a sequence of maps, and clocks, poll results, callback results and the transport's willingness to take frames are
inputs.

| file | what it models |
|---|---|
| `Bytes.dfy` | fixed-width integers as raw little-endian bytes |
| `Framing.dfy` | recursive multipart `Send`, vector `Send`, `Receive` |
| `Backend.dfy` | `ServicesBackend`: command queue, ticket table, reply decoding, the background thread's two halves |
| `Protocol.dfy` | every interleaving of client threads, background thread and network, as runs of atomic steps |
| `CompressBound.dfy` | the worst-case compressed size formula |
| `JsonText.dfy`, `BatchText.dfy` | message escaping, the text of a logging datagram, and a reader that undoes it |
| `MonitoringText.dfy` | the text of a monitoring datagram, read back |
| `DeviceText.dfy` | which batches a reader can undo, devices being printed unescaped |
| `Batching.dfy` | `Services`: log, monitoring and alarm buffers and their flush |
| `BatchingRuns.dfy`, `MonitoringRuns.dfy`, `AlarmRuns.dfy` | what holds of the three buffers over every run |
| `AlarmSpacing.dfy` | when repeated alarms are too close, also for alarms raised without a time |
| `AlarmTimes.dfy` | alarms raised with the marker for "now()", and what a failed send leaves behind |
| `Config.dfy` | the configuration state shared by the alert thread and `Services` |
| `Unpack.dfy` | unpacking nested JSON, with the bracket-counting list splitter |
| `UnpackPaths.dfy` | which objects of a nested JSON text are found, under which paths, and that none of a list is lost |
| `BoostStore.dfy` | the multi-event store: a forward-only archive behind random access |
| `FlatJson.dfy` | the store's flat JSON printer and quote-counting parser |
| `SocketManager.dfy`, `SocketRuns.dfy` | the socket thread moving pooled message objects, and its runs |
| `ReceiveRuns.dfy`, `SendOrder.dfy` | over every run, what becomes of the frames that arrive, and the order in which messages are attempted |
| `Listing.dfy` | the "All" service listing and the connect-once map |

## Main results

- **Commands.** From any value of the 32-bit id counter and in every interleaving of at most 2^32 calls, a call that
  returns true hands over exactly the decoded parts of one received message bearing its own id; no message reaches two
  calls; no promise is fulfilled twice; the ticket table holds exactly the tickets neither deregistered nor answered;
  commands leave in submission order with one receipt each, with a receipt of 0 exactly when all frames of the command
  were appended or the send raised an error. Nothing else here depends on what a receipt of 0 means.
- **Batches.** The log batches and the buffer are the accepted calls in order with their repetitions, if and only if no
  repeat counter wrapped; for devices without quotes or backslashes the same is read back from the datagrams, whatever
  the messages contain, up to trailing white space. Monitoring batches are first-wins cuts of the unsuppressed
  submissions. Byte counts are exact, and buffers stay within the size they are meant to.
- **Alarms.** Buffered alarms are always distinct and within the cooldown of each other. With timestamps that never go
  back and flush clocks not ahead of later alarms, as when alarms are raised without a time, repeated alarms are sent
  more than the cooldown apart if and only if none that was sent is raised again within it after a flush whose clock
  lagged it.
- **Configuration.** Over every run each value of the configuration state is decided by the last event of its kind, told
  by what was asked for and how it went (`Config.ConfigIff` and its five companions). Alerts change at most once per
  load; the local text agrees with the ids on record exactly unless another text was brought since the last fetch.
- **Unpacking.** Whatever the text, exactly the objects reached through keys and list positions are written, each under
  the path that spells them; no element of a list is written over by another.
- **Store.** Seeks behave like an array index; printing and parsing a flat map is the identity exactly for quote-free
  maps.
- **Transport.** Every message object is in exactly one place over every run; the frames that arrived are those of the
  messages taken, and the acceptable ones are delivered whole and in order; messages leave in submission order exactly
  when no pass writes past one swapped back. Over all calls exactly the endpoints offered by listed records are
  connected, each once.

## Where the code falls short, and exactly when

- An error raised while sending gives the receipt 0, so a command cut off in the middle passes for sent
  (`Backend.ServicesBackend.SendNextCommand`).
- A reply cut off in the middle can be reported as a success: completeness plays no part in the result
  (`Backend.IncompleteCanSucceed`, with the exact condition in `Backend.SuccessMeans`).
- Response timeouts never deregister; their tickets are what is left once all calls have returned
  (`Protocol.LeftOver`).
- `JsonEscape` leaves control characters other than line breaks raw, so its output is JSON by section 7 of RFC 8259
  exactly when there are none (`JsonText.StrictlyJsonIff`).
- The alarm prune compares whole seconds with millisecond timestamps in unsigned arithmetic, so it drops alarms newer
  than its clock, and the same alarm can go out twice within a millisecond (`AlarmRuns.PruneKeepsRecentIff`,
  `AlarmRuns.CoarseClockRepeats`). For alarm times that never go back and flush clocks not ahead of later alarms,
  `AlarmSpacing.LagIff` says exactly which runs keep the cooldown, and `AlarmSpacing.UntimedSpacedIff` that this covers
  alarms raised without a time.
- An alarm raised with the timestamp 1, the marker for "now()", is buffered under the marker: every flush drops it and
  the same alarm is sent again however soon, while without a flush it is never sent again
  (`AlarmTimes.MarkedRepeats`, with the exact conditions in `AlarmTimes.MarkedSentIff` and
  `AlarmTimes.MarkedSpacedIff`). It also makes the buffer forget alarms with a time (`AlarmRuns.FarAlarmErases`).
- An alarm is buffered before it is sent, so a retry after a failed send returns true with nothing sent, exactly while
  the alarm is buffered and in its cooldown (`AlarmTimes.RetrySwallowedIff`).
- The key that monitoring data is suppressed and merged by is the device followed by the subject, so different streams
  can share one (`MonitoringRuns.StreamsCollide`, with the exact condition in `MonitoringRuns.SameKeyIff`).
- A `ChangeConfig` alert with a payload calls the callback without clearing `NewConfig` or leaving the ChangeStart
  state (`Config.StepBudget`, `Config.PayloadChangesTwice`, `Config.StuckIff`).
- A load that exhausts its attempts overwrites the local configuration with an error text; loading the ids still on
  record then succeeds without fetching (`Config.AgreesIff`, `Config.ReloadAfterFailure`).
- The comments in `ResetConfigIDs` say the next ChangeConfig alert will invoke the callback after a run stop; the code
  does so only if a change was already owed or a load with non-zero ids succeeds in between
  (`Config.RestartAfterStop`).
- Devices are printed unescaped, so a device with quotes can make one entry print like two
  (`DeviceText.UnescapedDeviceForges`). With time texts free of quotes and backslashes, a batch reads back as its
  entries exactly when every device is free of them too (`DeviceText.BatchReadsBackIff`).
- The loop that unpacks `SCArray` does not count brackets, so it splits a list into its objects exactly when none has
  objects inside (`UnpackPaths.FlatSplitsIff`).
- A backward seek with type checking on does not read the header's types and lands one map early, now and for every
  later seek (`BoostStore.CursorRefinesArray`, `BoostStore.BackwardSeekMisreads`).
- A message without parts makes the socket thread throw, and the messages queued behind it are dropped unattempted and
  uncounted (`SocketRuns.AttemptsAllIff`, `SocketRuns.FlagsWritten`).
- A list that could not be written is swapped back, and messages submitted meanwhile can go out ahead of it
  (`SendOrder.SwappedBackIsOvertaken`, with the exact condition in `SendOrder.InOrderIff`).
- The store's entry count is never reset: a second file saved through the same store, or one saved after reading, has a
  header that counts too many entries (`BoostStore.CountRightIff`, `BoostStore.OnlyFirstFileCounts`).

## Model

| member | source | states |
|---|---|---|
| Bytes.FromToBytes | src/ServiceDiscovery/ServicesBackend.h:183-184 | a word copied out as raw bytes reads back as itself, at any width it fits |
| Bytes.LittleEndian | src/ServiceDiscovery/ServicesBackend.cpp:715-720 | the id and the status word are read with the first byte lowest |
| Framing.SendVector | src/ServiceDiscovery/ServicesBackend.cpp:922-960 | the frames put on the wire are the flagged parts, cut off where the transport stopped; an empty vector throws |
| Framing.Send | src/ServiceDiscovery/ServicesBackend.h:198-206 | the recursive send emits the flattened parts up to the first empty vector, cut off where the transport stopped, and reports which happened |
| Framing.Receive | src/ServiceDiscovery/ServicesBackend.cpp:991-1018 | takes the frames up to the first without the more flag, and reports a stream that ended before it |
| Framing.SendThenReceive | src/ServiceDiscovery/ServicesBackend.h:198-206 | what one complete send of any nesting put on the wire is received as exactly its flattened parts, leaving what follows |
| Framing.ReceivedWasSent | src/ServiceDiscovery/ServicesBackend.cpp:991-1018 | conversely a complete receive consumed exactly the frames of the parts it returned |
| Framing.StreamRoundTrip | src/ServiceDiscovery/ServicesBackend.cpp:991-1018 | repeated receives on a stream of messages return those messages in order |
| Framing.SendableStops | src/ServiceDiscovery/ServicesBackend.cpp:922-960 | what a send can put on the wire is exactly everything before the first empty vector |
| Framing.VectorIsItsParts | src/ServiceDiscovery/ServicesBackend.h:198-206 | a vector, wherever it stands among the items, counts as its parts sent one by one |
| Backend.PrepareCommand | src/ServiceDiscovery/ServicesBackend.cpp:442-484 | exactly topics starting with r or w in either case are accepted; the kind is the one the letter names, the text goes out compressed and a timeout of 0 becomes the default |
| Backend.Decode | src/ServiceDiscovery/ServicesBackend.cpp:700-735 | the decoding loop computes the reply's status, decoded parts and error text |
| Backend.SuccessMeans | src/ServiceDiscovery/ServicesBackend.cpp:695-735 | success exactly when there are two parts, the status word is not zero and every further part decodes; the status is then that word and the response the decoded texts in order |
| Backend.ErrorMeans | src/ServiceDiscovery/ServicesBackend.cpp:700-735 | the error text: the note of an incomplete reply while no further part comes, the text of the first part that does not decode, else of a refused command its last part's text, and nothing for a success |
| Backend.IncompleteCanSucceed | src/ServiceDiscovery/ServicesBackend.cpp:701-720 | a truncated reply can be reported as a success |
| Backend.ServicesBackend.TakeId | src/ServiceDiscovery/ServicesBackend.cpp:523-524 | the counter advances by one, wrapping at 2^32 |
| Backend.ServicesBackend.RegisterTicket | src/ServiceDiscovery/ServicesBackend.cpp:548-552 | the ticket is entered under the id unless one is there |
| Backend.ServicesBackend.SubmitCommand | src/ServiceDiscovery/ServicesBackend.cpp:555-560 | the command joins the end of the queue |
| Backend.ServicesBackend.EraseTicket | src/ServiceDiscovery/ServicesBackend.cpp:594-596 | the id's ticket, and only that, leaves the table |
| Backend.PollAndSend | src/ServiceDiscovery/ServicesBackend.h:241-268 | the status is 0 exactly when the socket is writable and takes all frames; -2, -3 and -4 exactly when it is not writable, polling fails, or nothing is ready; a writable socket that takes fewer gives -1, or an error if the transport raises one; frames go out only when writable |
| Backend.ServicesBackend.GetNextResponse | src/ServiceDiscovery/ServicesBackend.cpp:661-763 | one message is consumed, the ticket of the id it bears is fulfilled with its decoding and erased; other state unchanged |
| Backend.ServicesBackend.SendNextCommand | src/ServiceDiscovery/ServicesBackend.cpp:765-822 | the oldest command goes to the socket of its kind and the other is untouched; whatever the poll result the receipt is 0 exactly when all the command's frames were appended or a send raised an error, and the other four receipts are told apart likewise; an empty queue changes nothing |
| Backend.CommandOnTheWire | src/ServiceDiscovery/ServicesBackend.cpp:787-806 | once all its frames are appended the receiver takes off one message: the topic first, the client's identity next in a write, the command's own id before the last part, and the command last |
| Protocol.IdsDistinct | src/ServiceDiscovery/ServicesBackend.cpp:522-524 | two calls share an id exactly when a multiple of 2^32 calls lies between them, from any start value |
| Protocol.ReplyGoesHome | src/ServiceDiscovery/ServicesBackend.cpp:646-654 | in every interleaving a call that got a reply was sent, and got the decoding of one received message bearing its own id |
| Protocol.SendCommandTrueIff | src/ServiceDiscovery/ServicesBackend.cpp:487-502 | SendCommand returns true exactly when that message has a non-zero status and decodes, and hands over its parts from the third on |
| Protocol.ReplyCanGetHome | src/ServiceDiscovery/ServicesBackend.cpp:487-494 | from any start value, for any command and any reply parts that decode, some run returns true with exactly those parts |
| Protocol.NoReplyReachesTwo | src/ServiceDiscovery/ServicesBackend.cpp:748-756 | no received message is handed to two calls |
| Protocol.FulfilledOnce | src/ServiceDiscovery/ServicesBackend.cpp:749-755 | neither a response ticket nor a send receipt is ever fulfilled twice |
| Protocol.TableExactly | src/ServiceDiscovery/ServicesBackend.cpp:548-552 | the table's ids are exactly those registered, not deregistered, and not answered, each naming its own call |
| Protocol.LeftOver | src/ServiceDiscovery/ServicesBackend.cpp:632-641 | once all calls have returned, the tickets left are exactly those of response timeouts never answered |
| Protocol.QueueInOrder | src/ServiceDiscovery/ServicesBackend.cpp:555-560 | dequeued commands followed by the queue are the submission order, each registered first, each dequeued one but the one in hand with exactly one receipt |
| Protocol.FourEndings | src/ServiceDiscovery/ServicesBackend.cpp:581-655 | the four ways a call ends, each with its receipt and what is left of its ticket |
| Protocol.ReceivedAsArrived | src/ServiceDiscovery/ServicesBackend.cpp:668-680 | the messages received, then what waits, are exactly the frames the network delivered, in order |
| Protocol.NothingRevised | src/ServiceDiscovery/ServicesBackend.cpp:749-755 | fulfilled tickets, receipts and returned outcomes stay as they are for the rest of the run |
| Protocol.GetNextResponseIsSteps | src/ServiceDiscovery/ServicesBackend.cpp:661-763 | the sequential method is the protocol's atomic steps run back to back |
| Protocol.SendNextCommandIsSteps | src/ServiceDiscovery/ServicesBackend.cpp:765-822 | likewise for the sending half |
| CompressBound.NoOverflow | src/ServiceDiscovery/zstd.h:250-251 | the 64-bit evaluation of the formula never wraps |
| CompressBound.AtLeast | src/ServiceDiscovery/zstd.h:251 | the bound is at least its argument and at least 64 |
| CompressBound.MarginShrinks | src/ServiceDiscovery/zstd.h:251 | beyond size and size/256 the bound leaves a margin that starts at 64 for the empty input, never grows, and is gone at 128 KiB |
| CompressBound.Monotone | src/ServiceDiscovery/zstd.h:251 | the bound is monotone |
| CompressBound.Subadditive | src/ServiceDiscovery/zstd.h:251 | below 128 KiB in total, two bounds cover the bound of the sum |
| CompressBound.Superadditive | src/ServiceDiscovery/zstd.h:251 | from 128 KiB each, the opposite inequality, as the formula's comment promises |
| CompressBound.BatchCovered | src/ServiceDiscovery/Services.cpp:1004-1019 | the running sum of per-message bounds covers the bound of the whole batch's bytes below 128 KiB |
| JsonText.JsonEscape | src/ServiceDiscovery/Services.cpp:1346-1356 | what the loops put out unescapes to the message without its trailing white space, told by literal characters: nothing else is dropped, nothing of it is left, and CR becomes LF |
| JsonText.EscapeRoundTrip | src/ServiceDiscovery/Services.cpp:1346-1356 | unescaping gives every message back up to its last character other than space and characters 9 to 13, with CR turned into LF |
| JsonText.StrictlyJsonIff | src/ServiceDiscovery/Services.cpp:1346-1356 | the escaped text is a standard JSON string exactly when no other control character occurs |
| JsonText.SplitJoin | src/ServiceDiscovery/Services.cpp:1286-1299 | a string-aware splitter on top-level commas gives back a comma-joined list of bracket- and quote-balanced texts |
| JsonText.ReadMember | src/ServiceDiscovery/Services.cpp:1290-1297 | every member of a printed object is found again by its key |
| BatchText.PrintEntry | src/ServiceDiscovery/Services.cpp:1290-1297 | the literal concatenation is the object with the six members in order |
| BatchText.BatchReadsBack | src/ServiceDiscovery/Services.cpp:1286-1299 | one record per buffered entry, in order, each telling its entry's topic, time, device, severity, message up to trailing white space and repeats, even when messages contain separators, quotes or backslashes |
| MonitoringText.TextIsObject | src/ServiceDiscovery/Services.cpp:1316-1321 | the literal concatenation is the object with the five members in order |
| MonitoringText.MonitoringReadsBack | src/ServiceDiscovery/Services.cpp:1308-1323 | for balanced data and plain devices, subjects and time texts, a datagram splits into one object per entry of the batch, each entry once, and each object tells its entry |
| DeviceText.EntryReadsBackIff | src/ServiceDiscovery/Services.cpp:1288-1295 | a printed entry reads back as itself exactly when its device has no quote or backslash |
| DeviceText.BatchReadsBackIff | src/ServiceDiscovery/Services.cpp:1286-1299 | a batch reads back as its entries, one record each and in order, exactly when every device in it is free of quotes and backslashes |
| DeviceText.UnescapedDeviceForges | src/ServiceDiscovery/Services.cpp:1291 | any two entries of one time print exactly like one entry with a suitable device |
| Batching.Services.MergeLogs | src/ServiceDiscovery/Services.cpp:1286-1299 | the merged text is the joined text of the entries, empty exactly when the buffer is |
| Batching.Services.MergeMonitoring | src/ServiceDiscovery/Services.cpp:1308-1323 | the merged text lists every entry once, in some order |
| Batching.Services.PruneAlarms | src/ServiceDiscovery/Services.cpp:1337-1341 | the loop leaves the alarms whose unsigned age is within the cooldown |
| Batching.Services.BatchAndSendMulticast | src/ServiceDiscovery/Services.cpp:1278-1344 | non-empty buffers become batches and are cleared, what was multicast is their text, and the suppression map is cleared only under the monitoring lock |
| Batching.Services.SendLog | src/ServiceDiscovery/Services.cpp:988-1022 | merge, reject, or append after flushing when over budget, with the result saying which |
| Batching.Services.SendMonitoringData | src/ServiceDiscovery/Services.cpp:1038-1079 | suppress, reject, or insert without overwriting after flushing when over budget |
| Batching.Services.SendAlarm | src/ServiceDiscovery/Services.cpp:140-190 | stale alarms go, a repeat is swallowed, a new alarm is buffered and sent on, all under the timestamp given or, for 0, the time of the call |
| BatchingRuns.LogConservation | src/ServiceDiscovery/Services.cpp:997-1021 | over every run the batches and the buffer expand to exactly the accepted calls, in order, if and only if no repeat counter wrapped |
| BatchingRuns.NoWrapInShortRuns | src/ServiceDiscovery/Services.cpp:999 | no counter wraps in a run with at most 2^32 accepted calls |
| BatchingRuns.EntriesKeepFirst | src/ServiceDiscovery/Services.cpp:997-1017 | over every run each entry handed over or held has the device, message, severity and time of the call that began it; only the repeats differ |
| BatchingRuns.LogBufferBounded | src/ServiceDiscovery/Services.cpp:1003-1019 | the byte count is the sum of the bounds, within MSS_SIZE unless one entry of at most MAX_MSG_SIZE is held; at most max(1, MSS_SIZE/64) entries; neighbours differ |
| BatchingRuns.TooLongIff | src/ServiceDiscovery/Services.cpp:1003-1008 | a message is refused exactly when it and the device have more than 65121 bytes together |
| BatchingRuns.LogFlushesIff | src/ServiceDiscovery/Services.cpp:1010-1019 | in every run an accepted message joins the buffer exactly when the bounds then held stay within MSS_SIZE, and otherwise starts a new one |
| BatchingRuns.BatchesFit | src/ServiceDiscovery/Services.cpp:1010-1015 | with MSS_SIZE below 128 KiB, the bound of every batch's device and message bytes is within MSS_SIZE, or MAX_MSG_SIZE for a single entry |
| BatchingRuns.DatagramsTellAll | src/ServiceDiscovery/Services.cpp:1286-1306 | reading all logging datagrams back and expanding repeats gives the first accepted calls in order, each message up to trailing white space and CR turned into LF, and the buffer expands to exactly the rest |
| MonitoringRuns.FirstWinsMeans | src/ServiceDiscovery/Services.cpp:1068-1070 | the first-wins map holds for each key the earliest entry bearing it, and no other keys |
| MonitoringRuns.MonitoringFirstWins | src/ServiceDiscovery/Services.cpp:1047-1076 | over every run the buffer and every batch are first-wins maps of the unsuppressed submissions between flushes, which together are all of them; keys are on the suppression map; the byte count covers the entries and stays within MSS_SIZE unless one is held |
| MonitoringRuns.MonFlushesIff | src/ServiceDiscovery/Services.cpp:1058-1076 | in every run a submission neither suppressed nor too long joins the buffer when the bounds of the submissions since the last flush, with its own, stay within MSS_SIZE, and otherwise they become a batch and it starts the next |
| MonitoringRuns.MonitoringBatchesFit | src/ServiceDiscovery/Services.cpp:1058-1066 | with MSS_SIZE below 128 KiB, the bound of every batch's data, device and subject bytes is within MSS_SIZE, or MAX_MSG_SIZE for a single entry |
| MonitoringRuns.SuppressedIff | src/ServiceDiscovery/Services.cpp:1047-1049 | in every run a submission is suppressed exactly when it comes within the merge period of the first one of its key since the suppression map was cleared |
| MonitoringRuns.SameKeyIff | src/ServiceDiscovery/Services.cpp:1047 | two submissions share a key exactly when the longer device is the other one with the start of the other's subject |
| MonitoringRuns.StreamsCollide | src/ServiceDiscovery/Services.cpp:1047-1049 | a submission for device a and subject bc suppresses one for device ab and subject c |
| AlarmRuns.SentUnlessBuffered | src/ServiceDiscovery/Services.cpp:147-159 | an alarm is swallowed exactly when the same one is buffered within the cooldown of it, and otherwise sent and buffered; alarms within its cooldown stay |
| AlarmRuns.AlarmsPairwise | src/ServiceDiscovery/Services.cpp:147-159 | for arbitrary timestamps no two buffered alarms are the same and all are within the cooldown of each other |
| AlarmRuns.PruneKeepsRecentIff | src/ServiceDiscovery/Services.cpp:1337-1341 | the prune keeps every alarm still in its cooldown exactly when none of them is ahead of its clock |
| AlarmRuns.CoarseClockRepeats | src/ServiceDiscovery/Services.cpp:1337-1341 | with a clock behind the alarm the same alarm is sent twice one millisecond apart |
| AlarmRuns.SpacedIff | src/ServiceDiscovery/Services.cpp:147-171 | for nondecreasing alarm times and flush clocks not ahead of later alarms, any two emissions of the same alarm are more than the cooldown apart exactly when no alarm that a flush dropped from ahead of its clock is raised again within its cooldown |
| AlarmRuns.SendSpacedIff | src/ServiceDiscovery/Services.cpp:147-171 | an alarm sent keeps the emissions apart exactly when they were and no alarm like it was dropped early |
| AlarmRuns.AlarmsUntouched | src/ServiceDiscovery/Services.cpp:988-1079 | no log or monitoring call without a flush changes the alarms buffered or sent |
| AlarmSpacing.LagIff | src/ServiceDiscovery/Services.cpp:147-171 | under the same premises, exactly when no alarm that was sent is raised again within its cooldown after a flush whose clock lagged it |
| AlarmSpacing.UntimedSpacedIff | src/ServiceDiscovery/Services.cpp:1187-1189 | alarms raised without a time bear the times of the calls, so with a clock that does not go back they meet these premises and the same condition is exact |
| AlarmSpacing.UntimedOnce | src/ServiceDiscovery/Services.cpp:1187-1189 | called without a time at 10000 and 10500 with a flush in between, an alarm goes out once |
| AlarmRuns.AlarmsSpaced | src/ServiceDiscovery/Services.cpp:147-171 | in particular they are when no flush clock is behind an alarm buffered at the time |
| AlarmRuns.MayLagSwallowed | src/ServiceDiscovery/Services.cpp:147-159 | a flush clock may lag an alarm that was swallowed without breaking these premises |
| AlarmRuns.ApartIff | src/ServiceDiscovery/Services.cpp:147-160 | for arbitrary timestamps and clocks, the timestamps of any two emissions of the same alarm are more than the cooldown apart exactly when no alarm is raised of which one within its cooldown has left the buffer while none is held |
| AlarmRuns.FarAlarmErases | src/ServiceDiscovery/Services.cpp:149-153 | an alarm whose time is far from all those buffered, as the marker for now() is, erases them and is sent |
| AlarmTimes.MarkedSentIff | src/ServiceDiscovery/Services.cpp:1183 | in runs whose alarms bear the marker 1 and whose flush clocks exceed the cooldown by more than it, an alarm is sent exactly when the same one was not raised since the last flush |
| AlarmTimes.MarkedSpacedIff | src/ServiceDiscovery/Services.cpp:147-160 | such alarms are sent again within the cooldown, by the times of the calls, exactly when one that was sent is raised again within it after a flush in between |
| AlarmTimes.MarkedRepeats | src/ServiceDiscovery/Services.cpp:1337-1341 | called at 10000 and 10500 with a flush in between, such an alarm goes out twice although none was dropped from ahead of a clock |
| AlarmTimes.RetrySwallowedIff | src/ServiceDiscovery/Services.cpp:155-171 | a retry after a failed send returns true with nothing sent exactly when the alarm is still buffered and within the cooldown of the retry |
| Config.Services.LoadConfigAlertFunc | src/ServiceDiscovery/Services.cpp:1213-1246 | at most five attempts, the first success sets text, ids and NewConfig, a failed attempt leaves its error text |
| Config.Services.LoadConfigSlowControlFunc | src/ServiceDiscovery/Services.cpp:1248-1258 | the command loads and sets Config to the outcome |
| Config.Services.OnAlert | src/ServiceDiscovery/SlowControlCollection.cpp:453-490 | what each alert does to the whole configuration state, as the step over whose runs the six results below pin every value |
| Config.Services.OnChangeButton | src/ServiceDiscovery/Services.cpp:1407-1426 | the button's effect for each way the callback ends |
| Config.Services.OnChangeToCommand | src/ServiceDiscovery/Services.cpp:1432-1451 | the command's effect; a different text loses the ids |
| Config.Services.OnRunStopButton | src/ServiceDiscovery/Services.cpp:1482-1495 | the ids are cleared and Config becomes Unconfigured unless the callback throws |
| Config.Services.OnExportButton | src/ServiceDiscovery/Services.cpp:1528-1546 | a different exported text is adopted and loses the ids |
| Config.StepBudget | src/ServiceDiscovery/SlowControlCollection.cpp:477-490 | a step keeps alert changes plus NewConfig within the loads exactly unless an alert with payload changes without slack |
| Config.OneChangePerLoad | src/ServiceDiscovery/SlowControlCollection.cpp:453-490 | in every run without such alerts, alert changes plus NewConfig never exceed the successful loads of new ids |
| Config.PayloadChangesTwice | src/ServiceDiscovery/SlowControlCollection.cpp:464-477 | with payloads one load is changed to twice |
| Config.StepAgrees | src/ServiceDiscovery/Services.cpp:1226-1242 | a step keeps the text in agreement with the ids exactly unless an exhausted load or SetLocalConfig changes the text of ids that stay |
| Config.ConfigAgrees | src/ServiceDiscovery/Services.cpp:1226-1242 | until one of these two, ids other than (0,0) name the text last fetched for them |
| Config.AgreesIff | src/ServiceDiscovery/Services.cpp:1226-1242 | over every run the text agrees with the ids exactly when there are none, or the last text brought by SetLocalConfig or an exhausted load since the last fetch, if any, is the one fetched |
| Config.ReloadAfterFailure | src/ServiceDiscovery/Services.cpp:1226-1235 | after an exhausted load, reloading the ids on record succeeds with the error text as configuration |
| Config.StuckIff | src/ServiceDiscovery/SlowControlCollection.cpp:453-490 | over every run Config says that a finished load or change is under way exactly when the last event to write it was abandoned: a bare or unhandled load alert, a change alert with payload or no subscriber, or a callback of a button or command that threw |
| Config.ConfigIff | src/ServiceDiscovery/SlowControlCollection.cpp:453-490 | over every run Config has a value exactly when the last event to write it ended so, told by ids, attempts and callback results: LoadEnd or LoadFail for a load handled with ids equal or an attempt that got a text, or not; ChangeEnd or ChangeFail for a change by its result; Unconfigured after a run stop button or if nothing wrote it |
| Config.OwedIff | src/ServiceDiscovery/SlowControlCollection.cpp:477-490 | over every run NewConfig is 1 exactly when a load fetched and no bare change alert was handled since, and otherwise 0 |
| Config.LocalIff | src/ServiceDiscovery/Services.cpp:1226-1242 | over every run the local text is the last one brought: the first text fetched by a load, the last error of one that exhausts its attempts, or one set, changed to or exported |
| Config.IdsIff | src/ServiceDiscovery/Services.cpp:1237-1240 | over every run the ids are those of the last load that fetched, unless lost since by a run stop or by a different text changed to or exported |
| Config.TestingIff | src/ServiceDiscovery/Services.cpp:1222-1240 | over every run the testing flag is that of the last load that fetched |
| Config.TakenFlagIff | src/ServiceDiscovery/Services.cpp:1222-1240 | over every run the flag taken over is the one in force at the last change that took it |
| Config.RestartAfterStop | src/ServiceDiscovery/Services.cpp:1260-1265 | after a run stop by alert or button, a load and a change call the callback exactly when a change was owed or the load fetched, once, with the text fetched, the last error, or the text there was |
| Unpack.PiecesBalanced | src/ServiceDiscovery/SlowControlCollection.cpp:714-726 | whatever the text, everything the bracket counter cuts out is a balanced object |
| Unpack.ListSplits | src/ServiceDiscovery/SlowControlCollection.cpp:708-727 | a list of balanced objects of any depth is split into exactly those objects, in order |
| Unpack.EntriesUnderHeader | src/ServiceDiscovery/SlowControlCollection.cpp:671-673 | every path written lies under the header it was unpacked under |
| Unpack.UnpackList | src/ServiceDiscovery/SlowControlCollection.cpp:708-727 | the loop performs the writes of the pieces in order; which these are is said by UnpackPaths.PiecesNumbered and UnpackPaths.ListUnpacked |
| UnpackPaths.PiecesNumbered | src/ServiceDiscovery/SlowControlCollection.cpp:714-724 | the writes of the pieces are the concatenation, over i, of those of the i-th piece under the list's path and the decimal i |
| UnpackPaths.ListUnpacked | src/ServiceDiscovery/SlowControlCollection.cpp:708-727 | a list of balanced objects is unpacked as the concatenation, over its positions, of what each object is unpacked to under key and position |
| UnpackPaths.ElementsApart | src/ServiceDiscovery/SlowControlCollection.cpp:719-722 | no path is written from two different positions of a list |
| UnpackPaths.ListKeepsAll | src/ServiceDiscovery/SlowControlCollection.cpp:719-722 | every object of a list is in the map as if its element had been unpacked alone |
| Unpack.Unpack | src/ServiceDiscovery/SlowControlCollection.cpp:671-730 | terminates on every text and writes exactly the objects found, in the order found, each under its path |
| UnpackPaths.FoundIff | src/ServiceDiscovery/SlowControlCollection.cpp:671-730 | for every text, exactly the objects reached through keys and list positions are written, each under those keys and positions joined by double colons and its own name |
| UnpackPaths.FlatSplitsIff | src/ServiceDiscovery/SlowControlCollection.cpp:689-706 | the loop over SCArray, which does not count brackets, splits a list into its objects exactly when none has objects inside |
| Unpack.LastIsKept | src/ServiceDiscovery/SlowControlCollection.cpp:685-701 | of several objects found under one path the last is kept, and paths not found keep what they had |
| BoostStore.BoostStore.Save | src/Store/BoostStore.cpp:210-232 | the event joins those saved since the archive was opened, with its types when type checking is on, and the count grows by one |
| BoostStore.BoostStore.Close | src/Store/BoostStore.cpp:345-396 | the file is the completed header followed by the events saved, and is written exactly when there are any; the count stays |
| BoostStore.CountRightIff | src/Store/BoostStore.cpp:226-373 | the header counts the events of its file exactly when the store's count was 0 at the first save |
| BoostStore.HeaderComplete | src/Store/BoostStore.cpp:371-375 | the header written has the three entries for count, format and type checking with these values, and else what it had |
| BoostStore.OnlyFirstFileCounts | src/Store/BoostStore.cpp:226-373 | of the files one store writes, a header is right exactly when all earlier ones held no events |
| BoostStore.BoostStore.Initialise | src/Store/BoostStore.cpp:26-44 | reads header and entry 0, and the count if the header has a readable one; otherwise the store keeps its own |
| BoostStore.BoostStore.GetEntry | src/Store/BoostStore.cpp:278-342 | true exactly within bounds, with the cursor moved as the seek function says, and nothing moved otherwise |
| BoostStore.CursorRefinesArray | src/Store/BoostStore.cpp:278-342 | after saves, close, initialise and any seeks the store is where an array index would be, with that entry's map if and only if type checking is off, no seek went back, or the map equals the types before it |
| BoostStore.ForwardSeeks | src/Store/BoostStore.cpp:284-297 | non-decreasing seeks never go back |
| BoostStore.SeekPastEnd | src/Store/BoostStore.cpp:280-340 | dropping all out-of-bounds seeks from any sequence of seeks leaves the store in the same state |
| BoostStore.BackwardSeekMisreads | src/Store/BoostStore.cpp:317-332 | with type checking, seeking forward and back to entry 0 shows the header's types |
| FlatJson.Print | src/Store/BoostStore.h:245-259 | the loop prints the entries joined by commas in braces |
| FlatJson.PrintedIsJson | src/Store/BoostStore.h:245-259 | for values and keys without quotes and backslashes, a JSON reader finds every key of the printed object with its value |
| FlatJson.JsonParser | src/Store/BoostStore.cpp:235-264 | the scan adds to the store what the quote-counting automaton gathers |
| FlatJson.ParsePrinted | src/Store/BoostStore.cpp:235-264 | for quote-free keys and values parsing the printed text adds every key with its encoded value to the store |
| FlatJson.ParsePrintedIff | src/Store/BoostStore.cpp:241-262 | and into an empty store only for those |
| SocketManager.SocketManager.ReceiveMessage | src/DAQDataModelBase/SocketManager.cpp:124-162 | one message goes into one object, which goes to the received buffer, the bad buffer or the pool |
| SocketManager.SocketManager.SendReplies | src/DAQDataModelBase/SocketManager.cpp:179-228 | messages are attempted in order up to one without parts, flags and counters say how each went, and all objects return emptied to the pool |
| SocketManager.SocketManager.Thread | src/DAQDataModelBase/SocketManager.cpp:90-233 | one pass: swap, receive while the poll reports messages, send if possible |
| SocketRuns.EachInOnePlace | src/DAQDataModelBase/SocketManager.cpp:96-228 | over every run each object allocated is in exactly one of pool, received, bad, shared send, local send and client hands |
| SocketRuns.AllocatesIff | src/DAQDataModelBase/SocketManager.cpp:125 | an object is allocated, by the thread or a client, exactly when the pool is empty |
| ReceiveRuns.ReceiveDelivers | src/DAQDataModelBase/SocketManager.cpp:120-165 | while pooled objects are empty, one receive phase delivers exactly the acceptable messages, whole and in order, and the bad buffer gets exactly the others |
| ReceiveRuns.EveryFrameOnce | src/DAQDataModelBase/SocketManager.cpp:124-131 | over every run the frames that arrived are, in order, those of the messages taken and those still waiting |
| ReceiveRuns.ReceiveCountersAgree | src/DAQDataModelBase/SocketManager.cpp:134-160 | over every run the received counter equals the objects collected and in the buffer, received and errors add up to the messages taken, and the errors equal the objects sent to the bad buffer if there is one |
| ReceiveRuns.RunDelivers | src/DAQDataModelBase/SocketManager.cpp:120-165 | over every run in which clients empty what they release, everything collected and then the buffer is exactly the acceptable messages taken, whole and in order, and everything collected from the bad buffer and then that buffer exactly the others |
| ReceiveRuns.FilledExactlyIff | src/DAQDataModelBase/SocketManager.cpp:125-131 | an object's content is the message exactly when it came empty from the pool and the receive completed |
| ReceiveRuns.PoolStaysEmpty | src/DAQDataModelBase/SocketManager.cpp:137-138 | pooled objects stay empty as long as clients empty what they release |
| SocketRuns.FlagsWritten | src/DAQDataModelBase/SocketManager.cpp:183-221 | one flag per message attempted, true exactly when all its frames were taken |
| SocketRuns.WireCarries | src/DAQDataModelBase/SocketManager.cpp:183-196 | when every message has parts and the transport takes them, a receiver takes off exactly the list's messages, in order |
| SocketRuns.WireExactly | src/DAQDataModelBase/SocketManager.cpp:183-196 | a pass puts on the wire, of each message attempted, exactly the frames taken, also of one that fails |
| SocketRuns.SendCountersAgree | src/DAQDataModelBase/SocketManager.cpp:198-217 | over every run sent plus send errors are the messages attempted, and sent counts the true flags |
| SocketRuns.AttemptsAllIff | src/DAQDataModelBase/SocketManager.cpp:183-187 | the whole list is attempted exactly when no message before the last lacks parts |
| SendOrder.InOrderIff | src/DAQDataModelBase/SocketManager.cpp:96-228 | over every run messages leave in submission order, overtaking none that waits, exactly when no pass that writes starts with a message in the shared buffer submitted after one still in the thread's list; then they are attempted in that order |
| SendOrder.PassSends | src/DAQDataModelBase/SocketManager.cpp:96-228 | a pass that writes attempts the list that the swap brought, adds one outcome for each message attempted, and empties it; another pass attempts nothing |
| SendOrder.AttemptsInOrderIff | src/DAQDataModelBase/SocketManager.cpp:96-228 | once all messages, having parts, were attempted, the attempts are in submission order exactly under that condition |
| SendOrder.PromptInOrder | src/DAQDataModelBase/SocketManager.cpp:96-228 | a thread that can write on every pass keeps the order |
| SendOrder.SwappedBackIsOvertaken | src/DAQDataModelBase/SocketManager.cpp:96 | a run in which the second of two submitted messages is attempted before the first |
| Listing.AnswerAll | src/ServiceDiscovery/ServiceDiscovery.cpp:674-720 | the reply is one multipart message of the count and the services, cut off where the socket stopped taking frames |
| Listing.GetServices | src/DAQDataModelBase/DAQUtilities.cpp:182-217 | returns the listed services and takes exactly their frames |
| Listing.Connections.UpdateConnections | src/DAQDataModelBase/DAQUtilities.cpp:105-180 | afterwards exactly the old endpoints and those offered by a listed record are connected, an offer being told by the record's fields: its ip and the port named by the request, if its type starts with the wanted name; the listing's frames are taken and the size of the map returned |
| Listing.ListingAligned | src/ServiceDiscovery/ServiceDiscovery.cpp:674-720 | reading a listing yields what the server listed and consumes exactly what it wrote |
| Listing.ConnectedOnce | src/DAQDataModelBase/DAQUtilities.cpp:159-166 | over any calls with one map each endpoint is connected at most once and the keys are the endpoints connected |
| Listing.ConnectedIff | src/DAQDataModelBase/DAQUtilities.cpp:139-166 | over any calls with one map, exactly the endpoints offered by some record listed in one of them are connected |
| Listing.FirstOfferKept | src/DAQDataModelBase/DAQUtilities.cpp:159-160 | a new endpoint's record is that of the first one in the listing to offer it |
| Listing.KeysAfter | src/DAQDataModelBase/DAQUtilities.cpp:139-166 | a call adds exactly the wanted endpoints listed and keeps the records of the old ones |
| Listing.NothingNewIff | src/DAQDataModelBase/DAQUtilities.cpp:159-175 | a call changes nothing exactly when every wanted endpoint listed is connected already |
| Listing.RepeatIsIdle | src/DAQDataModelBase/DAQUtilities.cpp:159-175 | repeating a call with an unchanged listing changes nothing |

## Left out

- zmq, UDP, threads, locks, sleeps, gzip and file access: only their observable effect is an input or a queue.
- `DoCommand` as one method: its waits are the protocol's client steps, and the class has its critical sections.
- Timing of the two waits in `DoCommand`: a client may give up at either wait at any moment the code allows it.
- Backend.ServicesBackend.GetNextResponse: presumes that the id and status parts of a reply have the four bytes read from them, since the read is out of bounds otherwise.
- Batching.Services.PruneAlarms: one value of the clock serves the whole prune, while the program reads it afresh for each alarm.
- More than 2^32 calls over one id counter: ids repeat (`Protocol.IdsDistinct` says exactly when).
- Locking inside a buffer operation, and the lock order of `SendLog` against `SendMonitoringData`: each call is one step.
- zstd itself: decompression is a function parameter, and only the size formula of compression is modelled.
- `TimeStringFromUnixMs`: its text is a function parameter, and the reading-back results ask that it has no quote or backslash; that it replaces a timestamp of 0 by the current time is part of `SendAlarm`, the only place where it matters to the state.
- MonitoringText.MonitoringReadsBack: asks for data that is balanced JSON text, since data goes in unescaped; how a reader takes other data is not modelled.
- The alarm's command text, and the logging copy of an alarm: plumbing around the buffer.
- `Store`'s parser and printer (ToolFrameworkCore is not part of this model): parameters, with their laws stated where used.
- `GetCachedDeviceConfig`: each attempt is an input, a text or an error text.
- Handlers subscribed to all alerts ("*"), the warning and error states: no effect on the configuration state.
- Services expiry in the listen thread and the "Service", "UUID" and other requests of the listing socket.
- SocketManager.SocketManager.ReceiveMessage: message objects are values named by number, so sharing of one object is visible as a repeated number, not as aliasing; which pooled object is reused is fixed to the last.
- The shared-ownership set-ups of the socket manager, exceptions thrown by zmq in its loops, and the wake-up pause.
- BoostStore.BoostStore.Initialise: presumes a format 2 file with a header and an entry, and a stored count that fits its type, since the archive throws otherwise; the other formats and stored objects are easy cases.
- The order in which `Store` is iterated, that of its keys: the parser parameter of `Unpack` lists members in it.
- SQL queries, plots, remote control, node daemon, socket options and user tools.

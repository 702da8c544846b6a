# A verified model of the GSM dongle channel driver

The driver connects GSM modems ("dongles") to a PBX. Each device has a control line, on
which AT commands go out and results come in, and an audio line. This project models the
parts of the driver that decide something by themselves and proves what they keep.

| file | part of the driver |
|---|---|
| `RingBuffer.dfy` | the wrapping byte buffer and its searches (`ringbuffer.c`) |
| `MixBuffer.dfy`, `Saturation.dfy`, `Audio.dfy` | mixing many streams in one buffer, when their order matters, the timer tick and the overflow path (`mixbuffer.c`, `channel.c`) |
| `AtRead.dfy`, `AtClasses.dfy`, `AtFraming.dfy`, `AtMultiline.dfy` | cutting the input into results and classifying them, for every way the input is cut into reads (`at_read.c`) |
| `AtQueue.dfy`, `AtQueueState.dfy`, `AtTiming.dfy`, `AtProgress.dfy` | the command queue, the responses that move it, what a task comes to, and runs in which every answer is for a written command (`at_queue.c`, `at_response.c`) |
| `Device.dfy`, `DeviceRun.dfy`, `DeviceFlags.dfy`, `Claims.dfy`, `Restart.dfy` | call records, the device that holds them over whole runs, its admission, claim and restart (`cpvt.c`, `channel.c`, `chan_dongle.c`, `helpers.c`) |
| `SelectRules.dfy`, `SelectSort.dfy`, `SelectClasses.dfy`, `Select.dfy`, `SelectFit.dfy` | selection of a device from a group (`select.c`) |
| `Arith.dfy`, `CharConv.dfy`, `Pdu.dfy` | septet packing, hexadecimal text, numbers and SMS-SUBMIT (`char_conv.c`, `pdu.c`; section 6.1.2.1.1 of 3GPP TS 23.038, section 9.2.2.2 of 3GPP TS 23.040) |
| `Fcs16.dfy` | the 16-bit frame check sequence (`programmator/crc.c`; Appendix C of RFC 1662) |
| `Limits.dfy` | call limits and call times (`limits.c`, `stat.c`) |
| `Sequences.dfy`, `Wrappers.dfy` | sequences without repetition; a value or none |

Structures the driver changes in place are classes (`RingBuffer`, `MixBuffer`, `AtQueue`,
`Device`, `Selection`, `CallStat`) whose methods are proved against functions on values;
the lemmas are about those functions and about runs of them. Time, memory and the outcome
of a write or a lock are parameters of the step that meets them. Threads are interleaved
steps: each step under the device's lock is one move.

## What the code does where its comments say otherwise

* `rb_read_until_mem_iov` compares the part behind the wrap with the wrong end of the
  pattern. It finds the first occurrence in all contents if and only if memory repeats,
  at every place i, the last i elements of the pattern (`MemSearchExactly`). Patterns of
  one and two elements do (`PairSearchRight`); the 7-byte end of a multi-line response
  does not, and is never found across the wrap (`StraddlingTerminatorMissed`).
* A result behind a second CR LF (`+CSSU:`, `+CMS ERROR:`, `+CMGS:`) is reported if and
  only if no read ends between that CR LF and the colon; otherwise the CR LF is taken for
  an empty result (`EveryResultReported`, `SpacedSplit`). Plain results, prompts and
  notices are reported for every cut (`AnyCutWell`).
* `char_to_hexstr_7bit` puts out one octet more when the length is a positive multiple
  of 8 (`PackedCount`), so that the receiver's length check fails exactly then
  (`MessageReadBack`).
* `pdu_parse_byte` reports no error when its second character is no digit
  (`ParseByteError`). `pdu_store_number` puts a NUL for a character that cannot be dialled,
  so that a destination is read back if and only if all of its characters can
  (`ReadNumberExactly`, `MessageReadBack`).
* The mix of samples that arrive for one position depends on their order. It does not if
  and only if they are of one sign, or neither the positive ones nor the negative ones
  saturate by themselves (`OrderIrrelevantExactly`).
* A failed write can leave the next command at the head unwritten, and a response counts
  for the head whether it was written or not: `HeaderMaySkip` gives a run in which a
  message body goes out without its header, `AnswersDueExactly` the exact condition, for
  all answers or for the prompts of messages alone, under which every answer is for a
  written command; `HeaderBeforeBody` draws the conclusion for messages. Runs in which
  no write fails and each response is followed at once by the monitor's write meet it
  (`SwiftRunsAreTimely`); a header that was not written when its prompt was taken is
  never sent, though its body is (`HeaderSentExactly`). An insertion can
  report failure and leave its commands queued, to go out later (`QueuedUnlessDropped`,
  `FailedDialGoesOut`).
* `ring`, `cwaiting` and `dialing` can stay set with no call behind them, and the device then
  refuses to dial: `RingLeftBehind` gives the act, `ActTies` the exact condition on each act,
  and `FlagsHaveCalls` that runs of acts that meet it leave a device without calls free.
* In its last hour of work a device is at work from its own minute on and not before
  (`AtWork`, `HoursFilter`), so that it rests at the beginning of that hour.
* `pvt_enabled` stays true for a pending change asked for at a convenient time; only a
  graceful one takes the device out of use at once (`PendingUse`, `ConvenientStillUsed`). A request for the state
  the device is in stays behind and keeps a dropped device down (`LeftBehind`).
* When memory runs out, `pvt_select_create` forgets the records it has: nothing is found
  and nothing freed (`SelectDevice`).
* The sort's third key changes from pass to pass, so that records of one class can come
  out against it (`MixedClasses`). Whatever the keys and the order before, they come out
  right if and only if no two records of one position, priority and class meet one of
  another class that is not ranked strictly before them (`ClassesInOrderExactly`). The
  other sort, for calls back, orders whatever came before if and only if all devices have
  a time or none has (`SouSortExactly`).
* `limits_final` rounds up only if the limit's number is the character `_`, which none of
  the ten is (`RoundingIsDead`); it looks as if the limit's type was meant. `limits_temp`
  reads the clock three times, so that a call costs its duration exactly if and only if
  the readings agree (`CostsDurationExactly`).

## Model

| member | source | states |
|---|---|---|
| RingBuffers.RingBuffer.Memcmp | ringbuffer.c:18-50 | the result tells whether the contents, wrapped or not, start with the given bytes, are too short, or differ |
| RingBuffers.RingBuffer.ReadAllIov | ringbuffer.c:53-75 | the one or two vectors cover exactly the contents |
| RingBuffers.RingBuffer.ReadNIov | ringbuffer.c:77-104 | the vectors cover exactly the first n cells, or nothing if there are fewer |
| RingBuffers.CoversPrefix | ringbuffer.c:53-104 | vectors that cover k cells gather to the first k of the contents, across the wrap or not |
| RingBuffers.RingBuffer.ReadUntilCharIov | ringbuffer.c:106-144 | the vectors end before the first occurrence of the character in the contents, none if it does not occur |
| RingBuffers.RingBuffer.Memmem | memmem.c:41-68 | the first place in a stretch of the buffer where the pattern stands |
| RingBuffers.RingBuffer.ReadUntilMemIov | ringbuffer.c:187-271 | for every pattern and all contents the vectors end where the search as written finds the pattern, none if it does not |
| RingBuffers.MemSearchExactly | ringbuffer.c:222-238 | the search finds the first occurrence in all contents if and only if memory repeats, at every place, the end of the pattern |
| RingBuffers.MemSearchRight | ringbuffer.c:199-255 | under that condition it does so piece by piece: before the wrap, across it, behind it |
| RingBuffers.PairSearchRight | ringbuffer.c:187-271 | patterns of one and two elements are always found where they first stand |
| RingBuffers.PatternAcross | ringbuffer.c:224-234 | otherwise contents that are the pattern alone, laid across the wrap, are not found |
| RingBuffers.StraddlingTerminatorMissed | ringbuffer.c:224 | where the 7-byte end of a multi-line response stands across the wrap the search never finds it |
| RingBuffers.RingBuffer.UntilMemAround | ringbuffer.c:199-255 | the branch for contents that go round the end does exactly the search as written |
| RingBuffers.RingBuffer.AcrossSeam | ringbuffer.c:222-254 | its loop over the straddling places and the search behind the wrap |
| RingBuffers.RingBuffer.ReadUpd | ringbuffer.c:273-307 | drops the first cells of the contents, at most all of them, and keeps the rest in place |
| RingBuffers.RingBuffer.WriteIov | ringbuffer.c:356-382 | the vectors cover exactly the free cells behind the contents |
| RingBuffers.RingBuffer.WriteUpd | ringbuffer.c:384-412 | takes cells already filled into the contents, also up to the end of the buffer |
| RingBuffers.RingBuffer.WriteCore | ringbuffer.c:414-452 | combines as much of the data as fits with the cells behind the contents, wrapping, and changes no other cell |
| RingBuffers.RingBuffer.Write | ringbuffer.h:71-74 | the contents become the old ones and as much of the data as fits: a bounded first-in first-out queue |
| RingBuffers.OverlaidAppends | ringbuffer.c:414-452 | cells put behind the contents are what is appended to them |
| MixBuffers.MixBuffer.Attach | mixbuffer.c:14-21 | a new stream begins at the read position; nothing else changes |
| MixBuffers.MixBuffer.Detach | mixbuffer.c:24-28 | the stream's samples stay in the mix, its cursor goes |
| MixBuffers.SaturatedSumIsSum | mixbuffer.c:31-41 | if no partial sum saturates the mix is the plain sum |
| MixBuffers.OrderIrrelevantWithoutSaturation | mixbuffer.c:31-41 | two orders of arrival of the same samples, neither of which saturates on the way, both give the plain sum |
| MixBuffers.OrderMattersWithSaturation | mixbuffer.c:31-41 | two orders of three samples that give different mixes |
| Saturation.OrderIrrelevantExactly | mixbuffer.c:31-41 | every order of arrival gives the same mix if and only if the samples are of one sign, or the positive ones add up to at most the largest sample and the negative ones to at least the smallest |
| Saturation.CalmPermutes | mixbuffer.c:31-41 | under that condition any two orders agree |
| Saturation.UpsFirstDownsFirst | mixbuffer.c:31-41 | without it the positive ones first and the negative ones first differ |
| Saturation.OneSignAtOnce | mixbuffer.c:31-41 | samples of one sign are added as if their sum came at once |
| Saturation.NearestSample | mixbuffer.c:31-41 | an addition gives the sample of 16 bits nearest to the sum |
| MixBuffers.MixBuffer.MixWrite | mixbuffer.c:44-66 | mixing with the stream's cursors in the ring changes exactly the stream's cells and gives the ring its own cursors back |
| MixBuffers.MixedRepresents | mixbuffer.c:44-99 | after a write every position holds the saturating sum of all that arrived for it, in order |
| MixBuffers.MixBuffer.Write | mixbuffer.c:69-99 | a write mixes with what is there and appends what goes beyond, as much as fits, and the log of arrivals grows by exactly that |
| MixBuffers.MixBuffer.ReadUpd | mixbuffer.c:102-121 | reading hands out the oldest mixed samples; every stream's cursor follows, the slow ones moved up |
| MixBuffers.OutGrows | mixbuffer.c:102-121 | all samples ever read are the mixes of what arrived for their positions |
| MixBuffers.DeliveredStays | mixbuffer.c:69-121 | and later writes do not change that |
| Audio.TimingWrite | channel.c:574-605 | a tick yields one frame of 160 samples: the next mixed ones, each the saturating sum of what was written for its position, then zeros |
| Audio.TickSamples | channel.c:574-605 | samples handed out are those sums |
| Audio.MakeRoom | channel.c:991-999 | the overflow path drops exactly the shortfall from the oldest samples |
| Audio.ChannelWrite | channel.c:989-1001 | a frame no longer than the buffer is then accepted whole |
| AtRead.NextResult | at_read.c:111-208 | every turn that does not answer consumes something; a result found is not empty and lies in the contents |
| AtRead.ReadResultIov | at_read.c:111-208 | the framer on the ring, for all contents and wraps, does what it does on flat contents, and ends; for multi-line responses it answers with the search as made |
| AtRead.HeadAt | at_read.c:157-187 | the tests for a begun result, in order |
| AtRead.ResultClassification | at_read.c:210-248 | the class is that of the first entry the contents start with; exactly its bytes are taken out |
| AtRead.LookupIn | at_response.c:52-110 | the first matching entry of the table decides |
| AtRead.ReadInto | at_read.c:55-109 | what is read is appended to the contents, round the end or not; a full buffer is an error |
| AtRead.TakeOne | chan_dongle.c:531-536 | a result is reported with its class and its text without the last character |
| AtRead.NextTurn | chan_dongle.c:531-536 | one call of the framer, seen from the whole loop |
| AtRead.ReportAll | chan_dongle.c:531-548 | the monitor's inner loop reports all results of the contents in order and leaves the rest |
| AtRead.OnReadable | chan_dongle.c:523-548 | one turn of the monitor: what was left and what is read are cut up together |
| AtFraming.HeadIsPlain | at_read.c:157-203 | a result without a special prefix is recognised as such from any part of it |
| AtFraming.WaitOnPart | at_read.c:157-207 | a part of a result, prompt or notice makes the framer wait and keep it |
| AtFraming.FoundOnWhole | at_read.c:193-203 | a whole result is found at its line end |
| AtFraming.PromptFound | at_read.c:172-176 | a prompt is found and classified as one as soon as it is there, whatever follows |
| AtFraming.NoticeTaken | at_read.c:157-166 | a +CSSI notice is found at 8 characters, whatever they are, and waited for until then |
| AtFraming.SpacedTaken | at_read.c:167-171 | a result of the three prefixes behind a second CR LF is found once its prefix is whole |
| AtFraming.SpacedSplit | at_read.c:167-203 | with less of the prefix there the second CR LF is taken for an empty result |
| AtFraming.GarbageSkipped | at_read.c:127-151 | what stands in front of an opening CR LF is skipped up to its CR, all of it without one |
| AtClasses.ClassifiedByWord | at_response.c:52-110 | the class is that of the first word, up to a colon or CR, by a dictionary of words: neither the order of the table nor what follows matters |
| AtFraming.ClassifyOnBody | at_read.c:210-248 | its class and length do not depend on what follows |
| AtFraming.DrainServes | at_read.c:111-248 | from any point of a stream of plain and spaced results, prompts and notices a drain reports the next ones due and leaves less than one, exactly if no spaced one is split where the buffer ends |
| AtFraming.MonitorServes | chan_dongle.c:523-548 | so it is after any number of reads, exactly if none of them splits one |
| AtFraming.EveryResultReported | chan_dongle.c:523-548 | for every stream of plain results, results behind a second CR LF, prompts and +CSSI notices, and every way it is cut into reads: exactly these are reported, in order, if and only if no read ends between a second CR LF and the colon; nothing is left then but the LF of a last notice |
| AtFraming.AnyCutWell | chan_dongle.c:523-548 | without results behind a second CR LF that holds for every cut |
| AtFraming.MonitorReads | chan_dongle.c:523-548 | the monitor's loop on the ring, when every read finds room, does what it does on flat contents |
| AtFraming.MonitorStream | chan_dongle.c:523-548 | on the ring the same: everything sent is reported, in order, and the ring is empty at the end but for that LF |
| AtMultiline.TakeMultiline | at_read.c:177-188 | a message, a list of numbers or of calls is reported whole, not by lines; a message takes the OK behind it with it, the others leave it as the next result |
| AtFraming.RoomyFits | chan_dongle.c:523-530 | a buffer that holds any result with any read never fills up |
| AtQueues.EveryRunIsOrderly | at_queue.c:99-371 | in every run of queue moves the commands of a task go out in order, each once, no other task's between them; nothing older follows a task without priority; a command has its turn after the expected answers; one is outstanding at a time |
| AtQueues.OneOutstanding | at_queue.c:265-307 | between two writes the first command was answered or its task given up |
| AtQueues.WrittenAtMostOnce | at_queue.c:265-307 | a command is written at most once, and after the earlier ones of its task |
| AtQueues.SuccessorAfterAnswer | at_queue.c:237-257 | a command goes out after each earlier one of its task got its expected response or carries the IGNORE flag |
| AtQueues.OnQueueOrLeft | at_queue.c:64-135 | every task ever queued is on the queue or has left it, one or the other |
| AtQueues.QueueOrderKept | at_queue.c:64-371 | of two queued tasks the later one has no turn before the earlier one has left, whatever follows |
| AtQueues.PriorityGoesNext | at_queue.c:118-121 | a task with priority has its turn before all queued behind the head, one without after all that are queued |
| AtQueues.AddedKeeps | at_queue.c:99-135 | insertion after the head or at the tail keeps the order |
| AtQueues.CmdRemovedKeeps | at_queue.c:237-257 | removing the head command keeps it, whether its task goes on or is dropped |
| AtQueues.RanKeeps | at_queue.c:265-307 | writing the head, or dropping it after a failed write, keeps it |
| AtQueues.SmsBodyAfterPrompt | at_command.c:489-535 | a message body goes out only after the prompt was taken for its own header |
| AtQueues.SmsBodyDropped | at_command.c:489-535 | a header answered otherwise takes its body with it |
| AtQueues.SmsHeaderAtHead | at_response.c:2118-2136 | while the header waits OK changes nothing and an error drops both |
| AtQueues.SmsHeaderNotWritten | at_queue.c:277-282 | a failed write of the header drops both |
| AtProgress.Gates | at_response.c:137-660 | which responses move the queue, by what the head expects: each expected response moves its own command |
| AtProgress.TaskGoesThrough | at_queue.c:237-307 | if each command gets the response it expects, the commands of the head task go out in order, each once, each answered; then the task leaves and nothing else has changed |
| AtProgress.DeletedOnceRead | at_command.c:1010-1037 | a message read moves its retrieval on: the deletion is sent, and nothing else |
| AtQueues.HeaderMaySkip | at_queue.c:265-307 | a run in which failed writes and a stray prompt send a body without its header |
| AtQueues.AnswersDueExactly | at_response.c:137-660 | every answer (or every prompt for a message) is for a written command if and only if each such response that moves the queue finds the head written |
| AtQueues.HeaderBeforeBody | at_queue.c:265-307 | then every message body sent has its own header sent before |
| AtQueues.TimelyForMessages | at_response.c:2118-2136 | the condition on all responses includes the one on prompts |
| AtTiming.SwiftRunsAreTimely | chan_dongle.c:540-542 | if no write fails, those of the commands an error queues included, and each response is followed at once by the monitor's write, every answer is for a written command |
| AtTiming.SwiftStays | chan_dongle.c:540-542 | the same from any queue whose head is written, or about to be |
| AtTiming.HeaderSentExactly | at_queue.c:265-307 | when a prompt is taken for a header and the monitor's write follows, the body has gone out, and the header is ever sent, whatever follows, if and only if it was written before |
| AtTiming.BodyFollows | at_response.c:2118-2136 | the prompt and the write add the answer and the body to the log, and nothing else |
| AtTiming.ExecExtends | at_queue.c:99-371 | no move takes back what was sent |
| AtQueues.QueuedUnlessDropped | at_queue.c:315-338 | a new task is gone after the insertion exactly if it was alone, its write failed and was not to be ignored |
| AtQueues.FailedDialGoesOut | at_queue.c:277-282 | a dial task reported as failed stays queued and its next command goes out |
| AtQueueStates.AtQueue.Add | at_queue.c:99-135 | the list, both counters and the order as specified |
| AtQueueStates.AtQueue.Remove | at_queue.c:64-78 | the head leaves and both counters follow |
| AtQueueStates.AtQueue.RemoveCmd | at_queue.c:237-257 | the head command is through; its task ends with the last command or an unexpected answer |
| AtQueueStates.AtQueue.Run | at_queue.c:265-307 | the head is written once, or dropped if that fails |
| AtQueueStates.AtQueue.InsertConst | at_queue.c:315-318 | queue, then write; the value returned tells of either failure |
| AtQueueStates.AtQueue.InsertTask | at_queue.c:321-338 | the same, writing also when nothing was queued |
| AtQueueStates.AtQueue.Flush | at_queue.c:363-371 | every task leaves |
| AtQueueStates.AtQueue.Relink | cpvt.c:103-108 | the tasks of a dead record, and no others, go to the system record |
| AtQueueStates.AtQueue.ResponseOk | at_response.c:137-369 | OK moves the queue only if the head expects OK or +CMGR |
| AtQueueStates.AtQueue.ResponseError | at_response.c:378-660 | an error moves it if the head expects OK, +CMGR or the prompt |
| AtQueueStates.AtQueue.ResponseCmgr | at_response.c:1848-1954 | +CMGR moves it if the head expects it or is a user's command |
| AtQueueStates.AtQueue.ResponseSmsPrompt | at_response.c:2118-2136 | the prompt moves it if the head expects it |
| AtQueueStates.AddedCmdsLeft | at_queue.c:123-124 | at_cmds is the number of commands not yet through |
| Devices.Device.CpvtAlloc | cpvt.c:44-78 | a new record is last on the list and counted in its state |
| Devices.Device.CpvtFree | cpvt.c:81-119 | the record leaves the list, the counters, the queue's tasks and last_dialed_cpvt; the last one makes a pending restart due |
| Devices.Device.FindCpvt | cpvt.c:122-131 | the first record with the id, none exactly if there is none |
| Devices.Device.PseudoCallIdx | chan_dongle.c:1014-1033 | the smallest id from 1 to 31 not in use, 0 exactly if all are |
| Devices.Device.IsDialPossible | chan_dongle.c:1039-1081 | the loop answers whether no call is being set up, and active and held calls exist only when others may be held, and not both |
| Devices.DialByCounts | chan_dongle.c:1039-1081 | the same in numbers of calls: none being set up or coming in, and not both active and held ones |
| Devices.StopsHere | chan_dongle.c:1050-1079 | a call that forbids dialling forbids it whatever follows |
| Devices.Device.Ready4VoiceCall | chan_dongle.c:1096-1131 | ready exactly if the device is up, enabled, not busy, and dialling is possible |
| Devices.Device.Claim | select.c:935-953 | the claim is made exactly if the device is ready and may dial with all its calls counted |
| Devices.Device.NewChannel | channel.c:1311-1368 | a call dialled out is last on the list in INIT, or nothing is left of it but a restart that became due |
| Devices.Device.ChannelRequest | channel.c:137-149 | the claimed device gets its call, and selectbusy is cleared whether or not |
| Devices.Device.ChangeChannelState | channel.c:1161-1283 | state and counters change together; an active or released call no longer rings, waits or dials, and nothing else ends that; a released call is freed with all that points to it |
| Devices.CountsMove | channel.c:1174-1176 | the counters still say how many calls are in each state, in 8 bits |
| Devices.Device.Enqueue | at_queue.c:99-135 | a task for a live call or the system record keeps every task's call live |
| Devices.Device.EnqueHangup | at_command.c:1129-1152 | a hangup goes on the queue with priority; for a call still in INIT no call is remembered any more, whether or not that succeeds |
| Devices.Device.Turn | chan_dongle.c:542 | the monitor's write keeps all references and counters |
| Devices.Device.NoteOk | at_response.c:257-325 | what OK notes for each command: the call dialled, the hangup needed, the flags |
| Devices.Device.ResponseOk | at_response.c:137-369 | OK does so exactly if the head expects it, then moves the queue; a dialled call is remembered if it is not the system record |
| Devices.Device.ResponseError | at_response.c:378-660 | an error ends a message or USSD in progress, queues what it queues for the same call, and moves the queue |
| Devices.Device.ResponseCmgr | at_response.c:1864-1873 | a message read answers the command that expects it, ends the reading and makes a pending restart due |
| Devices.Device.ResponsePrompt | at_response.c:2118-2136 | the prompt moves the queue only |
| DeviceRuns.Take | cpvt.c:44-119 | every single act keeps it |
| DeviceRuns.Run | cpvt.c:44-119 | after any number of acts in any order every queued task is for a live call or the system record, the call last dialled is live, and all counters are right; flags and states went one step for each act |
| DeviceFlags.ChangeTies | channel.c:1183-1207 | a call that becomes active or is released never leaves its flag behind; one that goes over to a state of another kind does exactly if it was the only one behind it |
| DeviceFlags.ActTies | channel.c:1183-1207 | for every act, exactly when each flag set still has a call behind it |
| DeviceFlags.FlagsHaveCalls | channel.c:1183-1207 | in a run of such acts every flag has a call behind it at every moment, and a device without calls may dial |
| DeviceFlags.LooseFlagBlocks | chan_dongle.c:1039-1048 | a device without calls may dial exactly if no flag is left over |
| DeviceFlags.RingLeftBehind | at_response.c:1466-1470 | a ringing call whose channel cannot be started leaves ring behind |
| Devices.Device.Orig | at_response.c:825-886 | the remembered call gets its real id and is dialling; nothing is remembered any more |
| Devices.Device.Cend | at_response.c:1005-1010 | the first record with the id is released, and no other |
| Devices.Device.Disconnect | chan_dongle.c:273-387 | no call, no task, no count and nothing remembered is left |
| Devices.RelinkedLinked | cpvt.c:102-111 | after a record is freed every queued task is for a live call or the system record |
| Claims.AtMostOneSetup | select.c:935-953 | with any number of selecting threads a device has at most one outgoing setup: a claim or a call in INIT |
| Claims.ClaimKeeps | select.c:941-944 | a claim is made only when there is neither |
| Claims.CreateKeeps | channel.c:137-141 | making the call turns the claim into the one call in INIT |
| Restart.NowOnlyWhenQuiet | chan_dongle.c:1608-1626 | a request for later becomes one for now only in a moment without channels, messages and USSD |
| Restart.TakesEffect | helpers.c:203-213 | a request takes effect at once exactly if it changes something and is for now, or the device is quiet |
| Restart.TurnsWhenQuiet | chan_dongle.c:1608-1626 | a pending one turns as soon as it is looked for with no call, message or USSD request in progress |
| Restart.ReadyNeeds | chan_dongle.c:1096-1117 | what each alone keeps a device from a call |
| Restart.DisconnectedIdle | chan_dongle.c:340-380 | a device that drops is idle, not ready, and its request to change is kept |
| Restart.PendingUse | chan_dongle.c:1090-1117 | until discovery acts a graceful request keeps the device out of use; one for a convenient time does so exactly from when it turned or the device stopped |
| Restart.ConvenientStillUsed | chan_dongle.c:1090-1117 | a device asked to stop when convenient is ready for another call while one is on |
| Restart.DiscoveryReaches | chan_dongle.c:873-891 | discovery brings a device to the state asked for; a start succeeds exactly if the device comes up |
| Restart.LeftBehind | helpers.c:203-213 | a request for the present state is not dropped: a device that then fails stays down exactly if the request was for later |
| SelectRules.SweptKeeps | select.c:304-312 | removal by swapping with the last visits every record once and leaves exactly those that pass |
| SelectRules.KeptPasses | select.c:369-781 | a record is left exactly if its noted form passes |
| SelectRules.Position | select.c:418-424 | the first place of the number in the list |
| SelectSort.SortOrders | select.c:855-907 | the sort gives a permutation in order of position and falling priority, whichever third keys its passes use |
| SelectSort.SortedBest | select.c:862-907 | each position is best, among what follows, by the key of one of them |
| SelectSort.SortOrdersOneClass | select.c:862-907 | with one algorithm class the third key is in order too |
| SelectSort.MixedClasses | select.c:862-907 | with two classes it need not be, and the order before matters |
| SelectSort.SouSortOrders | select.c:822-848 | the sort for calls back permutes, and orders if every device has a time |
| SelectSort.SouZeroBreaksOrder | select.c:839 | with a device without a time it need not |
| SelectSort.SouSortExactly | select.c:834-848 | whatever the order before, the times come out in order if and only if every device has a time or none has |
| SelectSort.SouFails | select.c:834-848 | otherwise an arrangement that ends on a time comes out with it in front of the lack of one |
| SelectClasses.ClassesInOrderExactly | select.c:862-907 | whatever the third keys and the order before, records of one position, priority and class come out by their own key if and only if no two such records meet one of another class that is not ranked strictly before them |
| SelectClasses.OrderIfUndisturbed | select.c:862-907 | without such a record they come out by their own key |
| SelectClasses.OutOfOrderIfDisturbed | select.c:862-907 | with one, some keys and some order before bring them out against it |
| Select.Selection.Create | select.c:314-366 | the list holds the eligible devices of the group; when memory runs out it is empty and the records are lost |
| Select.Selection.Remove | select.c:304-312 | one record is freed and the last takes its place |
| Select.Selection.Sweep | select.c:408-461 | the loop of the filters |
| Select.Selection.Im | select.c:369-466 | only records that meet the rule on earlier calls to the number stay |
| Select.ImRecord | select.c:412-436 | the search finds the first place of the device's number on the list of earlier calls, and its kind follows |
| Select.Selection.Qos | select.c:469-537 | only records that meet the quality rule stay |
| Select.Selection.CapPro | select.c:539-607 | only records that meet the capacity and profile rule stay |
| Select.Selection.Work | select.c:609-701 | only records at work at the time stay |
| Select.Selection.Diff | select.c:706-781 | only records rested long enough stay |
| Select.Selection.Shuffle | select.c:784-800 | the list is permuted, with no record lost or freed |
| Select.ShuffleReaches | select.c:784-800 | every order can come out |
| Select.Selection.Sort | select.c:804-916 | the list is sorted, with no record lost or freed |
| Select.Selection.Found | select.c:921-976 | the first record that can be had is returned, none exactly if all fail; every record is freed |
| Select.FilteredIsOne | select.c:1158-1168 | the filters in a row are one rule |
| Select.SelectDevice | select.c:1154-1176 | the device returned is the first in the ranking of all that pass every filter that could be had, calls back by time if all have one; every record is freed once |
| Select.RankedPass | select.c:1154-1176 | a ranked record passes every filter and is of an eligible device |
| SelectFit.PassesExactly | select.c:369-781 | the filters together keep a record exactly if its device fits by a rule on device and request alone |
| SelectFit.RankedExactly | select.c:314-781 | a device is ranked if and only if it is of the group, can dial, has something left of a hard limit, and fits: number, quality, capacity, hours and rest |
| SelectFit.FoundFits | select.c:921-976 | the device found fits; if every device can be had, one is found exactly if one fits |
| SelectFit.NumberFilter | select.c:369-466 | kept exactly if the device allows what it has to do with the number's earlier calls |
| SelectFit.QualityFilter | select.c:469-537 | kept exactly if the device has the flag or profile, or called before and quality is neither 8 nor 9 |
| SelectFit.CapacityFilter | select.c:539-607 | kept exactly if the capacity flag and the profile fit, or the device called before |
| SelectFit.HoursFilter | select.c:609-701 | kept exactly if at work by the minute of the device's day and its own minutes |
| SelectFit.OwnMinuteMeans | select.c:659-662 | the device's own minute in closed form, for an imsi of digits |
| SelectFit.RestFilter | select.c:706-781 | kept exactly if the weighed time since its last call is at least the rest due |
| SelectFit.EarlierCallersFirst | select.c:880-881 | devices that called the number come first, in the order of its list |
| SelectFit.ThirdKeyFalls | select.c:864-896 | among devices of one algorithm class the third key falls: limit left, calls, or rest |
| SelectFit.LastTimeCounts | select.c:829-831 | the time of a call back is that of the last entry for the number, 0 without one |
| Select.PlainDial | select.c:12-56 | the first device of the name that can be had, none exactly if all fail |
| CharConv.PackIsWindow | char_conv.c:188-190 | an octet is the 8 bits from its bit on of two septets in a row |
| CharConv.SeptetRoundTrip | char_conv.c:162-252 | decoding an encoded text gives it back, with one NUL more exactly if its positive length leaves 0 or 7 over 8 |
| CharConv.CountRoundTrip | pdu.c:734-736 | the number of octets is what the receiver computes, unless the length is a positive multiple of 8 |
| CharConv.CharToHexstr7bit | char_conv.c:162-207 | the loop puts out the packed octets in digits, and nothing else changes |
| CharConv.Hexstr7bitToChar | char_conv.c:209-252 | the loop puts out the unpacked septets, or reports a pair that cannot be read |
| CharConv.EncodedScans | char_conv.c:162-252 | the same round trip on the text in digits |
| CharConv.Chars8bitToHexstr | char_conv.c:98-118 | two digits for each byte |
| CharConv.HexstrTo8bitChars | char_conv.c:66-96 | the bytes of the digit pairs, or the error |
| CharConv.OctetsOfHexText | char_conv.c:66-118 | reading digits back gives the bytes |
| CharConv.HexDigitsAre | char_conv.c:54-118 | digits are written in upper case and read in either |
| Pdu.CodeRoundTrip | pdu.c:277-358 | a digit survives coding exactly if it may be dialled; letters come back in upper case |
| Pdu.StoreNumber | pdu.c:417-433 | the pairs exchanged, an odd number filled up with F, nothing else changed |
| Pdu.ParseByteError | pdu.c:386-408 | when an error is reported, and when the byte is read |
| Pdu.ParseNumber | pdu.c:443-480 | the loop reads the number, its type and the cursor as specified, or reports the error |
| Pdu.NumberErrors | pdu.c:443-480 | nothing is read exactly if the type cannot be or digits are lacking |
| Pdu.ReadDigits | pdu.c:417-480 | a stored number comes back digit by digit, with a NUL for each character that cannot be dialled |
| Pdu.ReadNumberExactly | pdu.c:417-480 | it comes back as it was, letters in upper case, if and only if every character can be dialled |
| Pdu.ReadSca | pdu.c:484-502 | the service center's part is skipped whole |
| Pdu.BuildPdu | pdu.c:538-645 | the exact text on success, the exact conditions of the errors |
| Pdu.TooBigExactly | pdu.c:620-645 | with a number of at most 20 digits a message is too big exactly from 183 characters on |
| Pdu.DecimalsExchanged | pdu.c:417-433 | decimal digits are stored as they are, exchanged in pairs |
| Pdu.BuildData | pdu.c:612-636 | the data written first survive the fields written over their beginning |
| Pdu.MessageReadBack | pdu.c:538-645 | every field of a message built is read back: type 0x31, address type 0x91, 0xB1 or 0x81, validity, text; and the number if and only if all of it can be dialled |
| Pdu.MessageInFull | pdu.c:538-645 | a message of ten letters, octet by octet |
| Fcs16.TableIsBitwise | programmator/crc.c:16-49 | every entry of the table is eight steps of the bitwise register |
| Fcs16.Pppfcs16 | programmator/crc.c:78-85 | the loop computes the bitwise sequence of the whole message |
| Fcs16.TryFcs16 | programmator/crc.c:91-107 | a message with its complemented sequence leaves the good value |
| Fcs16.Crcdat | programmator/crc.c:109-117 | the two bytes are that trailer |
| Fcs16.ReceiverAccepts | programmator/crc.c:91-107 | two bytes after a message are accepted exactly if they are its complemented sequence, low byte first |
| Fcs16.ResidueIsGood | programmator/crc.c:5-10 | the value left is the constant 0xf0b8 |
| Fcs16.CheckValue | programmator/crc.c:78-105 | the check value: the sequence of the nine digits is 0x906e |
| Fcs16.LeadingZeroDetected | programmator/crc.c:78-105 | a zero byte in front of a message changes its sequence |
| Fcs16.AdjacentBytesDetected | programmator/crc.c:78-85 | messages that differ only in two adjacent bytes have different sequences |
| Fcs16.BurstDetected | programmator/crc.c:78-85 | so do messages that differ in a burst of up to 16 bits |
| Fcs16.BurstOfSeventeenCanHide | programmator/crc.c:78-85 | and 17 bits are too many |
| Limits.CallCosts | limits.c:6-75 | a call costs its duration and what passes between paired readings of the clock; other limits stay |
| Limits.CostsDurationExactly | limits.c:6-75 | exactly the duration if and only if the readings agree |
| Limits.OvershootIsLess | limits.c:29-48 | a hard limit is overdrawn by less than the last gap when the hangup is queued |
| Limits.HangupExactly | limits.c:6-48 | after any ticks, one that debits queues a hangup if and only if the limit is hard and the time connected, less what passed between paired readings, has reached it |
| Limits.NoHangupNoTime | limits.c:6-48 | a call under a hard limit with no hangup queued has been on for less than the limit and 5 seconds |
| Limits.Pays | stat.c:73-93 | a connected call debited more than 5 seconds ago pays for the time since |
| Limits.LeftAlone | stat.c:73-93 | one not connected, ended, or debited in the last 5 seconds is let alone |
| Limits.CallStat.CallProcess | stat.c:73-93 | an interim debit is made exactly in a connected call 5 seconds after the last; outgoing calls are hung up exactly if a hard limit is used up |
| Limits.CallStat.CallEnd | stat.c:120-154 | the interim debits are refunded and the final debit made |
| Limits.RoundingIsDead | limits.c:61-67 | the rounding branch is taken for no number of a limit |
| Limits.RoundedUp | limits.c:66 | what it would debit: the duration and 5 seconds in minutes begun |
| Limits.CallStat.CallConnected | stat.c:55-71 | the call counts from here |

## Left out

- The PBX itself, ttys, threads as such, USB discovery, the command line, manager events and databases: plumbing around the modelled parts.
- Persistence of limits and flags in files: reading back what was written is taken as identity.
- Asterisk's saturating addition is not in this repository: `SaturatedAdd` assumes that it clamps at both ends of 16 bits, the lower one included. Buffers are counted in samples.
- UCS-2 text: recoding is an external library's; messages are of 7-bit characters.
- CharConv.CharToHexstr7bit: characters from 0x80 on are not modelled, because the caller picks this code only for 7-bit text; the buffer must have room for the octet the size check leaves out.
- CharConv.Hexstr7bitToChar: what sscanf makes of two characters that are not both hexadecimal digits is a parameter.
- Pdu.BuildPdu: numbers longer than a length byte can say (255 digits, 508 for the center) are not modelled.
- Pdu.ParseNumber: the characters it writes are a value; the room asked for is one short when an international number is read.
- pdu_parse as a whole (it reads SMS-DELIVER), the user data header and the validity period: the field parsers are modelled, not their sequence there.
- AtRead.ReadInto: errors of the read itself are not modelled; what was read is a parameter.
- AtRead.ReportAll: contents that reach a multi-line response or "+CDS:" are outside its contract; single multi-line results are in `AtMultiline`, when their end does not stand across the wrap.
- AtFraming.EveryResultReported: echoes, multi-line results and +CSSI notices with more than one character behind the colon (of which the framer leaves the rest of the line) are not among the items.
- AtRead.OnReadable: the searches behind "+CDS:" and the multi-line responses are answered by a parameter and by the comparison as it is made; nothing is stated about the reports once such a result stands in front.
- rb_read, rb_read_until_char_after_iov and the retry of partial audio writes are not modelled.
- AtQueues.EveryRunIsOrderly: tasks are values with a number in place of their address; timeouts of commands, the static flag and the bytes written by a write that fails half-way are not modelled.
- at_hangup_immediality (at_command.c:1205-1212, called at chan_dongle.c:284) writes to the line past the queue, while a command may be outstanding: it is no move of `EveryRunIsOrderly`, whose "one outstanding" is about commands of the queue.
- Devices.Device.Disconnect: that write for each call is left out.
- AtQueueStates.AtQueue.ResponseOk: of the response handlers only what they do to the queue is modelled here; the flags that bear on calls, messages and restart are in `Devices.Device`, the others are left out.
- Devices.Device.ChangeChannelState: audio attachment, channel events and call statistics are left out.
- Devices.Device.Orig: the commands it queues afterwards are separate `Enqueue` steps.
- The tail of the +CLCC handler after its loop cannot be reached.
- Claims.AtMostOneSetup: steps that disconnect or connect the device, and callers that set and clear selectbusy without testing it, are not among the moves.
- Restart.PendingUse: reconfiguration and reload, which test the time of the request before it is replaced, are not among the steps.
- Select.SelectDevice: device attributes are read once; what `can_dial` and the lock say at each try is a parameter; the time since the last call, weighed in floating point, is a given integer.
- Parsing of the dial string and the call statistics of a selected device are left out.
- Select.Selection.Found: the write of selectbusy is the claim of `Claims` and `Device.Claim`; the call statistics of the device are left out.
- Select.Selection.Diff: the weighing of the time since the last call in floating point is a parameter.
- Limits.Rounded: computed in whole numbers, where the source goes through float.
- Limits.CallCosts: one limit number for the whole call; other writers of the limit files are not modelled.
- The DSP, the unfinished `reader/`, the old copies and the hub tool are left out.

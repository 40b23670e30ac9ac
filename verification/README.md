# Verified models of the gateways' stateful code

Three gateways and SDKs keep their real state in a handful of C data structures and state machines. This
project models seven of them in Dafny and proves what they keep over every call, or every run of calls:

- a **ring buffer in one file** (`modbus/src/ringbufi.c`): variable-length records behind a 40-byte header,
  with wrap-around, a moving end-of-data mark and drop-oldest on overflow;
- the **MQTT sender** (`modbus/src/mqttsender.c`): a binary codec and three queues (sending list, file ring,
  incoming list) between the callers and one worker, publishing at QoS 1 (section 4.3.2 of MQTT 3.1.1);
- the **BACnet address cache** (`bacnet/bacnet-stack/src/address.c`): 255 slots with flags, time to live,
  static entries, pending binds and two-pass eviction (I-Am binding, clause 16.10 of ANSI/ASHRAE 135);
- the **BACnet device machine** (`bacnet/gateway/baclib.c`, `bacnet/gateway/business.c`): subscribe and cancel
  passes resumed reply by reply (SubscribeCOV and SubscribeCOVProperty, clauses 13.14 and 13.15 of
  ANSI/ASHRAE 135), the linked request queue, read batching and the invoke-ID table;
- the **in-flight table** of the device shadow client (`device-management/lib/device_management.c`);
- the **polling scheduler** (`modbus/src/business.c`);
- the **in-memory message ring** and its drain loop (`bacnet/gateway/mqttutil.c`).

The source updates its state in place, so each structure appears twice: as a class (or methods over arrays)
whose loops and assignments follow the C code, and as a function on values that every method is proved equal
to. The properties are lemmas about those functions.

| files | content |
|---|---|
| `Wrappers`, `Counting` | optional values, and how often a value stands in a sequence |
| `Bytes`, `Frames` | 8-byte little-endian words, file writes, length-prefixed records and their parsing |
| `Ring`, `RingProofs`, `RingPut`, `RingPop`, `RingReopen` | the ring as functions; put and pop from every well-formed layout, with exact conditions; reopening |
| `RingLayout`, `CodecLayout` | where the bytes of a file and of a message lie, and how long the file is |
| `RingFifo`, `RingFaults`, `RingDisorder` | runs with records of one size; runs from a new file that reach each fault; a record given up that comes back |
| `RingFile` | the ring as a class |
| `Codec`, `CodecBuffers` | the message codec, as functions and on buffers |
| `Subsequences`, `Pipeline`, `Passes`, `Attempts`, `Outages`, `PipelineFaults`, `OrderFaults`, `Sender` | the queues as a machine, the worker's passes, their progress and what an attempt decides, runs that break the file and the order, and the worker's loop proved to be such passes |
| `AddressTable`, `AddressRestart`, `AddressCache` | the address cache as a function of its slots; restarts and times to live; as loops over an array |
| `CovPass`, `CancelPass`, `Reconfiguration`, `Refusals`, `CovDevice` | the passes over a device's objects; what a change of configuration sends; what objects have turned down, over every run; the device as a class |
| `RequestQueue`, `ReadBatches`, `InvokeIds` | request list (heap nodes), batches, invoke-ID table |
| `InFlight`, `InFlightOutcomes`, `Scheduler`, `MessageRing` | the remaining protocols |

## What turned out false of the code

The code is modelled as it is. Where a natural property fails, a lemma gives an input that shows it and another
proves the exact condition under which the property holds.

- `putRingBuFiRecord` does not always leave a readable queue. The branch at lines 164-171 neither moves `next`
  back nor subtracts the records it gives up, and the wrap at 111-126 runs past the last record when the mark is
  stale. The file stays a queue if and only if `PutSafe` (`RingPut.PutCorrect`); both branches are reached from a
  new file (`RingFaults.TailBranchIsReached`, `RingFaults.StaleWrapIsReached`).
- `popRingBuFiRecord` reads the length through an `int`. It removes exactly the oldest record if and only if
  `PopSafe` (`RingPop.PopCorrect`), which always holds when the limit is below 2^31, as `new_mqtt_sender` makes it
  from any cache size that is not negative (`RingPop.SmallLimitPops`); two puts on a larger new file reach a pop
  that does not (`RingFaults.PopFaultIsReached`).
- `peekRingBuFiRecord` treats an exactly full wrapped file as empty (`RingPop.PeekIsOldest`,
  `RingFifo.PeekInRun`); four puts reach one (`RingFaults.PeekMissIsReached`).
- A limit below 40 passes the size guard because the subtraction wraps; a first put stays within the limit if and
  only if the limit is at least 40 (`RingFaults.FirstPutWithinLimit`).
- `retain` is not restored: line 254 parses as `(*(char*)data) + idx++`. The exact condition is
  `Codec.RestoredExactly`, a message that comes back changed is in `Codec.RetainLost`.
- The sender's file does not always stay a queue. It does so over a run if and only if every put is safe
  (`Pipeline.GoodExactly`), which every lossless run guarantees (`Pipeline.LosslessRunIsSafe`). A broker that is
  away while seven messages come in leads to a put that is not safe (`PipelineFaults.UnsafeSaveIsReached`); right
  after that put the file is no queue, and order still holds.
- The sender does not always keep order. It does while puts are safe (`Pipeline.OrderAndConservation`). Once the
  record of the put just named has been taken from the file, `next` lies beyond the limit, the `size_t` difference
  at line 153 of `ringbufi.c` wraps, and the next put moves the head back to the start of the data: a message that had been
  given up is sent after one accepted later (`OrderFaults.OrderFails`, `RingDisorder.OrderIsLost`; with eight
  messages, no two alike, in `OrderFaults.OrderFailsInFact`). A safe put is enough for order and not necessary.
- The due loop of the scheduler need not end. With a clock that does not go back it ends if and only if the clock
  gets to where every due policy at the front would be put back for later (`Scheduler.EndsExactly`); so with a
  clock that keeps advancing it always ends, whatever the intervals (`Scheduler.EndsWhenAdvancing`), but a policy
  with an interval below one second may be run many times, and while the clock stands the loop goes on
  (`Scheduler.EndsWhenRepeating`, shown by `Scheduler.ZeroIntervalLoops`). Each due policy at the front is run
  exactly once if and only if each is put back for later at its turn (`Scheduler.RunsOnceExactly`). On a list out
  of order the loop can leave due policies behind (`Scheduler.LeavesNothingDue`, shown by
  `Scheduler.DueLeftBehind`). Loading prepends policies unsorted (`modbus/src/business.c`, lines 277-287).
- The in-memory ring of the BACnet gateway does not keep the order of messages. `send_data` sends the new message
  before it drains those that wait, so a new message overtakes whenever something waits and the broker takes it;
  and a message that fails while the ring is drained goes behind all the others (`MessageRing.DrainRotates`).
  Order is kept over a run if and only if every message that goes out at once meets an empty ring and every one
  that waits finds room (`MessageRing.OrderExactly`); two calls show the opposite (`MessageRing.SecondGoesFirst`).
  Nothing is lost but what a full ring overwrites (`MessageRing.RunConserves`).

Code and comments disagree in places, and the code is followed: `ringbufi.h` speaks of two files and of peek and
pop returning 0 or -1; `mqttutil.c` speaks of 2048 cached messages where the constant is 10240; `address.c`
never sets the short-time flag its branches test; `isKnownBadBroker` compares the password the wrong way round
(line 440), so its verdict is taken as given.

## Model

| member | source | states |
|---|---|---|
| Ring.ShapeContents | modbus/src/ringbufi.c:83-194 | the words and bytes of a well-formed file determine one queue: any records that tile it are the ones read back |
| RingProofs.StampKeeps | modbus/src/ringbufi.c:48-58 | writing the header changes no record and makes the file agree with the words in memory |
| RingProofs.ReopenRestores | modbus/src/ringbufi.c:37-44 | reopening a well-formed file gives back all five words, whatever limit is passed in |
| RingProofs.FreshFileIsEmpty | modbus/src/ringbufi.c:21-36 | a newly created file is empty, and a well-formed queue exactly when its limit holds the header |
| RingProofs.EraseCuts | modbus/src/ringbufi.c:70-81 | the erase loop drops exactly the fewest oldest records that free enough bytes, or all of them |
| RingProofs.TruncateKeeps | modbus/src/ringbufi.c:104-108 | the truncation after a first record cuts no live byte |
| RingProofs.PutFirstDone | modbus/src/ringbufi.c:93-109 | a put into an empty file leaves exactly that record, whether or not the truncation succeeds |
| RingProofs.PutAtStart | modbus/src/ringbufi.c:110-126 | a wrap under a usable mark drops the fewest oldest records and appends the new one |
| RingProofs.PutAtEnd | modbus/src/ringbufi.c:127-136 | a put at the end drops nothing and appends |
| RingProofs.PutOverOldest | modbus/src/ringbufi.c:140-152 | a put between `next` and the mark drops the fewest oldest records and appends |
| RingProofs.PutAfterNewest | modbus/src/ringbufi.c:153-160 | a put past the mark drops every record before it and appends |
| RingProofs.PutOverEverything | modbus/src/ringbufi.c:172-190 | a put that fits nowhere else replaces everything |
| RingProofs.PutAppends | modbus/src/ringbufi.c:83-194 | from any well-formed layout a safe put leaves a well-formed layout holding the queue minus its k oldest records plus the new one, with k the least number that makes room |
| RingPut.StaleWrapErases | modbus/src/ringbufi.c:70-81 | under a stale mark the erase loop runs past the last record and the count wraps below zero |
| RingPut.StaleWrapCounts | modbus/src/ringbufi.c:111-126 | after such a wrap the words claim something other than the one record that is readable |
| RingPut.TailBranchOverruns | modbus/src/ringbufi.c:161-190 | the tail branch writes past the limit and keeps counting the records it gave up |
| RingPut.PutBreaks | modbus/src/ringbufi.c:83-194 | every put that is not safe leaves a file that is no queue |
| RingPut.PutCorrect | modbus/src/ringbufi.c:83-194 | a put is refused without any change, or it rotates the queue, and it leaves a well-formed file if and only if it is safe |
| RingPut.GapDropsNothing | modbus/src/ringbufi.c:110-142 | nothing is dropped exactly when there is a gap already |
| RingPut.PutRotates | modbus/src/ringbufi.c:83-194 | a safe put in terms of the queue alone: `Q[k..] + [r]`, with k = 0 exactly when a gap fits |
| RingPop.PeekIsOldest | modbus/src/ringbufi.c:196-208 | peek hands out the oldest record exactly when there is one and `head != next` |
| RingPop.PopBreaksHere | modbus/src/ringbufi.c:215-221 | a pop whose length is mangled by the `int` cannot leave the rest of the queue |
| RingPop.PopCorrect | modbus/src/ringbufi.c:210-236 | pop leaves a well-formed file without its oldest record if and only if it is safe, and does nothing to an empty file |
| RingPop.SmallLimitPops | modbus/src/mqttsender.c:282-294 | with a limit below 2^31, which is what a cache size that is not negative gives, every pop is safe |
| RingReopen.StampThenOpen | modbus/src/ringbufi.c:37-58 | saving the header and opening the file are inverse for every value of the five words |
| RingReopen.RecordsSpareHeader | modbus/src/ringbufi.c:97-99 | no put, safe or not, in any file whose records go behind the header, writes over any of the 40 header bytes |
| RingReopen.StaysPastHeader | modbus/src/ringbufi.c:83-236 | every put and pop, from any such file, broken or not, leaves such a file |
| RingReopen.RunStaysPastHeader | modbus/src/ringbufi.c:12-236 | so does every run of puts and pops on a new file, with any limit and any records |
| RingReopen.ReopenAfter | modbus/src/ringbufi.c:37-44 | after any completed put or pop that kept the queue, reopening gives the same state |
| RingLayout.LowBytesFirst | modbus/src/ringbufi.c:48-58 | a word is eight bytes, the low byte first |
| RingLayout.HeaderLayout | modbus/src/ringbufi.c:48-58 | in every well-formed file the five words stand at 0, 8, 16, 24 and 32 in the order head, next, mark, count, limit |
| RingLayout.OldestAt | modbus/src/ringbufi.c:196-208 | the oldest record stands at `head`, behind its length |
| RingLayout.CountWraps | modbus/src/ringbufi.c:70-81 | the count wraps below zero and one increment brings it back |
| RingLayout.FirstPutSize | modbus/src/ringbufi.c:104-108 | a first record cuts the file right behind itself, if truncation works |
| RingLayout.LaterPutSize | modbus/src/ringbufi.c:110-190 | any other put never shortens the file, and lengthens it only to hold its own record |
| RingLayout.PopSize | modbus/src/ringbufi.c:222-233 | the pop of the last record cuts the file to its header and resets the words, if truncation works; no other pop changes the length |
| RingFifo.AlignedSafe | modbus/src/ringbufi.c:153-180 | with records of one size the branches at 153-180 cannot be reached and every put is safe |
| RingFifo.AlignedDrops | modbus/src/ringbufi.c:70-81 | with records of one size a put drops one record exactly when the file is at capacity, else none |
| RingFifo.AlignedPut | modbus/src/ringbufi.c:83-194 | one put keeps the slot layout and is one step of a drop-oldest queue |
| RingFifo.AlignedPop | modbus/src/ringbufi.c:210-236 | one pop keeps the slot layout and removes the oldest record |
| RingFifo.RunIsFifo | modbus/src/ringbufi.c:12-236 | every run of puts and pops with records of one size is a run of a first-in first-out queue of (limit - 40) / (8 + len) records, and `next`, the mark and the file stay within the limit |
| RingFifo.FullPeekMisses | modbus/src/ringbufi.c:196-199 | with records of one size peek misses a record exactly when the file is wrapped and at capacity |
| RingFifo.PeekInRun | modbus/src/ringbufi.c:196-199 | after any run with records of one size peek gives the queue's head, unless it is empty or the file is wrapped and at capacity |
| RingFaults.TailBranchIsReached | modbus/src/ringbufi.c:164-171 | in any file with room for three records, five puts of one size lead to a put of another size that takes the tail branch, whatever the records |
| RingFaults.StaleWrapIsReached | modbus/src/ringbufi.c:111-126 | in any such file four puts and two pops lead to a wrap under a stale mark, whatever the records |
| RingFaults.PeekMissIsReached | modbus/src/ringbufi.c:196-199 | in any such file four puts leave the last three records and a peek that sees none |
| RingFaults.PopFaultIsReached | modbus/src/ringbufi.c:215-221 | a record of two gigabytes or more and one behind it, put into a new file: the pop does not leave the second |
| RingFaults.FirstPutWithinLimit | modbus/src/ringbufi.c:87-103 | a limit below 40 is not refused, and a first put stays within the limit if and only if the limit is at least 40 |
| RingDisorder.TailPutLeavesOne | modbus/src/ringbufi.c:161-190 | right after the tail branch the words and bytes stand for the new record alone |
| RingDisorder.OrderIsLost | modbus/src/ringbufi.c:151-190 | after five puts of one size, one through the tail branch, a pop and one more put, peek gives first the newer record and then one that was given up for it |
| RingFile.RingBuFi.Create | modbus/src/ringbufi.c:20-36 | the constructor's file is the specification's, empty, and well-formed exactly when the limit holds the header |
| RingFile.RingBuFi.Reopen | modbus/src/ringbufi.c:37-44 | opening the file of any well-formed state gives that state |
| RingFile.RingBuFi.SaveMeta | modbus/src/ringbufi.c:48-58 | five writes of a word make up the header |
| RingFile.RingBuFi.EraseEnoughSpaceOrEof | modbus/src/ringbufi.c:70-81 | the loop computes the specification's head, count and freed bytes |
| RingFile.RingBuFi.Put | modbus/src/ringbufi.c:83-194 | the new state and return value on any file at all; on a well-formed one refused and unchanged, or the queue rotated, and well-formed exactly when safe |
| RingFile.RingBuFi.MakeRoom | modbus/src/ringbufi.c:140-181 | the five ways of making room, as in the specification, on any file, `next` beyond the limit included |
| RingFile.RingBuFi.Peek | modbus/src/ringbufi.c:196-208 | the oldest record, when there is one and `head != next` |
| RingFile.RingBuFi.Pop | modbus/src/ringbufi.c:210-236 | the new state on any file; on a well-formed one the oldest record is gone if and only if the pop is safe |
| Codec.SerializeFits | modbus/src/mqttsender.c:93-114 | the bytes written are as many as `messageLen` says |
| Codec.RoundTrip | modbus/src/mqttsender.c:149-278 | deserializing the serialized bytes followed by anything gives exactly the message, up to the retain flag, the empty payload and path, and lengths beyond an `int` |
| Codec.RestoredExactly | modbus/src/mqttsender.c:216-278 | a message comes back unchanged, up to empty becoming NULL, if and only if its lengths fit an `int` and its retain flag is the value line 254 computes |
| Codec.RetainLost | modbus/src/mqttsender.c:253-254 | four empty strings with the flag cleared come back with the flag 32 |
| CodecLayout.FieldsInOrder | modbus/src/mqttsender.c:149-214 | endpoint, user, password, topic, retain byte, payload and certificate path lie in this order, each string behind its length, and nothing else |
| CodecBuffers.SerializeMsg | modbus/src/mqttsender.c:149-214 | the buffer filled at a moving index is the specification's, and the index ends at its length |
| CodecBuffers.DeserializeMsg | modbus/src/mqttsender.c:216-278 | reading at a moving index gives the specification's result for every buffer, `OutOfBounds` exactly where the source would read past the end |
| Pipeline.SeenSerialized | modbus/src/mqttsender.c:149-278 | a message that went through the file differs only in what the comparison leaves out |
| Pipeline.StepKeeps | modbus/src/mqttsender.c:483-649 | each safe event keeps order, brings nothing back, and loses nothing exactly when it is lossless |
| Pipeline.LosslessIsSafe | modbus/src/mqttsender.c:491-503 | an event that loses nothing makes no unsafe put |
| Pipeline.StepGoodExactly | modbus/src/mqttsender.c:483-649 | from good queues, an event leaves the file a queue if and only if its put, if it makes one, is safe; order is then kept as well |
| Pipeline.GoodExactly | modbus/src/mqttsender.c:483-716 | over every run from good queues the file is a queue before and after every event if and only if every put is safe; order is then kept all along |
| Pipeline.LosslessRunIsSafe | modbus/src/mqttsender.c:483-716 | a run that loses nothing makes no unsafe put |
| Pipeline.RunKeeps | modbus/src/mqttsender.c:483-716 | order and the count of lost messages over every interleaving from any good state, while puts are safe |
| Pipeline.OrderAndConservation | modbus/src/mqttsender.c:483-716 | from any queue file: while puts are safe, sent, sending, file, list being written and incoming are together an in-order part of what the file held and what was accepted since; all of it, with every put safe, if and only if no overflow, oversize message, full-ring peek or bad-broker discard occurred |
| Pipeline.SentInOrder | modbus/src/mqttsender.c:516-651 | without such an event what was sent is a prefix of what the file held and what was accepted since |
| PipelineFaults.UnsafeSaveIsReached | modbus/src/mqttsender.c:525-563 | from a new file, with the broker out of reach, six messages of one length and a longer one, handed in and flushed, lead through safe puts to one that is not safe; after it the file is no queue and order still holds |
| Outages.OutageWaits | modbus/src/mqttsender.c:525-651 | after a pass without a connection, any further calls and another such pass, the first message is being sent and all the others were put into the file in order |
| OrderFaults.OrderFails | modbus/src/mqttsender.c:525-651 | six messages of one length and a longer one, handed in while the broker is away for the first six, then confirmed passes and one more message: what is sent is the first, the longer one and the fifth, which is no in-order part of what was accepted |
| OrderFaults.OrderFailsInFact | modbus/src/mqttsender.c:525-651 | eight messages, no two alike, in a file of 214 bytes, for which this happens |
| Passes.RefillLeaves | modbus/src/mqttsender.c:527-563 | the three outcomes of a refill, in terms of the whole queues and all puts |
| Passes.PassProgresses | modbus/src/mqttsender.c:525-651 | with safe puts a confirmed pass leaves strictly less to send, sends at most one message, and loses nothing exactly when its refill loses nothing |
| Passes.PassSendsOne | modbus/src/mqttsender.c:525-651 | a confirmed pass that loses nothing sends exactly one message while there is any |
| Passes.DrainSendsAll | modbus/src/mqttsender.c:525-651 | with safe puts, as many confirmed passes as there are messages leave all queues empty; everything accepted was then sent, in order, if and only if nothing was missing before and no pass lost a message |
| Attempts.PublishExactly | modbus/src/mqttsender.c:569-648 | `sent` grows, by the head, exactly on a confirmed attempt; the head leaves exactly on a confirmed attempt or a broker known to be bad; nothing else changes |
| Attempts.OnlyConfirmedSends | modbus/src/mqttsender.c:525-651 | over any calls and passes what was sent stays sent, and at most one message is sent for each confirmed attempt; without one none is |
| Attempts.FailuresKeepHead | modbus/src/mqttsender.c:586-648 | however often attempts fail for want of a connection, at the publish call or unconfirmed, the sending list stays as it is |
| Attempts.RetriedUntilConfirmed | modbus/src/mqttsender.c:632-638 | and the next confirmed attempt sends exactly the message that stood at its head |
| Attempts.KnownBadLosesHead | modbus/src/mqttsender.c:572-580 | a broker known to be bad costs exactly the head, which is not counted as sent |
| Sender.MqttSender.MqttSend | modbus/src/mqttsender.c:655-716 | a call appends to the incoming list and keeps the queues good |
| Sender.MqttSender.FlushIncomingQueueToFile | modbus/src/mqttsender.c:483-505 | detaching and writing the list is a run of the machine, on any file, whether or not its puts are safe |
| Sender.MqttSender.Refill | modbus/src/mqttsender.c:527-563 | the refill is one of `Passes`, on any file, and keeps the queues good when its puts are safe |
| Sender.MqttSender.PublishHead | modbus/src/mqttsender.c:571-648 | how the attempt ends decides what becomes of the head, as one event of the machine, and keeps the queues good |
| Sender.MqttSender.WorkerPass | modbus/src/mqttsender.c:525-651 | one pass of the worker's loop is one of `Passes`, on any file, and keeps the queues good when its puts are safe |
| AddressTable.Oldest | bacnet/bacnet-stack/src/address.c:145-161 | the candidate of a pass: some slot of the kind that can expire, none of them with less time to live, and none after it with as little; no candidate exactly when none can expire |
| AddressTable.VictimChoice | bacnet/bacnet-stack/src/address.c:138-190 | the slot given up has the least time to live of all bound ones, or of the pending ones when no bound one can expire; never a static one |
| AddressTable.AddRefines | bacnet/bacnet-stack/src/address.c:399-468 | an add binds the device to the new value, loses at most one other device, and is refused exactly when every slot is another device's for good |
| AddressTable.BindRequestRefines | bacnet/bacnet-stack/src/address.c:472-523 | a request for an unknown device leaves it pending, at the cost of at most one device; for a known one nothing changes |
| AddressTable.AddBindingRefines | bacnet/bacnet-stack/src/address.c:526-552 | a binding is recorded for a device that has a slot and ignored otherwise; no other device is touched |
| AddressTable.MeetBinds | bacnet/gateway/baclib.c:823-827 | a device announcing itself is then found at its address, unless one was bound already or no slot can be had |
| AddressTable.SetTtlRefines | bacnet/bacnet-stack/src/address.c:319-345 | time to live and the static mark change no binding |
| AddressTable.RemoveRefines | bacnet/bacnet-stack/src/address.c:111-127 | a removal forgets exactly that device |
| AddressTable.TimerKeeps | bacnet/bacnet-stack/src/address.c:820-837 | the timer keeps the table's invariant |
| AddressTable.InitPartialKeeps | bacnet/bacnet-stack/src/address.c:287-309 | a partial restart, with any address file, keeps the table's invariant |
| AddressTable.InitIsGood | bacnet/bacnet-stack/src/address.c:264-276 | a full restart, with any address file, establishes it whatever was in the slots |
| AddressTable.ListedIsStatic | bacnet/bacnet-stack/src/address.c:247-248 | a device listed in the file that finds a slot is bound to its address and static |
| AddressTable.RunKeeps | bacnet/bacnet-stack/src/address.c:111-552 | every run keeps device ids distinct, flags to four combinations, and static entries at 0xFFFFFFFF |
| AddressTable.RunFromClear | bacnet/bacnet-stack/src/address.c:111-552 | the same for every run from the all-clear static array |
| AddressTable.StaticSurvives | bacnet/bacnet-stack/src/address.c:138-190 | a static entry stays found through every run, partial restarts included, that neither removes it nor makes it non-static nor restarts in full |
| AddressTable.TicksExpire | bacnet/bacnet-stack/src/address.c:820-837 | under ticks alone a non-static entry stays exactly while their sum does not exceed its time, and keeps the difference |
| AddressRestart.InitPartialExactly | bacnet/bacnet-stack/src/address.c:287-309 | without an address file a partial restart keeps exactly the bindings whose time is not 0, each in its slot with its time and static mark |
| AddressRestart.InitForgets | bacnet/bacnet-stack/src/address.c:264-276 | a full restart without an address file knows no device |
| AddressRestart.UnlistedKept | bacnet/bacnet-stack/src/address.c:210-260 | while the lines are read, a device in none of them keeps its binding exactly as long as no line takes its slot |
| AddressRestart.LastLineCounts | bacnet/bacnet-stack/src/address.c:210-260 | a listed device is static at the address of its last line, unless every slot was taken for good when that line was read; then it is not found |
| AddressRestart.RestartKeepsUnlisted | bacnet/bacnet-stack/src/address.c:287-309 | the two together, for a partial restart with any address file and a device in none of its lines |
| AddressRestart.RestartLoadsListed | bacnet/bacnet-stack/src/address.c:287-309 | and for a device that is listed |
| AddressRestart.AddTimes | bacnet/bacnet-stack/src/address.c:399-468 | an added address lasts an hour for a new device, a day for a known or awaited one, for ever for a static one |
| AddressRestart.RenewalTimes | bacnet/bacnet-stack/src/address.c:414-434 | in any table, what a renewal writes to the slot of a known device, for every combination of flags |
| AddressRestart.BindTimes | bacnet/bacnet-stack/src/address.c:472-523 | a device that is looked for is awaited for an hour |
| AddressRestart.RequestTimes | bacnet/bacnet-stack/src/address.c:480-494 | in any table, a request for a known device changes only a bound one with a short time, which gets a day |
| AddressRestart.AddBindingTimes | bacnet/bacnet-stack/src/address.c:526-552 | a recorded binding lasts a day, or for ever on a static entry |
| AddressRestart.SetTtlTimes | bacnet/bacnet-stack/src/address.c:319-345 | a bound entry becomes static for ever or lasts the time given; an awaited one only gets the time |
| AddressCache.Cache.OldestOf | bacnet/bacnet-stack/src/address.c:145-161 | one pass of the loop finds the last slot with the least time to live |
| AddressCache.Cache.RemoveOldest | bacnet/bacnet-stack/src/address.c:138-190 | the two passes pick the specification's victim and reserve only its slot |
| AddressCache.Cache.AddressAdd | bacnet/bacnet-stack/src/address.c:399-468 | the array afterwards is the specification's table |
| AddressCache.Cache.AddressBindRequest | bacnet/bacnet-stack/src/address.c:472-523 | the same, and the binding reported is the one found |
| AddressCache.Cache.AddressAddBinding | bacnet/bacnet-stack/src/address.c:526-552 | the array afterwards is the specification's table |
| AddressCache.Cache.AddressSetDeviceTtl | bacnet/bacnet-stack/src/address.c:319-345 | the array afterwards is the specification's table |
| AddressCache.Cache.AddressRemoveDevice | bacnet/bacnet-stack/src/address.c:111-127 | the array afterwards is the specification's table |
| AddressCache.Cache.AddressGetByDevice | bacnet/bacnet-stack/src/address.c:348-371 | the binding found is the specification's |
| AddressCache.Cache.AddressCacheTimer | bacnet/bacnet-stack/src/address.c:820-837 | the array afterwards is the specification's table |
| AddressCache.Cache.AddressFileInit | bacnet/bacnet-stack/src/address.c:218-250 | adding and marking line by line gives the specification's table |
| AddressCache.Cache.AddressInit | bacnet/bacnet-stack/src/address.c:264-276 | the array afterwards is the specification's table |
| AddressCache.Cache.AddressInitPartial | bacnet/bacnet-stack/src/address.c:287-309 | the array afterwards is the specification's table |
| CovPass.PlacesExact | bacnet/gateway/baclib.c:114-133 | the places a pass has to deal with are exactly those of the objects that satisfy its test, each once and in list order |
| CovPass.SubscribeStep | bacnet/gateway/baclib.c:93-145 | one call asks the next object that wants it, or ends the pass in the main loop with no object left asking |
| CovPass.SubscribeRun | bacnet/gateway/baclib.c:408-446 | any mix of replies carries the pass over the remaining objects, once each, in list order |
| CovPass.SubscribePass | bacnet/gateway/baclib.c:93-145 | a whole pass sends one request to exactly the objects that asked and had not turned the kind down, and ends after as many replies |
| CovPass.RunIsLoop | bacnet/gateway/baclib.c:408-446 | the pass resumed reply by reply leaves the objects as a plain loop that waits for each reply would |
| CovPass.PassIsLoop | bacnet/gateway/baclib.c:870-874 | the same for a whole pass |
| Refusals.FromTheFirstPass | bacnet/gateway/baclib.c:405-446 | over every run of replies, changes of configuration and marks, in any order: an object is given up exactly when it has turned down both forms of subscription, it remembers the one it has turned down, and it is never asked again for a form it has turned down |
| Refusals.RefusalsAreKept | bacnet/gateway/baclib.c:62-91 | the same from any state in which it holds |
| Refusals.AskedUnlessFailed | bacnet/gateway/baclib.c:112-133 | the pass after a change asks exactly the objects the change reaches that have not turned down this form |
| Refusals.PassSettles | bacnet/gateway/baclib.c:405-446 | the object whose reply is awaited ends subscribed with its memory unchanged if acknowledged, given up if it had turned down the other form, and else remembering this one; no later reply of the pass changes that |
| CancelPass.CancelRun | bacnet/gateway/baclib.c:147-203 | any replies carry the cancel phase over the remaining marked objects, one cancel of its kind each, in list order |
| CancelPass.CancelPhase | bacnet/gateway/baclib.c:147-222 | a whole phase sends exactly those cancels and then starts what follows |
| CancelPass.ResubscribePass | bacnet/gateway/baclib.c:147-222 | in the re-subscribing state every marked object is cancelled, then every asking one subscribed, and the device reaches the main loop |
| CancelPass.CancelOnlyPass | bacnet/gateway/baclib.c:205-221 | when subscriptions are switched off the marked objects are cancelled and the device goes back to work |
| CancelPass.AtMostTwice | bacnet/gateway/baclib.c:147-222 | a re-subscription costs at most two requests for each object |
| CancelPass.ChangeSettles | bacnet/gateway/business.c:558-614 | after any change of configuration the device is in the main loop once as many replies have come as requests were sent, at most two for each object |
| Reconfiguration.ChangeSends | bacnet/gateway/business.c:573-613 | whatever the replies, a change sends exactly these requests: an object cancel, a property cancel or a request to subscribe, each to exactly the objects the change calls for, cancels first, each once and in list order |
| Reconfiguration.ChangeQuiet | bacnet/gateway/business.c:568-572 | after any number of replies the device is either in the pass, disabled, or in the main loop, enabled |
| Reconfiguration.ChangeSpares | bacnet/gateway/business.c:575-576 | an object that has been given up is unchanged by every change and all replies |
| Reconfiguration.SwitchedOff | bacnet/gateway/business.c:603-606 | what becomes of every object when subscriptions are switched off |
| CovDevice.BacDevice.FindNext | bacnet/gateway/baclib.c:114-133 | the loop finds the first object that wants the subscription and settles those it passes |
| CovDevice.BacDevice.SubscribeIfNeed | bacnet/gateway/baclib.c:93-145 | the device afterwards is the specification's |
| CovDevice.BacDevice.CancelIfNeed | bacnet/gateway/baclib.c:147-222 | the device afterwards is the specification's |
| CovDevice.BacDevice.OnAck | bacnet/gateway/baclib.c:858-879 | an acknowledgement during a pass is the specification's reply |
| CovDevice.BacDevice.OnFailure | bacnet/gateway/baclib.c:408-451 | an error, abort, reject or timeout during a pass is the specification's reply |
| CovDevice.BacDevice.Reconfigure | bacnet/gateway/business.c:565-612 | the marking loop and the call behind it give the specification's device |
| RequestQueue.RunIsFifo | bacnet/gateway/baclib.c:1269-1525 | over any calls, what left in order followed by what waits is exactly what was enqueued |
| RequestQueue.SentInOrder | bacnet/gateway/baclib.c:1269-1525 | over any calls from the empty queue, what is sent is an in-order part of what was enqueued; unless the queue was cleaned, sent and waiting together are all of it |
| RequestQueue.SendExactly | bacnet/gateway/baclib.c:1407-1422 | one more request is sent exactly by an enabled send on a queue that is not empty, and it is the oldest |
| RequestQueue.DisabledKeeps | bacnet/gateway/baclib.c:1407-1422 | while the device is disabled nothing leaves its queue and every request waits in order |
| RequestQueue.LinkedConcat | bacnet/gateway/baclib.c:1278-1285 | pointing the last node at a disjoint chain makes one list of the two |
| RequestQueue.RequestList.AddRequest | bacnet/gateway/baclib.c:1269-1295 | a disjoint chain is appended and the tail is its last node, even though the tail is stale while the list is empty |
| RequestQueue.RequestList.SendNext | bacnet/gateway/baclib.c:1407-1422 | exactly the head is removed, and nothing while the device is disabled |
| RequestQueue.RequestList.CleanRequests | bacnet/gateway/baclib.c:1482-1525 | every node is freed once, front to back, and the list is empty |
| ReadBatches.BatchesPartition | bacnet/gateway/baclib.c:1336-1383 | each object to read is in exactly one batch, no batch exceeds fifty, and only the one built last may be short |
| ReadBatches.AsksAreExact | bacnet/gateway/baclib.c:1310-1334 | exactly the objects that ask and have not turned the kind down get one subscribe request |
| ReadBatches.SecondPassCatchesUp | bacnet/gateway/baclib.c:1313-1318 | a read flag outlives a pass exactly for the objects the early `continue` skips, and the next pass reads exactly those |
| ReadBatches.AsksSpelledOut | bacnet/gateway/baclib.c:1310-1334 | for each object, in terms of its own fields, whether it is asked and whether it is read |
| ReadBatches.AskedStopAsking | bacnet/gateway/baclib.c:1315-1342 | an object that asked no longer asks afterwards, nothing else about it changes, and a second pass asks nobody |
| ReadBatches.AddRequestIfNeed | bacnet/gateway/baclib.c:1297-1386 | the chain built and the objects afterwards are the specification's; a disabled device builds nothing |
| InvokeIds.HearKeeps | bacnet/gateway/baclib.c:779-856 | an I-Am, a notification or a read acknowledgement keeps every slot in use filled with a device carrying its number, instances distinct, and never uses fewer slots |
| InvokeIds.HearIsLru | bacnet/gateway/baclib.c:321-354 | the device given up for a new one was heard from no later than any that stays, whatever kind of message was heard |
| InvokeIds.RunIsLru | bacnet/gateway/baclib.c:321-368 | after any I-Ams, notifications and read acknowledgements in clock order the table holds every device that announced itself until it is full, and then those heard from most recently, each with its last time |
| InvokeIds.SlotsInUse | bacnet/gateway/baclib.c:343-354 | the slots in use are as many as the devices heard of, at most 255 |
| InvokeIds.DeviceTable.IsDeviceExist | bacnet/gateway/baclib.c:356-368 | the first slot holding the instance, if any |
| InvokeIds.DeviceTable.FreeInvokeId | bacnet/gateway/baclib.c:321-341 | the slot of the least recently heard device, the lowest on ties, is emptied and no other |
| InvokeIds.DeviceTable.OnIAm | bacnet/gateway/baclib.c:779-856 | the device table after an I-Am is the specification's |
| InvokeIds.DeviceTable.OnNotification | bacnet/gateway/baclib.c:737-748 | a COV notification refreshes the device it names, if it is in the table |
| InvokeIds.DeviceTable.OnReadAck | bacnet/gateway/baclib.c:682-689 | a read acknowledgement refreshes the device in its slot |
| InFlight.StepConserves | device-management/lib/device_management.c:576-784 | each step keeps, for every request, times taken in = times called back + slots holding it |
| InFlight.RunConserves | device-management/lib/device_management.c:576-784 | the same over any mix of requests, answers and sweeps |
| InFlight.AtMostOnce | device-management/lib/device_management.c:736-779 | if accepted ids differ but for case, no two callbacks are ever made for the same id (ids as in section 3 of RFC 4122) |
| InFlight.AnswerReaches | device-management/lib/device_management.c:742-779 | an answer naming a request in flight, in any case of letters, reaches that request; one naming none changes nothing |
| InFlight.RefusedWhenFull | device-management/lib/device_management.c:618-641 | after any run a request is refused exactly when a hundred accepted ones wait for their callback |
| InFlight.NoEarlyTimeouts | device-management/lib/device_management.c:581-593 | over any run nothing is reported as timed out while its time is not up; what is reported, and when, is `InFlightOutcomes.SweepExactly` |
| InFlight.SweepSettles | device-management/lib/device_management.c:576-598 | after a sweep every request whose time is up has had all its callbacks |
| InFlightOutcomes.SweepExactly | device-management/lib/device_management.c:576-598 | a sweep makes exactly one callback for each slot that is late, in slot order, as timed out and at the time of the sweep; it frees these slots and touches no other |
| InFlightOutcomes.RunExplains | device-management/lib/device_management.c:576-784 | over any run a callback says accepted or rejected only where an answer to its id did, and timed out only where a sweep came after its time |
| InFlightOutcomes.AddExactly | device-management/lib/device_management.c:618-641 | a request is kept with its id, callback, timeout and time in the first free slot, and a full table is unchanged |
| InFlightOutcomes.CallbacksAreRequested | device-management/lib/device_management.c:576-784 | over any run from a fresh table every callback carries what some request handed in: its id, callback, timeout and time |
| InFlightOutcomes.KeysAgree | device-management/lib/device_management.c:742-747 | two ids count as equal exactly when their first 37 characters are the same but for case |
| InFlight.InFlightTable.AddMessage | device-management/lib/device_management.c:618-641 | the table afterwards is the specification's, and the return code says whether it took the request |
| InFlight.InFlightTable.HandleResponse | device-management/lib/device_management.c:736-786 | the table afterwards is the specification's; one callback on a match, none otherwise |
| InFlight.InFlightTable.SweepOverdue | device-management/lib/device_management.c:576-598 | the callbacks made, in slot order, and the table afterwards are the specification's |
| Scheduler.RunsTheFront | modbus/src/business.c:601-613 | on any list and clock, if each due policy at the front is put back for later at its turn, the pass runs exactly these, each once, in order |
| Scheduler.RunsOnceExactly | modbus/src/business.c:604-613 | the loop is over after as many turns as there are due policies at the front if and only if each of them is put back for later at its turn |
| Scheduler.KeepsPolicies | modbus/src/business.c:545-551 | after such a pass the list holds what was not run, unchanged, and what was run with its next time from the clock, and nothing else |
| Scheduler.TurnExactly | modbus/src/business.c:294-314 | a policy that was run goes behind every one that runs earlier, its next time an interval after the clock |
| Scheduler.RunsOnlyDue | modbus/src/business.c:604-613 | on any list and clock the loop runs only policies whose time has come and stops only when the head has still to wait |
| Scheduler.RenewedTimes | modbus/src/business.c:545-551 | the next time of each policy that was run is its interval after the clock at its own execution |
| Scheduler.KeepsEach | modbus/src/business.c:545-551 | after any number of turns, on any list and any clock, every policy is there as often as before, with its interval |
| Scheduler.LeavesNothingDue | modbus/src/business.c:601-613 | nothing due remains if and only if no due policy stood behind one that was not |
| Scheduler.SortedPass | modbus/src/business.c:294-314 | on a list in order every due policy runs exactly once, soonest first, and the list ends in order with nothing due |
| Scheduler.LoopEnds | modbus/src/business.c:601-613 | when each due policy at the front is put back for later at its turn, as with intervals of a second and a clock that is not behind, the loop ends by itself having run the due front |
| Scheduler.EndsExactly | modbus/src/business.c:604-613 | with any clock that does not go back the loop ends if and only if at some execution the clock is at a time from which every policy of the due front would be put back for later |
| Scheduler.EndsWhenAdvancing | modbus/src/business.c:604-613 | with a clock that keeps advancing the loop ends on every list, whatever the intervals |
| Scheduler.EndsWhenRepeating | modbus/src/business.c:606-612 | while the clock stands the loop ends if and only if every due policy at the front has an interval of at least one second |
| Scheduler.ZeroIntervalLoops | modbus/src/business.c:606-612 | one due policy with interval 0: after any number of turns the loop is not over |
| Scheduler.DueLeftBehind | modbus/src/business.c:604-612 | a due policy behind one that is not due is not run |
| Scheduler.Worker.InsertSlavePolicy | modbus/src/business.c:294-314 | the policy is put before the first that does not run earlier |
| Scheduler.Worker.RunDue | modbus/src/business.c:604-613 | any number of turns of the loop, on any list and any clock, does what the specification says, and the loop ends having run the due front when each of its policies is put back for later |
| MessageRing.DrainRotates | bacnet/gateway/mqttutil.c:199-223 | after j messages taken and one turned down, buffer b is `b[j+1..] + [b[j]]` and `b[..j]` was sent; after all are taken it is empty |
| MessageRing.DrainConserves | bacnet/gateway/mqttutil.c:199-223 | the drain loop loses no message, however many are sent |
| MessageRing.SendExactly | bacnet/gateway/mqttutil.c:180-244 | one call in full: what waits, what was sent and what was overwritten after it, for every number of messages the broker takes |
| MessageRing.RunConserves | bacnet/gateway/mqttutil.c:180-244 | over any calls every message handed in was sent, waits, or was overwritten, once for each time |
| MessageRing.DropsOnlyWhenFull | bacnet/gateway/mqttutil.c:35-58 | a message is overwritten exactly when the ring holds 10240 and the new one cannot be sent, and it is the oldest |
| MessageRing.OrderExactly | bacnet/gateway/mqttutil.c:180-244 | over any calls with distinct messages, sent and waiting together are what was handed in, in that order, if and only if every message sent at once met an empty ring and every one that had to wait found room |
| MessageRing.CallKeepsOrder | bacnet/gateway/mqttutil.c:180-244 | the same for one call, by what can be seen before it |
| MessageRing.SecondGoesFirst | bacnet/gateway/mqttutil.c:195-223 | a message that waits and then one the broker takes: the second is sent first |
| MessageRing.MemoryRing.Put | bacnet/gateway/mqttutil.c:35-58 | the ring is a drop-oldest queue of 10240, and the return value says whether anything was overwritten |
| MessageRing.MemoryRing.Get | bacnet/gateway/mqttutil.c:60-71 | the oldest message leaves; an empty ring gives nothing and stays as it is |
| MessageRing.MemoryRing.Drain | bacnet/gateway/mqttutil.c:199-223 | the loop ends, with the ring and what was sent as in the specification |
| MessageRing.MemoryRing.SendData | bacnet/gateway/mqttutil.c:180-244 | one call is one step of the specification |

## Left out

- Sockets, MQTT, modbus and BACnet datalink calls, console input, logging and JSON: their results are parameters.
- Threads and mutexes: callers and worker interleave in steps that are atomic where the source holds the lock; the worker's unlocked reads of the incoming list count as atomic.
- Client list, bad-broker list and TLS set-up of the sender: whether a broker is known to be bad and whether a publish succeeded are outside verdicts.
- A crash in the middle of a put or pop: the record and the header are separate writes, so only completed operations are covered; `ftruncate` may fail, other file calls do not.
- Sums of offsets that pass 2^64 (`next` plus a length, or the head while the erase loop reads garbage lengths behind a stale mark): they are unbounded here, while differences wrap as `size_t` does; they are out of reach while the file is a queue.
- RingFile.RingBuFi.Pop: does not model the return value, because the source returns nothing on success.
- RingFile.RingBuFi.Peek: a record that reaches past the end of the file is cut short where the source would leave heap bytes undefined; it cannot happen in a well-formed file.
- Pipeline.OrderAndConservation: needs a ring limit below 2^31; a negative cache size, which the cast at line 294 of `mqttsender.c` turns into a limit near 2^64, is not covered. Order is proved while puts are safe, and its failure after an unsafe one by `OrderFaults.OrderFails`; which runs after an unsafe put still keep order is not determined.
- Sender.MqttSender.MqttSend: the walk to the end of the linked list is an append to a sequence.
- Codec.RoundTrip: a payload pointer that is NULL with a positive length, and a negative length, are not messages of the model.
- The linked lists of the sender are sequences; the request queue is the one list modelled with heap nodes.
- AddressCache.Cache.AddressFileInit: the parsing of the address file's text; the lines it can read are a parameter.
- `rr_address_list_encode`: its seek can stop on an unbound slot and its scan has no end bound.
- Replies while a device is outside a pass, late or duplicate read replies, and the read of the object list: only replies during a pass are events.
- CovDevice.BacDevice.OnAck: requires an outstanding object while subscribing, because the source dereferences it.
- InvokeIds.RunIsLru: needs events in clock order; without it `InvokeIds.HearKeeps` still holds. An acknowledgement under an invoke ID that was never handed out reads an uninitialised slot in the source and is ignored.
- Freeing of C memory, except that `RequestQueue` shows the dangling tail is never followed and each node is freed once.
- InFlight.AtMostOnce: callbacks are non-null, take no part in the table themselves, and ids contain no NUL character.
- Scheduler.Worker.ExecutePolicy: reading the modbus device and publishing inside `execute_policy`; only the next time and the position in the list are modelled.
- Codecs of `bacnet/bacnet-stack/src`, dispatch tables, enum texts, hex conversion and the slave-id list: easy members.

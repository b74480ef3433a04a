# Verified model of the Universal Robots client library

A Dafny model of the parts of the client library on which its communication with a robot
rests: the lock-free queue between producer and consumer threads, the semaphore and the
blocking queue built on it, the pipeline, the script template engine, the RTDE handshake and
writer, the wire formats, the socket server and the trajectory executor. `dafny verify
dfyconfig.toml` checks all of it.

- `Pow2`, `RingBlock`, `BlockChain`, `ReaderWriterQueue`: the single-producer,
  single-consumer queue. Each thread is a program counter that carries its locals; every atomic load
  and store is one step. The invariant describes the circle of ring buffers, which block
  each thread is in and what each thread may still assume while the other one moves.
- `LightweightSemaphore`, `BlockingQueue`, `Pipeline`: machines of the same kind stacked on
  the queue, one fetch-and-add per step, timeouts decided by the environment.
- `Conditionals`, `ScriptReader`: the line machine with its block stack against a recursive
  evaluation of the document, and the include mechanism against recursive inlining.
- `RtdeWriter`, `RefusedCalls`: the mutable package and its masks against a controller that
  applies masked outputs; a call is followed through its package onto the controller, also when
  the queue refuses packages.
- `RtdeClient`: the handshake as a class, driven by a robot that is an arbitrary function of
  the situation; the same methods also say what happens against a cooperative robot.
- `Wire`, `DataPackage`, `Stream`, `PrimaryParser`: bytes, buffers and cursors.
- `TcpServer`: the descriptor bookkeeping of the event loop with the reverse interface's
  callbacks.
- `InstructionExecutor`: one `executeMotion` against any number of callbacks and cancels.

Where the source changes state step by step the model has classes, arrays and loops; where
threads interleave it has one function per atomic step, so that a schedule is a sequence of
moves and every theorem about `Run` is about every schedule.

Several properties that the code or its documentation suggests do not hold as they stand. The
code is modelled as it is, and the exact condition is proved:

- `signal(0)` wakes a blocked waiter without giving it anything (`SignalKeeps`, `AlwaysIff`,
  `SignalZeroRun`).
- Includes are promised relative to the folder of the root script (script_reader.h:50), but an
  include that names a folder changes the folder that later includes are resolved in: reading is
  as documented if and only if no file opened but the last lies elsewhere (`ReadIsMeaning`,
  `FolderKeptIff`, `SubfolderLosesRoot`).
- Conditions are evaluated even in branches that are not rendered, so a broken one there
  still throws (`MachineMeansDocument`, `BrokenButUnreached`).
- A `send*` call refused by a full queue leaves its mask set and takes effect with a later
  call (`MasksZeroIff`, `RefusedRidesAlong`, `ReplayIsJourney`), and a call can return true without
  having sent anything (`TrueWithoutSending`, `SliderWithoutFraction`).
- `init` after an exception may report success without a handshake (`InitAgain`,
  `InitSucceedsAfterFailing`).
- Vector elements are written in host byte order (`VectorElementRestoredIff`,
  `VectorElementSwapped`), and the length in a data package header is right only if no name is
  listed twice and every field has a value (`AnnouncedIsWrittenIff`, `RepeatedName`,
  `MissingValue`).
- A length field that is smaller than the piece it arrived in, or that arrived in two pieces,
  misleads the stream reader (`Stream.Read`, `ReadOne`, `ReadAll`, with `SplitLengthField` and
  `SmallLengthField` as inputs).
- A cancel request that arrives before `executeMotion` has cleared the cancel flag is forgotten,
  and exactly those between the clearing and the final check end the call (`CancelForgotten`,
  `CancelEndsIff`).

## Model

| member | source | states |
|---|---|---|
| `Pow2.CeilToPow2` | include/ur_client_library/queue/readerwriterqueue.h:567-580 | for a word from 1 to 2^63 the result is a single bit, at least the argument and less than twice it, and the number it stands for is the least power of two at or above the argument's; for every other word it is 0 |
| `Pow2.CeilIsLeast` | include/ur_client_library/queue/readerwriterqueue.h:565-580 | such a result is at most every single-bit word that is at least the argument |
| `Pow2.MaskedStepIsModular` | include/ur_client_library/queue/readerwriterqueue.h:249 | stepping an index with the size mask is addition modulo the block size for every single-bit size |
| `Pow2.CeilIsLeastPower` | include/ur_client_library/queue/readerwriterqueue.h:567-580 | such a word stands for the least power of two on naturals, which is what the queue's sizes are |
| `Pow2.MaskedStepCounts` | include/ur_client_library/queue/readerwriterqueue.h:249 | the masked step of a word index is the step around the block of the natural index it stands for |
| `RingBlock.PublishAppends` | include/ur_client_library/queue/readerwriterqueue.h:471-481 | if the producer's shadow of the front index leaves room, there is room, and moving the tail appends the stored element to the block's content |
| `RingBlock.ReleaseRemovesOldest` | include/ur_client_library/queue/readerwriterqueue.h:238-252 | moving the front removes exactly the oldest element |
| `RingBlock.FullBlocksHold` | include/ur_client_library/queue/readerwriterqueue.h:91-97 | full blocks of at least a given size hold at least size minus one elements each |
| `BlockChain.PublishAtTail` | include/ur_client_library/queue/readerwriterqueue.h:472-482 | publishing in the tail block keeps the circle and appends one element to what the queue holds |
| `BlockChain.AdvanceTail` | include/ur_client_library/queue/readerwriterqueue.h:504-511 | making a filled next block the tail keeps the circle and appends its one element to what the queue holds |
| `BlockChain.LinkAhead` | include/ur_client_library/queue/readerwriterqueue.h:525-540 | linking a new block after the tail keeps the circle and what the queue holds, although the consumer may already see the link |
| `BlockChain.ReleaseAtFront` | include/ur_client_library/queue/readerwriterqueue.h:238-252 | releasing a slot of the front block removes the oldest element of the queue |
| `BlockChain.AdvanceFront` | include/ur_client_library/queue/readerwriterqueue.h:275-291 | leaving a drained front block keeps the circle and what the queue holds |
| `ReaderWriterQueue.MakeCircle` | include/ur_client_library/queue/readerwriterqueue.h:98-144 | the constructor's loop builds a closed circle of empty blocks of the given size |
| `ReaderWriterQueue.NewQueue` | include/ur_client_library/queue/readerwriterqueue.h:80-144 | the constructor reaches the initial state of every schedule below: one block, or the circle of maximal blocks |
| `ReaderWriterQueue.InitialSlots` | include/ur_client_library/queue/readerwriterqueue.h:88-144 | the block count formula leaves at least max_size slots even if one block, the front one, offers none |
| `ReaderWriterQueue.InitialTight` | include/ur_client_library/queue/readerwriterqueue.h:88-144 | with one block fewer it would not |
| `ReaderWriterQueue.ProducerKeeps` | include/ur_client_library/queue/readerwriterqueue.h:454-555 | every atomic step of an enqueue keeps the invariant, whatever the consumer has done between the steps |
| `ReaderWriterQueue.ConsumerKeeps` | include/ur_client_library/queue/readerwriterqueue.h:212-307 | every atomic step of a dequeue keeps the invariant, whatever the producer has done between the steps |
| `ReaderWriterQueue.EveryInterleaving` | include/ur_client_library/queue/readerwriterqueue.h:212-307 | for every schedule: dequeued elements followed by those held are the accepted ones in order; an enqueue fails only if max_size elements were held when it saw its block full; a dequeue fails only if nothing was held when it saw its block empty; the source's assertions hold; the threads never touch one slot at the same time |
| `ReaderWriterQueue.InvGivesAssertions` | include/ur_client_library/queue/readerwriterqueue.h:494-502 | the block the producer enters is empty and the block the consumer enters is not |
| `ReaderWriterQueue.TryEnqueueNeverGrows` | include/ur_client_library/queue/readerwriterqueue.h:177-190 | in every run of `tryEnqueue` calls the queue keeps the blocks it was built with and never holds more than their slots |
| `ReaderWriterQueue.EnqueueNeverRefused` | include/ur_client_library/queue/readerwriterqueue.h:193-206 | in every run of `enqueue` calls with memory available none is refused |
| `ReaderWriterQueue.ProducerSizes` | include/ur_client_library/queue/readerwriterqueue.h:516-523 | no step resizes a block, and a new block doubles the largest size until that has reached MAX_BLOCK_SIZE |
| `ReaderWriterQueue.BlocksArePowers` | include/ur_client_library/queue/readerwriterqueue.h:86-144 | in every reachable state every block's size is a power of two, MAX_BLOCK_SIZE being one |
| `ReaderWriterQueue.MaskedStepIsAfter` | include/ur_client_library/queue/readerwriterqueue.h:471 | on words, masking the next index is the index step that the queue's model takes |
| `ReaderWriterQueue.EnqueueReturns` | include/ur_client_library/queue/readerwriterqueue.h:454-555 | an enqueue is done after a bounded number of its own steps in every schedule |
| `ReaderWriterQueue.DequeueReturns` | include/ur_client_library/queue/readerwriterqueue.h:212-307 | a dequeue is done after a bounded number of its own steps in every schedule |
| `LightweightSemaphore.WaitKeeps` | include/ur_client_library/queue/atomicops.h:643-709 | every step of a wait, with or without timeout, keeps the balance of count, units signalled, units acquired and kernel tokens |
| `LightweightSemaphore.SignalKeeps` | include/ur_client_library/queue/atomicops.h:711-720 | a step of a signal keeps the balance exactly unless it adds nothing while a waiter is in debt |
| `LightweightSemaphore.SignalZeroWakes` | include/ur_client_library/queue/atomicops.h:711-720 | in that case a wait succeeds although nothing was signalled |
| `LightweightSemaphore.SignalZeroRun` | include/ur_client_library/queue/atomicops.h:643-720 | a schedule from the start that gets there, through the whole spin loop |
| `LightweightSemaphore.AlwaysIff` | include/ur_client_library/queue/atomicops.h:643-720 | the balance holds all along a schedule if and only if no step adds nothing while a waiter is in debt |
| `LightweightSemaphore.EveryInterleaving` | include/ur_client_library/queue/atomicops.h:643-722 | for every such schedule, timeouts included: count at least -1, at most one wake-up under way and none while nobody waits, no more successful waits than units, a wait fails only if every unit signalled by its restoring increment was acquired, no blocked waiter is missed |
| `LightweightSemaphore.PositiveIsHarmless` | include/ur_client_library/queue/atomicops.h:711-720 | schedules whose signals all add something are such schedules |
| `LightweightSemaphore.RepairEnds` | include/ur_client_library/queue/atomicops.h:669-682 | once no post is pending the repair loop ends within three steps, with false exactly if no unit is left |
| `LightweightSemaphore.TryWaitReturns` | include/ur_client_library/queue/atomicops.h:692-700 | `tryWait` returns within two steps of its own, whatever is signalled meanwhile |
| `LightweightSemaphore.TryWaitAnswers` | include/ur_client_library/queue/atomicops.h:692-700 | it takes a unit if its load saw one and returns false otherwise |
| `LightweightSemaphore.EndlessWaitNeverFails` | include/ur_client_library/queue/atomicops.h:702-706 | a wait without a timeout never comes back with false |
| `LightweightSemaphore.TimedWaitNeedsTimeout` | include/ur_client_library/queue/atomicops.h:643-682 | a timed wait comes back with false only after a timeout |
| `BlockingQueue.ProducerKeeps` | include/ur_client_library/queue/readerwriterqueue.h:704-751 | every step of enqueue-then-signal keeps the combined invariant |
| `BlockingQueue.ConsumerKeeps` | include/ur_client_library/queue/readerwriterqueue.h:756-799 | every step of wait-then-dequeue keeps the combined invariant |
| `BlockingQueue.EveryInterleaving` | include/ur_client_library/queue/readerwriterqueue.h:704-799 | elements held are units available plus enqueued-but-unsignalled plus acquired-but-not-dequeued, so the dequeue after a successful wait never fails |
| `Pipeline.NewPipeline` | include/ur_client_library/comm/pipeline.h:293-325 | queue, semaphore, producer and consumer in the initial state of every schedule below |
| `Pipeline.StepKeeps` | include/ur_client_library/comm/pipeline.h:421-475 | every step of the producer loop, the consumer loop and `getLatestProduct` keeps the accounts of products |
| `Pipeline.EveryProductAccounted` | include/ur_client_library/comm/pipeline.h:398-475 | every product is delivered, superseded, still queued or dropped by a refused enqueue, and deliveries keep production order |
| `Pipeline.DroppedOnlyWhenFull` | include/ur_client_library/comm/pipeline.h:421-450 | in every run a product is dropped only if the queue held its capacity when the enqueue found its block full |
| `Pipeline.LatestIsNewest` | include/ur_client_library/comm/pipeline.h:398-409 | a `getLatestProduct` call that drained something returns the newest product signalled when its drain saw the semaphore empty |
| `Pipeline.LatestNeverStale` | include/ur_client_library/comm/pipeline.h:398-409 | in every run, what a `getLatestProduct` call returns is never older than the newest product signalled when the call began |
| `Pipeline.ConsumerTakesNext` | include/ur_client_library/comm/pipeline.h:452-475 | a turn of the consumer loop delivers the oldest product not yet used and skips none |
| `Pipeline.NoTimeoutNoGivingUp` | include/ur_client_library/comm/pipeline.h:398-409 | a delivery that does not time out delivers something, and its drain never blocks |
| `Pipeline.QueueNeverGrows` | include/ur_client_library/comm/pipeline.h:421-450 | however long it runs, a pipeline keeps the blocks its queue was built with |
| `Pipeline.StoppedFetchesNothing` | include/ur_client_library/comm/pipeline.h:421-450 | after a stop nothing more is fetched |
| `Pipeline.FailureStops` | include/ur_client_library/comm/pipeline.h:432-438 | after a failed fetch nothing more is fetched |
| `Conditionals.ReplaceConditionals` | src/control/script_reader.cpp:232-307 | the loop over lines computes the line machine's result and joins the rendered lines with newlines, or throws where the machine does |
| `Conditionals.RunDoc` | src/control/script_reader.cpp:232-307 | in any context, the machine renders from a well-nested document exactly what recursive evaluation selects if the context renders, and restores the stack |
| `Conditionals.RunBranches` | src/control/script_reader.cpp:256-289 | the elif and else branches of a block render only if no earlier branch was taken |
| `Conditionals.MachineMeansDocument` | src/control/script_reader.cpp:232-307 | the machine on a document's lines gives recursive evaluation's lines, and throws exactly if a condition anywhere in the document is broken |
| `Conditionals.BrokenButUnreached` | src/control/script_reader.cpp:232-307 | a broken condition inside a branch that is not taken throws although nothing is selected |
| `Conditionals.RenderedIffTaken` | src/control/script_reader.cpp:232-307 | the lines selected are, in order, those whose every enclosing block chose the branch they are in |
| `ScriptReader.ReplaceVariables` | src/control/script_reader.cpp:184-230 | repeated replacement ends, substitutes every variable at once, and throws exactly if one is unknown |
| `ScriptReader.Reader.ReplaceIncludes` | src/control/script_reader.cpp:168-182 | whenever includes do not nest for ever, the replacement loop ends and equals the expansion of the includes in order, files opened and folder changes included |
| `ScriptReader.Reader.ReadScriptFile` | src/control/script_reader.cpp:136-146 | whenever includes do not nest for ever, reading a script returns the text, exception and files opened of its specification |
| `ScriptReader.ConditionalsCommute` | src/control/script_reader.cpp:136-146 | substituting before choosing branches is the same as choosing first |
| `ScriptReader.ReadIsMeaning` | src/control/script_reader.cpp:136-230 | for every library, reading equals the documented recursive in-order inlining of the rendered lines relative to the root script's folder (same text, exceptions and files opened, none from a branch that is not rendered) if and only if every file opened but the last lies in that folder |
| `ScriptReader.OneFolderIsMeaning` | src/control/script_reader.cpp:136-230 | if no include names a folder, reading is as documented and every file opened lies in the root script's folder |
| `ScriptReader.AcyclicEnds` | src/control/script_reader.cpp:136-182 | reading ends if ranks fall along the rendered includes, each looked up from the folders that can be remembered while its file is being read |
| `ScriptReader.MeaningEnds` | src/control/script_reader.cpp:136-182 | the documented inlining ends if ranks fall along the rendered includes looked up in the root folder |
| `ScriptReader.ReadDeeper` | src/control/script_reader.cpp:136-182 | a depth at which reading ends gives the same outcome as any greater one |
| `ScriptReader.MeaningDeeper` | src/control/script_reader.cpp:136-182 | the same for the documented inlining |
| `ScriptReader.FolderKeptIff` | src/control/script_reader.cpp:136-182 | after any expansion the remembered folder is the one before if and only if no file was opened or the last one opened lies there |
| `ScriptReader.SubfolderLosesRoot` | include/ur_client_library/control/script_reader.h:50 | a script that includes lib/a and then b, both present, is documented to give their text and throws |
| `ScriptReader.ReadMoves` | src/control/script_reader.cpp:168-182 | reading a script in a collection moved below another folder gives the same text and exceptions and opens the same files in their new places |
| `ScriptReader.MeaningMoves` | src/control/script_reader.cpp:168-182 | the same of the documented inlining |
| `ScriptReader.TwoIncludesMoved` | src/control/script_reader.cpp:168-182 | the script above in a folder res: documented to open res/lib/a and res/b, it opens res/lib/a and looks for res/lib/b |
| `RtdeWriter.Writer.SendSpeedSlider` | src/rtde/rtde_writer.cpp:66-93 | package, queue and answer after the call, out-of-range and NaN arguments, missing fields and a refused enqueue included |
| `RtdeWriter.Writer.SendDigitalOutput` | src/rtde/rtde_writer.cpp:95-205 | the same for standard, configurable and tool outputs |
| `RtdeWriter.Writer.SendAnalogOutput` | src/rtde/rtde_writer.cpp:207-248 | the same for analog outputs with their domain |
| `RtdeWriter.Writer.SendInputRegister` | src/rtde/rtde_writer.cpp:260-336 | the same for bit, integer and double registers |
| `RtdeWriter.OneBit` | src/rtde/rtde_writer.cpp:250-258 | the mask of a pin with all-ones or all-zeros sets or clears that one bit |
| `RtdeWriter.MaskIsPower` | src/rtde/rtde_writer.cpp:250-258 | the mask of pin n is 2 to the power n, and zero beyond the eighth pin |
| `RtdeWriter.DirectLights` | src/rtde/rtde_writer.cpp:95-205 | a digital call asks for the output with its pin's number in its group and for no other, in binary digits |
| `RtdeWriter.SentLights` | src/rtde/rtde_writer.cpp:95-205 | the package it sends switches exactly that digit of its group on the controller, whatever else the package holds |
| `RtdeWriter.DomainLeft` | src/rtde/rtde_writer.cpp:227-234 | the analog domain left in the package is bit 0 or 1 for a voltage, zero for a current, and unchanged if the teach pendant decides |
| `RtdeWriter.AcceptedArguments` | src/rtde/rtde_writer.cpp:66-336 | the ranges of pins, levels and register numbers that calls accept |
| `RtdeWriter.LoadedIsApplied` | src/rtde/rtde_writer.cpp:66-336 | a package loaded with a call does to the controller what the call asks, on top of what the other masks select |
| `RtdeWriter.SentExactly` | src/rtde/rtde_writer.cpp:66-336 | every package sent, from whatever package it started, does that |
| `RtdeWriter.CallKeeps` | src/rtde/rtde_writer.cpp:66-336 | after a call that was not refused the masks are zero, the registers are in step with the robot, and what was sent does what was asked |
| `RtdeWriter.ReplayIsDirect` | src/rtde/rtde_writer.cpp:66-336 | for every run without a refused enqueue and every recipe, replaying the queued packages gives the outputs, levels, slider and registers of applying the sending calls directly, with all masks zero in between |
| `RtdeWriter.MasksZeroIff` | src/rtde/rtde_writer.cpp:83-92 | the masks are zero after a call exactly if it was not a refused output call |
| `RtdeWriter.RefusedRidesAlong` | src/rtde/rtde_writer.cpp:85-88 | a refused call takes effect with the next package sent, unless that one's call uses the same mask |
| `RefusedCalls.ReplayIsJourney` | src/rtde/rtde_writer.cpp:66-336 | for every run with any pattern of refused packages, replaying the queue gives what the run amounts to when the latest refused call of each mask and all refused registers ride along with whatever is sent next |
| `RefusedCalls.TidyArrives` | src/rtde/rtde_writer.cpp:85-88 | the package does to the robot exactly what is waiting in it |
| `RefusedCalls.ArrivesAlone` | src/rtde/rtde_writer.cpp:66-336 | with nothing waiting, what arrives is the call itself |
| `RefusedCalls.SendAll` | src/rtde/rtde_writer.cpp:66-336 | a run of calls on the writer object is a run of the model |
| `RtdeWriter.TrueWithoutSending` | src/rtde/rtde_writer.cpp:80-92 | true is returned without sending exactly if the recipe lists the call's mask but not all its other fields |
| `RtdeWriter.SliderWithoutFraction` | src/rtde/rtde_writer.cpp:66-93 | a recipe with the slider's mask and without its fraction returns true and sends nothing |
| `RtdeClient.KeptNarrows` | src/rtde/rtde_client.cpp:330-347 | the narrowed recipe is a subsequence, strictly shorter exactly if something was NOT_FOUND |
| `RtdeClient.KeptExactly` | src/rtde/rtde_client.cpp:330-347 | a variable stays exactly if an occurrence of it was found |
| `RtdeClient.KeptIsAvailable` | src/rtde/rtde_client.cpp:360-368 | a robot with fixed availability finds everything in the recipe narrowed to its answer |
| `RtdeClient.Client.NegotiateProtocolVersion` | src/rtde/rtde_client.cpp:181-227 | returns the answer to its own request, disconnects exactly on a failed write or a timeout, throws after five other packages; parser at version 1 |
| `RtdeClient.Client.Negotiate` | src/rtde/rtde_client.cpp:125-137 | the version reached was accepted and every higher one declined |
| `RtdeClient.Client.SettleFrequency` | src/rtde/rtde_client.cpp:146-160 | accepts exactly frequencies from zero to the maximum, zero meaning the maximum |
| `RtdeClient.Client.SetupOutputs` | src/rtde/rtde_client.cpp:285-395 | every output acknowledged in answer to the recipe and frequency asked for, or disconnected with the recipe as it was, or narrowed to the acknowledged outputs and uninitialized, or thrown, each with its cause |
| `RtdeClient.Client.IsRobotBooted` | src/rtde/rtde_client.cpp:482-519 | the reading loop ends; a true answer means that two seconds' worth of data or a timestamp of forty seconds came in and the client is paused |
| `RtdeClient.Client.SendPause` | src/rtde/rtde_client.cpp:608-638 | an accepted answer pauses the client, an exception leaves its state |
| `RtdeClient.Client.SetupInputs` | src/rtde/rtde_client.cpp:397-462 | on success every input was acknowledged and the writer has the recipe id of that answer |
| `RtdeClient.Client.Disconnect` | src/rtde/rtde_client.cpp:464-480 | uninitialized afterwards unless pausing threw, which it cannot when not running |
| `RtdeClient.Client.SetupCommunication` | src/rtde/rtde_client.cpp:118-179 | a setup establishes everything, or leaves the client uninitialized, or throws; only a narrowing changes the recipe; against a cooperative robot which of these it is |
| `RtdeClient.Client.Init` | src/rtde/rtde_client.cpp:79-116 | for every robot: at most the allowed setups, then a throw, or true with the handshake established; recipes only shrink; against a cooperative robot with narrowing allowed, success within two setups |
| `RtdeClient.InitAgain` | src/rtde/rtde_client.cpp:87-90 | a second `init` after an exception reports success without a handshake exactly if the state was left past UNINITIALIZED, which an unknown output causes |
| `RtdeClient.InitSucceedsAfterFailing` | src/rtde/rtde_client.cpp:79-116 | with a robot that answers everything and has no outputs, `init` throws and the next `init` returns true in the middle of the setup |
| `Wire.ValueOfBigEndian` | include/ur_client_library/comm/bin_parser.h:120-143 | decoding the encoded bytes of a number gives the number |
| `Wire.BigEndianOfValue` | include/ur_client_library/comm/bin_parser.h:120-143 | encoding the value of bytes gives the bytes |
| `Wire.EncodedIsBigEndian` | include/ur_client_library/comm/package_serializer.h:107-130 | what `encode` lays out in memory is most significant byte first on hosts of either byte order |
| `Wire.VectorElementRestoredIff` | include/ur_client_library/comm/package_serializer.h:102-106 | a vector element survives exactly on a big-endian host or if its bytes read the same both ways |
| `Wire.VectorElementSwapped` | include/ur_client_library/comm/package_serializer.h:102-106 | the number one in a two-byte element comes back as 256 from a little-endian host |
| `Wire.Serialize` | include/ur_client_library/comm/package_serializer.h:55-80 | writes the bytes most significant first and leaves the rest of the buffer alone |
| `Wire.BinParser.Peek` | include/ur_client_library/comm/bin_parser.h:120-130 | throws exactly if too few bytes are left in the frame, otherwise the big-endian value |
| `Wire.BinParser.Parse` | include/ur_client_library/comm/bin_parser.h:138-143 | the same, and moves past the bytes |
| `DataPackage.ScalarRoundTrip` | include/ur_client_library/comm/bin_parser.h:138-182 | a scalar of each type is restored from its bytes, negative integers and booleans included |
| `DataPackage.KindsOnTheWire` | include/ur_client_library/comm/bin_parser.h:138-182 | one value of each kind and its bytes, most significant first |
| `DataPackage.PackageOnTheWire` | include/ur_client_library/rtde/rtde_parser.h:68-117 | a whole data package as a robot sends it, byte by byte |
| `DataPackage.PayloadIsRead` | src/rtde/data_package.cpp:582-602 | reading the recipe's fields from their bytes restores every value and leaves what follows |
| `DataPackage.AnnouncedIsWrittenIff` | src/rtde/data_package.cpp:616-635 | the header length equals the bytes written if and only if the recipe lists no name twice, every name of it has a value and the package is below 65536 bytes, in whatever order the map is walked |
| `DataPackage.RepeatedName` | src/rtde/data_package.cpp:618-632 | a recipe that lists a flag twice announces five bytes and writes six |
| `DataPackage.MissingValue` | src/rtde/data_package.cpp:618-632 | a recipe whose only name has no value announces four bytes and writes five |
| `DataPackage.PackageRoundTrip` | src/rtde/data_package.cpp:582-635 | for distinct known names and well-typed values below 65536 bytes, parsing what was serialized restores recipe id and values, consumes all, and the header length is the size |
| `DataPackage.DataPackage.InitEmpty` | src/rtde/data_package.cpp:570-580 | exactly the known names of the recipe get a zero of their type |
| `DataPackage.DataPackage.ParseWith` | src/rtde/data_package.cpp:582-602 | fields, recipe id, cursor and result, with unknown names and short buffers |
| `DataPackage.DataPackage.SerializePackage` | src/rtde/data_package.cpp:616-635 | the buffer holds header, recipe id and fields and is otherwise unchanged; names without value become false booleans |
| `DataPackage.SerializeHeader` | include/ur_client_library/rtde/package_header.h:88-95 | length modulo 65536 and type at the front of the buffer |
| `DataPackage.RtdeParser.Parse` | include/ur_client_library/rtde/rtde_parser.h:68-117 | what is made of any buffer, with wrapped, short and over-long packages |
| `Stream.Read` | include/ur_client_library/comm/stream.h:134-162 | how many bytes a call takes, where they end up, what total is and how it ends, for every way they arrive; with a length field below the first piece it never succeeds, and writes past the buffer exactly if more bytes than the buffer holds come in, which is the case, when pieces keep arriving, exactly if the stream has more |
| `Stream.ReadOne` | include/ur_client_library/comm/stream.h:134-162 | a call at the start of a package that arrives in pieces returns the package if and only if its length field was seen right, that is, if and only if the part of it not in the first piece is what the buffer held |
| `Stream.ReadAll` | include/ur_client_library/comm/stream.h:134-162 | consecutive calls return exactly the packages sent, however they were cut up, if and only if each length field is in its first piece or the rest of it equals that of the package before |
| `Stream.SplitLengthField` | include/ur_client_library/comm/stream.h:143-154 | a package arriving byte by byte into a cleared buffer is not returned although all of it arrives |
| `Stream.SmallLengthField` | include/ur_client_library/comm/stream.h:145-158 | a length field of one makes the call write past the buffer |
| `PrimaryParser.AcceptedIsPartition` | include/ur_client_library/primary/primary_parser.h:67-116 | an accepted payload is its frames one after the other, the results being those frames decoded in order, each from its own bytes |
| `PrimaryParser.FramesAreAccepted` | include/ur_client_library/primary/primary_parser.h:67-116 | every sequence of well-formed frames is accepted and decoded |
| `PrimaryParser.RobotModeLayout` | src/primary/robot_state/robot_mode_data.cpp:58-76 | which bytes of the body each of the thirteen values and the remainder are |
| `PrimaryParser.KinematicsLayout` | src/primary/robot_state/kinematics_info.cpp:39-49 | which bytes of the body each of the 31 values are, and that there are 220 |
| `PrimaryParser.ConfigurationLayout` | src/primary/robot_state/configuration_data.cpp:58-85 | which bytes of the body each of the 57 values are, and that there are 440 |
| `PrimaryParser.OtherLayout` | src/primary/primary_package.cpp:36-40 | every other type is kept raw |
| `PrimaryParser.PayloadOnTheWire` | include/ur_client_library/primary/primary_parser.h:69-113 | a payload of one sub-package, byte by byte |
| `PrimaryParser.ParseSubPackage` | include/ur_client_library/primary/primary_parser.h:87-103 | a sub-package is decoded as its type asks and its cursor stays in its frame |
| `PrimaryParser.ParseFrame` | include/ur_client_library/primary/primary_parser.h:76-112 | a frame below five bytes throws; otherwise the parent cursor ends where the child's does |
| `PrimaryParser.ParseRobotState` | include/ur_client_library/primary/primary_parser.h:67-116 | the loop ends on every buffer with the specified verdict and results |
| `TcpServer.Server.HandleConnect` | src/comm/tcp_server.cpp:170-202 | a new client is added if there is room and nothing changes otherwise; descriptor sets stay consistent |
| `TcpServer.Server.HandleDisconnect` | src/comm/tcp_server.cpp:241-259 | exactly the one client goes; descriptor sets stay consistent |
| `TcpServer.Server.Spin` | src/comm/tcp_server.cpp:204-239 | every ready descriptor is served once in increasing order: which clients are left, which is added, and that it throws exactly if the listening descriptor is ready and accepting fails among the clients left by then |
| `TcpServer.Server.Worker` | src/comm/tcp_server.cpp:293-300 | the clients after any number of rounds, or that one of them threw |
| `TcpServer.Serve` | src/control/reverse_interface.cpp:42-57 | over every run of the event loop the watched descriptors are the listening one plus the clients, all bounded by maxfd_, client_fd_ is the only client if there is one, and notifications start with false and strictly alternate |
| `TcpServer.ReverseInterface.ConnectionCallback` | src/control/reverse_interface.cpp:221-234 | only a first client is taken and notified |
| `TcpServer.ReverseInterface.DisconnectionCallback` | src/control/reverse_interface.cpp:236-245 | the client is dropped and false notified |
| `InstructionExecutor.StepKeeps` | src/ur/instruction_executor.cpp:36-98 | every step of the call, the callbacks and cancel requests keeps mutual exclusion, the link between result and flag, and what the call knows |
| `InstructionExecutor.EveryInterleaving` | src/ur/instruction_executor.cpp:36-98 | for every schedule, true is returned only if the last write to the result was a success by a result callback that lowered the running flag after this call raised it, and no cancel request came before the final check |
| `InstructionExecutor.TrueIff` | src/ur/instruction_executor.cpp:58-98 | for every run, a call that has returned answers true if and only if its start message was sent, no cancel request came between the clearing of the flag and the final check, and the result it read was a success |
| `InstructionExecutor.ResultStands` | src/ur/instruction_executor.cpp:36-57 | once the flag is down and no callback that saw it up is still to write, late results and dropped connections leave the result alone until the call returns |
| `InstructionExecutor.ResultReported` | src/ur/instruction_executor.cpp:36-46 | a result that arrives while the flag is up is written and the flag lowered |
| `InstructionExecutor.DropReported` | src/ur/instruction_executor.cpp:47-57 | a connection that drops is a failure if the flag is up and nothing otherwise |
| `InstructionExecutor.Finishes` | src/ur/instruction_executor.cpp:86-97 | once the flag is down the call returns within five moves, with what was reported unless it was cancelled |
| `InstructionExecutor.CancelFinishes` | src/ur/instruction_executor.cpp:86-97 | a call cancelled while the trajectory runs returns false within three moves |
| `InstructionExecutor.StartFails` | src/ur/instruction_executor.cpp:61-68 | a call whose start message fails writes a failure and returns false |
| `InstructionExecutor.CancelEndsIff` | src/ur/instruction_executor.cpp:83-97 | for every run, the final check ends the call with false if and only if a cancel request came after the call cleared the flag and before the check; otherwise the result is looked at |
| `InstructionExecutor.FinalCheckIff` | src/ur/instruction_executor.cpp:91-97 | the same for one state, by its history |
| `InstructionExecutor.CancelForgotten` | src/ur/instruction_executor.cpp:58-86 | a cancel request at any point up to the clearing of the flag changes nothing of what the call does in any continuation, and nothing at all once it polls |

## Left out

- Weak memory ordering, fences, cache-line padding, alignment and raw allocation: steps are sequentially consistent and slots are typed.
- The operating system's semaphore is an ideal token counter; 64-bit overflow of the semaphore's count is not modelled.
- `peek`, `pop`, `sizeApprox`, move construction and the destructor of the queue: they would add easier members.
- The queue's model computes with natural numbers; sizes and index steps are tied to machine words by `CeilToPow2` and `MaskedStepIsAfter`, and overflow of max_size + 1 is not modelled.
- Regular expressions, condition parsing and comparison operators of the script reader: lines are tokenised, conditions have a total evaluator, and substituted values are plain text that contains no further directive.
- ScriptReader.Reader.ReadScriptFile: scripts whose includes nest for ever, on which the code does not terminate; absolute paths and `..` in includes.
- Stream.ReadAll: pieces keep arriving; what a failed call leaves is `Stream.Read`.
- RtdeWriter.ReplayIsDirect: the analog domain is outside the mask scheme and not part of the controller's state; `DomainLeft` says what the package holds of it.
- `RTDEWriter::run` and its thread: the queue is the sequence of packages handed over.
- RtdeClient.Client.Init: a list of types of the wrong length and a package other than data while waiting for data end in `Aborted`, which stands for a failed assertion or a null dereference; the text of messages and sleeps are not modelled; the comma-separated list of types is tokenised.
- DataPackage.DataPackage.InitEmpty: scalar entries of the type table only.
- DataPackage.DataPackage.ParseWith: scalar fields only.
- DataPackage.DataPackage.SerializePackage: scalar fields only.
- DataPackage.PackageRoundTrip: scalar fields only; vectors and strings in data packages are not serialized by the model beyond `VectorElementRestoredIff`; the type table is a parameter.
- DataPackage.RtdeParser.Parse: packages other than data packages are reported, not parsed, and the results vector of a refused buffer is not modelled.
- PrimaryParser.ParseRobotState: robot messages and the outer dispatch on the package type; booleans are kept as their byte.
- `FD_SETSIZE`, `shutdown` and failing `select` calls of the socket server, and its partial-send loop.
- `cancelMotion`'s wait for the robot's answer and its return value.
- `start`, the log, the dashboard client, the primary client's commands, `VersionInformation`, and the message builders of the reverse interface: wrappers around input and output, or straight-line encodings.

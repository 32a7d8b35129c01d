# A5xx GPU driver: preemption, command streams, firmware and dumps

This project models the parts of the Adreno A5xx (and, for command streams,
A3xx) kernel driver in which a mistake would silently run work on the wrong
ring or page table, lose it, or corrupt what is loaded or dumped.

* **Ring preemption** (`PreemptModel`, `PreemptInvariant`, `PreemptTheorems`,
  `PreemptTrigger`, `PreemptLocks`, `PreemptProgress`, `PreemptEvents`,
  `PreemptLiveness`, `PreemptLost`, `PreemptStuck`, `PreemptTables`, `PreemptSync`,
  `PreemptDriver`). The lock and compare-and-swap protocol between submitters, the dispatcher, two interrupts,
  a timer, a worker and the command processor (CP) is a step machine: any
  number of threads stand at program counters between atomic driver sections
  and interleave freely with submissions and with the CP. Safety is proved over
  all runs by one invariant. `PreemptLocks` splits a submission's locked section
  and says exactly when it may be taken as one action. `PreemptEvents` gives
  every pass of the driver its cause and every publication its submitter;
  `PreemptLiveness` and `PreemptLost` construct, with the causes that are due and
  no others, a run that finishes everything, and say exactly from where there is
  none; `PreemptStuck` has three runs into such states.
  `PreemptDriver.Driver` holds the driver's fields and the functions that
  update them in place, each proved to do what its thread of the machine does.
* **Command streams as a compiler** (`Pm4`, `CommandProcessor`, `Submissions`,
  `StreamBounds`, `StreamMeaning`, `A5xxStream`, `A5xxMeaning`, `A5xxBounds`,
  `CommandBuffer`, `Ringbuffers`, `A5xxRingbuffer`, `A5xxProfiling`,
  `A5xxBridge`, `A5xxHistory`, and the five `A3xx` modules). The packets of every builder are
  a function; an interpreter gives them meaning; the methods that fill `cmds`
  and advance ring pointers are proved to write exactly those packets into a
  ring that wraps. `A5xxBridge` and `A5xxHistory` close the gap to the preemption
  model: the interpreted streams are the submissions that model speaks of, one by
  one and over the whole life of a ring buffer.
* **Firmware** (`RegSequence`, `SequenceFile`, `GpmuLoader`): the block walk,
  the header check, the opcode interpreter and the chunking loader.
* **Crash dump** (`CrashDump`, `CrashDumpReadback`): sizing pass, emitting pass,
  the dumper that runs the script, and the readers, all against one plan.
* **Smaller state** (`Counters`, `Interrupts`, `IrqStorm`, `PowerCounters`,
  `Hibernation`).

`dafny verify dfyconfig.toml` checks everything.

## How the model reads the code

* One step of the preemption machine is one locked section, one atomic
  compare-and-swap, or one group of unlocked writes that no other thread
  depends on half done. `PreemptLocks` splits the locked section of a
  submission. Setting TRIGGERED and writing CONTEXT_SWITCH_CNTL is one
  step. Ring positions count submissions and do not wrap; wrapping is proved
  separately for the real buffer in `Ringbuffers`.
* The CP saves and restores rptr, wptr and rbase as `adreno_a5xx.h:50-77` says,
  switches only between submissions after a yield or when it is idle, takes the
  table from smmu_info, and writes its read pointer to the scratch memory when
  it leaves a ring. It runs only up to its WPTR register.
* Page tables are told apart by ttbr0, and contexts of one process share one.
* A 32-bit dword is a header or a number; `Pm4` proves that the distinction is
  the one the CP makes from the bits. Parity is counted, and proved to be what the
  table of `adreno_pm4types.h:192-197` holds.
* Hypervisor calls, allocation results, pending faults, detached contexts and
  the contents of registers and firmware files are inputs of the methods.

Where code and comments disagree the model follows the code. Found on the way,
each with a row below: the A3xx power-on fixup leaves protection off; the error
of a context switch is dropped and the draw goes ahead; a submission during a
trigger can stay unseen until the next event; a submission can load WPTR after
the hardware has left its ring; a wake-up can be lost, by a draw, by a counter and
by a context switch whose draw is turned away; `counter_delta` is one short for
each wrap; a GPMU file can be refused with return value 0; a storm is noticed
once in 2^32 repetitions; shader banks other than the first and the GPMU list are read
from the wrong offset; a buffer that was with the kernel before hibernation is
taken from it afterwards.

## Model

| member | source | states |
|---|---|---|
| `PreemptInvariant.StepKeepsInv` | qcom/opensource/graphics-kernel/adreno_a5xx_preempt.c:17-316 | every step of the protocol (submitters, both interrupts, timer, dispatcher, worker, CP), taken in any order, is safe (no null next_rb followed, no ring outside the table) and keeps the invariant that ties driver state, records, registers and rings together |
| `PreemptInvariant.RunKeepsInv` | qcom/opensource/graphics-kernel/adreno_a5xx_preempt.c:17-316 | the same over whole runs of any length and interleaving |
| `PreemptInvariant.InitialOk` | qcom/opensource/graphics-kernel/adreno_a5xx_preempt.c:411-460 | the state left by start-up satisfies the invariant whatever next_rb an earlier run left behind |
| `PreemptTheorems.PreemptionIsTransparent` | qcom/opensource/graphics-kernel/adreno_a5xx_preempt.c:17-299 | in every run, what the CP has run from each ring is an in-order prefix of what was submitted to it, and each submission ran with the page table it would have had on a GPU with that ring alone |
| `PreemptTheorems.SoloAt` | qcom/opensource/graphics-kernel/adreno_a5xx_preempt.c:17-299 | the reference for that claim: position k of a ring run alone is submission k with the last table set by submissions 0..k |
| `PreemptTheorems.HardwareAgreesWithItsRing` | qcom/opensource/graphics-kernel/adreno_a5xx_preempt.c:215-232 | in every run rptr copy <= rptr <= hardware WPTR <= ring wptr for the ring the hardware is on, and the SMMU table equals that ring's scratch ttbr0/contextidr and its own last executed update |
| `PreemptTheorems.WptrRegisterStaysHome` | qcom/opensource/graphics-kernel/adreno_a5xx_preempt.c:17-42 | with each locked section taken as one action: no driver step loads the WPTR register with the pointer of a ring the hardware is not on, and the register never goes backwards outside a hardware switch; `PreemptLocks` says when a submission's locked section is one action |
| `PreemptTheorems.HistoryIsKept` | qcom/opensource/graphics-kernel/adreno_a5xx_ringbuffer.c:85-94 | no step takes back what was written to or run from a ring; only the locked section of a submission publishes |
| `PreemptTheorems.AtMostOneOwner` | qcom/opensource/graphics-kernel/adreno.h:1706-1710 | among all threads in the driver at most one is past a compare-and-swap it won |
| `PreemptTheorems.SwitchesAreAccountedFor` | qcom/opensource/graphics-kernel/adreno_a5xx_preempt.c:44-126 | armed switches minus completed swaps is always 0 or 1; while it is 1 next_rb is set, differs from cur_rb and is what RESTORE_ADDR points at; TRIGGERED and FAULTED always have one outstanding, NONE and START never, PENDING and COMPLETE have one or the hardware is done |
| `PreemptTheorems.SwitchSavesToOwnRecord` | qcom/opensource/graphics-kernel/adreno_a5xx_preempt.c:363-369 | whenever the hardware may switch, SAVE_ADDR is the outgoing ring's own record, the incoming ring is next_rb, and it arrives with work to do |
| `PreemptTheorems.TriggerAlone` | qcom/opensource/graphics-kernel/adreno_a5xx_preempt.c:167-252 | the exact device after a trigger that nobody disturbs at all, field by field |
| `PreemptTheorems.TriggerNeedsNone` | qcom/opensource/graphics-kernel/adreno_a5xx_preempt.c:175-178 | a trigger that loses the compare-and-swap changes nothing |
| `PreemptTrigger.TriggerRepairs` | qcom/opensource/graphics-kernel/adreno_a5xx_preempt.c:167-252 | over runs: from a won compare-and-swap on, with any other threads, interrupts and CP steps but no publication in between, the trigger returns with state NONE, WPTR equal to cur_rb's wptr and no ring above cur_rb busy, or with a switch armed to the lowest-index busy ring, that ring's whole wptr in its record and its table in smmu_info; no ring but cur_rb has changed its looks |
| `PreemptLocks.LockedSectionsAreAtomic` | qcom/opensource/graphics-kernel/adreno_a5xx_ringbuffer.c:85-94 | with the lock, the test, the register write and the store of a submission as separate actions under the per-ring lock: every run in which no submission loads the register after the CP has switched is a run of the coarse machine, so all theorems about that hold of it |
| `PreemptLocks.LoadIsHomeExactly` | qcom/opensource/graphics-kernel/adreno_a5xx_ringbuffer.c:85-94 | when a submission loads the WPTR register the CP is on its ring if and only if no hardware switch came between its test and the load |
| `PreemptLocks.StraySubmission` | qcom/opensource/graphics-kernel/adreno_a5xx_ringbuffer.c:85-94 | for any number of rings and any cur_rb but ring 0, a concrete run in which one does come between: a trigger arms a switch to ring 0 without ever asking for the lock the submission holds, and the CP runs ring 0 beyond what was written to it |
| `PreemptProgress.CallbackTakesOver` | qcom/opensource/graphics-kernel/adreno_a5xx_preempt.c:254-299 | the completion interrupt of a finished switch leaves exactly the handed-over device and then a trigger |
| `PreemptProgress.EarlyCallbackDefers` | qcom/opensource/graphics-kernel/adreno_a5xx_preempt.c:260-279 | an interrupt that comes before the hardware is done only moves the state to COMPLETE |
| `PreemptProgress.ScheduleTakesOver` | qcom/opensource/graphics-kernel/adreno_a5xx_preempt.c:44-93 | a dispatcher pass in COMPLETE ends exactly where the interrupt would have ended |
| `PreemptProgress.ScheduleWaits` | qcom/opensource/graphics-kernel/adreno_a5xx_preempt.c:50-72 | with the GPU off or the switch unfinished a dispatcher pass changes nothing |
| `PreemptProgress.WorkerRechecks` | qcom/opensource/graphics-kernel/adreno_a5xx_preempt.c:95-143 | after a timeout the worker hands a finished switch to the dispatcher and changes nothing otherwise |
| `PreemptProgress.TimerDeclaresDead` | qcom/opensource/graphics-kernel/adreno_ringbuffer.c:157-171 | an undisturbed timer pass moves TRIGGERED to FAULTED and changes nothing otherwise |
| `PreemptProgress.TriggerFindsWork` | qcom/opensource/graphics-kernel/adreno_a5xx_preempt.c:146-252 | from an idle CP a trigger finds outstanding work if there is any |
| `PreemptProgress.FinishAmongReturned` | qcom/opensource/graphics-kernel/adreno_a5xx_preempt.c:167-316 | what "a pass that nobody disturbs" computes is one of the runs of the machine |
| `PreemptEvents.LiveRunIsRun` | qcom/opensource/graphics-kernel/adreno_dispatch.c:593-700 | runs in which every pass has a cause of the code (an interrupt raised, a timer set, the worker or dispatcher queued, the call that sendcmd makes for an accepted draw and only then) and every submitter (context switch, draw, inline counter) publishes what it wrote before anything else is written are runs of the machine: all its theorems hold of them |
| `PreemptEvents.SwitchesAreNoticed` | qcom/opensource/graphics-kernel/adreno_ringbuffer.c:157-171 | in every such run without a raised fault: a switch that is over, or that the timer has declared FAULTED, always has the interrupt, worker or dispatcher that will act on it due or at work |
| `PreemptEvents.SwitchesAreTimed` | qcom/opensource/graphics-kernel/adreno_a5xx_preempt.c:241-243 | in every run with causes: while the state is TRIGGERED the timer is due, or has fired and stands before its compare-and-swap |
| `PreemptEvents.TimeoutDeclaresFault` | qcom/opensource/graphics-kernel/adreno_ringbuffer.c:157-171 | from TRIGGERED with the timer due, wherever other threads stand, the timer and its one action lead to FAULTED with the worker due |
| `PreemptEvents.WorkerFollowsUp` | qcom/opensource/graphics-kernel/adreno_a5xx_preempt.c:95-143 | from FAULTED with the worker due it leads to COMPLETE with the dispatcher due if the GPU is awake and the switch through, and to a raised fault otherwise |
| `PreemptLiveness.Quiesce` | qcom/opensource/graphics-kernel/adreno_a5xx_preempt.c:17-316 | from every reachable state without a raised fault there is a run, with nothing published, in which every thread returns and no fault is raised, and which loses nothing that was not lost before |
| `PreemptLost.FinishesExactly` | qcom/opensource/graphics-kernel/adreno_a5xx_preempt.c:17-316 | from every state the invariant allows, wherever threads stand, the causes that are due can bring everything published to its end, without a fault and without a further publication, if and only if it is not lost: nothing is pending, or the CP has something to run, or a switch is outstanding, or a timestamp interrupt, the dispatcher, a draw's call or a counter's look that will schedule is due, or some thread will still look where there is work |
| `PreemptLost.LostIsStuck` | qcom/opensource/graphics-kernel/adreno_a5xx_preempt.c:17-316 | with no thread in the driver, being lost comes to: state NONE, CP idle, none of those causes due, and something published not run |
| `PreemptLost.NoSubmissionIsLost` | qcom/opensource/graphics-kernel/adreno_a5xx_preempt.c:17-316 | after any run without a raised fault there is a continuation by due causes only, with nothing published, that ends in NONE with all threads returned; every ring has then run exactly what was published to it, in order and with its own tables, if and only if nothing was lost; otherwise no continuation can do so |
| `PreemptStuck.LoneSwitchIsStuck` | qcom/opensource/graphics-kernel/adreno_dispatch.c:593-640 | a concrete run for any number of rings: a context switch is published on a ring that is not current and its draw is turned away, sendcmd returns without calling preemption_schedule, and nothing is due |
| `PreemptStuck.WakeUpIsLost` | qcom/opensource/graphics-kernel/adreno_a5xx_preempt.c:186-202 | for any rings, a concrete run: a draw comes to another ring after the scan of the trigger that ends a switch, and the call its submitter makes finds START |
| `PreemptStuck.CounterIsLost` | qcom/opensource/graphics-kernel/adreno_a5xx_perfcounter.c:81-94 | a concrete run: a counter is enabled through ring 0 while the trigger that ends a switch to ring 0 has not yet returned to NONE; cur_rb is ring 0, so the dispatcher is not scheduled, and the caller waits for commands the CP does not know of |
| `PreemptTables.JobsRunAsPlanned` | qcom/opensource/graphics-kernel/adreno_a5xx_ringbuffer.c:335-398 | in every run, whatever was preempted and whatever switch was turned away, a ring holds exactly the jobs accepted on it, and each that has run did so with the ttbr0 of the last accepted update, a switch asking for one exactly if its process differs from that of the context last switched to, accepted or not, and is not on the default table |
| `PreemptTables.DrawsRunOnTheirTable` | qcom/opensource/graphics-kernel/adreno_a5xx_ringbuffer.c:335-398 | so the draws of processes with their own table that have run had that table if none was submitted while its ring was stale, and only if, once all have run |
| `PreemptTables.OnlyDropsMakeStale` | qcom/opensource/graphics-kernel/adreno_a5xx_ringbuffer.c:390-396 | a ring becomes stale only by a switch that is turned away although it asks for a table the ring does not have |
| `PreemptTables.NothingDropped` | qcom/opensource/graphics-kernel/adreno_a5xx_ringbuffer.c:335-398 | if no switch on a ring is turned away all its draws have their own table, however they were preempted |
| `PreemptTables.DefaultDrawsInherit` | qcom/opensource/graphics-kernel/adreno_a5xx_ringbuffer.c:22-23 | no update is emitted for the default page table, so in every run a submission ran on it if and only if neither it nor an earlier one of its ring carried an update |
| `PreemptTables.SwitchDecidesTable` | qcom/opensource/graphics-kernel/adreno_a5xx_ringbuffer.c:373-398 | in any state of a ring, after a switch and a draw the draw has its own table if and only if the ring already had it, or the switch asked for an update and was accepted |
| `PreemptTables.DroppedSwitchMisleadsDraw` | qcom/opensource/graphics-kernel/adreno_a5xx_ringbuffer.c:390-396 | a concrete run: the error of the context switch is dropped and the draw behind it runs on another process's table |
| `PreemptSync.PublishReachesHardware` | qcom/opensource/graphics-kernel/adreno_a5xx_ringbuffer.c:85-94 | publishing the current ring reaches the hardware at once if and only if the state is NONE or there was nothing new |
| `PreemptSync.NoneMeansSynced` | qcom/opensource/graphics-kernel/adreno_a5xx_preempt.c:17-42 | in every run: whenever the state is NONE, WPTR equals cur_rb's wptr if and only if the last publication on cur_rb with no switch under way fell into NONE or found nothing new, or a thread has reloaded the register since |
| `PreemptSync.LateSubmissionLiesUnseen` | qcom/opensource/graphics-kernel/adreno_a5xx_preempt.c:186-202 | for any number of rings, a concrete run where it does not: every thread has returned, the state is NONE and the submission is not known to the hardware |
| `PreemptDriver.Driver.constructor` | qcom/opensource/graphics-kernel/adreno_a5xx_ringbuffer.c:99-134 | the rings, registers and preemption variables after initialisation are a start state of the machine |
| `PreemptDriver.Driver.PreemptionStart` | qcom/opensource/graphics-kernel/adreno_a5xx_preempt.c:411-460 | state and smmu_info are reset, every record loses its pointers and every scratch table becomes the default; next_rb and cur_rb are untouched |
| `PreemptDriver.Driver.RbStart` | qcom/opensource/graphics-kernel/adreno_a5xx.c:1845-1882 | with the records so prepared, clearing the rings and putting the CP onto cur_rb gives a start state of the machine |
| `PreemptDriver.Driver.MovePreemptState` | qcom/opensource/graphics-kernel/adreno.h:1706-1710 | compare-and-swap of the preemption state |
| `PreemptDriver.Driver.UpdateWptr` | qcom/opensource/graphics-kernel/adreno_a5xx_preempt.c:17-42 | the register ends up equal to cur_rb's wptr, as the step of the machine says |
| `PreemptDriver.Driver.RingbufferSubmit` | qcom/opensource/graphics-kernel/adreno_a5xx_ringbuffer.c:85-94 | the locked section of a submission |
| `PreemptDriver.Driver.SwitchContext` | qcom/opensource/graphics-kernel/adreno_a5xx_ringbuffer.c:335-398 | context switch with its dropped outcome: the active context changes either way |
| `PreemptDriver.Driver.NextRingbuffer` | qcom/opensource/graphics-kernel/adreno_a5xx_preempt.c:146-165 | the loop returns the lowest-index ring that does not look empty |
| `PreemptDriver.Driver.PreemptionTrigger` | qcom/opensource/graphics-kernel/adreno_a5xx_preempt.c:167-252 | updating the fields in place does what an undisturbed trigger thread of the machine does |
| `PreemptDriver.Driver.ProgramCp` | qcom/opensource/graphics-kernel/adreno_a5xx_preempt.c:209-248 | record, smmu_info, RESTORE_ADDR, next_rb, state and CONTEXT_SWITCH_CNTL, and nothing else |
| `PreemptDriver.Driver.PreemptCallback` | qcom/opensource/graphics-kernel/adreno_a5xx_preempt.c:254-299 | the same for the completion interrupt, in all its exits |
| `PreemptDriver.Driver.PreemptionDone` | qcom/opensource/graphics-kernel/adreno_a5xx_preempt.c:44-93 | the rings are handed over exactly if the GPU is awake and the switch is through; the dispatcher is faulted exactly if it is awake and the switch is not |
| `PreemptDriver.Driver.PreemptionSchedule` | qcom/opensource/graphics-kernel/adreno_a5xx_preempt.c:301-316 | the same for a dispatcher pass |
| `PreemptDriver.Driver.PreemptionWorker` | qcom/opensource/graphics-kernel/adreno_a5xx_preempt.c:128-143 | the same for the timeout worker |
| `PreemptDriver.Driver.PreemptionTimer` | qcom/opensource/graphics-kernel/adreno_ringbuffer.c:157-171 | the same for the timer: the worker is queued exactly if the state was TRIGGERED |
| `Pm4.ParseFlatten` | qcom/opensource/graphics-kernel/adreno_pm4types.h:232-268 | a stream of packets whose headers tell their length is cut back into exactly those packets, whatever their payload contains |
| `Pm4.FlattenParse` | qcom/opensource/graphics-kernel/adreno_pm4types.h:232-268 | conversely whatever parses is the flattening of what it parses to |
| `Pm4.DecodeEncode` | qcom/opensource/graphics-kernel/adreno_pm4types.h:192-268 | every header word of types 0, 3, 4 and 7 that the driver can build is recognised as that header and no other, parity bits included |
| `Pm4.ParityIsLookedUp` | qcom/opensource/graphics-kernel/adreno_pm4types.h:192-197 | the driver's lookup of the parity bit in a 16-bit table, by the xor of the hexadecimal digits, gives for every number the bit that makes its ones odd |
| `Pm4.HeaderLayout` | qcom/opensource/graphics-kernel/adreno_pm4types.h:199-268 | which bits of a header word hold type, register or opcode, count and parity, the parity bits making the ones odd in number |
| `Pm4.DwordsParse` | qcom/opensource/graphics-kernel/adreno_pm4types.h:192-268 | reading the encoded dwords finds the same packet boundaries and headers as reading the packets |
| `StreamBounds.StreamIsReadBack` | qcom/opensource/graphics-kernel/adreno_pm4types.h:192-268 | for any sound stream: the dwords are 32-bit, and the CP's own header tests find exactly the packets that were emitted |
| `A5xxMeaning.PreIbMeaning` | qcom/opensource/graphics-kernel/adreno_a5xx_preempt.c:318-391 | the pre-IB packets point SAVE_ADDR at the ring's record, set global and local preemption by style, and leave protection on; without preemption they are nothing |
| `A5xxMeaning.GrainOfContext` | qcom/opensource/graphics-kernel/adreno_a5xx_preempt.c:328-384 | with preemption on, a secure context and none at all always get global 0 and local 0; any other gets 2 and 1 if its style is 2 and 0 and 0 if not |
| `A5xxMeaning.StreamsAreMarked` | qcom/opensource/graphics-kernel/adreno_a5xx_ringbuffer.c:165-167 | the first packet of a submission is a NOP with the identifier of user or of internal commands, by whether there is a context |
| `A5xxMeaning.AddCmdsMeaning` | qcom/opensource/graphics-kernel/adreno_a5xx_ringbuffer.c:165-278 | interpreting the emitted stream is: opening actions, the payload, closing actions |
| `A5xxMeaning.SubmissionMeaning` | qcom/opensource/graphics-kernel/adreno_a5xx_ringbuffer.c:165-278 | a payload that leaves the modes alone runs in secure mode exactly when asked and unprotected exactly when asked, after the start timestamps and before context then ring end timestamps, waits and yield enables in their places, and the next submission finds protection on and secure mode off |
| `A5xxMeaning.SkipSwallowsOneIb` | qcom/opensource/graphics-kernel/adreno_a5xx_ringbuffer.c:456-467 | a NOP with count 4 swallows exactly one IB packet and what follows is parsed unchanged |
| `A5xxMeaning.IbPacketsMeaning` | qcom/opensource/graphics-kernel/adreno_a5xx_ringbuffer.c:452-469 | for any IB list and flags exactly the IBs not skipped run, in list order, each with its masked length |
| `A5xxMeaning.DrawRunsByMarks` | qcom/opensource/graphics-kernel/adreno_a5xx_ringbuffer.c:452-469 | told by the marks alone: in the trace of a draw the IBs that run are at increasing positions of the list, each with its address and masked length; an IB with the skip bit is never among them, one with neither mark always, a preamble exactly if the flags ask for it; with the skip flag none |
| `Submissions.KeptExactly` | qcom/opensource/graphics-kernel/adreno_a5xx_ringbuffer.c:456-458 | the same about the list: which positions are kept, in order |
| `A5xxMeaning.DrawIsMarked` | qcom/opensource/graphics-kernel/adreno_a5xx_ringbuffer.c:425-500 | the commands of a draw stand between the start and the end identifier |
| `A5xxMeaning.DrawSubmissionMeaning` | qcom/opensource/graphics-kernel/adreno_a5xx_ringbuffer.c:414-520 | the whole trace of a draw submission, for all flags and lists, waits and render mode included |
| `A5xxMeaning.PagetableSwitchMeaning` | qcom/opensource/graphics-kernel/adreno_a5xx_ringbuffer.c:14-50 | the table update, awaited, and its copy in the scratch memory, written under APRIV and awaited before APRIV goes off again |
| `A5xxMeaning.SwitchSubmissionMeaning` | qcom/opensource/graphics-kernel/adreno_a5xx_ringbuffer.c:335-371 | the whole trace of a context switch submission; no write is refused on the way |
| `A5xxMeaning.GuardedSwitchIsRefused` | qcom/opensource/graphics-kernel/adreno_a5xx.c:206-236 | without NOTPROTECTED the same context switch would hit a protected register |
| `A5xxBounds.PreIbBound` | qcom/opensource/graphics-kernel/adreno_a5xx_ringbuffer.c:169-171 | exactly 14 dwords with preemption |
| `A5xxBounds.AddCmdsBound` | qcom/opensource/graphics-kernel/adreno_a5xx_ringbuffer.c:136-281 | for all flags and inputs the stream is well framed and at most 61 dwords plus the payload, within the 64 that are reserved |
| `A5xxBounds.ContextSwitchBound` | qcom/opensource/graphics-kernel/adreno_a5xx_ringbuffer.c:335-367 | 30 or 12 dwords, within the array of 32 |
| `A5xxBounds.SubmitCmdBound` | qcom/opensource/graphics-kernel/adreno_a5xx_ringbuffer.c:412-499 | at most 28 dwords and 5 for each IB, within the 32+5n that are allocated |
| `CommandBuffer.FreeSpaceIsAppended` | qcom/opensource/graphics-kernel/adreno_ringbuffer.c:67-104 | filling reserved space leaves every live word alone and appends what was filled to what the CP has yet to read |
| `Ringbuffers.Ringbuffer.AllocSpace` | qcom/opensource/graphics-kernel/adreno_ringbuffer.c:67-104 | succeeds exactly if one of the three fits applies; the space is contiguous, holds nothing live, cannot make the ring look empty, and what is live grows at most by one NOP over the rest of the buffer; on failure nothing changes |
| `CommandBuffer.FitsExactly` | qcom/opensource/graphics-kernel/adreno_ringbuffer.c:67-104 | a request is refused exactly if it is for more than the longest free piece the code allows: behind the cursor up to two dwords before the end, or before the read pointer less one |
| `Ringbuffers.CountsAreDistinct` | qcom/opensource/graphics-kernel/adreno_a5xx_ringbuffer.c:156 | the values of a u32 counter that is advanced once per submission are distinct within 2^32 submissions and no further |
| `Ringbuffers.RingStaysReadable` | qcom/opensource/graphics-kernel/adreno_ringbuffer.c:67-104 | over any history of submissions added and whole packets read, starting from the empty ring: the ring always holds whole packets, and what the CP has read followed by what is left means what the submissions mean one after the other, however the buffer wrapped |
| `Ringbuffers.ReadingMovesRptr` | qcom/opensource/graphics-kernel/adreno_ringbuffer.c:67-104 | reading whole packets is moving the read pointer by their size, cyclically |
| `A5xxRingbuffer.PreIbSubmit` | qcom/opensource/graphics-kernel/adreno_a5xx_preempt.c:318-391 | filling cmds dword by dword gives the specified stream |
| `A5xxRingbuffer.Submit` | qcom/opensource/graphics-kernel/adreno_a5xx_ringbuffer.c:62-97 | with sync the read pointer report is appended or -ENOSPC; wptr is published; the register equals it if the state is NONE and the ring current, and is as before otherwise |
| `A5xxRingbuffer.AddCmds` | qcom/opensource/graphics-kernel/adreno_a5xx_ringbuffer.c:138-287 | each error exit with its exact condition and effect (a failed reservation still uses up a ring timestamp); on success the ring grows by exactly the specified stream, everything is published, the register follows exactly in NONE on the current ring, and the final submit, whose result is dropped, cannot have failed |
| `A5xxRingbuffer.PagetableSwitch` | qcom/opensource/graphics-kernel/adreno_a5xx_ringbuffer.c:14-50 | filling the array gives the specified stream of 18 dwords |
| `A5xxRingbuffer.RbContextSwitch` | qcom/opensource/graphics-kernel/adreno_a5xx_ringbuffer.c:335-371 | outcome and growth of the ring for a context switch, with a table update exactly if the table differs and is not the default one |
| `A5xxRingbuffer.DrawctxtSwitch` | qcom/opensource/graphics-kernel/adreno_a5xx_ringbuffer.c:373-398 | returns an error only for a context that cannot be switched to; otherwise the context becomes active whether or not the switch was written |
| `A5xxRingbuffer.GetUserProfilingIb` | qcom/opensource/graphics-kernel/adreno_a5xx_ringbuffer.c:309-333 | exactly one slot of the page is filled, with one packet that copies the counter to the requested address, and the next slot follows cyclically |
| `A5xxRingbuffer.FillSubmitCmd` | qcom/opensource/graphics-kernel/adreno_a5xx_ringbuffer.c:421-499 | the buffer holds the specified payload and both profiling slots are filled, for all flags and lists |
| `A5xxRingbuffer.SubmitCmd` | qcom/opensource/graphics-kernel/adreno_a5xx_ringbuffer.c:414-530 | from allocation failure to success: what the ring holds after the context switch and after the draw, when the switch is missing, each return value with its exact condition, both counters, and which exits leave the ring alone |
| `A5xxProfiling.SlotsDoNotMeet` | qcom/opensource/graphics-kernel/adreno_a5xx_ringbuffer.c:305-333 | any 256 consecutive slots are distinct, do not overlap and stay inside the page |
| `A5xxProfiling.SlotsSurvive` | qcom/opensource/graphics-kernel/adreno_a5xx_ringbuffer.c:305-333 | as long as at most 256 slots have been handed out, each still reads the counter for its own draw |
| `A5xxProfiling.DrawFillsTwoSlots` | qcom/opensource/graphics-kernel/adreno_a5xx_ringbuffer.c:436-498 | a profiled draw leaves its slot reading the counter for the start and the cyclically next one for the end; all others stay |
| `A5xxProfiling.SlotIsItsIb` | qcom/opensource/graphics-kernel/adreno_a5xx_ringbuffer.c:311-330 | the address and length with which a slot is run are those of the dwords written to it |
| `A5xxProfiling.VerifyCmdobj` | qcom/opensource/graphics-kernel/adreno.c:3043-3100 | accepts exactly if every IB of every command object verifies and, on A3xx, none asks for profiling; otherwise the first object that is refused decides the error, and in it the IBs come before the profiling |
| `A5xxProfiling.VerifiedExactly` | qcom/opensource/graphics-kernel/adreno.c:3043-3066 | an IB verifies exactly if its size is between 1 and 0x3FFFFF bytes, its address is a multiple of 4 and both lie in the range of the process |
| `A5xxProfiling.LengthsAreExact` | qcom/opensource/graphics-kernel/adreno.c:3050-3055 | for a verified IB the 20-bit length is the size in whole dwords; it covers the IB exactly if the size is a multiple of four, and is 0 exactly for an IB of fewer than four bytes |
| `A5xxProfiling.UnverifiedLengthsAreNot` | qcom/opensource/graphics-kernel/adreno_a5xx_ringbuffer.c:466-467 | the mask keeps a length if and only if it is at most 0xFFFFF |
| `A5xxBridge.DrawRealisesEntry` | qcom/opensource/graphics-kernel/adreno_a5xx_ringbuffer.c:414-520 | interpreting the stream of a draw on ring i saves to record i and touches no table: it is the submission the preemption model appends |
| `A5xxBridge.SwitchRealisesEntry` | qcom/opensource/graphics-kernel/adreno_a5xx_ringbuffer.c:335-371 | interpreting the stream of a context switch does exactly the table update, with its copy in the ring's own scratch slot, that the preemption model appends for it |
| `A5xxBridge.ReportMeaning` | qcom/opensource/graphics-kernel/adreno_a5xx_ringbuffer.c:74-83 | the last thing a submission does is to report the read pointer to the ring's scratch memory, unless preemption is on |
| `A5xxBridge.DrawMayFitWithoutItsSwitch` | qcom/opensource/graphics-kernel/adreno_a5xx_ringbuffer.c:390 | there are ring pointers for which the draw fits and its switch does not if and only if the draw is shorter and fits the ring at all |
| `A5xxBridge.ShortestDrawIsShorter` | qcom/opensource/graphics-kernel/adreno_a5xx_ringbuffer.c:414-499 | and a draw can be shorter than its switch |
| `A5xxHistory.CounterRealisesEntry` | qcom/opensource/graphics-kernel/adreno_a5xx_perfcounter.c:70-83 | the commands of an inline counter enable save to the ring's own record, write the select register and touch no table: they are the third kind of submission the preemption model knows |
| `A5xxHistory.BufferIsModelRing` | qcom/opensource/graphics-kernel/adreno_a5xx_ringbuffer.c:138-287 | a whole ring buffer is a ring of the preemption model: for any list of context switches (accepted or dropped), draws and counters, and any alternation of submissions and CP on a buffer that started empty, what the CP has read and has still to read passes, from rest state to rest state, through exactly the entries the model appends for the same list |
| `A5xxHistory.SubmitAsModelled` | qcom/opensource/graphics-kernel/adreno_a5xx_ringbuffer.c:85-94 | a submit in the real ring leaves wptr and register at the positions where the publication of the preemption model leaves them |
| `A5xxHistory.SubmitIsPublish` | qcom/opensource/graphics-kernel/adreno_a5xx_ringbuffer.c:85-94 | which is said of any register value that follows wptr exactly in NONE on the current ring |
| `A3xxMeaning.PagetableSwitchMeaning` | qcom/opensource/graphics-kernel/adreno_a3xx_ringbuffer.c:104-152 | TTBR0 is written only between the acknowledged bus halt and its release, then the TLB is flushed and awaited |
| `A3xxMeaning.ContextSwitchMeaning` | qcom/opensource/graphics-kernel/adreno_a3xx_ringbuffer.c:315-347 | the trace of a context switch |
| `A3xxMeaning.SubmitCmdMeaning` | qcom/opensource/graphics-kernel/adreno_a3xx_ringbuffer.c:399-427 | exactly the IBs not skipped run, in list order |
| `A3xxMeaning.DrawRunsByMarks` | qcom/opensource/graphics-kernel/adreno_a3xx_ringbuffer.c:399-427 | as for the A5xx, told by the marks alone, with addresses and lengths cut to 32 bits |
| `A3xxMeaning.SubmissionMeaning` | qcom/opensource/graphics-kernel/adreno_a3xx_ringbuffer.c:206-300 | the whole trace of a submission around its payload, and the protection it leaves behind |
| `A3xxMeaning.DrawSubmissionMeaning` | qcom/opensource/graphics-kernel/adreno_a3xx_ringbuffer.c:376-454 | the whole trace of a draw submission |
| `A3xxMeaning.FixupLeavesProtectionOff` | qcom/opensource/graphics-kernel/adreno_a3xx_ringbuffer.c:206-219 | protection is back on after a submission if and only if it had no power-on fixup or was NOTPROTECTED (the packets around the fixup both write 0) |
| `A3xxMeaning.ProtectionStaysOff` | qcom/opensource/graphics-kernel/adreno_a3xx_ringbuffer.c:241-252 | and once off it stays off until a NOTPROTECTED submission |
| `A3xxBounds.AddCmdsBound` | qcom/opensource/graphics-kernel/adreno_a3xx_ringbuffer.c:174-306 | at most 44 dwords plus the payload, within the 55 that are reserved, well framed |
| `A3xxBounds.PagetableSwitchBound` | qcom/opensource/graphics-kernel/adreno_a3xx_ringbuffer.c:104-152 | exactly 50 dwords |
| `A3xxBounds.ContextSwitchBound` | qcom/opensource/graphics-kernel/adreno_a3xx_ringbuffer.c:315-346 | 61 or 11 dwords, within the array of 64 |
| `A3xxBounds.SubmitCmdBound` | qcom/opensource/graphics-kernel/adreno_a3xx_ringbuffer.c:376-423 | 4+4n dwords less one for each IB that is not skipped |
| `A3xxRingbuffer.AddCmds` | qcom/opensource/graphics-kernel/adreno_a3xx_ringbuffer.c:174-313 | error exits with their conditions and effects; on success the ring grows by exactly the specified stream and the register gets the new pointer |
| `A3xxRingbuffer.PagetableSwitch` | qcom/opensource/graphics-kernel/adreno_a3xx_ringbuffer.c:104-152 | filling the array gives the specified stream of 50 dwords |
| `A3xxRingbuffer.RbContextSwitch` | qcom/opensource/graphics-kernel/adreno_a3xx_ringbuffer.c:315-347 | outcome and growth of the ring for a context switch; here the default table is switched to like any other |
| `A3xxRingbuffer.SubmitCmd` | qcom/opensource/graphics-kernel/adreno_a3xx_ringbuffer.c:376-454 | as for the A5xx: ring contents, dropped switch, each return value with its exact condition, ring timestamps |
| `A3xxTables.SwitchDecidesTable` | qcom/opensource/graphics-kernel/adreno_a3xx_ringbuffer.c:315-347 | the submission of a context switch leaves TTBR0 alone if the ring's context has the same table, and otherwise at the table of the new one, the low word first |
| `A3xxTables.TableIsLastSet` | qcom/opensource/graphics-kernel/adreno_a3xx_ringbuffer.c:349-454 | for any list of draw objects, with any switches and draws turned away: when a draw runs TTBR0 is what the last switch set that was accepted and came from another table |
| `A3xxTables.DrawsRunOnTheirTable` | qcom/opensource/graphics-kernel/adreno_a3xx_ringbuffer.c:349-454 | so with no switch turned away every draw runs on the table of its own context |
| `A3xxTables.DroppedSwitchMisleads` | qcom/opensource/graphics-kernel/adreno_a3xx_ringbuffer.c:366-373 | and the first switch that is turned away misleads its draw if and only if the ring was on another table |
| `SequenceFile.ReadBlockHeader` | qcom/opensource/graphics-kernel/adreno_a5xx.c:757-806 | accepts exactly the valid headers: size, identifying field, and every major version field; it reads no word beyond the header |
| `SequenceFile.AcceptedHeaders` | qcom/opensource/graphics-kernel/adreno_a5xx.c:757-806 | in numbers: a header is accepted if and only if its length is 2, 4, 6, 8 or 10 and ends before its block does, a sequence says so in its first two words, and no major version is older than the one asked for, 0 never being too old |
| `SequenceFile.BlocksTile` | qcom/opensource/graphics-kernel/adreno_a5xx.c:854-885 | the accepted blocks lie side by side inside the file; they are all of it exactly on success, and otherwise no block starts where they end |
| `SequenceFile.AcceptedExactly` | qcom/opensource/graphics-kernel/adreno_a5xx.c:854-885 | a file is accepted if and only if it is a row of valid blocks |
| `SequenceFile.LastLmIsLast` | qcom/opensource/graphics-kernel/adreno_a5xx.c:867-881 | the slice comes from an accepted LM block after which there is no other |
| `SequenceFile.SliceStaysInItsBlock` | qcom/opensource/graphics-kernel/adreno_a5xx.c:876-879 | a slice starts right behind its block header, is not empty and ends exactly where its block ends |
| `SequenceFile.StartsExactly` | qcom/opensource/graphics-kernel/adreno_a5xx.c:856-879 | the checks of the loop, taken together, say exactly whether a block starts |
| `SequenceFile.Limits.LoadRegfile` | qcom/opensource/graphics-kernel/adreno_a5xx.c:830-892 | the loop terminates, stays inside the file, leaves the slice of the last LM block among the accepted blocks, and reports success exactly if the walk succeeds and there is a slice |
| `SequenceFile.Limits.LmInit` | qcom/opensource/graphics-kernel/adreno_a5xx.c:972-992 | the slice is run; if it is invalid its decodable prefix has taken effect and it is forgotten |
| `RegSequence.DecodeEncode` | qcom/opensource/graphics-kernel/adreno_a5xx.c:894-924 | decoding an encoded operation list gives back the list |
| `RegSequence.EncodeDecode` | qcom/opensource/graphics-kernel/adreno_a5xx.c:894-924 | any words are the encoding of what is decoded, followed by a rest at which no opcode starts |
| `RegSequence.WellFormedExactly` | qcom/opensource/graphics-kernel/adreno_a5xx.c:894-924 | decoding succeeds if and only if the words are a concatenation of well-formed opcodes |
| `RegSequence.TruncationMatters` | qcom/opensource/graphics-kernel/adreno_a5xx.c:901-914 | register and value reach the hardware as written in the file if and only if both fit 32 bits |
| `RegSequence.WordsBecomeEffects` | qcom/opensource/graphics-kernel/adreno_a5xx.c:897-921 | word by word: 1 is a write of the fourth word to the register in the second, 2 the same with five words, 3 a wait; anything else and anything cut short does nothing more |
| `RegSequence.Hardware.ExecuteRegSequence` | qcom/opensource/graphics-kernel/adreno_a5xx.c:894-924 | the loop terminates, reads nothing beyond the length, has the effects of the recursive decoder, and returns 0 exactly if that succeeds; on failure exactly the decodable prefix has taken effect |
| `GpmuLoader.LoadingCopies` | qcom/opensource/graphics-kernel/adreno_a5xx.c:485-540 | for any microcode and packet limit, executing the stream writes word i to INST_RAM_BASE+i, each once and in order and nothing else, and leaves protection on |
| `GpmuLoader.LoadStreamSize` | qcom/opensource/graphics-kernel/adreno_a5xx.c:485-498 | for any microcode and packet limit the exact size of the stream, never more than size + size/max + 1 + 4 |
| `GpmuLoader.LoadStreamIsSound` | qcom/opensource/graphics-kernel/adreno_a5xx.c:521-531 | microcode that fits the RAM is sent in packets that the CP cuts where the driver did |
| `GpmuLoader.Gpmu.CreateLoadCmds` | qcom/opensource/graphics-kernel/adreno_a5xx.c:485-540 | the loop fills a buffer of the allocated size with exactly that stream; an existing stream is kept |
| `GpmuLoader.Gpmu.LoadGpmuFirmware` | qcom/opensource/graphics-kernel/adreno_a5xx.c:547-611 | each return value with its exact condition; in particular 0 without anything loaded is returned exactly for a bad size, a bad id or a block larger than the RAM |
| `GpmuLoader.FilesAreJudged` | qcom/opensource/graphics-kernel/adreno_a5xx.c:569-593 | in numbers: which files are taken for GPMU firmware, and which of those have a header that can be used |
| `GpmuLoader.UcodeFollowsItsHeader` | qcom/opensource/graphics-kernel/adreno_a5xx.c:595-596 | the microcode starts right behind the header, word k being word data[2] + 3 + k of the file, and ends where its block ends |
| `GpmuLoader.FileWordsAreLoaded` | qcom/opensource/graphics-kernel/adreno_a5xx.c:595-611 | from file to RAM: executing the stream made of a file writes its word data[2] + 3 + k to register INST_RAM_BASE + k, for all k up to the end of the block, once, in order and nothing else |
| `CrashDump.Sizes` | qcom/opensource/graphics-kernel/adreno_a5xx_snapshot.c:1070-1165 | the first loops compute the size of the script and of the data of the plan |
| `CrashDump.InitShader` | qcom/opensource/graphics-kernel/adreno_a5xx_snapshot.c:1054-1082 | the four banks of a shader block, one after the other, and the offset of the first |
| `CrashDump.CrashdumpInit` | qcom/opensource/graphics-kernel/adreno_a5xx_snapshot.c:1109-1221 | for any tables the script fills its buffer of script_size+16 bytes exactly, is the plan followed by two zero qwords, and the remembered offsets are where the data goes |
| `CrashDump.ScriptConcat` | qcom/opensource/graphics-kernel/adreno_a5xx_snapshot.c:1184-1217 | the script of two plans one after the other is the two scripts, the second at the offset where the first ends |
| `CrashDumpReadback.DumpFillsTheBuffer` | qcom/opensource/graphics-kernel/adreno_a5xx_snapshot.c:1184-1220 | running the script leaves exactly the data of the plan, whatever the buffer held: the ranges tile it without gap or overlap |
| `CrashDumpReadback.ShaderBanksAreDumped` | qcom/opensource/graphics-kernel/adreno_a5xx_snapshot.c:1054-1082 | after the dump dword i of bank j of shader block k is what the aperture shows at i with bank j of that block's state type selected |
| `CrashDumpReadback.SnapshotRegisters` | qcom/opensource/graphics-kernel/adreno_a5xx_snapshot.c:679-722 | reads as many whole ranges from the front as fit, and the returned size never exceeds the space |
| `CrashDumpReadback.MainRegistersComeBack` | qcom/opensource/graphics-kernel/adreno_a5xx_snapshot.c:679-722 | dump and readback give every main register its own value, for whole ranges from the front |
| `CrashDumpReadback.DumpHlsqRegs` | qcom/opensource/graphics-kernel/adreno_a5xx_snapshot.c:798-836 | all HLSQ blocks or none |
| `CrashDumpReadback.HlsqRegistersComeBack` | qcom/opensource/graphics-kernel/adreno_a5xx_snapshot.c:798-836 | dump and readback give every HLSQ register what the aperture shows of it |
| `CrashDumpReadback.OnlyFirstBankIsFound` | qcom/opensource/graphics-kernel/adreno_a5xx_snapshot.c:636-637 | a shader bank is looked for where it was dumped if and only if it is the first or empty (the reader forgets the four bytes of a dword) |
| `CrashDumpReadback.GpmuListGets` | qcom/opensource/graphics-kernel/adreno_a5xx_snapshot.c:684 | the GPMU list is read from the start of the buffer: its k-th address is paired with the value of the register that was dumped k-th of all, main list first |
| `CrashDumpReadback.GpmuListIsTrueExactly` | qcom/opensource/graphics-kernel/adreno_a5xx_snapshot.c:982-986 | what is read back as the GPMU list are the GPMU registers' own values, whatever they hold, if and only if the list, as far as there is room, begins like the row of all dumped registers |
| `CrashDumpReadback.GpmuListIsMisread` | qcom/opensource/graphics-kernel/adreno_a5xx_snapshot.c:341-408 | which it does not with lists that begin as the driver's tables do |
| `Counters.Counter.CounterDelta` | qcom/opensource/graphics-kernel/adreno.h:1631-1650 | result and stored reading for every register value; register 0 changes nothing |
| `Counters.Shortfall` | qcom/opensource/graphics-kernel/adreno.h:1631-1650 | over any run of reads less than 2^32 ticks apart the deltas fall short of the true ticks by exactly one for each wrap plus the intervals that start at a reading of 0 |
| `Counters.NeverOverCounts` | qcom/opensource/graphics-kernel/adreno.h:1631-1650 | so they never over-count, and are exact if and only if nothing wrapped and nothing was lost |
| `Interrupts.OrderIsDescending` | qcom/opensource/graphics-kernel/adreno.c:450-463 | the loop meets every set bit exactly once, from high to low |
| `Interrupts.CalledExactly` | qcom/opensource/graphics-kernel/adreno.c:453-459 | a handler is called if and only if it exists and its bit is in irq_mask when its turn comes, even if handlers change irq_mask |
| `Interrupts.Dispatcher.IrqCallbacks` | qcom/opensource/graphics-kernel/adreno.c:443-466 | the loop terminates, makes exactly those calls, and reports handled exactly if a bit was set |
| `IrqStorm.MasksExactly` | qcom/opensource/graphics-kernel/adreno_a5xx.c:2171-2189 | the interrupt is masked exactly when the number of repetitions in a row, cut to 32 bits, is 2 |
| `IrqStorm.NoFalseStorm` | qcom/opensource/graphics-kernel/adreno_a5xx.c:2147-2195 | if some other submission completes between any two callbacks, in whatever order preemption makes them complete, nothing is ever masked, and when the count is not 0 is said exactly |
| `IrqStorm.SequenceIsCounted` | qcom/opensource/graphics-kernel/adreno_a5xx_ringbuffer.c:144-241 | the unique value of submission n is n counted up from 0 in 32 bits |
| `IrqStorm.StormIsNoticedOnce` | qcom/opensource/graphics-kernel/adreno_a5xx.c:2172-2174 | a value that goes on being read masks again exactly when the 32-bit count comes back to 2; so a storm that has been acted on goes unnoticed for 2^32 - 1 callbacks or until another value is read |
| `IrqStorm.SuspendedMeansMasked` | qcom/opensource/graphics-kernel/adreno_a5xx.c:2119-2195 | in every interleaving of handler and worker steps the flag is set exactly when the bit is clear, in irq_mask and in the register, but for the moments in which one of them is on its way; a clear bit always has someone under way to set it |
| `IrqStorm.WorkerReopens` | qcom/opensource/graphics-kernel/adreno_a5xx.c:2119-2145 | from every reachable state outside the handler the worker's own steps open the interrupt again |
| `IrqStorm.Device.CpCallback` | qcom/opensource/graphics-kernel/adreno_a5xx.c:2147-2195 | an undisturbed callback |
| `IrqStorm.Device.IrqStormWorker` | qcom/opensource/graphics-kernel/adreno_a5xx.c:2119-2145 | an undisturbed worker pass |
| `PowerCounters.LanesAreIndependentExactly` | qcom/opensource/graphics-kernel/adreno_a5xx_perfcounter.c:246 | enabling a counter leaves the other lanes of its register alone, whatever they hold, if and only if no bit of the countable above the lowest byte stays in the register |
| `PowerCounters.CountersDoNotInterfere` | qcom/opensource/graphics-kernel/adreno_a5xx_perfcounter.c:230-251 | after any sequence of enables with any countables a counter's lane holds the low byte last given to it, or what it held before, together with every bit that has spilled over from other enables since; so it counts what it was given if and only if nothing spilled over but bits it had anyway |
| `PowerCounters.SmallCountablesDoNotInterfere` | qcom/opensource/graphics-kernel/adreno_a5xx_perfcounter.c:238-244 | countables of one byte, which are all that A530 and A540 accept, never spill |
| `PowerCounters.CheckedCountablesFit` | qcom/opensource/graphics-kernel/adreno_a5xx_perfcounter.c:238-244 | the two chips whose countables are checked only accept ones that fit |
| `PowerCounters.CountersHaveTheirOwnLane` | qcom/opensource/graphics-kernel/adreno_a5xx_perfcounter.c:604-623 | no two counters share register and lane |
| `PowerCounters.CountersShareSelectors` | qcom/opensource/graphics-kernel/adreno_a5xx_perfcounter.c:604-623 | counters 0 to 3 are the four bytes of the first select register and 4 and 5 the two low bytes of the second: after any enables that byte holds what the counter was given and what spilled over |
| `PowerCounters.OtherSelectorStays` | qcom/opensource/graphics-kernel/adreno_a5xx_perfcounter.c:604-623 | and an enable leaves the other select register alone |
| `PowerCounters.Group.Enable` | qcom/opensource/graphics-kernel/adreno_a5xx_perfcounter.c:230-251 | acceptance, the read-modify-write and the reset value |
| `Hibernation.SecurePagetable.Hibernate` | qcom/opensource/graphics-kernel/adreno.c:3458-3514 | for all outcomes of the hypervisor calls: process buffers are flagged even if unlocking failed and stay so on -EBUSY; globals are handed over up to the first that cannot be, and then rolled back |
| `Hibernation.SecurePagetable.Restore` | qcom/opensource/graphics-kernel/adreno.c:3516-3562 | succeeds exactly if every flagged secure buffer can be locked; otherwise each buffer is as before or taken back |
| `Hibernation.HibernateHandsOver` | qcom/opensource/graphics-kernel/adreno.c:3470-3499 | after a successful hibernate every secured buffer that is not from ION and was not yet with the kernel is flagged, and the kernel's if it could be unlocked; every secured global likewise; no other is touched; and it succeeds exactly if each such global can be unlocked |
| `Hibernation.RestoreTakesBack` | qcom/opensource/graphics-kernel/adreno.c:3525-3559 | after a successful restore every secured flagged global and every such buffer not from ION is secure and not flagged; no other is touched |
| `Hibernation.FailureUndoesGlobals` | qcom/opensource/graphics-kernel/adreno.c:3501-3513 | after a failure no secured global is flagged and each is secure again if it could be locked; others are untouched |
| `Hibernation.FailureIsNeutral` | qcom/opensource/graphics-kernel/adreno.c:3501-3513 | a failure whose rollback works leaves all globals as they were if and only if none was with the kernel before |
| `Hibernation.RestoreUndoesHibernate` | qcom/opensource/graphics-kernel/adreno.c:3458-3562 | a successful hibernate and a successful restore bring back every flag and owner if and only if no secured buffer was with the kernel to begin with |
| `Hibernation.FlagsTellTheTruthExactly` | qcom/opensource/graphics-kernel/adreno.c:3478-3481 | flags tell the owner after hibernate if and only if every process buffer could be unlocked |

## Left out

- Fine-grained preemption in the middle of an IB: the CP of the model switches between submissions only, so what a checkpoint inside an IB saves is not modelled.
- Resets and fault recovery: runs of the preemption machine go from one start to the next reset. A fault that is raised, or a status that is looked at with the power off, is recorded (`broken`), and progress is claimed only for runs without it.
- Fairness and time: `PreemptLost.NoSubmissionIsLost` says that the causes that are due can finish everything, not when they are taken. The dispatch timer is not modelled; it is what ends a stuck state, by a fault.
- Causes from outside the protocol: the dispatcher is also scheduled when a context queues work, a sync point fires, a storm ends or the hardware reports a fault. They may end a stuck state and are not counted as due.
- The inline counter submission (`adreno_a5xx_perfcounter.c:63-110`): its commands, their publication on ring 0 and its look at cur_rb are modelled; the direct register write outside the active state, the wait and the timeout behind it are not.
- The preemption timer: when it fires is open; in PreemptModel it may at any moment, in PreemptEvents once for every switch armed.
- The two reads in a submission's test (the state and cur_rb) are one action in PreemptLocks, and one submission is in its locked section at a time, because the dispatcher submits under the device mutex.
- a5xx_cp_callback returns early while a storm has its interrupt masked; PreemptEvents has it always run its trigger and schedule the dispatcher (`IrqStorm.NoFalseStorm` says why no storm is seen without one). In `PreemptEvents` only one submission is being written at a time, under the device mutex; that the dispatcher mutex also keeps draws out while a dispatcher pass runs is not used.
- PreemptDriver.Driver.RbStart: the start-up submissions (ME init, critical packets, leaving secure mode, the preemption init packets) are left out; the machine starts behind them, with the CP idle on cur_rb, SAVE_ADDR at its record and a yield passed.
- A switch to no context: the only one is adreno_set_active_ctxs_null when the GPU stops (`adreno.c:1625-1640`), which RbStart includes.
- Memory barriers below the step grain, and interrupts between the two halves of a 64-bit register write.
- The device mutex is modelled for the dispatcher pass and the worker only; other holders (power changes, snapshots) do not touch the modelled state between resets.
- PreemptTheorems.WptrRegisterStaysHome: takes the locked section of a submission as one action, which the per-ring lock does not always give; `PreemptLocks.LoadIsHomeExactly` says when it does and `PreemptLocks.StraySubmission` that it need not.
- Ringbuffers.Ringbuffer.AllocSpace: the sum of cursor and size is not cut to 32 bits; every caller in the driver asks for a few hundred dwords at most times the IB count.
- A5xxRingbuffer.AddCmds: the copy of the ring timestamp in the context, the profiling submit time and bus voting are left out; the read pointer is read once.
- A5xxProfiling.SlotsSurvive: says nothing about more than 256 profiling IBs in flight, which the code does not prevent either.
- GpmuLoader.Gpmu.LoadGpmuFirmware: requires a file of at least one dword, because the code reads its first dword before it looks at the size.
- SequenceFile.Limits.LoadRegfile: the lifetime of the file buffer is not modelled; on the error path the code releases a file that a recorded slice may still point into.
- CrashDump.CrashdumpInit: takes both buffers as allocated; the guards before the allocations are not modelled.
- CrashDumpReadback.SnapshotRegisters: the fallback that reads registers directly when there is no valid dump is left out.
- IrqStorm.Device.IrqStormWorker: the loop that waits for the status bit to go away has no bound in the code and is one step here.
- Interrupts.Dispatcher.IrqCallbacks: the status word is a set of bits; handlers are represented by what they do to irq_mask.
- Static tables (register lists, shader blocks, hardware clock gating) are parameters; their contents are not checked beyond being ordered pairs with lengths that fit a command.
- Device probe and bind, device tree, nvmem, regulators, clocks, SCM calls, input wake-up, coresight, sysfs and tracing: plumbing without a property of its own.
- The power and active count state machine, dispatcher queues and perfcounter allocation: they would need files of their own and add nothing to the properties above.

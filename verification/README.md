# FaultFinder: a verified model of the fault-run machinery

FaultFinder replays a program under an emulator and injects one fault in each replay. A campaign is a
counting run, a stats run that records every line (every instruction executed in the fault range), and
then one fault run for each rule. Four mechanisms save work, and each has to agree with the simple thing
it speeds up:

* **the hook-driven fault run**: faults, reverts and checkpoint restores stop and restart the emulator,
  and the numbering of the instructions has to survive (`Machine`, `Hooks`, `GoldenRun`, `StatsRun`,
  `Injection`, `FaultEffects`, `Aftermath`, `ExactlyOnce`, `Segments`, `Drift`, `RepeatedSkips`, `Lifespans`,
  `FaultedBytes`, `Resumes`, `Repeats`, `Endings`, `History`, and the class in `RunState`);
* **checkpoints**: where they are placed, how the table of nearest checkpoints is built, what is saved, and
  that going on from one is running from the start (`Placement`, `EaseOut`, `CheckpointTable`, `Snapshots`, `TwinRuns`,
  `Replay`, `Campaign`);
* **work distribution**: threads that take (range, instruction) items from one cursor under a lock, and the
  expansion of an item into runs, and what the campaign reports (`Work`, `Threads`, `Enumeration`,
  `Expansion`, `Results`);
* **state equivalence** and the supporting data structures: the table of hash classes, the pruning it
  drives, the fault-model parser, byte-wise instruction faulting and the compressed hit counter
  (`Equivalence`, `Pruning`, `LaterTests`, `LastingFaults`, `WorkItem`, `PcFaults`, `MixedLifespans`, `FaultFile`,
  `Utils`, `Bits`, `HitCounter`).

`Examples` has a small program in a mapped memory, and `Counterexamples` the inputs on which a property fails
without the condition its theorem asks for.

## How the emulator enters

The emulator is an environment. Executing one instruction is an abstract deterministic step
(`Program.exec`) on registers and mapped memory. Its dispatch contract is stated once, at the head of
`Hooks.dfy`: the code hooks that cover an instruction are called before it in the order of their
registration; a hook registered during a dispatch is visited in that dispatch; a deleted hook is not called;
a stop request ends the dispatch and the segment before the instruction is executed; a write to the program
counter ends the dispatch and execution goes on there. The source's own count corrections rely on this.

`Hooks` says what every callback does to a run, as functions, and how dispatches, segments and the restart
loop follow each other (`Step`, `Steps`). `RunState.CurrentRunState` has the fields of `current_run_state_t`
and a method for each callback, the dispatch loop, `my_uc_engine_start` and `get_on_with_it`; each is proved
to take the state where the function says. The table below lists those with a loop and the whole run; the
callbacks, which have none, are stated by the functions and by the theorems about them. A run also carries a
trail (`Trail`): how many in-range instructions it has gone past, the primary faults made, the tool's own
memory writes, and the restarts. The trail is history, read only by the statements.

`IsGolden` is the fault-free behaviour a campaign needs: the CPU at each dispatch, from the start address,
which is dispatched once, to the end address. After the fault, nothing at all is assumed about the program.
`Examples.HypothesesCanBeMet` gives a program that meets these hypotheses, with mapped stack and main memory and
hashes that read them.

## What came out of it

* A run ends exactly when every segment of the emulator does: on any program, for any rule and line table, the
  restart loop makes at most 2 + lifespan.count turns (`Segments.RunEndsIff`, `Segments.RestartsAreBounded`).
* With any number of threads the results of a campaign do not depend on the schedule
  (`Results.ResultsAreScheduleIndependent`).
* Byte-wise ADD is not word-wise ADD: they agree exactly when no carry has to leave a byte below the top one
  (`Counterexamples.AdditionLosesCarry`).
* Resuming at a recorded address is exact exactly on a core without a Thumb bit and on a 32-bit ARM core in
  Thumb state; the address recorded on any other ARM core is one too high (`Snapshots.ResumableIff`,
  `Counterexamples.ArmRestoresTooHigh`).
* A run is stopped and resumed to change an instruction. After the fault and after a revert that is exact on the
  same cores; after a repeated fault it is not for a Thumb instruction of four bytes, which is resumed in ARM state,
  and exact on a 64-bit ARM core for four bytes (`Resumes.FaultResumes`, `Resumes.RevertResumes`,
  `Repeats.RepeatResumes`, `Repeats.RepeatResumableIff`, `Counterexamples.WideThumbLosesState`).
* A skip lands one byte too far on a 64-bit ARM core, and changes a 32-bit one to Thumb state
  (`FaultEffects.SkipFaultDoes`, `Counterexamples.ArmSkipsTooFar`).
* The count is led astray by a restart asked for outside the fault range (`Drift.NoDriftIff`), as in
  `Counterexamples.RestartOutsideDrifts`, and by a repeated skip, by one for each repeat
  (`RepeatedSkips.RepeatsLeadAstray`); by nothing else.
* The nearest-checkpoint table is right exactly when the first placement is at least 1; with a rule range
  that starts at line 0 it can be 0, and is when there are fewer than 8/5 lines to each share
  (`CheckpointTable.BuildTable`, `Placement.PlacementsFit`); every restore then reads the table's entry 0, which
  nothing writes (`Counterexamples.PlacedOnLineZero`, `Counterexamples.RestoresLineZero`).
* The class key leaves out the last 256 bytes of the stack and the lifespan. Two states with one key are the
  same state exactly when those bytes agree; for faults of one line, of any targets, they always do, unless the
  line's own instruction lies there. Of lasting faults with one key nothing is lost by stopping all but the first
  (`LastingFaults.OneKeyOneEnd`, `WorkItem.WorkItemLosesNothing`). With mixed lifespans two runs of one class agree
  exactly as long as no revert makes a difference (`MixedLifespans.MixedLifespansDiffer`), and there are rules
  whose runs end differently (`Counterexamples.OneKeyTwoOutcomes`).
* A fault of the program counter that changes nothing shares a class with one of another register that changes
  nothing; its run counts the line twice, and is otherwise the same (`PcFaults.PcFaultLags`).
* The parser keeps a document exactly when no directive skips a level and every Masks line comes right after
  its Operation; any other document is refused or changed, as when a stale cursor puts a directive under an
  older parent (`FaultFile.StaleCursorMisplaces`).
* For an instruction target only the first opcode filter is looked at, so fewer runs are launched than are
  counted; `Enumeration.IsFull` says exactly when the numbers agree (`Counterexamples.SecondFilterIsIgnored`).

## Model

| member | source | states |
|---|---|---|
| Utils.BytewiseIsWordwise | shared/utils.c:463-518 | for AND, OR, XOR and SET and any number of bytes, the faulted bytes read as a little-endian word are the word-wise fault of the original word with the mask cut to that width |
| Utils.BytewiseAdditionIffNoCarry | shared/utils.c:463-518 | byte-wise ADD equals addition at the instruction's width if and only if no byte below the top one overflows |
| Counterexamples.AdditionLosesCarry | shared/utils.c:486-518 | adding 1 to the two bytes of 255 gives those of 0, where the word sum is 256 |
| Utils.TruncateIsMod | shared/utils.c:491-518 | the mask bytes the loop uses are the mask modulo 256 to the width |
| Utils.XorTwiceRestores | shared/utils.c:463-518 | faulting twice with one XOR mask gives the original bytes back |
| Utils.FaultInstruction | shared/utils.c:486-518 | the byte loop over arrays leaves the specified bytes in the output buffer and nothing else changed; `Bits.FaultBytesMean` says what these bytes are |
| Bits.BitwiseBits | shared/utils.c:467-472 | bit i of a bitwise result is the conjunction, disjunction or inequality of the operands' bits i |
| Bits.FaultRegMeans | shared/utils.c:463-484 | faulting a word: AND, OR, XOR and SET bit by bit, ADD and SKIP wrapping at 2^64, and the end of the process for every other operation |
| Bits.FaultBytesMean | shared/utils.c:486-518 | faulting an instruction: bit i of byte k meets bit 8k + i of the mask for AND, OR, XOR and SET; ADD wraps within each byte |
| Equivalence.TableRefinesMap | shared/state.c:31-96 | stored vectors are pairwise distinct, each class lists exactly the rules of the calls with its vector, in call order, and the fault counts add up to the number of calls |
| Equivalence.AnswerIffSeenBefore | shared/state.c:31-96 | the answer is yes if and only if an earlier call of the work item had the same vector |
| Equivalence.SameHashes | shared/state.c:34-41 | the comparison loop answers equality of the two vectors |
| Equivalence.EquivalenceTable.constructor | shared/run.c:798-798 | a work item starts with no calls recorded |
| Equivalence.EquivalenceTable.Reset | shared/run.c:951-966 | after a work item the table is that of no calls |
| Equivalence.EquivalenceTable.IsEquivalent | shared/state.c:31-96 | the table loop records the call and returns whether an earlier call had the vector |
| Hooks.CallGrows | shared/unicorn_hooks_faults.c:76-110 | a callback registers only hooks of smaller weight, so that a dispatch which visits hooks registered during it terminates |
| GoldenRun.FollowsGolden | shared/unicorn_hooks_std.c:135-151 | until its fault a run follows the fault-free run dispatch by dispatch, with exactly this machine state: hooks, handles, count, range flag and line table |
| StatsRun.GoldenRunEnds | shared/run.c:139-168 | a run without a rule ends at the end address, and its count is the number of in-range instructions |
| StatsRun.RecordsLines | shared/unicorn_hooks_stats.c:88-121 | each line passed is recorded in its own entry within the array, and no other entry changes |
| StatsRun.StatsRunRecords | shared/run.c:224-321 | with an array of total + 2 entries the stats run records the address and the size of every line and the snapshot of every flagged one, each in its own entry, and keeps the checkpoint table |
| Snapshots.LoadUndoesSave | shared/unicorn_engine.c:102-142 | restoring a snapshot brings back registers, Thumb state and every mapped byte, whatever the CPU was |
| Snapshots.SnapshotDetermines | shared/unicorn_hooks_stats.c:34-73 | two states have the same snapshot if and only if they are the same state |
| Snapshots.ResumableIff | shared/unicorn_hooks_stats.c:105-112 | starting at the recorded address leaves the state as it was if and only if the core is not ARM, or 32-bit ARM in Thumb state |
| Counterexamples.ArmRestoresTooHigh | shared/unicorn_hooks_stats.c:105-112 | a 64-bit ARM program whose checkpoint at address 4 is resumed at address 5 |
| TwinRuns.TwinSteps | shared/unicorn_engine.c:813-829 | two runs that differ only in the marks a restore leaves stay so for ever, on any program |
| Aftermath.FaultedPrefix | shared/unicorn_engine.c:633-692 | what a dispatch of a faulted run does up to the counting hook |
| Aftermath.FaultedSteps | shared/unicorn_hooks_fault_instructions.c:138-231 | on any program a faulted run never fires again, keeps its numbering up to the drift, and keeps within its restart budget |
| Injection.LineInjects | shared/unicorn_hooks_faults.c:76-110 | the dispatch of a rule's line makes the fault, for all three kinds of target |
| FaultEffects.RegisterFaultDoes | shared/unicorn_hooks_fault_registers.c:17-86 | a register fault changes one register, to the fault of its value, and the line is executed on that CPU, or the run goes on at the new program counter; its lifespan hook does nothing in that dispatch |
| FaultEffects.RefusedRuleAborts | shared/utils.c:480-484 | a rule whose operation its target does not know ends the process at its line, with no fault made and the CPU as it was |
| FaultEffects.SkipFaultDoes | shared/unicorn_hooks_fault_IP.c:15-31 | a skip goes on behind the line with nothing but the program counter changed if and only if the core is not ARM, or 32-bit ARM in Thumb state; memory stays in every case |
| FaultEffects.SkipHookDoes | shared/unicorn_hooks_std.c:153-179 | the hook of a skipped address goes past it, by the configured size or its own, with nothing else changed, if and only if the configured Thumb mode suits the core |
| Counterexamples.ArmSkipsTooFar | shared/unicorn_hooks_fault_IP.c:15-31 | on a 64-bit ARM core a skip of the instruction at address 4 goes on at address 9 |
| ExactlyOnce.FiresThereOnly | shared/unicorn_hooks_faults.c:83-96 | the primary hook finds its line at one dispatch of the fault-free run and at no other |
| ExactlyOnce.InjectsOnce | shared/unicorn_hooks_fault_instructions.c:87-135 | from either kind of start the run is the fault-free run up to its line, and has faulted exactly once from then on |
| ExactlyOnce.FaultsExactlyOnce | shared/unicorn_hooks_fault_IP.c:72-111 | from the start address: no fault before the k-th in-range instruction, exactly one from then on, at the k-th in-range instruction and its address; numbering and restart bound |
| Segments.RestartsAreBounded | shared/unicorn_engine.c:813-829 | for any program, rule and line table, with a checkpoint or without, a run makes at most 2 + lifespan.count restarts |
| Segments.RunEndsIff | shared/unicorn_engine.c:805-851 | for any program, rule and line table, a run ends if and only if every segment of the emulator does |
| Drift.NoDriftIff | shared/unicorn_hooks_fault_instructions.c:172-176 | for every rule that does not repeat skips, at every point past the fault of a run that was not aborted or stopped as equivalent: the count is the number of in-range instructions gone past (one more while the run goes on) if and only if every restart was asked for in the fault range |
| RepeatedSkips.RepeatsLeadAstray | shared/unicorn_hooks_fault_IP.c:34-63 | for a rule that repeats its skip, on any program: from the fault on the count is ahead of the in-range instructions gone past by the number of repeats the countdown has counted; no restart is asked for outside the range |
| Counterexamples.RestartOutsideDrifts | shared/unicorn_hooks_fault_instructions.c:190-231 | a program and a revert-2 rule whose revert comes outside the fault range: the count equals the instructions gone past where it should be one more, and the ended run has gone past two in-range instructions and reports one |
| Lifespans.RevertedFaultLives | shared/unicorn_hooks_fault_instructions.c:182-231 | a revert-n instruction fault: the tool writes the faulted bytes, then at most once the original bytes to the same place, after at most n in-range instructions and exactly n if none outside the range came between, and always if the run goes on past them; the hook is deleted exactly then, once; 1 <= live_counter <= n while it is installed |
| FaultedBytes.RevertedBytes | shared/unicorn_hooks_fault_instructions.c:15-71 | the site holds the faulted bytes when its fault was made and the original ones when the tool has written again; while the run's own instructions leave them alone, it holds the faulted bytes up to the revert and the original ones from then on |
| Lifespans.LivesSteps | shared/unicorn_hooks_fault_instructions.c:190-198 | the countdown invariant behind it: instructions lived plus live_counter is at most n, and exactly n in range |
| Resumes.FaultResumes | shared/unicorn_hooks_fault_instructions.c:124-135 | after an instruction fault the run goes on at the line with the faulted bytes in memory and otherwise unchanged if and only if the CPU is resumable |
| Resumes.RevertResumes | shared/unicorn_hooks_fault_instructions.c:215-231 | at every revert of an instruction, on any program: one turn of the restart loop later the run goes on at the interrupted instruction with the original bytes in memory and otherwise unchanged, Thumb state included, if and only if its CPU is resumable |
| Repeats.RepeatsOnTime | shared/unicorn_hooks_fault_instructions.c:138-180 | a fault repeated n times, of any target, on any program: live_counter is n less the repeats made, these are the dispatches that were due, up to n, the hook is installed exactly while fewer than n were made and deleted once; a due dispatch makes the fault again, on what the register, the bytes or the program counter hold then, and every other executes its instruction |
| Repeats.RepeatResumes | shared/unicorn_hooks_fault_instructions.c:166-180 | whenever an instruction fault is made again, one turn of the restart loop later the run goes on there with the new bytes in memory and otherwise unchanged if and only if starting at the recorded address leaves the CPU as it is |
| Repeats.RepeatResumableIff | shared/unicorn_hooks_fault_instructions.c:166-169 | that is so on a core that is not ARM, on a 64-bit core unless the instruction has two bytes, and on a 32-bit core that is in Thumb state exactly for an instruction of two bytes |
| Counterexamples.WideThumbLosesState | shared/unicorn_hooks_fault_instructions.c:166-169 | a Thumb instruction of four bytes whose repeated fault resumes the core in ARM state |
| Endings.FaultRunEndsAs | shared/unicorn_hooks_std.c:109-133 | whatever the faulted program does, the result of an ended run that was not aborted says where it ended: at the end address, at a hard stop, in a known state, or at an instruction that was trapped or left the emulator |
| Endings.OnlyFaultRunsHardStop | shared/unicorn_hooks_faults.c:154-171 | on any program a counting or stats run is never ended by a hard stop |
| Replay.RestoreVisit | shared/unicorn_engine.c:90-169 | the start hook of a restoring run never meets a missing snapshot, and leaves the CPU, count, flag and hooks of the checkpoint's line |
| Replay.RestoresCheckpointInTwo | shared/unicorn_engine.c:154-168 | one dispatch and one turn of the restart loop bring a run to its checkpoint, with the fault-free CPU if and only if that CPU is resumable |
| Replay.ReplayRefines | shared/unicorn_hooks_std.c:100-107 | once the restored line was dispatched, the run from the checkpoint and the run from the start agree for ever, dispatch by dispatch, in registers, memory, count, flag, hooks and rule, and from the fault on in the run state |
| Replay.ReplayEndsTheSame | shared/run.c:731-733 | if the run from the start ends, the run from the checkpoint ends with the same outcome |
| Replay.RestoredFaultsExactlyOnce | shared/unicorn_engine.c:813-829 | with a checkpoint too: one injection at the line and its address, the numbering kept, at most 2 + lifespan.count restarts |
| History.CloseDeletesAll | shared/unicorn_engine.c:854-950 | closing a tidy run deletes each hook exactly once and leaves every handle 0 |
| History.OverwritingLeaks | shared/unicorn_engine.c:40-54 | registering a hook loses one for good if and only if its handle was still in use |
| History.RunLeavesNothing | shared/unicorn_engine.c:854-950 | after any fault run every hook was deleted once, every handle is 0, no restart is pending and the line table is unchanged |
| History.NextRunIsFresh | shared/unicorn_engine.c:447-459 | the run after it goes as on a fresh state, step by step |
| History.RunsAreIndependent | shared/run.c:708-791 | one run on what another left: it goes as on a fresh state and leaves the state clean for the next |
| History.AllRunsAreIndependent | shared/run.c:793-950 | any number of runs in a row whose segments end: each comes to what it comes to on a fresh state with the line table and the class table of its turn, and leaves the state clean |
| Campaign.StatsRunFeedsRuns | shared/run.c:566-639 | after table and stats run every line is recorded and the table is still right |
| Campaign.RestoreIsReady | shared/unicorn_engine.c:80-100 | whenever a run would restore, its nearest checkpoint is a flagged line not after its own, with a saved snapshot |
| Campaign.EveryFaultRun | shared/run.c:708-733 | every run of a campaign, with or without checkpoints: one injection at its line and address, numbering, at most 2 + lifespan.count restarts |
| Campaign.CompletedRun | shared/run.c:708-791 | a run whose segments end, closed, on whatever clean state: it has ended, its fault made once at its line, at most 2 + lifespan.count restarts, every hook deleted once, nothing pending |
| Campaign.NumberingIsConserved | shared/unicorn_hooks_std.c:135-151 | with restarts in range and no repeated skips the count is one more than the in-range instructions gone past, through every kind of restart; an ended run reports their number |
| Examples.HypothesesCanBeMet | shared/unicorn_engine.c:616-628 | a program with mapped stack and main memory, and hashes that read them, meets the hypotheses of the theorems together: the fault-free run, the kept mapping, resumable lines, injective hashing, a mapped line |
| Pruning.SameKeyIff | shared/state.c:100-135 | with injective hashing two states have one key if and only if registers, Thumb state and every hashed byte agree |
| Pruning.SameKeySameStateIff | shared/state.c:119-125 | two states with one key are equal if and only if the last 256 stack bytes agree where no other region holds them |
| Pruning.StackTailIsNotSeen | shared/state.c:121-121 | a change in those bytes does not change the key |
| Pruning.StopsIffKnown | shared/unicorn_hooks_fault_registers.c:74-85 | a register fault's run is stopped if and only if its state has a class already, and its rule is recorded there either way |
| Pruning.SameClassSameOutcome | shared/unicorn_hooks_fault_registers.c:60-84 | two register faults of one line with one key, both for ever, both reverted alike or both repeating the same fault, and both on the program counter or neither, go the same way to the end |
| Pruning.FirstRunIsWhole | shared/unicorn_hooks_fault_registers.c:74-85 | the first run of a class goes on as it would without the test, for every register rule and lifespan |
| Pruning.PruningLosesNothing | shared/state.c:31-68 | for such a pair, what a stopped run would have come to is, step by step, what the first run of its class comes to |
| LaterTests.LaterRunRecords | shared/unicorn_hooks_faults.c:62-74 | a run of an instruction fault or a skip is tested once, in the first dispatch that gets to the test; its rule is recorded under the key of that CPU and it is stopped if and only if the key was known; a run that never gets there is neither |
| LastingFaults.OneKeyOneEnd | shared/unicorn_hooks_fault_instructions.c:87-135 | two lasting faults of one line, of any targets, tested under one key that was new to the first: where the first run ends, the second without the test ends with the same CPU and result; the line's instruction must not lie in the last 256 stack bytes, unless both are register faults |
| PcFaults.PcFaultLags | shared/unicorn_hooks_fault_registers.c:17-36 | a lasting fault of the program counter and one of another register with one state: neither changed anything, and the first run is from then on where the second is, one step later and with a count one higher |
| WorkItem.WorkItemLosesNothing | shared/run.c:798-950 | a whole work item of faults of any targets, run in order on one state: for every stopped run there is an earlier one, not stopped, tested under the same key, and without the test the stopped run would have ended with that run's last CPU and result; pairs with one key are lasting faults, or register faults reverted or repeated alike |
| MixedLifespans.RevertsOnTime | shared/unicorn_hooks_fault_registers.c:88-132 | a reverted register fault is written back at the count-th dispatch its countdown counts, only then, with what the register held at the fault |
| MixedLifespans.MixedLifespansDiffer | shared/unicorn_hooks_fault_registers.c:88-132 | two faults of one line with one state, each for ever or reverted after a count of its own: their runs agree all the way if and only if no revert on the way makes a difference to the instruction it comes before |
| MixedLifespans.RevertDecides | shared/unicorn_hooks_fault_registers.c:60-132 | a lasting fault against a reverted one: they agree up to the revert; the states after it are the same if and only if the register held its original value; and the runs agree from there on if and only if the instruction does the same on both |
| Counterexamples.OneKeyTwoOutcomes | shared/unicorn_hooks_fault_registers.c:60-132 | with hashing that has no collisions, a program and two rules of one line with one key whose runs end with different CPUs |
| CheckpointTable.BuildTable | shared/run.c:208-308 | for any placement function that escapes: the table is right if and only if the first placement is at least 1; then the flagged lines are placements, their number is the reported one and at most the request, and rising placements are all flagged; otherwise every entry names line 0 |
| CheckpointTable.NearestIsGreatest | shared/run.c:274-305 | the table's meaning: the greatest flagged line from 1 to i |
| Placement.PlacesRise | shared/run.c:112-136 | placements do not decrease up to the one after the last |
| Placement.PlaceIsEased | shared/run.c:112-136 | for any curve, a placement reaches line m if and only if the eased share of the lines does: it is the last line that share reaches |
| Placement.LaterShareLaterPlace | shared/run.c:112-136 | an eased share that is larger by a line gives a strictly later placement |
| EaseOut.EaseOutIsEase | shared/run.c:107-110 | the curve 1 - (1 - x)^(5/4) runs from 0 to 1, never decreases, stays on or above the diagonal and is nowhere steeper than 5/4 |
| EaseOut.PlaceIsExact | shared/run.c:107-136 | with that curve the c-th of k checkpoints over n lines reaches line m if and only if (k + 1 - c)^5 n^4 <= (n - m)^4 (k + 1)^5 |
| EaseOut.OneOverHundred | shared/run.c:107-136 | one checkpoint over 100 lines from line 1 on is placed on line 57 |
| Placement.PlaceIsAhead | shared/run.c:112-136 | each placement is at least its even share of the lines, c * n / (k + 1) |
| Placement.PlacesCover | shared/run.c:112-136 | the placement after the last is the last line to be faulted; with a checkpoint for each line they enumerate the lines |
| Placement.GapIsBounded | shared/run.c:107-136 | neighbouring placements are at most floor(5n / (4(k + 1))) + 1 lines apart |
| Placement.FaultRange | shared/run.c:568-593 | the loop over the ranges finds the least and greatest line, and the request is cut to the lines between |
| Placement.PlacementsFit | shared/run.c:587-593 | with clipped requests the placements rise within the fault range; the first is at least 1 if the range starts there or has two lines to each share, and it is line 0 if the range starts there with fewer than 8/5 lines to each share |
| Counterexamples.PlacedOnLineZero | shared/run.c:107-136 | a rule range from line 0 to 1 with one evenly placed checkpoint: it is placed on line 0 |
| Counterexamples.RestoresLineZero | shared/unicorn_engine.c:80-100 | a run whose nearest checkpoint is line 0 does restore, and the process ends if and only if the never written entry 0 holds no flag or no snapshot |
| FaultFile.ParsesNested | shared/fileio.c:343-577 | for a document that skips no level, each cursor is the last node of its list, deeper lists are empty, and the tree is the document |
| FaultFile.KeepsDocumentIff | shared/fileio.c:379-577 | preorder traversal gives the document back if and only if it skips no level, Masks follow their Operation and every value is valid |
| FaultFile.StaleCursorMisplaces | shared/fileio.c:379-404 | after any file that reached an operation, a second Instructions line and an Operation are accepted, and the tree is that of the file in which the Operation comes first |
| FaultFile.RefusesIff | shared/fileio.c:343-577 | the parser refuses a line exactly if the line it belongs under is missing, a range ends before it starts, a lifespan has a count without a mode, an operation is unknown, or it is a Flags line |
| FaultFile.ParseFile | shared/fileio.c:343-577 | the line loop with five cursors builds that tree, or refuses where the source does |
| Enumeration.LaunchesAreBounded | shared/run.c:641-706 | the runs launched for a line are at most the count made in advance, and as many if and only if every target is full for the line |
| Expansion.LaunchesArePositions | shared/run.c:793-950 | the runs of a work item are those for the places of the tree, each once, in nested order: a target, a register set in the rule and forced or used by the instruction, a filter that lets it through (the first one for an instruction target), a lifespan, an operation and a mask, whose values they hold |
| Expansion.RulesArePositions | shared/run.c:811-935 | the rule each of these runs is started with holds exactly the values of its place: instruction, target, register, filter, lifespan, operation and mask |
| Counterexamples.SecondFilterIsIgnored | shared/run.c:906-940 | an instruction target with two opcode filters, on an instruction that only the second matches: two runs are counted and none is launched |
| Enumeration.RunTheActualFault | shared/run.c:793-950 | the nested loops launch exactly the specified runs, in order, within the bound |
| Enumeration.CountFaults | shared/run.c:641-706 | the counting loops compute the specified count |
| Work.MovingTakesOne | shared/thread_management.c:48-61 | moving the cursor takes exactly the first remaining item |
| Work.InitialIsAll | shared/thread_management.c:15-46 | the initial cursor has the whole work list before it |
| Work.ConsumeContext.constructor | shared/thread_management.c:15-46 | the context starts at the first instruction of the first range |
| Work.ConsumeContext.MoveToNext | shared/thread_management.c:48-61 | the new cursor is the old one moved on by one item |
| Work.ConsumeContext.FaultItAlone | shared/run.c:464-489 | a thread alone runs the whole list in order; it ends the process if and only if an item is beyond the last line |
| Threads.StepKeepsInv | shared/run.c:464-489 | every step of every thread keeps: run plus held plus remaining items are the list, one thread at most between lock and unlock, and what it read is the current item |
| Threads.EveryThreadTerminates | shared/run.c:464-489 | every interleaving is finite, with a bound on its length |
| Threads.SomeThreadCanStep | shared/run.c:464-489 | no reachable state is stuck before all threads are done |
| Threads.NoItemIsRunTwice | shared/run.c:464-489 | at no point has an item been run more often than it is in the list |
| Threads.EachItemIsRunOnce | shared/run.c:464-489 | when all threads are done each item was run exactly as often as it is in the list |
| Threads.ScheduleIndependent | shared/run.c:610-639 | under every interleaving of any number of threads the runs launched are those of the single-threaded enumeration, as a multiset |
| Results.ResultsAreScheduleIndependent | shared/run.c:464-489 | under every interleaving of any number of threads, whichever thread ran which item and on whatever clean state, for rules of recorded lines whose segments end: the results reported, each with its rule, last CPU, run state and count, are those of the single-threaded enumeration with every item on an unused state, as a multiset |
| Threads.EndsOnlyBeyond | shared/run.c:478-484 | the process is ended only for an item beyond the last line, and no execution with one ends with all threads done |
| HitCounter.AddressHitCounter.constructor | shared/run.c:146-149 | the counter starts with nothing seen |
| HitCounter.AddressHitCounter.See | shared/unicorn_hooks_std.c:18-45 | after any trace the fields are the least and greatest address and the least divisor from 2 on of any address |
| HitCounter.AddressHitCounter.Allocate | shared/run.c:166-172 | the array allocated from them counts nothing yet |
| HitCounter.AddressHitCounter.Hit | shared/utils.c:290-296 | the index is in bounds, the counters keep summing to the number of hits, and the value returned is the address's own count when all hits are aligned |
| HitCounter.BucketIsOwnCountIff | shared/utils.c:290-296 | the value is the address's own count if and only if no other address hit shares its index |
| RunState.CurrentRunState.CallHooks | shared/unicorn_engine.c:633-692 | the emulator's loop over the hooks, growing while it runs, is one dispatch |
| RunState.CurrentRunState.UcEmuStart | shared/unicorn_engine.c:805-811 | if the emulator comes back, one segment is the steps up to the first after which the run is not running |
| RunState.CurrentRunState.MyUcEngineStart | shared/unicorn_engine.c:813-851 | if every segment ends, the restart loop terminates, and with the final count correction takes the run to its outcome |
| RunState.CurrentRunState.UcDeleteAllHooks | shared/unicorn_engine.c:854-950 | each handle in use is deleted once, in order |
| RunState.CurrentRunState.GetOnWithIt | shared/run.c:708-791 | one fault run, from the clean state the last one left to the closed one, if every segment ends: it comes to its outcome; for a rule of a recorded line its fault was made once, at its line, and afterwards no handle, no live hook and no pending restart is left and the line table is as it was |

## Left out

- The emulator and the disassembler: instruction semantics, translation cache, register and CPU name tables. They are the abstract step and the dispatch contract above.
- JSON configuration, printing, result files, timing and timeouts, `max_instructions`, memory allocation.
- The timing mode that restores the checkpoint at three quarters of the run (shared/unicorn_hooks_std.c:83-99).
- The skip hooks and the hard-stop hooks are one hook each with a set of addresses; patches and inputs are part of the loaded image.
- The hook that feeds the hit counter in the counting run is a placeholder hook in the run model, since it changes nothing in the run; the counter itself is `HitCounter`. The hit count column of the line table is not modelled.
- Counters and addresses are unbounded naturals. The unsigned decrement of `live_counter` wraps as in the source; faulted words wrap at 64 bits.
- Hook callbacks outside the code hooks (interrupt, invalid memory, invalid instruction) are the traps of `Program.exec`.
- The branch of the register revert that reverts an instruction pointer (shared/unicorn_hooks_fault_registers.c:121-127) is never reached: the hook is registered for register targets only.
- Masks on instructions longer than 8 bytes: the source shifts a 64-bit mask by 64 bits or more there; the model reads zero bytes.
- A stack region smaller than 256 bytes: the source's size for hashing wraps around; the model hashes nothing of it.
- Lines beyond the end of the line table: the source writes or reads outside the array; `StatsRun.RecordsLines` shows that this does not happen in a stats run.
- Character-level tokenising of the fault file, including the expansion of shifted masks: the parser starts from classified directives with their values.
- A fault file without an Instructions line: the source's run list is allocated without being zeroed (shared/fileio.c:336), so that its head is undefined; the head of the model's empty tree is None.
- The five node types of the fault tree are one node type that holds its directive; pointers are positions in allocation order. `Enumeration` starts from the tree as nested sequences, without the parser's pointers.
- The line table of `CurrentRunState` is a sequence field updated by index, not the array the threads share.
- The fields `force` and `faulted_address` of a rule keep values from earlier runs in the source; no callback reads them.
- Drift.NoDriftIff: does not cover repeated skips, whose callback counts the skipped instruction twice; they are `RepeatedSkips.RepeatsLeadAstray`, which starts from a rule of a recorded line.
- EaseOut.PlaceIsExact: the single-precision floats of `ease_out` and `get_next_checkpoint_number` are real numbers, so that a placement whose eased share is within a rounding error of a whole line may differ by one.
- CheckpointTable.BuildTable: what the placement function returns past its last checkpoint is left open; it must only not return one line for ever.
- RunState.CurrentRunState.MyUcEngineStart: that each segment of the emulator ends is a hypothesis, since the emulated program may loop; that the run then ends is proved. The state it starts on is one no callback is running on (`Segments.Waits`), as `SetUp` leaves it.
- Pruning.SameClassSameOutcome: is about register faults; for lasting faults of the other targets see `LastingFaults.OneKeyOneEnd`.
- MixedLifespans.MixedLifespansDiffer: the two faults are both on the program counter or both not, and neither is repeated; a fault of the program counter against one of another register is covered when both last for ever (`PcFaults.PcFaultLags`).
- WorkItem.WorkItemLosesNothing: of two rules with one key only lasting faults, and faults of one register with one lifespan (and one mask and operation if repeated), are judged; mixed lifespans are `MixedLifespans.MixedLifespansDiffer`, and reverted or repeated instruction faults and skips are not covered. That every segment ends, and no run ends the process, is a hypothesis.
- Registers that overlap, as AL, AX, EAX and RAX or IP, EIP and RIP do on x86: each register of the model is an entry of its own, so a write to one does not change another or move the program counter.

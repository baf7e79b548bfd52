# A model of a two-wide out-of-order RV32IM core

The repository describes a two-wide out-of-order RV32IM core in SystemVerilog, with generators for
its adders and a C++ simulator that checkpoints and interprets the same instructions. This project
models the parts in which the core's correctness is decided and proves what they are for:

| part | modules | main results |
|---|---|---|
| register renaming, reorder buffer, recovery | `RenameMachine`, `RenameTables`, `EmptyBank` | the tables are always what an in-order machine computes from the events so far; free, committed and in-flight registers partition the register file; a recovery is a replay of the retired instructions; exactly when the serializing path breaks this, and a run that gets there |
| issue | `FindFirstSet`, `Scheduler`, `Wakeup`, `CompletionPort`, `InFlight`, `Dataflow` | the matrix is the age order and selection takes the oldest ready slot, with a bounded wait; operands are ready exactly when their value can be had, and what is delivered is current; never two claimants of the shared port; rename, wakeup and port together keep what each relies on, and every operand is the value program order gives it |
| first-level data cache | `StoreCommit`, `L1dMachine`, `L1dCoherence`, `L1dOrder`, `L1dRequests`, `L1D` | over a whole run loads return what executing the stores before them in order gives; stores are written once, in order and only after retiring; every request is answered once |
| second-level cache | `L2Cache` | refines a flat memory under hits, misses, write-backs and flushes |
| arithmetic | `Bits`, `Multiplier`, `PrefixAdder`, `Divider` | for every width: the partial-product array and carry-save chain multiply; both generated adders add; the divider meets section 7.2 of the RISC-V Unprivileged ISA except for one family of requests |
| fetch | `FetchQueue`, `Fetch` | what is queued is one unbroken predicted path through the program in memory |
| register restore | `RestoreCode` | the emitted code, run on the interpreter, restores the registers; exactly which values cannot be encoded |

A clocked block is a class whose fields are its registers, grouped into records; one method is one
clock. The specification is a pure function or predicate on those records, and the class invariant
ties the registers to it. Generic parameters (widths, latencies, queue depths) stay free where the
source is generic or where the property does not depend on them.

## Conventions

* A bit vector is a sequence of booleans, least significant bit first; `Bits.Value` and
  `Bits.Signed` are the numbers it stands for. Registers that the source treats as numbers are
  naturals below the power of two of their width, with wrap-around written out.
* What a block sees from outside in one clock is one `Input` value. A predicate such as
  `Wakeup.Surroundings`, `L1dOrder.CoreOk` or `L1dCoherence.MemoryOk` says what the neighbouring blocks
  guarantee; nothing else is assumed of inputs. `InFlight.EveryClock` proves the first from the other
  blocks, `StoreCommit.DataIsThere` the part of the second that concerns drains.
* RAMs are read-first: an output register shows the word from before a write of the same clock.
* Ghost fields hold what the hardware does not store: the trace of rename events, the memory behind
  a cache, the log of answered requests, the path fetched so far.

## Where the source falls short of what it promises

* `core.sv:986-991`: the serializing path allocates whenever any register is free, although the
  allocator looks at one bank only. `RenameTables.RenameTables.Clock` proves that the tables stay
  right if and only if that bank is not empty at such an allocation; `EmptyBank.Reach` clocks the
  reset block, on a program of ordinary instructions and one serializing one, to where it is empty.
* `divider.sv:171-174`: a signed quotient with divisor zero and a negative dividend comes out as 1
  where the architecture says -1. `Divider.MeetsArchitecture` proves this is the only family.
* `saveState.cc:94`: rounding up overflows `int` for values with bit 11 set from 0x7ffff800 on;
  `RestoreCode.EncodableExactly` proves these are the only ones.
* `l1d.sv:1284-1289`: the wait for an unfinished write to the same set is
  never reached (`L1dCoherence.MissesProceed`).

## Model

| member | source | states |
|---|---|---|
| `RenameMachine.ReachableInv` | core.sv:1171-1186 | in every reachable state the retirement table is injective with register 0 at 0, its free list is the exact complement of its image, every live destination is fresh and distinct, the speculative table is the retirement table with the live entries applied in order, and each old destination is the mapping just before its entry |
| `RenameMachine.Partition` | core.sv:1785-1801 | free registers, committed registers and live destinations are pairwise disjoint and together are all 64 registers |
| `RenameMachine.FreeCount` | core.sv:1836-1858 | no physical register is ever lost or duplicated: free plus live destinations is always 32 |
| `RenameMachine.SpeculativeMapSafe` | core.sv:1221-1275 | the speculative table never names one register twice and never names a free one |
| `RenameMachine.SourcesNotReallocated` | core.sv:1300-1318 | a register that any live instruction can read stays off the free list until that instruction has left |
| `RenameMachine.RecoveryIsReplay` | core.sv:1183-1184 | copying the retirement tables back gives exactly the state of the run that renamed only the retired instructions |
| `RenameMachine.CrowdRun` | core.sv:1803-1834 | a legal run in which each register is the highest free one of its parity, at the end of which registers are free but none of them is even |
| `RenameTables.AllocateRefines` | core.sv:1374-1394 | writing table, free list and buffer entry for one uop is one allocation event of the in-order machine |
| `RenameTables.CommitRefines` | core.sv:1300-1309 | committing the head entry is one retirement event of the in-order machine |
| `RenameTables.SourcesInOrder` | core.sv:1232-1252 | although both uops of a pair read the table of the same cycle, the second gets the mapping the first leaves behind |
| `RenameTables.AllocateUpToTwoFollows` | core.sv:1254-1273 | one or two allocations of a cycle are one or two events in program order, also when both write one logical register |
| `RenameTables.CommitUpToTwoFollows` | core.sv:1300-1318 | one or two retirements of a cycle are one or two events in program order, also when both free mappings of one logical register |
| `RenameTables.CycleFollows` | core.sv:1836-1858 | allocation, retirement and completion in the same cycle together follow the in-order machine |
| `RenameTables.RecoverFollows` | core.sv:1797-1798 | the recovery copy is one recovery event |
| `RenameTables.NotFree` | core.sv:1836-1840 | taking register 0, the answer of an empty bank, is never a legal allocation |
| `RenameTables.PointerCount` | core.sv:1676-1766 | the six-bit head and tail pointers and their successors stay consistent and count the live entries under up to two pushes and two pops |
| `RenameTables.RenameTables.Rename` | core.sv:1254-1318 | allocation and retirement extend the trace by exactly the events of the controls and keep the tables equal to its result |
| `RenameTables.RenameTables.CopyBackTables` | core.sv:971-985 | recovery empties the buffer, appends one recovery event and keeps the tables equal to the result of the trace |
| `RenameTables.RenameTables.RenameMissedBank` | core.sv:986-991 | after an allocation from an empty bank the tables match no legal run |
| `RenameTables.CompletionsAreOwn` | core.sv:1455-1493 | a buffer entry is complete by its own last report or else as filling it left it, and its store data is there when it arrived or none was wanted: what a slot held before never counts for a new instruction, and no report is lost |
| `RenameTables.EntryIsOwn` | core.sv:1374-1444 | the fault and kind bits of every entry come from its own uop and its own reports, in the order the ports overwrite them |
| `RenameTables.RenameTables.Clock` | core.sv:843-1008 | each clock appends exactly the events the state before it asks for: one or two instructions retire exactly when they are finished, fault-free or restarting, and may go together; uops are renamed exactly when they fit, each with the highest free register of its bank; entries and state change as their own reports and inputs say; a serializing instruction has the machine to itself; and the tables stay what the in-order machine computes if and only if the serializing path did not allocate from an empty bank |
| `EmptyBank.Issue` | core.sv:1803-1834 | while the even bank is selected an instruction is given the highest free even register, by the clocked selector |
| `EmptyBank.Reach` | core.sv:986-991 | clocking the freshly reset block with single instructions on even-bank cycles, each completed and retired, and then a serializing one reaches an allocation from an empty bank |
| `EmptyBank.Break` | core.sv:986-991 | one clock later the tables match no legal run |
| `InFlight.PushManyOk` | core.sv:1221-1275 | renaming keeps the books: exactly what the new instructions write becomes awaited, all of it was free, and their sources are mappings in force before them |
| `InFlight.PopManyOk` | core.sv:1300-1318 | retiring finished instructions changes neither what is awaited nor what the remaining ones read |
| `InFlight.SurroundingsHold` | exec.sv:1520-1557 | everything `Wakeup` relies on follows from the state of rename, schedulers and completion port: a register handed out is not in flight and nothing waiting reads it, results arrive only for registers in flight and never two for one, one unit claims the shared port |
| `InFlight.NextCoupled` | exec.sv:1520-1557 | through renaming, results, selection, retirement, drain and recovery, a register is in flight exactly while an unfinished live instruction is going to write it, and waiting instructions read mappings in force before them |
| `InFlight.EveryClock` | exec.sv:1520-1557 | in every clock of every run from reset the surroundings of `Wakeup` and its invariant hold |
| `Dataflow.MappedValue` | core.sv:1221-1275 | whatever register a mapping names holds the value program order gives the logical register, unless its writer is still to finish |
| `Dataflow.NextDataOk` | exec.sv:1520-1557 | through results, renaming, retirement and recovery every retired mapping holds its architectural value and every finished live instruction's register its result |
| `Dataflow.EveryOperand` | exec.sv:2172-2186 | in every clock of every run from reset each selected instruction gets, for each logical register it reads, the result of the youngest instruction before it in program order that writes that register, or what the retired ones left |
| `FindFirstSet.Select` | find_first_set.sv:16-53 | the circuit returns the highest set index; with none set 7 from the four-bit leaf and the width from larger instances |
| `Scheduler.SelectsEarliest` | exec.sv:813-816 | whenever a slot is ready the oldest-ready vector has exactly one bit, at the ready slot filled first, and that slot is selected |
| `Scheduler.FreeSlotIsFree` | exec.sv:684-694 | unless all slots are taken, the slot chosen for an allocation is a free one |
| `Scheduler.NextAgeOrder` | exec.sv:817-832 | across allocation, selection, slot reuse and flush the matrix marks slot j in row i exactly when j was filled before i, for all valid i and j |
| `Scheduler.NextTurnsOver` | exec.sv:817-857 | a clock gives up the selected slot, empties all on a flush, keeps every other instruction with its wakeups, and fills one free slot if asked to |
| `Scheduler.PassedOver` | exec.sv:964-989 | a ready slot that is not selected stays valid and ready and has exactly one slot fewer before it |
| `Scheduler.BoundedWait` | exec.sv:957-989 | a slot whose operands are ready is selected within one cycle per older slot plus one, fewer cycles than there are slots plus one, while its unit is enabled and no flush comes |
| `Scheduler.Matrix.Clock` | exec.sv:1289-1328 | one clock selects, if any can go, the slot filled first among those that hold an instruction whose unit is free and whose operands have been or are being woken; it is given up, the others stay and remember their wakeups, and a new instruction takes exactly one free slot |
| `Wakeup.NextInv` | exec.sv:1520-1557 | an unready source of a waiting entry is in flight or its broadcast is visible now, a ready one is not in flight, through pushes, allocations, selections, every producer and flushes |
| `Wakeup.ReadyExactly` | exec.sv:876-908 | an operand of a waiting entry may be used exactly when its register has left flight or its result is on a bypass now: no wakeup is lost, none is early |
| `Wakeup.ResultsLand` | exec.sv:2237-2247 | the result of each of the five units reaches the register file, and a register without a result keeps its word |
| `Wakeup.NextKept` | rf6r3w.sv:49-63 | the register file is always the record of the last values produced, with register 0 reading as zero |
| `Wakeup.EntriesTurnOver` | exec.sv:911-957 | an entry is taken by what is put there, given up when selected or flushed, and keeps its sources meanwhile |
| `Wakeup.DeliveredIsCurrent` | exec.sv:626-658 | whatever is usable reaches its consumer with the last value any unit produced for its register, this clock included |
| `Wakeup.OperandsCurrent` | exec.sv:2172-2186 | both operands of every selected instruction are the last values produced for their registers |
| `Wakeup.Operands.Clock` | rf6r3w.sv:49-63 | the registered bypass selects, the read-first register file and the operand multiplexers of both ALUs deliver the last value recorded for the register |
| `CompletionPort.NextInv` | exec.sv:610-622 | every bit of the reservation register stands for exactly one multiplier or divider completion that many cycles ahead, and what was selected has its cycle reserved or free |
| `CompletionPort.InvExclusive` | exec.sv:2237-2247 | bit 0 is set exactly when the multiplier or the divider completes, and then the ALU does not write |
| `CompletionPort.NeverTwoClaimants` | exec.sv:1386-1393 | in every cycle of every run, for every multiplier latency and operand width, at most one of ALU, multiplier and divider drives the port, and the divider is idle whenever it is started |
| `CompletionPort.StartsComplete` | exec.sv:2271 | a multiplication claims the port `lat + 1` cycles after it starts and a division `w + 2`, whatever happens meanwhile |
| `CompletionPort.SelectedUnlessTaken` | exec.sv:896-902 | a candidate is turned away exactly when its result would meet another one at the port, or when it is a division and the divider is taken |
| `CompletionPort.StartsUnlessFlushed` | exec.sv:1672-1702 | the instruction in its execute cycle starts its unit unless a flush is on, and nothing else does |
| `CompletionPort.Port.Clock` | exec.sv:896-902 | the shift register loop computes the specified next state |
| `L1dCoherence.MissesProceed` | l1d.sv:1106-1169 | every miss of port 1 goes ahead at once: no request is forgotten and the wait state is unreachable |
| `L1dCoherence.MissesFinish` | l1d.sv:1290-1322 | a miss is over after at most one write-back and one fill: every clock outside a wait for the next level brings the same request closer to its hit |
| `L1dCoherence.NextControl` | l1d.sv:1027-1322 | the flags of both ports, the lock and the miss machine stay consistent, and a request in port 2 always finds room in the queue |
| `L1dCoherence.NextData` | l1d.sv:1290-1322 | a valid clean line equals the next level, port 1 holds the current contents of its set, and evict-then-fill leaves the set as the miss machine expects in every state |
| `L1dCoherence.ViewChanges` | l1d.sv:880-901 | the memory presented changes only by the store port 1 writes; misses, write-backs and fills change nothing |
| `L1dCoherence.DisjointStores` | l1d.sv:832-834 | stores that touch no byte of a load leave the load's bytes alone, whatever their data |
| `L1dCoherence.DifferentWords` | l1d.sv:1060 | the word-address test is sound when neither access is unaligned |
| `L1dCoherence.ForwardedLine` | l1d.sv:999-1004 | a line looked up while a store to it is being written is replaced by the written line |
| `L1dCoherence.NextLookedUp` | l1d.sv:486-518 | the comparison bits of a looked-up load cover every store before it, queued, popped or not yet queued |
| `L1dCoherence.Load2SeesOlderStores` | l1d.sv:1060-1070 | a load answered on port 2 returns what it would return had every earlier accepted store been written, for all data those stores may carry |
| `L1dCoherence.Load1SeesMemory` | l1d.sv:1098-1104 | a load answered on port 1, also one answered early as its line arrives, returns the memory as written so far |
| `L1dOrder.PendingNext` | l1d.sv:359-375 | the unfinished requests form one queue across retry queue and port 1, through misses, evictions and reloads |
| `L1dOrder.Answers` | l1d.sv:1235-1263 | the two ports never answer in the same cycle, port 1 answers exactly when it finishes a load and port 2 exactly when it does not queue a load |
| `L1dOrder.NextAccounted` | l1d.sv:1029-1104 | each answer is to a request accepted and not yet answered, and the answered requests are always exactly the accepted ones that are not open |
| `L1dOrder.NextCounted` | l1d.sv:342-356 | the in-flight counter is the exact number of open requests and never wraps |
| `L1dOrder.NextGraduation` | l1d.sv:304-337 | for every waiting store the graduation bits say whether its reorder-buffer entry has retired, and its in-flight bit is set |
| `L1dOrder.DropsUnretired` | l1d.sv:1187-1213 | a draining cache discards only stores that have not retired, because a retired one at the head fires instead, also when its buffer entry already belongs to a new, dead instruction |
| `L1dOrder.NextHistory` | l1d.sv:1178-1216 | stores are written in acceptance order, each once and only after retiring; discarded ones had not retired |
| `L1dOrder.NextConserved` | l1d.sv:1205-1213 | every store queued has been written or discarded or is still waiting, and nothing else was written, discarded or retired |
| `L1dOrder.RetiredKept` | l1d.sv:1205-1213 | a retired store has been written or is still waiting |
| `L1dOrder.NextAccumulated` | l1d.sv:880-901 | the memory presented is always the memory of the start with the stores written so far applied in order |
| `L1dRequests.MergedBytes` | l1d.sv:838-895 | a written store changes its own bytes of the line, to its data, and no others |
| `L1dRequests.StoredIsLoaded` | l1d.sv:843-895 | a load takes from the line what a store of the same place and size put there |
| `L1dRequests.AppliedBytes` | l1d.sv:880-901 | after stores in order each byte is the byte of the last one that covers it, or what it was |
| `L1dRequests.NextRecognized` | l1d.sv:924-1104 | every request in the cache and every store that left it is the one accepted under its number; only the data of a store came later |
| `L1dRequests.NextAllQueued` | l1d.sv:1029-1104 | the stores queued are all the stores accepted except those ignored |
| `L1dRequests.TakesOwnData` | l1d.sv:1187-1204 | a store goes to be written only once it has retired and with the data that arrived for its own entry |
| `L1dRequests.HeadMoves` | l1d.sv:1176-1230 | the head of the retry queue goes to port 1 as soon as nothing there is in its way and, if it is a store, it has retired and its data is there; only dead stores are discarded, and only while the core drains |
| `L1dRequests.IdleAccepts` | l1d.sv:1232-1258 | a cache with nothing to do accepts any request whose buffer entry is not in use |
| `L1dRequests.FreshLoadAnswered` | l1d.sv:1060-1070 | a load that meets no waiting store of its set, or, for a word, nothing in its word, is answered as soon as its line is seen to be there |
| `L1dRequests.EmptyReports` | l1d.sv:621-626 | a draining cache that has nothing left reports it |
| `L1D.NextInv` | l1d.sv:924-1401 | all invariants of the cache are kept by every clock |
| `L1D.NeverOverflows` | l1d.sv:1403-1415 | the retry queue has room whenever something is pushed |
| `L1D.LoadsAreSequential` | l1d.sv:789-915 | every answer is for the request accepted under its number, and each byte of an answered load is the byte of the last store before it that covers it, or the byte of the memory of the start; the stores before it are all those accepted before it, in that order, except ignored and discarded ones, whatever data the waiting ones still get |
| `L1D.RestartIsSafe` | l1d.sv:621-626 | when the cache reports itself empty to a draining core, every accepted request has been answered and only a retired store may be left |
| `L1D.StartInv` | l1d.sv:1006-1027 | the state after the initial sweep satisfies the invariants |
| `L1D.Cache.EntryRegs` | l1d.sv:304-337 | overwriting the per-entry bits in the order of the source gives the specified bits |
| `L1D.Cache.Clock` | l1d.sv:924-1401 | one clock keeps all invariants, answers at most one open request, and changes the memory presented only in the bytes of a written store, to its data |
| `StoreCommit.NextInv` | core.sv:463-537 | of the stores in program order the oldest have their data and among them the oldest have retired, the store-data queue holds exactly the stores with data, and a draining cache is told of no retirement |
| `StoreCommit.RunInv` | exec.sv:1463-1504 | this holds in every run of stores, data, retirements and drains |
| `StoreCommit.DataIsThere` | l1d.sv:1187-1204 | in every run, what the first-level cache relies on while draining: no retirement comes, and a retired store at the head finds its data |
| `L2Cache.GrantOk` | l2.sv:435-510 | granting a request changes the flat memory by exactly the granted store, although the store has reached no RAM yet |
| `L2Cache.FlushReadOk` | l2.sv:625-632 | clearing a set's flags while its line is read out loses nothing: the line lives on in the output register |
| `L2Cache.AllInMemory` | l2.sv:633-680 | with every line invalid the memory behind the cache alone is the flat memory |
| `L2Cache.SteppedRight` | l2.sv:435-510 | a grant takes address, operation and data from its own port, the ports alternate when both ask, an idle cache leaves no request waiting, and a flush comes due exactly when every first-level cache that has to flush has done so |
| `L2Cache.L2.HitLoadStep` | l2.sv:515-535 | a load that hits is answered on its own port with the flat memory's bytes |
| `L2Cache.L2.HitStoreStep` | l2.sv:536-562 | writing a granted store into the line leaves the flat memory as it was since the grant |
| `L2Cache.L2.MissStep` | l2.sv:564-584 | a request misses only once; the line is written back first if it is dirty |
| `L2Cache.L2.CleanReloadStep` | l2.sv:602-616 | a refill leaves the flat memory alone, with the old dirty bit standing |
| `L2Cache.L2.FlushTriageStep` | l2.sv:633-661 | a flush step leaves the flat memory alone and completes only when every set has been cleared |
| `L2Cache.L2.Clock` | l2.sv:344-685 | grants and flushes are those of `SteppedRight`; the flat memory changes only by the granted store, each load is answered once from it, at most one miss per request, progress whenever memory answers, and a completed flush leaves everything in memory |
| `Multiplier.CsaAdds` | csa.sv:9-11 | sum plus twice the carry word is the sum of the three inputs |
| `Multiplier.UpDoubles` | mul.sv:138 | moving a carry word up doubles it, except for a carry out of the width |
| `Multiplier.FirstRow` | mul.sv:122 | the modified first row is the signed row plus two constants |
| `Multiplier.MiddleRow` | mul.sv:117-120 | a modified middle row is the signed row, moved up, plus one constant |
| `Multiplier.LastRow` | mul.sv:123 | the inverted last row is the negated signed row, moved up, plus constants |
| `Multiplier.RowsAddUp` | mul.sv:108-123 | the rows sum to the exact product, and when signed to the product plus one carry beyond the width |
| `Multiplier.FoldSplits` | mul.sv:160-162 | the compressor chain may be cut by registers anywhere |
| `Multiplier.ChainSum` | mul.sv:135-204 | the two words of the chain hold the exact sum of the rows folded so far, except for whole carries out of the width |
| `Multiplier.StructuralIsBehavioural` | mul.sv:108-207 | for every width from 2 and all operands, signed or not, the structural result is the behavioural one |
| `Multiplier.UpperHalf` | mul.sv:67-72 | the upper word is the exact product divided by `2^W` and rounded down, the lower word the product modulo `2^W` |
| `Multiplier.StageAdvances` | mul.sv:164-210 | the compressors of one pipeline stage take a stage register to the next cut, and the last one to the product |
| `Multiplier.Pipeline.Clock` | mul.sv:100-248 | every stage register holds what the multiplication passing through it needs, whatever is issued back to back |
| `Multiplier.Pipeline.Completion` | mul.sv:55-59 | a completion carries the tags of the multiplication issued four clocks before and its exact product, or the upper half |
| `PrefixAdder.GroupsJoin` | gen_ppa.py:39-40 | propagate and generate of adjacent groups combine into those of the joined group |
| `PrefixAdder.GenerateIsCarry` | gen_rca.py:15-20 | all positions up to `i` generate exactly when the low parts of the operands overflow |
| `PrefixAdder.SumBitsAdd` | gen_ppa.py:48-52 | propagate bits corrected by group carries are the sum of the operands, with the last carry beyond |
| `PrefixAdder.NamesJoin` | gen_ppa.py:36-40 | appending the name from `d` places below gives the name of the doubled group, clipped at position 0 |
| `PrefixAdder.LevelRuns` | gen_ppa.py:30-46 | one level declares each new wire once, after its inputs, and doubles every span |
| `PrefixAdder.LevelsRun` | gen_ppa.py:29-46 | after level `l` every position has propagate and generate of the last `2^l` positions, and the first-level wires are still there |
| `PrefixAdder.PrefixNetworkAdds` | gen_ppa.py:14-53 | for every `lg_bits` the generated module is well formed and computes the sum modulo `2^bits` |
| `PrefixAdder.RippleNetworkAdds` | gen_rca.py:14-20 | the ripple-carry module of every width is well formed and computes the sum modulo `2^bits` |
| `PrefixAdder.GeneratorsAgree` | gen_rca.py:6-23 | the two generated adders drive the same outputs for all operands |
| `PrefixAdder.WriteLevel` | gen_ppa.py:30-46 | the inner loop writes the statements of one level and rebuilds both lists of names |
| `PrefixAdder.WriteRtl` | gen_ppa.py:6-56 | the generator's loops write a network that adds |
| `PrefixAdder.WriteRipple` | gen_rca.py:6-23 | the ripple generator's loop writes a network that adds |
| `Divider.NothingDropped` | divider.sv:150-158 | doubling the partial remainder never carries out of `2W` bits |
| `Divider.SignedOfIs` | divider.sv:141-144 | the signed number of a word is the one in range with its remainder |
| `Divider.StepPartway` | divider.sv:148-165 | one step keeps remainder plus quotient times divisor equal to the shifted dividend, and the remainder below the divisor unless that is zero |
| `Divider.AllSteps` | divider.sv:162-170 | after all steps quotient and remainder are those of the magnitudes; for divisor zero all ones and the dividend |
| `Divider.SignsPutBack` | divider.sv:171-178 | negating by the signs of the operands turns them into truncated division |
| `Divider.TruncatedIsUnique` | divider.sv:169-182 | truncated quotient and remainder are unique, so the architecture's result is one word |
| `Divider.ZeroDivisor` | divider.sv:171-174 | with divisor zero the result is the architecture's unless a signed quotient of a negative dividend is asked for, which gives 1 |
| `Divider.MeetsArchitecture` | divider.sv:132-183 | for every width from 2 the result is the architecture's if and only if the request is not a signed quotient of a negative dividend by zero |
| `Divider.ArchitectedIsUnique` | divider.sv:132-183 | the architecture allows only one result word for each request |
| `Divider.Overflow` | divider.sv:143-144 | the most negative number divided by -1 gives itself, with remainder 0 |
| `Divider.DivideOk` | shiftregbit.sv:22-41 | each divide clock shifts the next quotient bit in and keeps the invariant |
| `Divider.Unit.Clock` | divider.sv:126-188 | a start is taken only when idle, completion comes exactly `W + 2` clocks later with the tags of the request and the word the architecture theorem speaks of |
| `FetchQueue.FullExactly` | l1i.sv:362-375 | the four fullness tests on wrapped pointers say exactly whether one, two, three or four entries fit |
| `FetchQueue.ClockedContents` | l1i.sv:380-419 | pushing up to four and popping up to two in one clock overwrites nothing and keeps order |
| `FetchQueue.Accounted` | l1i.sv:421-452 | what left and what is queued are, in order, all that was ever queued |
| `Fetch.FirstBranch` | l1i.sv:507-545 | the marker finds the first control transfer or the line end, looking past an untaken conditional branch at the head |
| `Fetch.PredecodedBits` | l1i.sv:25-78 | the predecode bits name the opcode and link registers bit by bit |
| `Fetch.JumpOffsetFields` | l1i.sv:555 | the jump offset is the sum of its fields, bit 31 counting negatively |
| `Fetch.BranchOffsetFields` | l1i.sv:557 | so is the branch offset |
| `Fetch.GroupAsPredicted` | l1i.sv:675-715 | a group is the longest run of plain words that fits, behind a head not predicted taken |
| `Fetch.GroupFits` | l1i.sv:677-714 | the whole group is queued if it fits, else its head alone; the queue never overflows |
| `Fetch.GroupFollows` | l1i.sv:822-856 | a group of one to four words continues the path word by word, with the right words and no control transfer after its head |
| `Fetch.TargetOk` | l1i.sv:643-670 | a redirection is one the opcode can make; direct jumps and branches go to the encoded target |
| `Fetch.IntoNextLine` | l1i.sv:680 | stepping past the end of a line reaches the set after it, also across the tag and at the end of memory |
| `Fetch.AfterGroupAimed` | l1i.sv:677-710 | after any group the cache is read at index and tag of the word behind it and the next address is one word further |
| `Fetch.FilledLine` | l1i.sv:983-1028 | a filled line holds memory's words and their predecode bits at its index and tag |
| `Fetch.L1i.Redirect` | l1i.sv:643-672 | a control transfer that is unconditional or predicted taken is queued alone, with the encoded target, the return-stack top or the target-buffer entry as its kind calls for, and fetch goes there |
| `Fetch.L1i.PushGroup` | l1i.sv:675-715 | a head that falls through is queued with all the plain words behind it up to the next transfer or the line end if they fit, else alone, and the path continues behind them |
| `Fetch.L1i.Miss` | l1i.sv:626-634 | a miss queues nothing and remembers the word to fetch again |
| `Fetch.L1i.Stall` | l1i.sv:721-727 | a full queue queues nothing and remembers the word to fetch again |
| `Fetch.L1i.ReadAgain` | l1i.sv:756-783 | after a reload or a wait the same word is fetched, once |
| `Fetch.L1i.FlushStep` | l1i.sv:764-773 | a flush ends only when no line is valid |
| `Fetch.L1i.Clock` | l1i.sv:487-806 | whenever the wanted word is there and has room, words are queued as the predictors say; between restarts and flushes, which are served or stay latched, what is queued is one unbroken path, decode receives all of it in order, and a missed word is there after its fill |
| `RestoreCode.OrDisjoint` | saveState.cc:105-109 | instruction fields that do not overlap may be combined with bitwise or |
| `RestoreCode.Rounding` | saveState.cc:90-96 | rounding leaves a multiple of 4096 and a negative twelve-bit rest |
| `RestoreCode.EncodableExactly` | saveState.cc:88-103 | the emitter's arithmetic and assertions hold exactly for values without bit 11 or below 0x7ffff800 |
| `RestoreCode.WordsLoad` | saveState.cc:105-119 | the two words emitted for a register load its value and touch no other register |
| `RestoreCode.RunEmitted` | saveState.cc:87-121 | the code for the first `n` registers loads exactly those, from any starting registers |
| `RestoreCode.ProgramBytes` | saveState.cc:97-128 | every byte of the emitted code, from the opcode, register and immediate fields of `lui`, `addi` and `ori` |
| `RestoreCode.Machine.Emit` | saveState.cc:86-128 | the emitter writes the code, the break and the idle instructions, byte for byte, and nothing else, or reports a value it cannot encode |
| `RestoreCode.Machine.Run` | interpret.cc:44-85 | running the code from its start stops at the break with registers 1 to 31 restored |
| `RestoreCode.Machine.EmitAndRun` | top.cc:485 | emitting at the program counter and running from there leaves every register as it was saved, if all values can be encoded |

## Left out

- Contents of the instruction stream outside these blocks: decode, the ALU and comparator cases, branch resolution and the memory-uop queues of exec.sv would add only single-branch facts.
- Prediction quality: pattern table, target buffer, return stacks and histories are inputs of fetch.
- HALT, MONITOR and architectural-fault sequencing of core.sv: one absorbing state `Other`; those paths bypass the recovery copy.
- The branch-order buffer: its fullness is an input; its second push of a pair is not checked by the source either (core.sv:900-906).
- Cache flushes of l1d.sv (states FLUSH_CACHE, FLUSH_CL and their waits) and the single cycle that could start one: the model of the first-level data cache runs without flush requests.
- Sign extension of loaded bytes: answers of the first-level data cache carry the bytes themselves.
- `MEM_SC` in l1d.sv: the decoder never issues it.
- RAMs in `L2Cache`, `Fetch` and `L1dMachine` are sequences inside records, not arrays on the heap; updating in place and aliasing of RAM arrays are not captured.
- The retry queue of l1d.sv is a sequence of at most eight requests, without its two four-bit pointers; those of the fetch queue and the reorder buffer are modelled.
- Operand payloads in `Scheduler`: readiness arrives as match inputs there; `Wakeup` models where they come from.
- Memory-side operand ports of exec.sv: they use the same readiness test and values, with another order of the same exclusive bypasses.
- InFlight.NextCoupled: takes from single blocks that a scheduler fills free slots and selects valid ready ones (`Scheduler.FreeSlotIsFree`, `Scheduler.SelectsEarliest`), that a unit delivers one result per instruction given to it, and that a recovery waits for all results (core.sv:965); that only finished instructions retire is proved in `RenameTables.RenameTables.Clock`.
- L1dOrder.NextHistory: assumes (`CoreOk`) that two requests sent one after the other never have the same reorder-buffer entry; `StoreCommit.DataIsThere` assumes (`Wired`) that the oldest retired store is the one at the head of the retry queue.
- Fetch.L1i.Clock: the memory behind the instruction cache does not change while fetching, so code that rewrites itself without a flush is not captured.
- RenameTables.RenameTables.Clock: starts in the active state after the initial cache flushes.
- Scheduler.BoundedWait: for the first scheduler it holds while the unit stays enabled; how long a multiplier or divider keeps an entry waiting is not bounded here.
- RestoreCode.Machine.ExecRiscv: covers `lui`, `addi`, `ori` and the break, with the host word zero; every other opcode and the host calls are outside.
- Names in `PrefixAdder` are lists of indices, not text; text is their concatenation with underscores.
- `l2.sv` performance counters, `$display` and DPI recording everywhere: not behaviour.
- top.cc, loadelf.cc, csmith, tracing and page output: simulation driver, host calls and file formats.

# APEX out-of-order pipeline in Dafny

This project models the pipeline engine of the APEX simulator (`apex_cpu.c`,
with the machine record of `apex_cpu.h`). The machine has:

- a 48-entry physical register file with valid bits and busy flags
  (`free_PR_list`);
- a speculative and a retirement rename table, 16 entries each;
- a 24-slot issue queue with occupancy flags (`freeiq`);
- latches for fetch, decode, a one-cycle integer unit, a three-stage
  multiplier and a two-stage jump unit.

One clock cycle calls jbu2, jbu1, mul3, mul2, mul1, intfu, issuequeue,
decode and fetch in that order, then advances the clock.

The model has two layers.

- `Pipeline` (pipeline.dfy) describes each stage as a function on a `State`
  value (machine_state.dfy), in which arrays are sequences and latches are
  values. A stage's `requires` clause is the condition under which the C
  code stays inside its arrays and never dereferences NULL. The `...Ok`
  predicates state these conditions. `CycleDefined` states them on each
  intermediate state of a cycle.
- `ApexCpu.Cpu` (apex_cpu.dfy) is the machine record as a class over
  arrays. Its stage methods keep the C code's loops: the first-free scans of
  decode and the selection scan of issue. Each method is proved to leave
  exactly the state its stage function describes:
  `Snapshot() == XStep(old(Snapshot()))`.

The properties are lemmas about the stage functions:

- fetch_decode_properties.dfy covers fetch and decode;
- issue_properties.dfy covers issue;
- execute_properties.dfy covers retirement, the multiplier and jump units,
  and whole cycles;
- machine_state.dfy defines the reachable-state invariant `Inv`, which
  `APEX_cpu_init` establishes; invariants.dfy proves that every stage keeps
  it.

Where the comments of the C code and the code disagree, the model follows
the code:

- `free_PR_list` uses 0 for free and 1 for allocated, although the header
  comment says the opposite.
- Issue keeps the last ready entry of its scan, not the first.
- A MUL whose operands are not valid falls through into the JUMP/JAL case.
- No code sets `src1_ready`, because its assignments in decode are
  commented out. `Inv` records this, and `NothingReachesJumpUnit` proves
  that nothing is ever issued to the jump unit.
- Decode never clears its latch.
- The `finishedstage` writes in intfu and mul1–mul3 go to local copies, so
  the latches never see them.

## Model

| member | source | states |
|---|---|---|
| ApexTypes.Stage.Ordinal | apex_cpu.h:13-24 | the enumerator values are at most 8 (BRH2) and follow declaration order: exactly F, DRF and IQ lie below INTFU's 3, and each of INTFU, MUL1 and MUL2 raises that bound by one, which the finishedstage guards rely on |
| MachineState.FirstFree | apex_cpu.c:240-249 | the lowest index whose flag is false (free), with every lower flag true; -1 exactly when every flag is true |
| MachineState.FirstFreeFrom | apex_cpu.c:240-249 | the same scan started at index `from`, used by the first-free loops |
| MachineState.CountTrue | apex_cpu.h:106 | the number of busy flags, at most the array length |
| MachineState.CountTrueUpdate | apex_cpu.h:106 | setting one flag changes the busy count by exactly the change of that flag |
| MachineState.CountTrueNone | apex_cpu.h:122 | with no flag set, the busy count is 0 |
| MachineState.InitialState | apex_cpu.c:922-976 | the record after initialisation satisfies the reachable-state invariant `Inv` |
| MachineState.InitialStateAllFree | apex_cpu.c:930-976 | after initialisation no physical register and no issue-queue slot is busy, so the first dispatch takes register 0 and slot 0 |
| Pipeline.CodeIndex | apex_cpu.c:20-24 | (pc - 4000) / 4 with division truncating toward zero, as in C, for both signs |
| Pipeline.FetchStep | apex_cpu.c:161-215 | APEX_fetch; keeps well-formedness |
| Pipeline.DecodeStep | apex_cpu.c:222-340 | APEX_decode; keeps well-formedness and never changes the decode latch |
| Pipeline.FetchFires | apex_cpu.c:165-167 | fetch acts exactly when its latch holds an instruction and is not stalled |
| Pipeline.Fetched | apex_cpu.c:179-188 | the fetch latch takes pc from the machine and opcode, rd, rs1, rs2 and imm from the instruction; has_insn, stalled, the entry and every other field are kept |
| Pipeline.RenameSource | apex_cpu.c:235-236 | a source of -1 (absent) stays -1; otherwise its speculative mapping, which in a well-formed state lies in -1..47 |
| Pipeline.DecodedEntry | apex_cpu.c:287-300 | the filled entry keeps the slot's ready flags, tags and stage; with an in-range register and rd it is in range |
| Pipeline.FuTypeFor | apex_cpu.c:301-323 | ADD, MOVC, MUL, JUMP and JAL get a unit class from 3 to 5; any other opcode leaves fu_type as it was |
| Pipeline.Readable | apex_cpu.c:375-392 | the short-circuit readiness test of ADD and MUL stays inside phys_regs_valid whenever both sources are in range |
| Pipeline.OperandsValid | apex_cpu.c:375 | an ADD or MUL is ready exactly when both source flags are valid; an invalid first flag decides alone, as C's && does |
| Pipeline.SelectedUnit | apex_cpu.c:371-411 | the integer unit gets only ADD or MOVC, the multiplier only MUL, the jump unit only MUL, JUMP or JAL with src1_ready set; every other opcode is selected for no unit |
| Pipeline.IssueInto | apex_cpu.c:435-461 | the receiving latch holds an instruction, is stamped IQ and unstalled, and carries the winner's entry; its other fields are unchanged |
| Pipeline.IssueIf | apex_cpu.c:433-462 | with no winner the latch is unchanged; otherwise it is issued the winner's entry |
| Pipeline.Unmapped | apex_cpu.c:688 | a previous retirement mapping of 0 always counts as unmapped, and only 0 or -1 can |
| Pipeline.IntFuFires | apex_cpu.c:470 | the integer unit acts exactly when its latch holds an unstalled instruction stamped F, DRF or IQ |
| Pipeline.Product | apex_cpu.c:748 | mul1's product of the two source registers' values: zero if either is zero, the other value if one is 1, and non-negative for non-negative operands (no 32-bit wrap) |
| Pipeline.Mul1Fires | apex_cpu.c:743 | mul1 acts exactly when its latch holds an unstalled instruction stamped F, DRF, IQ or INTFU |
| Pipeline.Mul2Fires | apex_cpu.c:771 | mul2 acts exactly when its latch holds an unstalled instruction stamped F to MUL1 |
| Pipeline.Mul3Fires | apex_cpu.c:794 | mul3 acts exactly when its latch holds an unstalled instruction stamped F to MUL2 |
| Pipeline.LastSelected | apex_cpu.c:361-412 | the slot the issue scan leaves for a unit: -1, or an occupied slot whose entry the switch selects for that unit |
| Pipeline.LastSelectedIsLast | apex_cpu.c:361-412 | no occupied slot above the chosen one is selected for the same unit |
| Pipeline.WinnersInRange | apex_cpu.c:371-399 | the integer unit receives a MOVC or an ADD with in-range sources; the multiplier receives a MUL with in-range sources |
| Pipeline.ReleaseIf | apex_cpu.c:433-462 | freeing a winner's slot clears exactly that flag and keeps the others |
| Pipeline.IssueStep | apex_cpu.c:346-463 | APEX_issuequeue; keeps well-formedness |
| Pipeline.FreePrevious | apex_cpu.c:504-509 | freeing the previous retirement mapping keeps well-formedness |
| Pipeline.WriteBack | apex_cpu.c:491-500 | writing the result and the table entries keeps well-formedness |
| Pipeline.Retire | apex_cpu.c:485-519 | the retirement sequence shared by intfu and mul3 keeps well-formedness |
| Pipeline.LatchSum | apex_cpu.c:476-483 | the ADD arm's sum and zero flag leave the entry and the retirement table unchanged |
| Pipeline.IntFuAdd | apex_cpu.c:474-521 | the ADD arm keeps well-formedness |
| Pipeline.LatchImm | apex_cpu.c:687 | the MOVC arm's immediate leaves the entry unchanged |
| Pipeline.IntFuMovc | apex_cpu.c:685-724 | the MOVC arm keeps well-formedness |
| Pipeline.IntFuStep | apex_cpu.c:465-737 | APEX_intfu; keeps well-formedness |
| Pipeline.IntFuEmptied | apex_cpu.c:726-727 | the integer unit's latch is emptied and nothing else changes |
| Pipeline.Mul1Step | apex_cpu.c:739-765 | APEX_mul1; keeps well-formedness |
| Pipeline.Mul2Step | apex_cpu.c:767-788 | APEX_mul2; keeps well-formedness |
| Pipeline.Mul3Step | apex_cpu.c:790-845 | APEX_mul3; keeps well-formedness |
| Pipeline.Jbu1Step | apex_cpu.c:846-877 | APEX_jbu1; keeps well-formedness |
| Pipeline.Jbu2Step | apex_cpu.c:878-905 | APEX_jbu2; keeps well-formedness |
| Pipeline.ThroughMul3 | apex_cpu.c:997-999 | the first three calls of a cycle keep well-formedness |
| Pipeline.ThroughMul1 | apex_cpu.c:997-1001 | the first five calls of a cycle keep well-formedness |
| Pipeline.Ticked | apex_cpu.c:1029 | the clock grows by one and nothing else changes |
| Pipeline.CycleStep | apex_cpu.c:997-1005 | one iteration of the run loop keeps well-formedness |
| Pipeline.Run | apex_cpu.c:989-1030 | n iterations of the run loop keep well-formedness |
| FetchDecodeProperties.FetchCopiesInstruction | apex_cpu.c:178-207 | fetch copies the word at pc. When decode is not stalled, pc grows by 4 and decode receives the copy; otherwise pc stays and fetch stalls. HALT empties the fetch latch. Nothing else changes |
| FetchDecodeProperties.FetchSkipsOnFlag | apex_cpu.c:171-177 | a set fetch_from_next_cycle makes fetch only clear that flag |
| FetchDecodeProperties.FetchStopsAfterHalt | apex_cpu.c:203-207 | after HALT is fetched the fetch latch is empty and later fetches change nothing |
| FetchDecodeProperties.DecodeClaimsLowestRegister | apex_cpu.c:240-257 | decode claims the lowest free physical register p: p becomes busy and invalid, rd maps to p with its valid flag cleared, and the rest of the register state is unchanged |
| FetchDecodeProperties.DecodeFillsLowestSlot | apex_cpu.c:235-323 | decode fills the lowest free slot, which becomes occupied. The sources use the mapping from before rd is renamed. The entry carries imm, pc, the new register and rd, and fu_type 3, 4 or 5. No other slot changes |
| FetchDecodeProperties.DecodeFrame | apex_cpu.c:222-340 | decode changes only the busy and valid flags, the rename tables and the issue queue; pc, the clock, the flags and every latch, decode's own included, are unchanged |
| FetchDecodeProperties.DecodeStallsWhenFull | apex_cpu.c:240-261 | with every physical register busy, or nothing latched, decode changes nothing |
| FetchDecodeProperties.DecodeCountsOneEach | apex_cpu.c:240-286 | a dispatch raises the busy-register count and the occupied-slot count by exactly one each |
| FetchDecodeProperties.DecodeRedispatches | apex_cpu.c:225-275 | decode never consumes its latch: a second call dispatches the same instruction again into a higher register, and rd maps to the newer one |
| IssueProperties.ReadinessRules | apex_cpu.c:371-411 | ADD and MUL are ready iff both sources are valid, and MOVC always is. JUMP/JAL, and an unready MUL through the missing break, need src1_ready. Each direction is proved |
| IssueProperties.IssuePicksLastReady | apex_cpu.c:361-462 | each unit's latch receives the highest-indexed occupied entry selected for it, stamped IQ, unstalled and holding an instruction; with no such entry the latch is unchanged |
| IssueProperties.WinnersDistinct | apex_cpu.c:371-411 | no slot is won by two units |
| IssueProperties.Issued | apex_cpu.c:433-462 | at most three entries issue per call |
| IssueProperties.IssueFreesOnlyWinners | apex_cpu.c:433-462 | exactly the winners' slots are freed, and the occupied count drops by the number of units fed |
| IssueProperties.ReleaseWinnerCount | apex_cpu.c:439 | freeing an occupied winner's slot lowers the occupied count by one |
| IssueProperties.IssueFrame | apex_cpu.c:346-463 | issue changes only the three receiving latches and the occupancy flags |
| IssueProperties.HaltSlotsStayOccupied | apex_cpu.c:371-411 | issue never frees a slot holding HALT, nor changes its entry |
| IssueProperties.NothingReachesJumpUnit | apex_cpu.c:401-411 | in every reachable state no entry is selected for the jump unit, and jbu1 stays as it was |
| Invariants.FetchKeepsInv | apex_cpu.c:161-215 | fetch keeps `Inv` |
| Invariants.DecodeKeepsInv | apex_cpu.c:222-340 | decode keeps `Inv` (in particular, ready flags stay clear) |
| Invariants.IssueKeepsInv | apex_cpu.c:433-462 | issue keeps `Inv` |
| Invariants.RetireKeepsInv | apex_cpu.c:485-519 | retiring keeps `Inv` |
| Invariants.IntFuAddKeepsInv | apex_cpu.c:474-521 | the ADD arm keeps `Inv` |
| Invariants.IntFuMovcKeepsInv | apex_cpu.c:685-724 | the MOVC arm keeps `Inv` |
| Invariants.IntFuKeepsInv | apex_cpu.c:465-737 | the integer unit keeps `Inv` |
| Invariants.EmptiedKeepsInv | apex_cpu.c:727 | emptying the integer unit's latch keeps `Inv` |
| Invariants.LatchedOpsPassGuards | apex_cpu.c:470 | in a reachable state, the finishedstage guards of intfu and mul1–mul3 hold exactly when the latch holds an instruction, because IQ lies below INTFU and MUL1–MUL3 |
| Invariants.JumpStagesIdle | apex_cpu.c:846-905 | in a reachable state jbu2 and jbu1 change nothing |
| Invariants.Mul3KeepsInv | apex_cpu.c:790-845 | mul3 keeps `Inv` |
| Invariants.Mul2KeepsInv | apex_cpu.c:767-788 | mul2 keeps `Inv` |
| Invariants.Mul1KeepsInv | apex_cpu.c:739-765 | mul1 keeps `Inv` |
| Invariants.ThroughMul1KeepsInv | apex_cpu.c:997-1001 | the jump and multiply stages keep `Inv` |
| Invariants.CycleKeepsInv | apex_cpu.c:997-1005 | a whole cycle keeps `Inv` |
| Invariants.TickedKeepsInv | apex_cpu.c:1029 | advancing the clock keeps `Inv` |
| Invariants.RunKeepsInv | apex_cpu.c:989-1030 | every state reached after n cycles satisfies `Inv` |
| ExecuteProperties.RetireProtocol | apex_cpu.c:485-519 | retiring writes the value into des_phy_reg and makes it valid. The retirement table maps des_rd to it; the valid flags of both tables are set; the speculative mapping is left as it is. The old retirement mapping is freed and invalidated unless it counts as unmapped. Nothing else changes |
| ExecuteProperties.IntFuRetires | apex_cpu.c:474-727 | a firing intfu retires the sum (ADD, unmapped = 0) or the immediate (MOVC, unmapped = 0 or -1). It keeps the value in its result buffer and empties its latch. Only ADD sets zero_flag, to sum == 0 |
| ExecuteProperties.AddRetires | apex_cpu.c:474-521 | the ADD arm retires the sum under the 0-only rule and sets zero_flag exactly when the sum is 0 |
| ExecuteProperties.MovcRetires | apex_cpu.c:685-724 | the MOVC arm retires the immediate under the 0-or-minus-one rule and keeps zero_flag |
| ExecuteProperties.RetireIgnoresLatches | apex_cpu.c:485-519 | retiring reads and writes only the register file and the tables |
| ExecuteProperties.IntFuIdle | apex_cpu.c:470 | an integer unit whose guard fails changes nothing |
| ExecuteProperties.Mul1Multiplies | apex_cpu.c:743-753 | mul1 puts the product of a MUL's source registers into its result buffer, copies the latch whole into mul2, and empties its own copy |
| ExecuteProperties.Mul3Retires | apex_cpu.c:794-833 | mul3 retires its result buffer, with unmapped = 0 or -1, and empties its latch |
| ExecuteProperties.MulStagesShift | apex_cpu.c:997-1001 | in a reachable state every MUL moves exactly one multiplier stage, and mul1 ends empty, so no operation is lost or duplicated |
| ExecuteProperties.JumpUnitComputesTarget | apex_cpu.c:848-865 | jbu1 computes src1 + imm as the target, and for JAL pc + 4 into rd. jbu2 receives that whole latch, jbu1 keeps the same latch marked empty, and nothing else changes. jbu2 then only empties its own latch |
| ExecuteProperties.RetireKeepsFrontEnd | apex_cpu.c:485-519 | retiring leaves pc, fetch, decode, the clock, the issue queue and the multiplier latches alone |
| ExecuteProperties.JumpAndMulKeepFrontEnd | apex_cpu.c:997-1001 | the jump and multiply stages leave the front end alone |
| ExecuteProperties.IntFuKeepsFrontEnd | apex_cpu.c:465-737 | intfu leaves the front end alone |
| ExecuteProperties.ExecuteFrame | apex_cpu.c:997-1002 | the execute stages of a cycle leave the front end alone |
| ExecuteProperties.IntFuKeepsMulLatches | apex_cpu.c:465-737 | intfu leaves mul2 and mul3 alone |
| ExecuteProperties.CycleKeepsMulLatches | apex_cpu.c:1002-1005 | the stages after mul1 leave mul2 and mul3 alone |
| ExecuteProperties.CycleAdvancesMul | apex_cpu.c:997-1005 | over a reachable cycle, mul2's operation reaches mul3 unchanged, and mul1's reaches mul2 with its product |
| ExecuteProperties.MulWritesBackAfterThreeCycles | apex_cpu.c:739-833 | a MUL in mul1 reaches mul3 two cycles later with its product unchanged, and the third cycle retires that product |
| ExecuteProperties.DispatchWaitsACycle | apex_cpu.c:1003-1004 | the entry decode files in a cycle is still occupied, as filed, when that cycle ends, so it issues in the next cycle at the earliest |
| ExecuteProperties.HaltedFetchStaysHalted | apex_cpu.c:165 | once fetch has stopped, a cycle leaves pc and the empty fetch latch unchanged |
| ExecuteProperties.CycleTicksOnce | apex_cpu.c:1029 | a cycle advances the clock by exactly one |
| ExecuteProperties.RunCountsCycles | apex_cpu.c:989-1030 | n cycles advance the clock by exactly n |
| ApexCpu.Cpu.constructor | apex_cpu.c:911-978 | the new record equals `InitialState()` over fresh arrays |
| ApexCpu.Cpu.Fetch | apex_cpu.c:161-215 | the new state is `FetchStep` of the old |
| ApexCpu.Cpu.ClaimPhysReg | apex_cpu.c:240-249 | the loop returns the lowest free register and marks it busy (and, as the loop does, valid), or returns -1 and changes nothing |
| ApexCpu.Cpu.ClaimIqSlot | apex_cpu.c:278-286 | the loop returns the lowest free slot and marks it occupied, or returns -1 |
| ApexCpu.Cpu.RenameDestination | apex_cpu.c:240-261 | claims the lowest free register and maps rd to it, invalidated |
| ApexCpu.Cpu.Decode | apex_cpu.c:222-340 | the new state is `DecodeStep` of the old |
| ApexCpu.Cpu.EnqueueDecoded | apex_cpu.c:276-323 | the lowest free slot becomes occupied and receives the decoded entry |
| ApexCpu.Cpu.ConsiderSlot | apex_cpu.c:363-411 | one pass of the selection loop moves a unit's winner to slot i exactly when slot i is occupied and selected for that unit |
| ApexCpu.Cpu.SelectForIssue | apex_cpu.c:361-412 | the scan leaves, for each unit, `LastSelected` and that slot's entry |
| ApexCpu.Cpu.IssueQueue | apex_cpu.c:346-463 | the new state is `IssueStep` of the old |
| ApexCpu.Cpu.IssueToIntFu | apex_cpu.c:433-441 | the intfu latch receives the winner stamped IQ and its slot is freed |
| ApexCpu.Cpu.IssueToMul1 | apex_cpu.c:442-452 | the mul1 latch receives the winner stamped IQ and its slot is freed |
| ApexCpu.Cpu.IssueToJbu1 | apex_cpu.c:453-462 | the jbu1 latch receives the winner stamped IQ and its slot is freed |
| ApexCpu.Cpu.FreePreviousMapping | apex_cpu.c:504-509 | the new state is `FreePrevious` of the old |
| ApexCpu.Cpu.WriteResult | apex_cpu.c:491-500 | the new state is `WriteBack` of the old |
| ApexCpu.Cpu.RetireResult | apex_cpu.c:485-519 | the new state is `Retire` of the old |
| ApexCpu.Cpu.IntFuAddArm | apex_cpu.c:474-521 | the new state is `IntFuAdd` of the old |
| ApexCpu.Cpu.IntFuMovcArm | apex_cpu.c:685-724 | the new state is `IntFuMovc` of the old |
| ApexCpu.Cpu.IntFu | apex_cpu.c:465-737 | the new state is `IntFuStep` of the old |
| ApexCpu.Cpu.EmptyIntFu | apex_cpu.c:726-727 | the new state is `IntFuEmptied` of the old |
| ApexCpu.Cpu.Mul1 | apex_cpu.c:739-765 | the new state is `Mul1Step` of the old |
| ApexCpu.Cpu.Mul2 | apex_cpu.c:767-788 | the new state is `Mul2Step` of the old |
| ApexCpu.Cpu.Mul3 | apex_cpu.c:790-845 | the new state is `Mul3Step` of the old |
| ApexCpu.Cpu.Jbu1 | apex_cpu.c:846-877 | the new state is `Jbu1Step` of the old |
| ApexCpu.Cpu.Jbu2 | apex_cpu.c:878-905 | the new state is `Jbu2Step` of the old |
| ApexCpu.Cpu.JumpAndMulStages | apex_cpu.c:997-1001 | the new state is `ThroughMul1` of the old |
| ApexCpu.Cpu.ExecuteStages | apex_cpu.c:997-1002 | the new state is `IntFuStep(ThroughMul1(...))` of the old |
| ApexCpu.Cpu.Cycle | apex_cpu.c:997-1005 | the new state is `CycleStep` of the old |
| ApexCpu.Cpu.Tick | apex_cpu.c:1029 | the new state is `Ticked` of the old |
| ApexCpu.Cpu.Run | apex_cpu.c:989-1030 | after n iterations the state is `Run` of the old one |

## Left out

- Tracing is not modelled because it is output only. This covers `print_instruction`, `print_stage_content`, `print_reg_file`, every debug block, the stray `printf`s in intfu and the per-cycle register dump.
- Loading the program is not modelled. `create_code_memory` is not part of this model; the constructor takes the instruction sequence instead.
- Memory management is not modelled. The constructor creates the arrays directly, so the `calloc`/`free`/NULL checks of initialisation and `APEX_cpu_stop` have no counterpart.
- The interactive part of the run loop is not modelled: the unbounded `while (TRUE)` and the `scanf` prompt. `Run` iterates the cycle n times in which the user does not quit. The quitting iteration leaves the loop before `clock++`; `Run` does not cover it.
- Opcode numbers, `REG_FILE_SIZE`, `DATA_MEMORY_SIZE`, TRUE and FALSE are left out because they come from `apex_macros.h`, which is not part of this model. Opcodes are a datatype, so the model never relies on their numeric values.
- Zeroed records use NOP as their opcode. This stands in for whatever opcode number 0 means, and no stage treats NOP specially.
- Fields that no modelled stage reads or writes are dropped:
  - `regs`, `regs_valid`, `data_memory`, `consumers`, `insn_completed`, `single_step`, the `issuequeue` latch and the record-level `iq_entry`;
  - the text `opcode_str`;
  - `rs3`, `rs1_value`, `rs2_value`, `rs3_value` and `memory_address` in latches.
- The SUB, ADDL, SUBL, AND, OR, XOR and CMP arms of `APEX_intfu` are not modelled. Issue sends only ADD and MOVC to intfu, so these arms are unreachable. Well-formedness (`Wf`) records that the intfu latch holds only ADD or MOVC.
- Signed overflow of the add and the multiply is not modelled; integers are unbounded.
- Pipeline.Product: the product is an unbounded integer; a C `int` product that overflows is undefined behaviour, which the model does not reproduce.
- C undefined behaviour becomes a precondition (`FetchOk`, `DecodeOk`, `IssueOk`, `IntFuOk`, `RetireOk`, collected by `CycleDefined` and `RunDefined`) rather than modelled behaviour. The cases are:
  - an out-of-range code-memory index;
  - a source, destination or mapping of -1 used as an array index;
  - ADD retiring over a retirement mapping of -1;
  - decode writing through the NULL entry pointer when all 24 issue-queue slots are full. The dead IQ-full test in decode can never catch this;
  - a source or destination register number of 16 or more, which would index past the rename tables (`DecodeOk`).
- These preconditions leave a short horizon after HALT. Decode keeps its latch, so it dispatches HALT again every cycle, and issue never frees a slot holding HALT (`HaltSlotsStayOccupied`). Each such cycle adds one occupied slot (`DecodeCountsOneEach`), so within 24 cycles `CycleDefined` fails on the NULL write. Likewise the first ADD into a logical register that has never been retired finds a retirement mapping of -1, and `CycleDefined` fails there.
- The reorder buffer, commit, the memory pipeline, data-memory writes and branch squash or PC redirect are left out because the code has none of them. `APEX_jbu2` only empties its latch.
- Pipeline.Run: its contract states only well-formedness. The clock count and the invariant are stated by `RunCountsCycles` and `RunKeepsInv`.

/**
 * The APEX_CPU record as an object whose arrays the stage methods of apex_cpu.c
 * update in place. Every stage method is proved to leave exactly the state its
 * function in module Pipeline computes.
 */
module ApexCpu {
  import opened ApexTypes
  import opened MachineState
  import opened Pipeline

  class Cpu {
    /** Code memory, as the loader hands it over (create_code_memory is not part of this model). */
    const code: seq<Instruction>

    var pc: int
    var clock: int
    var zeroFlag: bool
    var fetchFromNextCycle: bool

    const physRegs: array<int>
    const physRegsValid: array<bool>
    /** free_PR_list: false = 0 = free, true = 1 = allocated. */
    const prAllocated: array<bool>
    const renameTable: array<int>
    const renameTableValid: array<bool>
    const rRenameTable: array<int>
    const rRenameTableValid: array<bool>
    const issueQueue: array<IqEntry>
    /** freeiq: false = 0 = free slot, true = 1 = occupied. */
    const iqOccupied: array<bool>

    var fetch: Latch
    var decode: Latch
    var intFu: Latch
    var mul1: Latch
    var mul2: Latch
    var mul3: Latch
    var jbu1: Latch
    var jbu2: Latch

    /** The machine record as a value. */
    ghost function Snapshot(): State
      reads this, physRegs, physRegsValid, prAllocated, renameTable, renameTableValid,
            rRenameTable, rRenameTableValid, issueQueue, iqOccupied
    {
      State(pc, clock, zeroFlag, fetchFromNextCycle,
            physRegs[..], physRegsValid[..], prAllocated[..],
            renameTable[..], renameTableValid[..], rRenameTable[..], rRenameTableValid[..],
            issueQueue[..], iqOccupied[..],
            fetch, decode, intFu, mul1, mul2, mul3, jbu1, jbu2)
    }

    /** The arrays are distinct objects and the record is well formed. */
    ghost predicate Valid()
      reads this, physRegs, physRegsValid, prAllocated, renameTable, renameTableValid,
            rRenameTable, rRenameTableValid, issueQueue, iqOccupied
    {
      && physRegsValid != prAllocated
      && renameTable != rRenameTable
      && renameTableValid != rRenameTableValid
      && Wf(Snapshot())
    }

    /** APEX_cpu_init (apex_cpu.c:911-978) for a loaded program. */
    constructor (program: seq<Instruction>)
      ensures Valid() && code == program && Snapshot() == InitialState()
      ensures fresh(physRegs) && fresh(physRegsValid) && fresh(prAllocated)
      ensures fresh(renameTable) && fresh(renameTableValid) && fresh(rRenameTable) && fresh(rRenameTableValid)
      ensures fresh(issueQueue) && fresh(iqOccupied)
    {
      code := program;
      pc := CODE_BASE;
      clock := 0;
      zeroFlag := false;
      fetchFromNextCycle := false;
      physRegs := new int[PHYS_REGS](_ => 0);
      physRegsValid := new bool[PHYS_REGS](_ => false);
      prAllocated := new bool[PHYS_REGS](_ => false);
      renameTable := new int[ARCH_REGS](_ => -1);
      renameTableValid := new bool[ARCH_REGS](_ => false);
      rRenameTable := new int[ARCH_REGS](_ => -1);
      rRenameTableValid := new bool[ARCH_REGS](_ => false);
      issueQueue := new IqEntry[IQ_SIZE](_ => ZeroEntry);
      iqOccupied := new bool[IQ_SIZE](_ => false);
      fetch := ZeroLatch.(hasInsn := true);
      decode := ZeroLatch;
      intFu := ZeroLatch;
      mul1 := ZeroLatch;
      mul2 := ZeroLatch;
      mul3 := ZeroLatch;
      jbu1 := ZeroLatch;
      jbu2 := ZeroLatch;
      new;
      assert physRegs[..] == InitialState().physRegs;
      assert physRegsValid[..] == InitialState().physRegsValid;
      assert prAllocated[..] == InitialState().prAllocated;
      assert renameTable[..] == InitialState().renameTable;
      assert renameTableValid[..] == InitialState().renameTableValid;
      assert rRenameTable[..] == InitialState().rRenameTable;
      assert rRenameTableValid[..] == InitialState().rRenameTableValid;
      assert issueQueue[..] == InitialState().issueQueue;
      assert iqOccupied[..] == InitialState().iqOccupied;
    }

    /** APEX_fetch (apex_cpu.c:161-215). */
    method Fetch()
      requires Valid() && FetchOk(code, Snapshot())
      modifies this
      ensures Snapshot() == FetchStep(code, old(Snapshot()))
      ensures Valid()
    {
      if fetch.hasInsn {
        if !fetch.stalled {
          if fetchFromNextCycle {
            fetchFromNextCycle := false;
            return;
          }
          // The latch is updated in a local copy and written back once.
          var current := code[CodeIndex(pc)];
          var f := Fetched(fetch, pc, current);
          if !decode.stalled {
            pc := pc + 4;
            decode := f;
          } else {
            f := f.(stalled := true);
          }
          if f.opcode == HALT {
            f := f.(hasInsn := false);
          }
          fetch := f;
        }
      }
    }

    /**
     * The scan of apex_cpu.c:240-249: claim the lowest free physical register,
     * marking it allocated and (for the moment) valid; -1 when all are busy.
     */
    method ClaimPhysReg() returns (p: int)
      requires prAllocated.Length == PHYS_REGS && physRegsValid.Length == PHYS_REGS
      requires physRegsValid != prAllocated
      modifies prAllocated, physRegsValid
      ensures p == FirstFree(old(prAllocated[..]))
      ensures p == -1 ==> prAllocated[..] == old(prAllocated[..]) && physRegsValid[..] == old(physRegsValid[..])
      ensures p >= 0 ==> prAllocated[..] == old(prAllocated[..])[p := true]
      ensures p >= 0 ==> physRegsValid[..] == old(physRegsValid[..])[p := true]
    {
      p := -1;
      var i := 0;
      while i < PHYS_REGS
        invariant 0 <= i <= PHYS_REGS
        invariant forall j :: 0 <= j < i ==> prAllocated[j]
        invariant prAllocated[..] == old(prAllocated[..]) && physRegsValid[..] == old(physRegsValid[..])
        invariant p == -1
      {
        if !prAllocated[i] {
          p := i;
          prAllocated[i] := true;
          physRegsValid[i] := true;
          break;
        }
        i := i + 1;
      }
    }

    /**
     * The scan of apex_cpu.c:278-286: occupy the lowest free issue-queue slot;
     * -1 (the C code's NULL entry pointer) when every slot is occupied.
     */
    method ClaimIqSlot() returns (q: int)
      requires iqOccupied.Length == IQ_SIZE
      modifies iqOccupied
      ensures q == FirstFree(old(iqOccupied[..]))
      ensures q == -1 ==> iqOccupied[..] == old(iqOccupied[..])
      ensures q >= 0 ==> iqOccupied[..] == old(iqOccupied[..])[q := true]
    {
      q := -1;
      var i := 0;
      while i < IQ_SIZE
        invariant 0 <= i <= IQ_SIZE
        invariant forall j :: 0 <= j < i ==> iqOccupied[j]
        invariant iqOccupied[..] == old(iqOccupied[..])
        invariant q == -1
      {
        if !iqOccupied[i] {
          q := i;
          iqOccupied[i] := true;
          break;
        }
        i := i + 1;
      }
    }

    /**
     * The renaming half of decode (apex_cpu.c:240-261): claim the first free
     * physical register and, when there is one, map `rd` to it, with the mapping
     * and the register marked not yet valid. Returns the register, or -1.
     */
    method RenameDestination(rd: int) returns (p: int)
      requires prAllocated.Length == PHYS_REGS && physRegsValid.Length == PHYS_REGS
      requires renameTable.Length == ARCH_REGS && renameTableValid.Length == ARCH_REGS
      requires physRegsValid != prAllocated
      requires FirstFree(prAllocated[..]) != -1 ==> 0 <= rd < ARCH_REGS
      modifies prAllocated, physRegsValid, renameTable, renameTableValid
      ensures p == FirstFree(old(prAllocated[..]))
      ensures p == -1 ==> && prAllocated[..] == old(prAllocated[..]) && physRegsValid[..] == old(physRegsValid[..])
                          && renameTable[..] == old(renameTable[..]) && renameTableValid[..] == old(renameTableValid[..])
      ensures p >= 0 ==> && prAllocated[..] == old(prAllocated[..])[p := true]
                         && physRegsValid[..] == old(physRegsValid[..])[p := false]
                         && renameTable[..] == old(renameTable[..])[rd := p]
                         && renameTableValid[..] == old(renameTableValid[..])[rd := false]
    {
      p := ClaimPhysReg();
      if p > -1 {
        renameTable[rd] := p;
        renameTableValid[rd] := false;
        physRegsValid[renameTable[rd]] := false;
      }
    }

    /**
     * APEX_decode (apex_cpu.c:222-340): rename the sources, allocate the first
     * free physical register for the destination and, when one was found, the
     * first free issue-queue slot. The latch is neither consumed nor stalled.
     */
    method Decode()
      requires Valid() && DecodeOk(Snapshot())
      modifies prAllocated, physRegsValid, renameTable, renameTableValid, issueQueue, iqOccupied
      ensures Snapshot() == DecodeStep(old(Snapshot()))
      ensures Valid()
    {
      if decode.hasInsn {
        var stageStalled := false;
        var rs1Physical := if decode.rs1 > -1 then renameTable[decode.rs1] else -1;
        var rs2Physical := if decode.rs2 > -1 then renameTable[decode.rs2] else -1;

        var firstFreePhyReg := RenameDestination(decode.rd);
        if !(firstFreePhyReg > -1) {
          stageStalled := true;
        }

        // The queue-full test: the scan stops at the first occupied slot, and its
        // test for i == 24 is never reached with that value.
        var i := 0;
        while i < IQ_SIZE
          invariant 0 <= i <= IQ_SIZE
          invariant stageStalled == (firstFreePhyReg == -1)
        {
          if iqOccupied[i] {
            break;
          }
          if i == IQ_SIZE {
            stageStalled := true;
          }
          i := i + 1;
        }

        if !stageStalled {
          EnqueueDecoded(rs1Physical, rs2Physical, firstFreePhyReg);
        }
      }
    }

    /**
     * The tail of decode (apex_cpu.c:276-337): claim the lowest free issue-queue
     * slot and fill in its entry for the instruction in the decode latch.
     */
    method EnqueueDecoded(src1: int, src2: int, p: int)
      requires issueQueue.Length == IQ_SIZE && iqOccupied.Length == IQ_SIZE
      requires FirstFree(iqOccupied[..]) != -1
      modifies issueQueue, iqOccupied
      ensures var q := FirstFree(old(iqOccupied[..]));
              && iqOccupied[..] == old(iqOccupied[..])[q := true]
              && issueQueue[..] == old(issueQueue[..])[q := DecodedEntry(old(issueQueue[..])[q], decode, src1, src2, p)]
    {
      var entrySlot := ClaimIqSlot();
      var entry := issueQueue[entrySlot];
      entry := entry.(opcode := decode.opcode, src1 := src1, src2 := src2,
                      imm := decode.imm, pc := decode.pc,
                      desPhyReg := p, desRd := decode.rd);
      // the switch on the opcode; other opcodes leave the slot's old fu_type
      entry := entry.(fuType := FuTypeFor(decode.opcode, entry.fuType));
      issueQueue[entrySlot] := entry;
    }

    /**
     * One pass of the selection loop (apex_cpu.c:363-411): an occupied slot `i`
     * replaces the candidate of the unit its case selects; the others are kept.
     */
    method ConsiderSlot(i: int, intFuIssued: int, mulFuIssued: int, branchFuIssued: int,
                        selectedInt: IqEntry, selectedMul: IqEntry, selectedBranch: IqEntry)
      returns (intFuIssued': int, mulFuIssued': int, branchFuIssued': int,
               selectedInt': IqEntry, selectedMul': IqEntry, selectedBranch': IqEntry)
      requires Sized(Snapshot()) && IssueOk(Snapshot()) && 0 <= i < IQ_SIZE
      ensures var s := Snapshot();
              var chosen := s.iqOccupied[i] && SelectedUnit(s.issueQueue[i], s.physRegsValid) == IntUnit;
              intFuIssued' == (if chosen then i else intFuIssued)
              && selectedInt' == (if chosen then s.issueQueue[i] else selectedInt)
      ensures var s := Snapshot();
              var chosen := s.iqOccupied[i] && SelectedUnit(s.issueQueue[i], s.physRegsValid) == MulUnit;
              mulFuIssued' == (if chosen then i else mulFuIssued)
              && selectedMul' == (if chosen then s.issueQueue[i] else selectedMul)
      ensures var s := Snapshot();
              var chosen := s.iqOccupied[i] && SelectedUnit(s.issueQueue[i], s.physRegsValid) == BranchUnit;
              branchFuIssued' == (if chosen then i else branchFuIssued)
              && selectedBranch' == (if chosen then s.issueQueue[i] else selectedBranch)
    {
      intFuIssued', mulFuIssued', branchFuIssued' := intFuIssued, mulFuIssued, branchFuIssued;
      selectedInt', selectedMul', selectedBranch' := selectedInt, selectedMul, selectedBranch;
      if iqOccupied[i] {
        var iqe := issueQueue[i];
        // the switch on the opcode
        if iqe.opcode == ADD {
          if physRegsValid[iqe.src1] && physRegsValid[iqe.src2] {
            selectedInt', intFuIssued' := iqe, i;
          }
        } else if iqe.opcode == MOVC {
          selectedInt', intFuIssued' := iqe, i;
        } else if iqe.opcode == MUL {
          if physRegsValid[iqe.src1] && physRegsValid[iqe.src2] {
            selectedMul', mulFuIssued' := iqe, i;
          } else if iqe.src1Ready {
            // no break in the MUL case: control falls into the JUMP/JAL case
            selectedBranch', branchFuIssued' := iqe, i;
          }
        } else if iqe.opcode == JUMP || iqe.opcode == JAL {
          if iqe.src1Ready {
            selectedBranch', branchFuIssued' := iqe, i;
          }
        }
      }
    }

    /**
     * The selection loop of APEX_issuequeue (apex_cpu.c:361-412): scan every
     * slot, keeping for each unit the last occupied one its case selects.
     */
    method SelectForIssue() returns (intFuIssued: int, mulFuIssued: int, branchFuIssued: int,
                                     selectedInt: IqEntry, selectedMul: IqEntry, selectedBranch: IqEntry)
      requires Sized(Snapshot()) && IssueOk(Snapshot())
      ensures intFuIssued == LastSelected(Snapshot(), IntUnit, IQ_SIZE)
      ensures mulFuIssued == LastSelected(Snapshot(), MulUnit, IQ_SIZE)
      ensures branchFuIssued == LastSelected(Snapshot(), BranchUnit, IQ_SIZE)
      ensures intFuIssued >= 0 ==> selectedInt == issueQueue[intFuIssued]
      ensures mulFuIssued >= 0 ==> selectedMul == issueQueue[mulFuIssued]
      ensures branchFuIssued >= 0 ==> selectedBranch == issueQueue[branchFuIssued]
    {
      ghost var s := Snapshot();
      intFuIssued, mulFuIssued, branchFuIssued := -1, -1, -1;
      selectedInt, selectedMul, selectedBranch := ZeroEntry, ZeroEntry, ZeroEntry;
      for i := 0 to IQ_SIZE
        invariant intFuIssued == LastSelected(s, IntUnit, i)
        invariant mulFuIssued == LastSelected(s, MulUnit, i)
        invariant branchFuIssued == LastSelected(s, BranchUnit, i)
        invariant intFuIssued >= 0 ==> selectedInt == s.issueQueue[intFuIssued]
        invariant mulFuIssued >= 0 ==> selectedMul == s.issueQueue[mulFuIssued]
        invariant branchFuIssued >= 0 ==> selectedBranch == s.issueQueue[branchFuIssued]
      {
        intFuIssued, mulFuIssued, branchFuIssued, selectedInt, selectedMul, selectedBranch :=
          ConsiderSlot(i, intFuIssued, mulFuIssued, branchFuIssued, selectedInt, selectedMul, selectedBranch);
      }
    }

    /**
     * APEX_issuequeue (apex_cpu.c:346-463): select, then move each winner into its
     * unit's latch stamped with the IQ stage and free its slot.
     */
    method IssueQueue()
      requires Valid() && IssueOk(Snapshot())
      modifies this, iqOccupied
      ensures Snapshot() == IssueStep(old(Snapshot()))
      ensures Valid()
    {
      var intFuIssued, mulFuIssued, branchFuIssued, selectedInt, selectedMul, selectedBranch := SelectForIssue();
      IssueToIntFu(intFuIssued, selectedInt);
      IssueToMul1(mulFuIssued, selectedMul);
      IssueToJbu1(branchFuIssued, selectedBranch);
    }

    /** The integer-unit arm of issue: slot w (if the scan found one) moves into the intFU latch. */
    method IssueToIntFu(w: int, e: IqEntry)
      requires Sized(Snapshot()) && -1 <= w < IQ_SIZE
      modifies this, iqOccupied
      ensures Snapshot() == old(Snapshot()).(intFu := if w >= 0 then IssueInto(old(intFu), e) else old(intFu),
                                             iqOccupied := ReleaseIf(old(iqOccupied[..]), w))
    {
      if w > -1 {
        intFu := intFu.(iqEntry := e.(finishedStage := IQ), stalled := false);
        iqOccupied[w] := false;
        intFu := intFu.(hasInsn := true);
      }
    }

    /** The multiplier arm of issue: slot w (if the scan found one) moves into the mul1 latch. */
    method IssueToMul1(w: int, e: IqEntry)
      requires Sized(Snapshot()) && -1 <= w < IQ_SIZE
      modifies this, iqOccupied
      ensures Snapshot() == old(Snapshot()).(mul1 := if w >= 0 then IssueInto(old(mul1), e) else old(mul1),
                                             iqOccupied := ReleaseIf(old(iqOccupied[..]), w))
    {
      if w > -1 {
        mul1 := mul1.(iqEntry := e.(finishedStage := IQ), stalled := false, hasInsn := true);
        iqOccupied[w] := false;
      }
    }

    /** The branch arm of issue: slot w (if the scan found one) moves into the jbu1 latch. */
    method IssueToJbu1(w: int, e: IqEntry)
      requires Sized(Snapshot()) && -1 <= w < IQ_SIZE
      modifies this, iqOccupied
      ensures Snapshot() == old(Snapshot()).(jbu1 := if w >= 0 then IssueInto(old(jbu1), e) else old(jbu1),
                                             iqOccupied := ReleaseIf(old(iqOccupied[..]), w))
    {
      if w > -1 {
        jbu1 := jbu1.(iqEntry := e.(finishedStage := IQ), stalled := false, hasInsn := true);
        iqOccupied[w] := false;
      }
    }

    /** Free the old retirement mapping of the destination unless it counts as unmapped. */
    method FreePreviousMapping(e: IqEntry, rule: UnmappedRule)
      requires Valid() && DestInRange(e) && RetireOk(Snapshot(), e, rule)
      modifies physRegsValid, prAllocated
      ensures Snapshot() == FreePrevious(old(Snapshot()), e, rule)
      ensures Valid()
    {
      var previous := rRenameTable[e.desRd];
      if !Unmapped(previous, rule) {
        physRegsValid[previous] := false;
        prAllocated[previous] := false;
      }
    }

    /** Write the result and map the destination register to its new home. */
    method WriteResult(e: IqEntry, value: int)
      requires Valid() && DestInRange(e)
      modifies physRegs, physRegsValid, renameTableValid, rRenameTable, rRenameTableValid
      ensures Snapshot() == WriteBack(old(Snapshot()), e, value)
      ensures Valid()
    {
      physRegs[e.desPhyReg] := value;
      physRegsValid[e.desPhyReg] := true;
      renameTableValid[e.desRd] := true;
      rRenameTable[e.desRd] := e.desPhyReg;
      rRenameTableValid[e.desRd] := true;
    }

    /**
     * The retirement sequence written out in APEX_intfu and APEX_mul3: free the
     * old retirement mapping of the destination register unless it counts as
     * unmapped, then write the result and map the register to its new home.
     */
    method RetireResult(e: IqEntry, value: int, rule: UnmappedRule)
      requires Valid() && DestInRange(e) && RetireOk(Snapshot(), e, rule)
      modifies physRegs, physRegsValid, prAllocated, renameTableValid, rRenameTable, rRenameTableValid
      ensures Snapshot() == Retire(old(Snapshot()), e, value, rule)
      ensures Valid()
    {
      FreePreviousMapping(e, rule);
      WriteResult(e, value);
    }

    /** The ADD arm of APEX_intfu (apex_cpu.c:474-521): sum, zero flag, retire. */
    method IntFuAddArm()
      requires Valid() && IntFuOk(Snapshot()) && IntFuFires(Snapshot()) && intFu.iqEntry.opcode == ADD
      modifies this, physRegs, physRegsValid, prAllocated, renameTableValid, rRenameTable, rRenameTableValid
      ensures Snapshot() == IntFuAdd(old(Snapshot()))
      ensures Valid()
    {
      var iqEntry := intFu.iqEntry;
      intFu := intFu.(resultBuffer := physRegs[iqEntry.src1] + physRegs[iqEntry.src2]);
      zeroFlag := intFu.resultBuffer == 0;
      assert Snapshot() == LatchSum(old(Snapshot()));
      RetireResult(iqEntry, intFu.resultBuffer, ZeroOnly);
    }

    /** The MOVC arm of APEX_intfu (apex_cpu.c:685-724): the immediate, retired. */
    method IntFuMovcArm()
      requires Valid() && IntFuFires(Snapshot()) && intFu.iqEntry.opcode != ADD
      modifies this, physRegs, physRegsValid, prAllocated, renameTableValid, rRenameTable, rRenameTableValid
      ensures Snapshot() == IntFuMovc(old(Snapshot()))
      ensures Valid()
    {
      var iqEntry := intFu.iqEntry;
      intFu := intFu.(resultBuffer := iqEntry.imm);
      assert Snapshot() == LatchImm(old(Snapshot()));
      RetireResult(iqEntry, intFu.resultBuffer, ZeroOrMinusOne);
    }

    /** APEX_intfu (apex_cpu.c:465-737) on the ADD and MOVC entries issue sends it. */
    method IntFu()
      requires Valid() && IntFuOk(Snapshot())
      modifies this, physRegs, physRegsValid, prAllocated, renameTableValid, rRenameTable, rRenameTableValid
      ensures Snapshot() == IntFuStep(old(Snapshot()))
      ensures Valid()
    {
      var iqEntry := intFu.iqEntry;
      if !intFu.stalled && iqEntry.finishedStage.Ordinal() < INTFU.Ordinal() && intFu.hasInsn {
        // the switch on the opcode; issue sends this unit only ADD and MOVC
        if iqEntry.opcode == ADD {
          IntFuAddArm();
        } else {
          IntFuMovcArm();
        }
        EmptyIntFu();
      }
    }

    /** The end of both intfu arms: the latch is emptied. */
    method EmptyIntFu()
      modifies this
      ensures Snapshot() == IntFuEmptied(old(Snapshot()))
    {
      // the C code's finishedstage = INTFU goes to a local copy and is lost
      intFu := intFu.(hasInsn := false);
    }

    /** APEX_mul1 (apex_cpu.c:739-765). */
    method Mul1()
      requires Valid()
      modifies this
      ensures Snapshot() == Mul1Step(old(Snapshot()))
      ensures Valid()
    {
      var iqEntry := mul1.iqEntry;
      if !mul1.stalled && iqEntry.finishedStage.Ordinal() < MUL1.Ordinal() && mul1.hasInsn {
        if iqEntry.opcode == MUL {
          mul1 := mul1.(resultBuffer := physRegs[iqEntry.src1] * physRegs[iqEntry.src2]);
        }
        mul2 := mul1;
        mul1 := mul1.(hasInsn := false);
      }
    }

    /** APEX_mul2 (apex_cpu.c:767-788). */
    method Mul2()
      requires Valid()
      modifies this
      ensures Snapshot() == Mul2Step(old(Snapshot()))
      ensures Valid()
    {
      var iqEntry := mul2.iqEntry;
      if !mul2.stalled && iqEntry.finishedStage.Ordinal() < MUL2.Ordinal() && mul2.hasInsn {
        mul3 := mul2;
        mul2 := mul2.(hasInsn := false);
      }
    }

    /** APEX_mul3 (apex_cpu.c:790-845). */
    method Mul3()
      requires Valid()
      modifies this, physRegs, physRegsValid, prAllocated, renameTableValid, rRenameTable, rRenameTableValid
      ensures Snapshot() == Mul3Step(old(Snapshot()))
      ensures Valid()
    {
      var iqEntry := mul3.iqEntry;
      if !mul3.stalled && iqEntry.finishedStage.Ordinal() < MUL3.Ordinal() && mul3.hasInsn {
        RetireResult(iqEntry, mul3.resultBuffer, ZeroOrMinusOne);
        mul3 := mul3.(hasInsn := false);
      }
    }

    /** APEX_jbu1 (apex_cpu.c:846-877). */
    method Jbu1()
      requires Valid()
      modifies this
      ensures Snapshot() == Jbu1Step(old(Snapshot()))
      ensures Valid()
    {
      if jbu1.hasInsn {
        var iqEntry := jbu1.iqEntry;
        // the switch on the opcode; its JAL case falls into the JUMP case, which
        // stores the same target again
        if iqEntry.opcode == JAL {
          jbu1 := jbu1.(resultBuffer := iqEntry.src1 + iqEntry.imm, rd := iqEntry.pc + 4);
        } else if iqEntry.opcode == JUMP {
          jbu1 := jbu1.(resultBuffer := iqEntry.src1 + iqEntry.imm);
        }
        jbu2 := jbu1;
        jbu1 := jbu1.(hasInsn := false);
      }
    }

    /** APEX_jbu2 (apex_cpu.c:878-905). */
    method Jbu2()
      requires Valid()
      modifies this
      ensures Snapshot() == Jbu2Step(old(Snapshot()))
      ensures Valid()
    {
      if jbu2.hasInsn {
        jbu2 := jbu2.(hasInsn := false);
      }
    }

    /** The first five calls of a cycle (apex_cpu.c:997-1001): jbu2, jbu1, mul3, mul2, mul1. */
    method JumpAndMulStages()
      requires Valid()
      modifies this, physRegs, physRegsValid, prAllocated, renameTableValid, rRenameTable, rRenameTableValid
      ensures Snapshot() == ThroughMul1(old(Snapshot()))
      ensures Valid()
    {
      Jbu2();
      Jbu1();
      Mul3();
      Mul2();
      Mul1();
    }

    /** The execute half of a cycle (apex_cpu.c:997-1002): the jump and multiply stages, then intfu. */
    method ExecuteStages()
      requires Valid() && IntFuOk(ThroughMul1(Snapshot()))
      modifies this, physRegs, physRegsValid, prAllocated, renameTableValid, rRenameTable, rRenameTableValid
      ensures Snapshot() == IntFuStep(ThroughMul1(old(Snapshot())))
      ensures Valid()
    {
      JumpAndMulStages();
      IntFu();
    }

    /** One iteration of the loop in APEX_cpu_run (apex_cpu.c:997-1005, 1029). */
    method Cycle()
      requires Valid() && CycleDefined(code, Snapshot())
      modifies this, physRegs, physRegsValid, prAllocated, renameTable, renameTableValid,
               rRenameTable, rRenameTableValid, issueQueue, iqOccupied
      ensures Snapshot() == CycleStep(code, old(Snapshot()))
      ensures Valid()
    {
      ExecuteStages();
      IssueQueue();
      Decode();
      Fetch();
      Tick();
    }

    /** n iterations of the loop of APEX_cpu_run (apex_cpu.c:989-1030) in which the user does not quit. */
    method Run(n: nat)
      requires Valid() && RunDefined(code, Snapshot(), n)
      modifies this, physRegs, physRegsValid, prAllocated, renameTable, renameTableValid,
               rRenameTable, rRenameTableValid, issueQueue, iqOccupied
      ensures Snapshot() == Pipeline.Run(code, old(Snapshot()), n)
      ensures Valid()
    {
      for i := 0 to n
        invariant Valid() && RunDefined(code, Snapshot(), n - i)
        invariant Pipeline.Run(code, old(Snapshot()), n) == Pipeline.Run(code, Snapshot(), n - i)
      {
        Cycle();
      }
    }

    /** The clock advances by one at the end of every cycle. */
    method Tick()
      requires Valid()
      modifies this
      ensures Snapshot() == Ticked(old(Snapshot()))
      ensures Valid()
    {
      clock := clock + 1;
    }
  }
}

/**
 * What APEX_fetch and APEX_decode promise, stated on their stage functions:
 * fetch copies the word at pc and moves pc on by 4 when decode takes it;
 * decode renames through the lowest free physical register and files the
 * instruction in the lowest free issue-queue slot.
 */
module FetchDecodeProperties {
  import opened ApexTypes
  import opened MachineState
  import opened Pipeline

  // ---------------------------------------------------------------- fetch

  /**
   * A firing fetch copies code[(pc - 4000) / 4] into the fetch latch. When decode
   * is not stalled, pc grows by 4 and decode receives the copy; otherwise pc stays
   * and the fetch latch stalls. Fetching HALT empties the fetch latch. Nothing
   * else changes.
   */
  lemma FetchCopiesInstruction(code: seq<Instruction>, s: State)
    requires FetchOk(code, s) && FetchFires(s) && !s.fetchFromNextCycle
    ensures var ins := code[CodeIndex(s.pc)];
            var f := Fetched(s.fetch, s.pc, ins);
            var r := FetchStep(code, s);
            && (!s.decode.stalled ==> r.pc == s.pc + 4 && r.decode == f && r.fetch.stalled == s.fetch.stalled)
            && (s.decode.stalled ==> r.pc == s.pc && r.decode == s.decode && r.fetch.stalled)
            && r.fetch.(hasInsn := true, stalled := s.fetch.stalled) == f
            && (r.fetch.hasInsn <==> ins.opcode != HALT)
            && r.(pc := s.pc, decode := s.decode, fetch := s.fetch) == s
  {
  }

  /** A set fetch_from_next_cycle makes a firing fetch only clear that flag. */
  lemma FetchSkipsOnFlag(code: seq<Instruction>, s: State)
    requires FetchFires(s) && s.fetchFromNextCycle
    ensures FetchStep(code, s) == s.(fetchFromNextCycle := false)
  {
  }

  /** Once HALT has been fetched the fetch latch is empty, and fetch changes nothing more. */
  lemma FetchStopsAfterHalt(code: seq<Instruction>, s: State)
    requires FetchOk(code, s) && FetchFires(s) && !s.fetchFromNextCycle
    requires code[CodeIndex(s.pc)].opcode == HALT
    ensures var r := FetchStep(code, s);
            !r.fetch.hasInsn && FetchOk(code, r) && FetchStep(code, r) == r
  {
  }

  // ---------------------------------------------------------------- decode

  /** Decode finds a free physical register: the one case in which it changes the state. */
  predicate DecodeDispatches(s: State)
    requires Sized(s)
  {
    s.decode.hasInsn && FirstFree(s.prAllocated) != -1
  }

  /**
   * Decode claims the lowest free physical register p: afterwards p is allocated
   * and not valid, rd is renamed to p in the speculative table with its valid
   * flag cleared, and the rest of the register state is as before.
   */
  lemma DecodeClaimsLowestRegister(s: State)
    requires Wf(s) && DecodeOk(s) && DecodeDispatches(s)
    ensures var p := FirstFree(s.prAllocated);
            var r := DecodeStep(s);
            && 0 <= p < PHYS_REGS && !s.prAllocated[p]
            && (forall j :: 0 <= j < p ==> s.prAllocated[j])
            && r.prAllocated == s.prAllocated[p := true]
            && r.physRegsValid == s.physRegsValid[p := false]
            && r.renameTable == s.renameTable[s.decode.rd := p]
            && r.renameTableValid == s.renameTableValid[s.decode.rd := false]
            && r.physRegs == s.physRegs && r.rRenameTable == s.rRenameTable
            && r.rRenameTableValid == s.rRenameTableValid
  {
  }

  /**
   * Decode files the instruction in the lowest free issue-queue slot q, which
   * becomes occupied. The entry carries the sources as renamed BEFORE rd is
   * remapped (so an instruction reading its own destination gets the old
   * mapping), the immediate, pc, the new register and rd, and the unit class
   * 3, 4 or 5 for ADD/MOVC, MUL and JUMP/JAL. The other slots are unchanged.
   */
  lemma DecodeFillsLowestSlot(s: State)
    requires Wf(s) && DecodeOk(s) && DecodeDispatches(s)
    ensures var q := FirstFree(s.iqOccupied);
            var d := s.decode;
            var r := DecodeStep(s);
            var e := r.issueQueue[q];
            && 0 <= q < IQ_SIZE && !s.iqOccupied[q]
            && (forall j :: 0 <= j < q ==> s.iqOccupied[j])
            && r.iqOccupied == s.iqOccupied[q := true]
            && (forall j :: 0 <= j < IQ_SIZE && j != q ==> r.issueQueue[j] == s.issueQueue[j])
            && e.src1 == (if d.rs1 > -1 then s.renameTable[d.rs1] else -1)
            && e.src2 == (if d.rs2 > -1 then s.renameTable[d.rs2] else -1)
            && e.opcode == d.opcode && e.imm == d.imm && e.pc == d.pc
            && e.desPhyReg == FirstFree(s.prAllocated) && e.desRd == d.rd
            && (d.opcode == ADD || d.opcode == MOVC ==> e.fuType == FU_INT)
            && (d.opcode == MUL ==> e.fuType == FU_MUL)
            && (d.opcode == JUMP || d.opcode == JAL ==> e.fuType == FU_BRANCH)
            && e.src1Ready == s.issueQueue[q].src1Ready && e.src2Ready == s.issueQueue[q].src2Ready
  {
  }

  /**
   * Decode touches only the register tables and the issue queue: pc, the clock,
   * the flags and every latch, its own included, are left as they were.
   */
  lemma DecodeFrame(s: State)
    requires Wf(s) && DecodeOk(s)
    ensures DecodeStep(s).(prAllocated := s.prAllocated, physRegsValid := s.physRegsValid,
                           renameTable := s.renameTable, renameTableValid := s.renameTableValid,
                           issueQueue := s.issueQueue, iqOccupied := s.iqOccupied) == s
  {
  }

  /** With all 48 physical registers busy (or nothing latched), decode changes nothing. */
  lemma DecodeStallsWhenFull(s: State)
    requires Wf(s) && DecodeOk(s) && !DecodeDispatches(s)
    ensures DecodeStep(s) == s
  {
  }

  /**
   * Each dispatching decode takes exactly one physical register and one
   * issue-queue slot: both busy counts grow by one.
   */
  lemma DecodeCountsOneEach(s: State)
    requires Wf(s) && DecodeOk(s) && DecodeDispatches(s)
    ensures CountTrue(DecodeStep(s).prAllocated) == CountTrue(s.prAllocated) + 1
    ensures CountTrue(DecodeStep(s).iqOccupied) == CountTrue(s.iqOccupied) + 1
  {
    var p := FirstFree(s.prAllocated);
    var q := FirstFree(s.iqOccupied);
    CountTrueUpdate(s.prAllocated, p, true);
    CountTrueUpdate(s.iqOccupied, q, true);
  }

  /**
   * Decode never consumes its latch: a second call, with fetch not having
   * replaced the latch in between, dispatches the same instruction again into
   * a fresh, higher physical register and a second issue-queue slot, and rd is
   * renamed to the new register while the first one stays allocated.
   */
  lemma DecodeRedispatches(s: State)
    requires Wf(s) && DecodeOk(s) && DecodeDispatches(s)
    requires DecodeOk(DecodeStep(s)) && DecodeDispatches(DecodeStep(s))
    ensures var r1 := DecodeStep(s);
            var r2 := DecodeStep(r1);
            var p1 := FirstFree(s.prAllocated);
            var p2 := FirstFree(r1.prAllocated);
            && r1.decode == s.decode
            && p1 < p2 && r2.prAllocated[p1] && r2.prAllocated[p2]
            && r2.renameTable[s.decode.rd] == p2
            && CountTrue(r2.iqOccupied) == CountTrue(s.iqOccupied) + 2
  {
    var r1 := DecodeStep(s);
    DecodeCountsOneEach(s);
    DecodeCountsOneEach(r1);
    DecodeClaimsLowestRegister(s);
    DecodeClaimsLowestRegister(r1);
  }
}

/**
 * What the execute stages promise: the retirement protocol of intfu and mul3,
 * the multiplier's three-stage hand-off, the jump unit's target computation,
 * and, over whole cycles, that no in-flight operation is lost, that a product
 * is written back three cycles after issue, and that an entry dispatched in a
 * cycle is still waiting in the issue queue when that cycle ends.
 */
module ExecuteProperties {
  import opened ApexTypes
  import opened MachineState
  import opened Pipeline
  import opened Invariants

  // ---------------------------------------------------------------- retirement

  /**
   * Retiring an entry e with value v: the destination register gets v and
   * becomes valid, the retirement table maps des_rd to it, the valid flags of
   * both tables are set for des_rd, and the register the retirement table held
   * before is freed and invalidated unless it counts as unmapped. The
   * speculative mapping of des_rd is left as it is, so once a later decode has
   * renamed des_rd again, its valid flag is set while it names a register whose
   * value is not yet computed. Nothing else changes.
   */
  lemma RetireProtocol(s: State, e: IqEntry, v: int, rule: UnmappedRule)
    requires Wf(s) && DestInRange(e) && RetireOk(s, e, rule)
    ensures var r := Retire(s, e, v, rule);
            var prev := s.rRenameTable[e.desRd];
            var d := e.desPhyReg;
            && r.physRegs == s.physRegs[d := v]
            && r.physRegsValid == (if Unmapped(prev, rule) then s.physRegsValid
                                   else s.physRegsValid[prev := false])[d := true]
            && r.prAllocated == (if Unmapped(prev, rule) then s.prAllocated else s.prAllocated[prev := false])
            && r.rRenameTable == s.rRenameTable[e.desRd := d]
            && r.renameTable == s.renameTable
            && r.renameTableValid == s.renameTableValid[e.desRd := true]
            && r.rRenameTableValid == s.rRenameTableValid[e.desRd := true]
            && r.(physRegs := s.physRegs, physRegsValid := s.physRegsValid, prAllocated := s.prAllocated,
                  rRenameTable := s.rRenameTable, renameTableValid := s.renameTableValid,
                  rRenameTableValid := s.rRenameTableValid) == s
  {
  }

  /**
   * A firing integer unit retires the sum of its sources (ADD, freeing the old
   * mapping unless it is 0) or its immediate (MOVC, unless it is 0 or -1),
   * leaves the value in its result buffer and empties its latch. Only ADD
   * writes the zero flag, setting it exactly when the sum is 0.
   */
  lemma IntFuRetires(s: State)
    requires Wf(s) && IntFuOk(s) && IntFuFires(s)
    ensures var e := s.intFu.iqEntry;
            var add := e.opcode == ADD;
            var v := if add then s.physRegs[e.src1] + s.physRegs[e.src2] else e.imm;
            IntFuStep(s) == Retire(s, e, v, if add then ZeroOnly else ZeroOrMinusOne)
                              .(intFu := s.intFu.(resultBuffer := v, hasInsn := false),
                                zeroFlag := if add then v == 0 else s.zeroFlag)
  {
    if s.intFu.iqEntry.opcode == ADD {
      AddRetires(s);
    } else {
      MovcRetires(s);
    }
  }

  /** The ADD arm: the sum is retired under the ZeroOnly rule and sets the zero flag. */
  lemma AddRetires(s: State)
    requires Wf(s) && IntFuOk(s) && IntFuFires(s) && s.intFu.iqEntry.opcode == ADD
    ensures var e := s.intFu.iqEntry;
            var v := s.physRegs[e.src1] + s.physRegs[e.src2];
            IntFuAdd(s) == Retire(s, e, v, ZeroOnly).(intFu := s.intFu.(resultBuffer := v), zeroFlag := v == 0)
  {
    var s0 := LatchSum(s);
    RetireIgnoresLatches(s, s0, s.intFu.iqEntry, s0.intFu.resultBuffer, ZeroOnly);
  }

  /** The MOVC arm: the immediate is retired under the ZeroOrMinusOne rule; the zero flag is kept. */
  lemma MovcRetires(s: State)
    requires Wf(s) && IntFuFires(s) && s.intFu.iqEntry.opcode != ADD
    ensures var e := s.intFu.iqEntry;
            IntFuMovc(s) == Retire(s, e, e.imm, ZeroOrMinusOne).(intFu := s.intFu.(resultBuffer := e.imm))
  {
    var s0 := LatchImm(s);
    RetireIgnoresLatches(s, s0, s.intFu.iqEntry, s0.intFu.resultBuffer, ZeroOrMinusOne);
  }

  /** Retiring reads and writes only the register file and the tables, so it commutes with latch and flag updates. */
  lemma RetireIgnoresLatches(s: State, t: State, e: IqEntry, v: int, rule: UnmappedRule)
    requires Wf(s) && Wf(t) && DestInRange(e) && RetireOk(s, e, rule)
    requires t.physRegs == s.physRegs && t.physRegsValid == s.physRegsValid && t.prAllocated == s.prAllocated
    requires t.rRenameTable == s.rRenameTable && t.renameTableValid == s.renameTableValid
    requires t.rRenameTableValid == s.rRenameTableValid
    ensures RetireOk(t, e, rule)
    ensures var r := Retire(s, e, v, rule);
            Retire(t, e, v, rule) == t.(physRegs := r.physRegs, physRegsValid := r.physRegsValid,
                                        prAllocated := r.prAllocated, rRenameTable := r.rRenameTable,
                                        renameTableValid := r.renameTableValid,
                                        rRenameTableValid := r.rRenameTableValid)
  {
  }

  /** An integer unit that does not fire changes nothing. */
  lemma IntFuIdle(s: State)
    requires Wf(s) && IntFuOk(s) && !IntFuFires(s)
    ensures IntFuStep(s) == s
  {
  }

  // ---------------------------------------------------------------- multiplier

  /**
   * A firing mul1 computes the product of a MUL's source registers into its
   * result buffer, copies the latch whole into mul2 and empties its own copy.
   */
  lemma Mul1Multiplies(s: State)
    requires Wf(s) && Mul1Fires(s)
    ensures var r := Mul1Step(s);
            && (s.mul1.iqEntry.opcode == MUL ==> r.mul2 == s.mul1.(resultBuffer := Product(s, s.mul1)))
            && (s.mul1.iqEntry.opcode != MUL ==> r.mul2 == s.mul1)
            && r.mul1 == r.mul2.(hasInsn := false)
            && r.(mul1 := s.mul1, mul2 := s.mul2) == s
  {
  }

  /** A firing mul3 retires its result buffer (freeing the old mapping unless 0 or -1) and empties its latch. */
  lemma Mul3Retires(s: State)
    requires Wf(s) && Mul3Fires(s)
    ensures Mul3Step(s) == Retire(s, s.mul3.iqEntry, s.mul3.resultBuffer, ZeroOrMinusOne)
                             .(mul3 := s.mul3.(hasInsn := false))
  {
  }

  /**
   * In a reachable state the jump stages idle and the three multiplier stages
   * move every MUL exactly one stage on: mul3's is retired, mul2's reaches mul3
   * unchanged, mul1's reaches mul2 with its product, and mul1 is left empty.
   * Each stage empties its latch before its upstream neighbour refills it, so
   * no operation is lost or duplicated.
   */
  lemma MulStagesShift(s: State)
    requires Inv(s)
    ensures var r := ThroughMul1(s);
            && (s.mul3.hasInsn ==> ThroughMul3(s) == Retire(s, s.mul3.iqEntry, s.mul3.resultBuffer, ZeroOrMinusOne)
                                                       .(mul3 := s.mul3.(hasInsn := false)))
            && r.mul3.hasInsn == s.mul2.hasInsn
            && (s.mul2.hasInsn ==> r.mul3 == s.mul2)
            && r.mul2.hasInsn == s.mul1.hasInsn
            && (s.mul1.hasInsn ==> r.mul2 == s.mul1.(resultBuffer := Product(ThroughMul3(s), s.mul1)))
            && !r.mul1.hasInsn
  {
    JumpStagesIdle(s);
    var s3 := Mul3Step(s);
    if s.mul3.hasInsn {
      Mul3Retires(s);
      RetireKeepsFrontEnd(s, s.mul3.iqEntry, s.mul3.resultBuffer, ZeroOrMinusOne);
    }
    assert s3.mul1 == s.mul1 && s3.mul2 == s.mul2 && !s3.mul3.hasInsn;
    var s2 := Mul2Step(s3);
    assert s2.mul3.hasInsn == s.mul2.hasInsn && (s.mul2.hasInsn ==> s2.mul3 == s.mul2);
    assert s2.mul1 == s.mul1 && !s2.mul2.hasInsn && s2.physRegs == s3.physRegs;
  }

  // ---------------------------------------------------------------- jump unit

  /**
   * jbu1 computes the target as the first source's physical index plus the
   * immediate (JUMP and JAL) and, for JAL, the link value pc + 4 into rd; any
   * other opcode leaves the latch as it is. The latch is then copied whole into
   * jbu2, jbu1 keeps the same latch with has_insn cleared, and nothing else
   * changes; jbu2 only empties its latch.
   */
  lemma JumpUnitComputesTarget(s: State)
    requires s.jbu1.hasInsn
    ensures var e := s.jbu1.iqEntry;
            var r := Jbu1Step(s);
            var l := if e.opcode == JAL then s.jbu1.(resultBuffer := e.src1 + e.imm, rd := e.pc + 4)
                     else if e.opcode == JUMP then s.jbu1.(resultBuffer := e.src1 + e.imm)
                     else s.jbu1;
            && r.jbu2 == l
            && r.jbu1 == l.(hasInsn := false)
            && r.(jbu1 := s.jbu1, jbu2 := s.jbu2) == s
            && Jbu2Step(r) == r.(jbu2 := r.jbu2.(hasInsn := false))
  {
  }

  // ---------------------------------------------------------------- whole cycles

  /** The fields the execute stages never write: pc, fetch, decode, the clock and the issue queue. */
  ghost predicate SameFrontEnd(a: State, b: State) {
    && a.pc == b.pc && a.fetch == b.fetch && a.decode == b.decode && a.clock == b.clock
    && a.issueQueue == b.issueQueue && a.iqOccupied == b.iqOccupied
  }

  /** Retiring leaves the front end alone. */
  lemma RetireKeepsFrontEnd(s: State, e: IqEntry, v: int, rule: UnmappedRule)
    requires Wf(s) && DestInRange(e) && RetireOk(s, e, rule)
    ensures SameFrontEnd(Retire(s, e, v, rule), s)
    ensures var r := Retire(s, e, v, rule);
            r.mul1 == s.mul1 && r.mul2 == s.mul2 && r.mul3 == s.mul3
  {
  }

  /** The jump and multiply stages leave the front end alone. */
  lemma JumpAndMulKeepFrontEnd(s: State)
    requires Wf(s)
    ensures SameFrontEnd(ThroughMul1(s), s)
  {
    var s0 := Jbu1Step(Jbu2Step(s));
    assert SameFrontEnd(s0, s);
    if Mul3Fires(s0) {
      RetireKeepsFrontEnd(s0, s0.mul3.iqEntry, s0.mul3.resultBuffer, ZeroOrMinusOne);
    }
    var s1 := Mul3Step(s0);
    assert SameFrontEnd(s1, s);
    assert SameFrontEnd(Mul2Step(s1), s);
  }

  /** intfu leaves the front end alone. */
  lemma IntFuKeepsFrontEnd(s: State)
    requires Wf(s) && IntFuOk(s)
    ensures SameFrontEnd(IntFuStep(s), s)
  {
    if IntFuFires(s) {
      IntFuRetires(s);
      var e := s.intFu.iqEntry;
      var v := if e.opcode == ADD then s.physRegs[e.src1] + s.physRegs[e.src2] else e.imm;
      RetireKeepsFrontEnd(s, e, v, if e.opcode == ADD then ZeroOnly else ZeroOrMinusOne);
    }
  }

  /** The execute stages leave fetch, decode, pc, the issue queue and the clock alone. */
  lemma ExecuteFrame(s: State)
    requires Wf(s) && IntFuOk(ThroughMul1(s))
    ensures SameFrontEnd(IntFuStep(ThroughMul1(s)), s)
  {
    JumpAndMulKeepFrontEnd(s);
    IntFuKeepsFrontEnd(ThroughMul1(s));
  }

  /** intfu leaves the multiplier latches alone. */
  lemma IntFuKeepsMulLatches(s: State)
    requires Wf(s) && IntFuOk(s)
    ensures IntFuStep(s).mul2 == s.mul2 && IntFuStep(s).mul3 == s.mul3
  {
    if IntFuFires(s) {
      IntFuRetires(s);
      var e := s.intFu.iqEntry;
      var v := if e.opcode == ADD then s.physRegs[e.src1] + s.physRegs[e.src2] else e.imm;
      RetireKeepsFrontEnd(s, e, v, if e.opcode == ADD then ZeroOnly else ZeroOrMinusOne);
    }
  }

  /** The stages after mul1 in a cycle leave the multiplier latches alone. */
  lemma CycleKeepsMulLatches(code: seq<Instruction>, s: State)
    requires CycleDefined(code, s)
    ensures CycleStep(code, s).mul2 == ThroughMul1(s).mul2
    ensures CycleStep(code, s).mul3 == ThroughMul1(s).mul3
  {
    var s1 := ThroughMul1(s);
    IntFuKeepsMulLatches(s1);
    var s3 := IssueStep(IntFuStep(s1));
    assert s3.mul2 == s1.mul2 && s3.mul3 == s1.mul3;
    var s4 := DecodeStep(s3);
    assert s4.mul2 == s1.mul2 && s4.mul3 == s1.mul3;
  }

  /**
   * Over one reachable cycle every multiplier operation advances exactly one
   * stage: what was in mul2 is in mul3, and what was in mul1 is in mul2 with
   * its product.
   */
  lemma CycleAdvancesMul(code: seq<Instruction>, s: State)
    requires Inv(s) && CycleDefined(code, s)
    ensures var r := CycleStep(code, s);
            && r.mul3.hasInsn == s.mul2.hasInsn
            && (s.mul2.hasInsn ==> r.mul3 == s.mul2)
            && r.mul2.hasInsn == s.mul1.hasInsn
            && (s.mul1.hasInsn ==> r.mul2 == s.mul1.(resultBuffer := Product(ThroughMul3(s), s.mul1)))
  {
    MulStagesShift(s);
    CycleKeepsMulLatches(code, s);
  }

  /**
   * Multiply latency: a MUL sitting in mul1 at the start of a reachable cycle
   * (it was issued in the previous cycle) reaches mul3 two cycles later with its
   * product unchanged, and the third cycle's mul3 retires exactly that product
   * into its destination register (RetireProtocol says what retiring does).
   */
  lemma MulWritesBackAfterThreeCycles(code: seq<Instruction>, s: State)
    requires Inv(s) && CycleDefined(code, s) && s.mul1.hasInsn
    requires CycleDefined(code, CycleStep(code, s))
    ensures var s2 := CycleStep(code, CycleStep(code, s));
            var p := Product(ThroughMul3(s), s.mul1);
            && Inv(s2)
            && s2.mul3 == s.mul1.(resultBuffer := p)
            && ThroughMul3(s2) == Retire(s2, s.mul1.iqEntry, p, ZeroOrMinusOne).(mul3 := s2.mul3.(hasInsn := false))
  {
    var s1 := CycleStep(code, s);
    CycleAdvancesMul(code, s);
    CycleKeepsInv(code, s);
    var s2 := CycleStep(code, s1);
    CycleAdvancesMul(code, s1);
    CycleKeepsInv(code, s1);
    MulStagesShift(s2);
  }

  /**
   * Issue runs before decode in a cycle, so the entry decode files during a
   * cycle is still occupied, as filed, when the cycle ends: it can issue in the
   * next cycle at the earliest.
   */
  lemma DispatchWaitsACycle(code: seq<Instruction>, s: State)
    requires CycleDefined(code, s)
    ensures var s3 := IssueStep(IntFuStep(ThroughMul1(s)));
            var r := CycleStep(code, s);
            s3.decode.hasInsn && FirstFree(s3.prAllocated) != -1 ==>
              var q := FirstFree(s3.iqOccupied);
              && 0 <= q < IQ_SIZE && !s3.iqOccupied[q]
              && r.iqOccupied[q] && r.issueQueue[q] == DecodeStep(s3).issueQueue[q]
  {
  }

  /** Once fetch has stopped (after HALT), a cycle leaves pc and the empty fetch latch as they are. */
  lemma HaltedFetchStaysHalted(code: seq<Instruction>, s: State)
    requires CycleDefined(code, s) && !s.fetch.hasInsn
    ensures var r := CycleStep(code, s);
            !r.fetch.hasInsn && r.pc == s.pc && r.fetch == s.fetch && r.clock == s.clock + 1
  {
    ExecuteFrame(s);
    var s3 := IssueStep(IntFuStep(ThroughMul1(s)));
    assert s3.pc == s.pc && s3.fetch == s.fetch && s3.clock == s.clock;
    var s4 := DecodeStep(s3);
    assert s4.pc == s.pc && s4.fetch == s.fetch && s4.clock == s.clock;
    assert FetchStep(code, s4) == s4;
  }

  /** A cycle advances the clock by exactly one. */
  lemma CycleTicksOnce(code: seq<Instruction>, s: State)
    requires CycleDefined(code, s)
    ensures CycleStep(code, s).clock == s.clock + 1
  {
    ExecuteFrame(s);
    var s3 := IssueStep(IntFuStep(ThroughMul1(s)));
    assert s3.clock == s.clock;
    assert DecodeStep(s3).clock == s.clock;
  }

  /** n cycles advance the clock by exactly n. */
  lemma {:induction false} RunCountsCycles(code: seq<Instruction>, s: State, n: nat)
    requires RunDefined(code, s, n)
    ensures Run(code, s, n).clock == s.clock + n
    decreases n
  {
    if n > 0 {
      CycleTicksOnce(code, s);
      RunCountsCycles(code, CycleStep(code, s), n - 1);
    }
  }
}

/**
 * The reachable-state invariant `Inv` (machine_state.dfy) holds after
 * APEX_cpu_init and is kept by every stage, hence by every clock cycle. It
 * records the consequences of what the C code never does: it never sets a
 * source-ready flag, so nothing is issued to the jump unit; it never stalls
 * fetch or decode; and the multiplier stages only ever hold MULs stamped IQ.
 */
module Invariants {
  import opened ApexTypes
  import opened MachineState
  import opened Pipeline
  import opened IssueProperties

  /** Fetch keeps the invariant: pc moves by a whole word and no latch stalls. */
  lemma FetchKeepsInv(code: seq<Instruction>, s: State)
    requires Inv(s) && FetchOk(code, s)
    ensures Inv(FetchStep(code, s))
  {
    var r := FetchStep(code, s);
    if FetchFires(s) && !s.fetchFromNextCycle {
      assert r.pc == s.pc + 4;
      assert (r.pc - CODE_BASE) % 4 == 0 by {
        assert r.pc - CODE_BASE == (s.pc - CODE_BASE) + 4;
      }
    }
  }

  /** Decode keeps the invariant: the slot it fills had both ready flags clear, and keeps them. */
  lemma DecodeKeepsInv(s: State)
    requires Inv(s) && DecodeOk(s)
    ensures Inv(DecodeStep(s))
  {
    var r := DecodeStep(s);
    if s.decode.hasInsn && FirstFree(s.prAllocated) != -1 {
      var q := FirstFree(s.iqOccupied);
      assert forall i :: 0 <= i < IQ_SIZE ==> r.issueQueue[i] == s.issueQueue[i] || i == q;
    }
  }

  /** Issue keeps the invariant: the latches it fills are stamped IQ and unstalled, mul1 gets a MUL, jbu1 nothing. */
  lemma IssueKeepsInv(s: State)
    requires Inv(s) && IssueOk(s)
    ensures Inv(IssueStep(s))
  {
    NothingReachesJumpUnit(s);
    WinnersInRange(s);
  }

  /** Retiring touches only the register file and the tables. */
  lemma RetireKeepsInv(s: State, e: IqEntry, value: int, rule: UnmappedRule)
    requires Inv(s) && DestInRange(e) && RetireOk(s, e, rule)
    ensures Inv(Retire(s, e, value, rule))
  {
  }

  /** The ADD arm keeps the invariant: the sum only fills the result buffer and the zero flag. */
  lemma IntFuAddKeepsInv(s: State)
    requires Inv(s) && IntFuOk(s) && IntFuFires(s) && s.intFu.iqEntry.opcode == ADD
    ensures Inv(IntFuAdd(s))
  {
    var s0 := LatchSum(s);
    assert Inv(s0);
    RetireKeepsInv(s0, s0.intFu.iqEntry, s0.intFu.resultBuffer, ZeroOnly);
  }

  /** The MOVC arm keeps the invariant: the immediate only fills the result buffer. */
  lemma IntFuMovcKeepsInv(s: State)
    requires Inv(s) && IntFuFires(s) && s.intFu.iqEntry.opcode != ADD
    ensures Inv(IntFuMovc(s))
  {
    var s0 := LatchImm(s);
    assert Inv(s0);
    RetireKeepsInv(s0, s0.intFu.iqEntry, s0.intFu.resultBuffer, ZeroOrMinusOne);
  }

  /** The integer unit keeps the invariant: it retires and empties its latch. */
  lemma IntFuKeepsInv(s: State)
    requires Inv(s) && IntFuOk(s)
    ensures Inv(IntFuStep(s))
  {
    if IntFuFires(s) {
      var r := if s.intFu.iqEntry.opcode == ADD then IntFuAdd(s) else IntFuMovc(s);
      if s.intFu.iqEntry.opcode == ADD {
        IntFuAddKeepsInv(s);
      } else {
        IntFuMovcKeepsInv(s);
      }
      EmptiedKeepsInv(r);
    }
  }

  /** Emptying the integer unit's latch keeps the invariant. */
  lemma EmptiedKeepsInv(s: State)
    requires Inv(s)
    ensures Inv(IntFuEmptied(s))
  {
  }

  /**
   * IQ (2) lies below INTFU, MUL1, MUL2 and MUL3, and every latched operation is
   * stamped IQ and unstalled, so in a reachable state each unit's guard holds
   * exactly when its latch holds an instruction.
   */
  lemma LatchedOpsPassGuards(s: State)
    requires Inv(s)
    ensures IntFuFires(s) <==> s.intFu.hasInsn
    ensures Mul1Fires(s) <==> s.mul1.hasInsn
    ensures Mul2Fires(s) <==> s.mul2.hasInsn
    ensures Mul3Fires(s) <==> s.mul3.hasInsn
  {
  }

  /** Under the invariant both jump stages find their latches empty and change nothing. */
  lemma JumpStagesIdle(s: State)
    requires Inv(s)
    ensures Jbu1Step(Jbu2Step(s)) == s
  {
  }

  /** mul3 keeps the invariant: it retires and empties its latch. */
  lemma Mul3KeepsInv(s: State)
    requires Inv(s)
    ensures Inv(Mul3Step(s))
  {
    if Mul3Fires(s) {
      RetireKeepsInv(s, s.mul3.iqEntry, s.mul3.resultBuffer, ZeroOrMinusOne);
    }
  }

  /** mul2 keeps the invariant: an IQ-stamped MUL moves on to mul3. */
  lemma Mul2KeepsInv(s: State)
    requires Inv(s)
    ensures Inv(Mul2Step(s))
  {
  }

  /** mul1 keeps the invariant: an IQ-stamped MUL, with its product, moves on to mul2. */
  lemma Mul1KeepsInv(s: State)
    requires Inv(s)
    ensures Inv(Mul1Step(s))
  {
  }

  /** The jump and multiply stages keep the invariant. */
  lemma ThroughMul1KeepsInv(s: State)
    requires Inv(s)
    ensures Inv(ThroughMul1(s))
  {
    JumpStagesIdle(s);
    Mul3KeepsInv(s);
    Mul2KeepsInv(Mul3Step(s));
    Mul1KeepsInv(Mul2Step(Mul3Step(s)));
  }

  /** One clock cycle keeps the invariant. */
  lemma CycleKeepsInv(code: seq<Instruction>, s: State)
    requires Inv(s) && CycleDefined(code, s)
    ensures Inv(CycleStep(code, s))
  {
    var s1 := ThroughMul1(s);
    ThroughMul1KeepsInv(s);
    var s2 := IntFuStep(s1);
    IntFuKeepsInv(s1);
    var s3 := IssueStep(s2);
    IssueKeepsInv(s2);
    var s4 := DecodeStep(s3);
    DecodeKeepsInv(s3);
    FetchKeepsInv(code, s4);
    TickedKeepsInv(FetchStep(code, s4));
  }

  /** Advancing the clock keeps the invariant. */
  lemma TickedKeepsInv(s: State)
    requires Inv(s)
    ensures Inv(Ticked(s))
  {
  }

  /** Every state reached after any number of cycles satisfies the invariant. */
  lemma {:induction false} RunKeepsInv(code: seq<Instruction>, s: State, n: nat)
    requires Inv(s) && RunDefined(code, s, n)
    ensures Inv(Run(code, s, n))
    decreases n
  {
    if n > 0 {
      CycleKeepsInv(code, s);
      RunKeepsInv(code, CycleStep(code, s), n - 1);
    }
  }
}

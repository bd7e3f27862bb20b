/**
 * The APEX_CPU record (apex_cpu.h:81-134) as a value, with its well-formedness
 * conditions and the scans the stages use over its flag arrays.
 */
module MachineState {
  import opened ApexTypes

  /**
   * Every field of the machine record that the pipeline stages read or write.
   * `prAllocated` is free_PR_list (false = 0 = free, true = 1 = allocated) and
   * `iqOccupied` is freeiq (false = 0 = free slot, true = 1 = occupied).
   */
  datatype State = State(
    pc: int,
    clock: int,
    zeroFlag: bool,
    fetchFromNextCycle: bool,
    physRegs: seq<int>,
    physRegsValid: seq<bool>,
    prAllocated: seq<bool>,
    renameTable: seq<int>,
    renameTableValid: seq<bool>,
    rRenameTable: seq<int>,
    rRenameTableValid: seq<bool>,
    issueQueue: seq<IqEntry>,
    iqOccupied: seq<bool>,
    fetch: Latch,
    decode: Latch,
    intFu: Latch,
    mul1: Latch,
    mul2: Latch,
    mul3: Latch,
    jbu1: Latch,
    jbu2: Latch)

  /** The fixed array sizes of the record. */
  ghost predicate Sized(s: State) {
    && |s.physRegs| == PHYS_REGS && |s.physRegsValid| == PHYS_REGS && |s.prAllocated| == PHYS_REGS
    && |s.renameTable| == ARCH_REGS && |s.renameTableValid| == ARCH_REGS
    && |s.rRenameTable| == ARCH_REGS && |s.rRenameTableValid| == ARCH_REGS
    && |s.issueQueue| == IQ_SIZE && |s.iqOccupied| == IQ_SIZE
  }

  /**
   * Well-formedness: the array sizes, and every physical or logical index that a
   * stage will use without a check lies inside its array. Every stage keeps it.
   */
  ghost predicate Wf(s: State) {
    && Sized(s)
    && (forall r :: 0 <= r < ARCH_REGS ==> -1 <= s.renameTable[r] < PHYS_REGS)
    && (forall r :: 0 <= r < ARCH_REGS ==> -1 <= s.rRenameTable[r] < PHYS_REGS)
    && (forall i :: 0 <= i < IQ_SIZE && s.iqOccupied[i] ==> DestInRange(s.issueQueue[i]))
    && (s.intFu.hasInsn ==>
          && DestInRange(s.intFu.iqEntry)
          && (s.intFu.iqEntry.opcode == MOVC
              || (s.intFu.iqEntry.opcode == ADD && SourcesInRange(s.intFu.iqEntry))))
    && (s.mul1.hasInsn ==>
          DestInRange(s.mul1.iqEntry) && (s.mul1.iqEntry.opcode == MUL ==> SourcesInRange(s.mul1.iqEntry)))
    && (s.mul2.hasInsn ==> DestInRange(s.mul2.iqEntry))
    && (s.mul3.hasInsn ==> DestInRange(s.mul3.iqEntry))
  }

  /** A functional-unit latch as the issue stage leaves it: unstalled, stamped IQ. */
  ghost predicate IssuedLatch(l: Latch) {
    !l.stalled && (l.hasInsn ==> l.iqEntry.finishedStage == IQ)
  }

  /**
   * Facts that hold in every state reachable from APEX_cpu_init: nothing ever
   * sets a source-ready flag, decode.stalled or fetch_from_next_cycle, so
   * nothing reaches the jump unit, fetch never stalls, and the program counter
   * stays word aligned.
   */
  ghost predicate Inv(s: State) {
    && Wf(s)
    && s.pc >= CODE_BASE && (s.pc - CODE_BASE) % 4 == 0
    && !s.fetchFromNextCycle
    && !s.fetch.stalled && !s.decode.stalled
    && (forall i :: 0 <= i < IQ_SIZE ==> !s.issueQueue[i].src1Ready && !s.issueQueue[i].src2Ready)
    && IssuedLatch(s.intFu) && IssuedLatch(s.mul1) && IssuedLatch(s.mul2) && IssuedLatch(s.mul3)
    && (s.mul1.hasInsn ==> s.mul1.iqEntry.opcode == MUL)
    && (s.mul2.hasInsn ==> s.mul2.iqEntry.opcode == MUL)
    && (s.mul3.hasInsn ==> s.mul3.iqEntry.opcode == MUL)
    && !s.jbu1.hasInsn && !s.jbu2.hasInsn
  }

  /**
   * The first-free scan of decode (apex_cpu.c:240-249 over free_PR_list and
   * 278-286 over freeiq): the lowest index holding false, or -1 when every
   * entry is true.
   */
  function FirstFree(flags: seq<bool>): (r: int)
    ensures -1 <= r < |flags|
    ensures r == -1 <==> forall j :: 0 <= j < |flags| ==> flags[j]
    ensures r >= 0 ==> !flags[r] && forall j :: 0 <= j < r ==> flags[j]
  {
    FirstFreeFrom(flags, 0)
  }

  /** The scan of FirstFree started at index `from`, every index below it being known to be true. */
  function FirstFreeFrom(flags: seq<bool>, from: nat): (r: int)
    requires from <= |flags|
    ensures r == -1 || from <= r < |flags|
    ensures r == -1 <==> forall j :: from <= j < |flags| ==> flags[j]
    ensures r >= 0 ==> !flags[r] && forall j :: from <= j < r ==> flags[j]
    decreases |flags| - from
  {
    if from == |flags| then -1
    else if !flags[from] then from
    else FirstFreeFrom(flags, from + 1)
  }

  /** Number of true flags: busy physical registers or occupied issue-queue slots. */
  function CountTrue(flags: seq<bool>): (n: nat)
    ensures n <= |flags|
  {
    if flags == [] then 0 else (if flags[0] then 1 else 0) + CountTrue(flags[1..])
  }

  /** Setting one flag changes the count by at most one, in the direction of the change. */
  lemma {:induction false} CountTrueUpdate(flags: seq<bool>, i: nat, b: bool)
    requires i < |flags|
    ensures CountTrue(flags[i := b]) == CountTrue(flags) - (if flags[i] then 1 else 0) + (if b then 1 else 0)
  {
    if i > 0 {
      assert flags[i := b][1..] == flags[1..][i - 1 := b];
      CountTrueUpdate(flags[1..], i - 1, b);
    } else {
      assert flags[i := b][1..] == flags[1..];
    }
  }

  /** The record after APEX_cpu_init (apex_cpu.c:922-976): calloc zeros, then the listed fields. */
  function InitialState(): (s: State)
    ensures Inv(s)
  {
    State(
      pc := CODE_BASE,
      clock := 0,
      zeroFlag := false,
      fetchFromNextCycle := false,
      physRegs := seq(PHYS_REGS, _ => 0),
      physRegsValid := seq(PHYS_REGS, _ => false),
      prAllocated := seq(PHYS_REGS, _ => false),
      renameTable := seq(ARCH_REGS, _ => -1),
      renameTableValid := seq(ARCH_REGS, _ => false),
      rRenameTable := seq(ARCH_REGS, _ => -1),
      rRenameTableValid := seq(ARCH_REGS, _ => false),
      issueQueue := seq(IQ_SIZE, _ => ZeroEntry),
      iqOccupied := seq(IQ_SIZE, _ => false),
      fetch := ZeroLatch.(hasInsn := true),
      decode := ZeroLatch,
      intFu := ZeroLatch,
      mul1 := ZeroLatch,
      mul2 := ZeroLatch,
      mul3 := ZeroLatch,
      jbu1 := ZeroLatch,
      jbu2 := ZeroLatch)
  }

  /** No flag set, nothing counted. */
  lemma {:induction false} CountTrueNone(flags: seq<bool>)
    requires forall i :: 0 <= i < |flags| ==> !flags[i]
    ensures CountTrue(flags) == 0
  {
    if flags != [] {
      assert forall i :: 0 <= i < |flags[1..]| ==> flags[1..][i] == flags[i + 1];
      CountTrueNone(flags[1..]);
    }
  }

  /**
   * After initialisation every physical register and every issue-queue slot is
   * free, so the first dispatch claims register 0 and slot 0.
   */
  lemma InitialStateAllFree()
    ensures var s := InitialState();
            && CountTrue(s.prAllocated) == 0 && CountTrue(s.iqOccupied) == 0
            && FirstFree(s.prAllocated) == 0 && FirstFree(s.iqOccupied) == 0
  {
    var s := InitialState();
    assert !s.prAllocated[0] && !s.iqOccupied[0];
    CountTrueNone(s.prAllocated);
    CountTrueNone(s.iqOccupied);
  }
}

/**
 * The stage functions of apex_cpu.c as functions from machine state to machine
 * state. Each stage's function carries, as its requires clause, the condition under
 * which the C code stays within its arrays and never dereferences NULL; the
 * imperative class in apex_cpu.dfy is proved to compute exactly these functions.
 */
module Pipeline {
  import opened ApexTypes
  import opened MachineState

  // ---------------------------------------------------------------- fetch

  /** get_code_memory_index_from_pc: (pc - 4000) / 4 with C's division, which truncates toward zero. */
  function CodeIndex(pc: int): (k: int)
    ensures pc >= CODE_BASE ==> 4 * k <= pc - CODE_BASE < 4 * k + 4
    ensures pc < CODE_BASE ==> 4 * k - 4 < pc - CODE_BASE <= 4 * k
  {
    var offset := pc - CODE_BASE;
    if offset >= 0 then offset / 4 else -((-offset) / 4)
  }

  /** The guard of APEX_fetch: the fetch latch holds an instruction and is not stalled. */
  predicate FetchFires(s: State)
    ensures !s.fetch.hasInsn ==> !FetchFires(s)
    ensures s.fetch.stalled ==> !FetchFires(s)
    ensures s.fetch.hasInsn && !s.fetch.stalled ==> FetchFires(s)
  {
    s.fetch.hasInsn && !s.fetch.stalled
  }

  /** The fetched latch: the instruction at pc with its pc, otherwise the latch as it was. */
  function Fetched(l: Latch, pc: int, ins: Instruction): (r: Latch)
    ensures r.pc == pc && r.opcode == ins.opcode && r.imm == ins.imm
    ensures r.rd == ins.rd && r.rs1 == ins.rs1 && r.rs2 == ins.rs2
    ensures r.hasInsn == l.hasInsn && r.stalled == l.stalled && r.iqEntry == l.iqEntry
    ensures r.(pc := l.pc, opcode := l.opcode, rd := l.rd, rs1 := l.rs1, rs2 := l.rs2, imm := l.imm) == l
  {
    l.(pc := pc, opcode := ins.opcode, rd := ins.rd, rs1 := ins.rs1, rs2 := ins.rs2, imm := ins.imm)
  }

  /** Fetch reads code memory only at an index inside it. */
  predicate FetchOk(code: seq<Instruction>, s: State) {
    FetchFires(s) && !s.fetchFromNextCycle ==> 0 <= CodeIndex(s.pc) < |code|
  }

  /** APEX_fetch (apex_cpu.c:161-215). */
  function FetchStep(code: seq<Instruction>, s: State): (r: State)
    requires FetchOk(code, s)
    ensures Wf(s) ==> Wf(r)
  {
    if !FetchFires(s) then s
    else if s.fetchFromNextCycle then s.(fetchFromNextCycle := false)
    else
      var ins := code[CodeIndex(s.pc)];
      var f := Fetched(s.fetch, s.pc, ins);
      var advance := !s.decode.stalled;
      var f' := if advance then f else f.(stalled := true);
      s.(pc := if advance then s.pc + 4 else s.pc,
         decode := if advance then f else s.decode,
         fetch := if ins.opcode == HALT then f'.(hasInsn := false) else f')
  }

  // ---------------------------------------------------------------- decode

  /**
   * Decode stays inside its arrays: the source registers it looks up and, once a
   * physical register is free, the destination register are architectural
   * indices, and some issue-queue slot is free (otherwise the C code writes
   * through a NULL entry pointer).
   */
  ghost predicate DecodeOk(s: State)
    requires Wf(s)
  {
    s.decode.hasInsn ==>
      && s.decode.rs1 < ARCH_REGS && s.decode.rs2 < ARCH_REGS
      && (FirstFree(s.prAllocated) != -1 ==> 0 <= s.decode.rd < ARCH_REGS && FirstFree(s.iqOccupied) != -1)
  }

  /** The functional-unit class decode records; opcodes its switch does not name keep the slot's old value. */
  function FuTypeFor(op: Opcode, previous: int): (t: int)
    ensures (op == ADD || op == MOVC || op == MUL || op == JUMP || op == JAL) ==> FU_INT <= t <= FU_BRANCH
    ensures !(op == ADD || op == MOVC || op == MUL || op == JUMP || op == JAL) ==> t == previous
  {
    match op
    case ADD | MOVC => FU_INT
    case MUL => FU_MUL
    case JUMP | JAL => FU_BRANCH
    case _ => previous
  }

  /** The physical register a source field is renamed to: -1 for an absent (negative) source. */
  function RenameSource(s: State, rs: int): (p: int)
    requires Sized(s) && rs < ARCH_REGS
    ensures Wf(s) ==> -1 <= p < PHYS_REGS
    ensures rs <= -1 ==> p == -1
  {
    if rs > -1 then s.renameTable[rs] else -1
  }

  /**
   * The issue-queue entry decode builds in place of `slot` for the instruction in
   * latch d, with renamed sources src1, src2 and destination register p.
   */
  function DecodedEntry(slot: IqEntry, d: Latch, src1: int, src2: int, p: int): (r: IqEntry)
    ensures r.src1Ready == slot.src1Ready && r.src2Ready == slot.src2Ready
    ensures r.src1Tag == slot.src1Tag && r.src2Tag == slot.src2Tag && r.finishedStage == slot.finishedStage
    ensures 0 <= p < PHYS_REGS && 0 <= d.rd < ARCH_REGS ==> DestInRange(r)
  {
    slot.(opcode := d.opcode, src1 := src1, src2 := src2, imm := d.imm, pc := d.pc,
          desPhyReg := p, desRd := d.rd, fuType := FuTypeFor(d.opcode, slot.fuType))
  }

  /** APEX_decode (apex_cpu.c:222-340). */
  function DecodeStep(s: State): (r: State)
    requires Wf(s) && DecodeOk(s)
    ensures Wf(r)
    ensures r.decode == s.decode
  {
    if !s.decode.hasInsn then s
    else
      var d := s.decode;
      var src1 := RenameSource(s, d.rs1);
      var src2 := RenameSource(s, d.rs2);
      var p := FirstFree(s.prAllocated);
      if p == -1 then s
      else
        var q := FirstFree(s.iqOccupied);
        var e := DecodedEntry(s.issueQueue[q], d, src1, src2, p);
        s.(prAllocated := s.prAllocated[p := true],
           physRegsValid := s.physRegsValid[p := false],
           renameTable := s.renameTable[d.rd := p],
           renameTableValid := s.renameTableValid[d.rd := false],
           issueQueue := s.issueQueue[q := e],
           iqOccupied := s.iqOccupied[q := true])
  }

  // ---------------------------------------------------------------- issue

  /** The functional units the issue stage feeds. */
  datatype Unit = NoUnit | IntUnit | MulUnit | BranchUnit

  /**
   * The issue scan stays inside phys_regs_valid for an ADD or MUL entry: its
   * first source always, its second only when the first is valid (C's && does
   * not evaluate its right operand otherwise).
   */
  predicate Readable(e: IqEntry, valid: seq<bool>)
    ensures SourcesInRange(e) && |valid| == PHYS_REGS ==> Readable(e, valid)
  {
    0 <= e.src1 < |valid| && (valid[e.src1] ==> 0 <= e.src2 < |valid|)
  }

  /** Every occupied ADD or MUL entry can be checked for readiness. */
  ghost predicate IssueOk(s: State)
    requires Sized(s)
  {
    forall i :: 0 <= i < IQ_SIZE && s.iqOccupied[i] && (s.issueQueue[i].opcode == ADD || s.issueQueue[i].opcode == MUL)
      ==> Readable(s.issueQueue[i], s.physRegsValid)
  }

  /**
   * Both source physical registers hold valid data. As with C's &&, the
   * second flag decides only once the first is set.
   */
  predicate OperandsValid(e: IqEntry, valid: seq<bool>)
    requires Readable(e, valid)
    ensures !valid[e.src1] ==> !OperandsValid(e, valid)
    ensures valid[e.src1] ==> (OperandsValid(e, valid) <==> valid[e.src2])
  {
    valid[e.src1] && valid[e.src2]
  }

  /**
   * The unit the switch of apex_cpu.c:371-412 selects an occupied entry for.
   * A MUL whose operands are not valid falls through into the JUMP/JAL case.
   */
  function SelectedUnit(e: IqEntry, valid: seq<bool>): (u: Unit)
    requires (e.opcode == ADD || e.opcode == MUL) ==> Readable(e, valid)
    ensures u == IntUnit ==> e.opcode == ADD || e.opcode == MOVC
    ensures u == MulUnit ==> e.opcode == MUL
    ensures u == BranchUnit ==> e.src1Ready && (e.opcode == MUL || e.opcode == JUMP || e.opcode == JAL)
    ensures !(e.opcode == ADD || e.opcode == MOVC || e.opcode == MUL || e.opcode == JUMP || e.opcode == JAL) ==> u == NoUnit
  {
    match e.opcode
    case ADD => if OperandsValid(e, valid) then IntUnit else NoUnit
    case MOVC => IntUnit
    case MUL => if OperandsValid(e, valid) then MulUnit else if e.src1Ready then BranchUnit else NoUnit
    case JUMP | JAL => if e.src1Ready then BranchUnit else NoUnit
    case _ => NoUnit
  }

  /**
   * The slot the scan over the first n slots leaves in `*issued` for unit u: the
   * highest-indexed occupied slot selected for u, or -1.
   */
  function LastSelected(s: State, u: Unit, n: nat): (w: int)
    requires Sized(s) && IssueOk(s) && n <= IQ_SIZE
    ensures -1 <= w < n
    ensures w >= 0 ==> s.iqOccupied[w] && SelectedUnit(s.issueQueue[w], s.physRegsValid) == u
  {
    if n == 0 then -1
    else if s.iqOccupied[n - 1] && SelectedUnit(s.issueQueue[n - 1], s.physRegsValid) == u then n - 1
    else LastSelected(s, u, n - 1)
  }

  /** No occupied slot above the one LastSelected picks is selected for the same unit. */
  lemma {:induction false} LastSelectedIsLast(s: State, u: Unit, n: nat)
    requires Sized(s) && IssueOk(s) && n <= IQ_SIZE
    ensures forall j :: LastSelected(s, u, n) < j < n && s.iqOccupied[j] ==> SelectedUnit(s.issueQueue[j], s.physRegsValid) != u
  {
    if n > 0 && !(s.iqOccupied[n - 1] && SelectedUnit(s.issueQueue[n - 1], s.physRegsValid) == u) {
      LastSelectedIsLast(s, u, n - 1);
    }
  }

  /**
   * What the switch guarantees about the entries it picks: the integer unit
   * receives a MOVC, or an ADD whose sources are physical registers; the
   * multiplier receives a MUL whose sources are physical registers.
   */
  lemma WinnersInRange(s: State)
    requires Sized(s) && IssueOk(s)
    ensures var w := LastSelected(s, IntUnit, IQ_SIZE);
      w >= 0 ==> s.issueQueue[w].opcode == MOVC || (s.issueQueue[w].opcode == ADD && SourcesInRange(s.issueQueue[w]))
    ensures var w := LastSelected(s, MulUnit, IQ_SIZE);
      w >= 0 ==> s.issueQueue[w].opcode == MUL && SourcesInRange(s.issueQueue[w])
  {
  }

  /** A latch receiving an issued entry, stamped with the IQ stage. */
  function IssueInto(l: Latch, e: IqEntry): (r: Latch)
    ensures IssuedLatch(r) && r.hasInsn
    ensures r.iqEntry.(finishedStage := e.finishedStage) == e
    ensures r.(iqEntry := l.iqEntry, stalled := l.stalled, hasInsn := l.hasInsn) == l
  {
    l.(iqEntry := e.(finishedStage := IQ), stalled := false, hasInsn := true)
  }

  /** The latch of a unit after issue: it receives slot w when the scan found one (w >= 0). */
  function IssueIf(l: Latch, queue: seq<IqEntry>, w: int): (r: Latch)
    requires w < |queue|
    ensures w < 0 ==> r == l
    ensures w >= 0 ==> IssuedLatch(r) && r.hasInsn && r.iqEntry.(finishedStage := queue[w].finishedStage) == queue[w]
  {
    if w >= 0 then IssueInto(l, queue[w]) else l
  }

  /** The freeiq flags after the slot the scan found for a unit (if any) is released. */
  function ReleaseIf(occupied: seq<bool>, w: int): (r: seq<bool>)
    requires w < |occupied|
    ensures |r| == |occupied|
    ensures forall i :: 0 <= i < |r| ==> r[i] == (occupied[i] && i != w)
  {
    if w >= 0 then occupied[w := false] else occupied
  }

  /** APEX_issuequeue (apex_cpu.c:346-463). */
  function IssueStep(s: State): (r: State)
    requires Wf(s) && IssueOk(s)
    ensures Wf(r)
  {
    var iw := LastSelected(s, IntUnit, IQ_SIZE);
    var mw := LastSelected(s, MulUnit, IQ_SIZE);
    var bw := LastSelected(s, BranchUnit, IQ_SIZE);
    WinnersInRange(s);
    s.(intFu := IssueIf(s.intFu, s.issueQueue, iw),
       mul1 := IssueIf(s.mul1, s.issueQueue, mw),
       jbu1 := IssueIf(s.jbu1, s.issueQueue, bw),
       iqOccupied := ReleaseIf(ReleaseIf(ReleaseIf(s.iqOccupied, iw), mw), bw))
  }

  // ---------------------------------------------------------------- retirement

  /** Which retirement mappings the retire code treats as "unmapped" (nothing to free). */
  datatype UnmappedRule =
    | ZeroOnly        // ADD in APEX_intfu (apex_cpu.c:485)
    | ZeroOrMinusOne  // MOVC in APEX_intfu and APEX_mul3 (apex_cpu.c:688, 796)

  /** The old retirement mapping is treated as unmapped. */
  predicate Unmapped(prev: int, rule: UnmappedRule)
    ensures prev == 0 ==> Unmapped(prev, rule)
    ensures Unmapped(prev, rule) ==> prev == 0 || prev == -1
  {
    prev == 0 || (rule == ZeroOrMinusOne && prev == -1)
  }

  /** Retiring stays inside its arrays: under ZeroOnly a mapping of -1 would be freed. */
  predicate RetireOk(s: State, e: IqEntry, rule: UnmappedRule)
    requires Sized(s) && DestInRange(e)
  {
    rule == ZeroOnly ==> s.rRenameTable[e.desRd] != -1
  }

  /**
   * The first half of retiring: the register the retirement table held for the
   * logical destination is freed (not valid, not allocated) unless it counts as
   * unmapped.
   */
  function FreePrevious(s: State, e: IqEntry, rule: UnmappedRule): (r: State)
    requires Wf(s) && DestInRange(e) && RetireOk(s, e, rule)
    ensures Wf(r)
  {
    var prev := s.rRenameTable[e.desRd];
    if Unmapped(prev, rule) then s
    else s.(physRegsValid := s.physRegsValid[prev := false], prAllocated := s.prAllocated[prev := false])
  }

  /**
   * The second half of retiring: the value goes into the destination physical
   * register, which becomes valid; the retirement table maps the logical
   * register to it; the valid flags of both tables are set for the logical
   * register, while the speculative mapping itself is left as it is.
   */
  function WriteBack(s: State, e: IqEntry, value: int): (r: State)
    requires Wf(s) && DestInRange(e)
    ensures Wf(r)
  {
    s.(physRegs := s.physRegs[e.desPhyReg := value],
       physRegsValid := s.physRegsValid[e.desPhyReg := true],
       renameTableValid := s.renameTableValid[e.desRd := true],
       rRenameTable := s.rRenameTable[e.desRd := e.desPhyReg],
       rRenameTableValid := s.rRenameTableValid[e.desRd := true])
  }

  /**
   * The retirement sequence shared by APEX_intfu and APEX_mul3: free the old
   * retirement mapping unless it counts as unmapped, then write the result into
   * the destination physical register and point the retirement table at it.
   */
  function Retire(s: State, e: IqEntry, value: int, rule: UnmappedRule): (r: State)
    requires Wf(s) && DestInRange(e) && RetireOk(s, e, rule)
    ensures Wf(r)
  {
    WriteBack(FreePrevious(s, e, rule), e, value)
  }

  // ---------------------------------------------------------------- integer unit

  /**
   * The guard of APEX_intfu (apex_cpu.c:470): a full, unstalled latch whose entry
   * is stamped with a stage before INTFU, that is F, DRF or IQ.
   */
  predicate IntFuFires(s: State)
    ensures IntFuFires(s) <==> s.intFu.hasInsn && !s.intFu.stalled && s.intFu.iqEntry.finishedStage in {F, DRF, IQ}
  {
    !s.intFu.stalled && s.intFu.iqEntry.finishedStage.Ordinal() < INTFU.Ordinal() && s.intFu.hasInsn
  }

  /** An ADD does not retire over a retirement mapping of -1. */
  predicate IntFuOk(s: State)
    requires Wf(s)
  {
    IntFuFires(s) && s.intFu.iqEntry.opcode == ADD ==> RetireOk(s, s.intFu.iqEntry, ZeroOnly)
  }

  /** The ADD arm's sum in the result buffer and the zero flag set from it (apex_cpu.c:476-482). */
  function LatchSum(s: State): (r: State)
    requires Wf(s) && s.intFu.hasInsn && s.intFu.iqEntry.opcode == ADD
    ensures Wf(r) && r.intFu.iqEntry == s.intFu.iqEntry && r.rRenameTable == s.rRenameTable
  {
    var e := s.intFu.iqEntry;
    var sum := s.physRegs[e.src1] + s.physRegs[e.src2];
    s.(intFu := s.intFu.(resultBuffer := sum), zeroFlag := sum == 0)
  }

  /** The ADD arm of APEX_intfu (apex_cpu.c:474-521): sum, zero flag, retire. */
  function IntFuAdd(s: State): (r: State)
    requires Wf(s) && IntFuOk(s) && IntFuFires(s) && s.intFu.iqEntry.opcode == ADD
    ensures Wf(r)
  {
    var s0 := LatchSum(s);
    Retire(s0, s0.intFu.iqEntry, s0.intFu.resultBuffer, ZeroOnly)
  }

  /** The MOVC arm's immediate in the result buffer (apex_cpu.c:687). */
  function LatchImm(s: State): (r: State)
    requires Wf(s) && s.intFu.hasInsn
    ensures Wf(r) && r.intFu.iqEntry == s.intFu.iqEntry
  {
    s.(intFu := s.intFu.(resultBuffer := s.intFu.iqEntry.imm))
  }

  /** The MOVC arm of APEX_intfu (apex_cpu.c:685-724): the immediate, retired. */
  function IntFuMovc(s: State): (r: State)
    requires Wf(s) && IntFuFires(s) && s.intFu.iqEntry.opcode != ADD
    ensures Wf(r)
  {
    var s0 := LatchImm(s);
    Retire(s0, s0.intFu.iqEntry, s0.intFu.resultBuffer, ZeroOrMinusOne)
  }

  /** APEX_intfu (apex_cpu.c:465-737), its ADD and MOVC arms, the only opcodes issue sends it. */
  function IntFuStep(s: State): (r: State)
    requires Wf(s) && IntFuOk(s)
    ensures Wf(r)
  {
    if !IntFuFires(s) then s
    else if s.intFu.iqEntry.opcode == ADD then IntFuEmptied(IntFuAdd(s))
    else IntFuEmptied(IntFuMovc(s))
  }

  /** The integer unit hands nothing on: its latch is emptied after retiring (apex_cpu.c:727). */
  function IntFuEmptied(s: State): (r: State)
    ensures !r.intFu.hasInsn && r.intFu.(hasInsn := s.intFu.hasInsn) == s.intFu && r.(intFu := s.intFu) == s
  {
    s.(intFu := s.intFu.(hasInsn := false))
  }

  // ---------------------------------------------------------------- multiplier

  /** The product a MUL in latch l computes from the register file. */
  function Product(s: State, l: Latch): (p: int)
    requires Sized(s) && SourcesInRange(l.iqEntry)
    ensures var a := s.physRegs[l.iqEntry.src1]; var b := s.physRegs[l.iqEntry.src2];
            && (a == 0 || b == 0 ==> p == 0)
            && (a == 1 ==> p == b) && (b == 1 ==> p == a)
            && (a >= 0 && b >= 0 ==> p >= 0)
  {
    s.physRegs[l.iqEntry.src1] * s.physRegs[l.iqEntry.src2]
  }

  /** The guard of APEX_mul1 (apex_cpu.c:743): the entry is stamped F, DRF, IQ or INTFU. */
  predicate Mul1Fires(s: State)
    ensures Mul1Fires(s) <==> s.mul1.hasInsn && !s.mul1.stalled && s.mul1.iqEntry.finishedStage in {F, DRF, IQ, INTFU}
  {
    !s.mul1.stalled && s.mul1.iqEntry.finishedStage.Ordinal() < MUL1.Ordinal() && s.mul1.hasInsn
  }

  /** APEX_mul1 (apex_cpu.c:739-765): multiply, then hand the latch to mul2. */
  function Mul1Step(s: State): (r: State)
    requires Wf(s)
    ensures Wf(r)
  {
    if !Mul1Fires(s) then s
    else
      var e := s.mul1.iqEntry;
      var l := if e.opcode == MUL then s.mul1.(resultBuffer := Product(s, s.mul1)) else s.mul1;
      s.(mul2 := l, mul1 := l.(hasInsn := false))
  }

  /** The guard of APEX_mul2 (apex_cpu.c:771): the entry is stamped with a stage before MUL2. */
  predicate Mul2Fires(s: State)
    ensures Mul2Fires(s) <==> s.mul2.hasInsn && !s.mul2.stalled && s.mul2.iqEntry.finishedStage in {F, DRF, IQ, INTFU, MUL1}
  {
    !s.mul2.stalled && s.mul2.iqEntry.finishedStage.Ordinal() < MUL2.Ordinal() && s.mul2.hasInsn
  }

  /** APEX_mul2 (apex_cpu.c:767-788): a pure latency stage. */
  function Mul2Step(s: State): (r: State)
    requires Wf(s)
    ensures Wf(r)
  {
    if !Mul2Fires(s) then s
    else s.(mul3 := s.mul2, mul2 := s.mul2.(hasInsn := false))
  }

  /** The guard of APEX_mul3 (apex_cpu.c:794): the entry is stamped with a stage before MUL3. */
  predicate Mul3Fires(s: State)
    ensures Mul3Fires(s) <==> s.mul3.hasInsn && !s.mul3.stalled && s.mul3.iqEntry.finishedStage in {F, DRF, IQ, INTFU, MUL1, MUL2}
  {
    !s.mul3.stalled && s.mul3.iqEntry.finishedStage.Ordinal() < MUL3.Ordinal() && s.mul3.hasInsn
  }

  /** APEX_mul3 (apex_cpu.c:790-845): retire the product. */
  function Mul3Step(s: State): (r: State)
    requires Wf(s)
    ensures Wf(r)
  {
    if !Mul3Fires(s) then s
    else
      var s1 := Retire(s, s.mul3.iqEntry, s.mul3.resultBuffer, ZeroOrMinusOne);
      s1.(mul3 := s1.mul3.(hasInsn := false))
  }

  // ---------------------------------------------------------------- jump unit

  /** APEX_jbu1 (apex_cpu.c:846-877): target (source physical index plus immediate) and JAL's link value. */
  function Jbu1Step(s: State): (r: State)
    ensures Wf(s) ==> Wf(r)
  {
    if !s.jbu1.hasInsn then s
    else
      var e := s.jbu1.iqEntry;
      var l := match e.opcode
               case JAL => s.jbu1.(resultBuffer := e.src1 + e.imm, rd := e.pc + 4)
               case JUMP => s.jbu1.(resultBuffer := e.src1 + e.imm)
               case _ => s.jbu1;
      s.(jbu2 := l, jbu1 := l.(hasInsn := false))
  }

  /** APEX_jbu2 (apex_cpu.c:878-905): only empties its latch. */
  function Jbu2Step(s: State): (r: State)
    ensures Wf(s) ==> Wf(r)
  {
    if !s.jbu2.hasInsn then s else s.(jbu2 := s.jbu2.(hasInsn := false))
  }

  // ---------------------------------------------------------------- one clock cycle

  /** The first three calls of a cycle: jbu2, jbu1, mul3. */
  function ThroughMul3(s: State): (r: State)
    requires Wf(s)
    ensures Wf(r)
  {
    Mul3Step(Jbu1Step(Jbu2Step(s)))
  }

  /** The first five calls of a cycle, up to and including mul1. */
  function ThroughMul1(s: State): (r: State)
    requires Wf(s)
    ensures Wf(r)
  {
    Mul1Step(Mul2Step(ThroughMul3(s)))
  }

  /**
   * Every stage of the cycle, called in order on the state its predecessor left,
   * stays inside its arrays.
   */
  ghost predicate CycleDefined(code: seq<Instruction>, s: State) {
    Wf(s) &&
    var s1 := ThroughMul1(s);
    IntFuOk(s1) &&
    var s2 := IntFuStep(s1);
    IssueOk(s2) &&
    var s3 := IssueStep(s2);
    DecodeOk(s3) && FetchOk(code, DecodeStep(s3))
  }

  /** The clock advances at the end of each cycle. */
  function Ticked(s: State): (r: State)
    ensures r.clock == s.clock + 1 && r.(clock := s.clock) == s
  {
    s.(clock := s.clock + 1)
  }

  /** One iteration of APEX_cpu_run (apex_cpu.c:997-1005, 1029). */
  function CycleStep(code: seq<Instruction>, s: State): (r: State)
    requires CycleDefined(code, s)
    ensures Wf(r)
  {
    var s1 := ThroughMul1(s);
    Ticked(FetchStep(code, DecodeStep(IssueStep(IntFuStep(s1)))))
  }

  /** Each of the next n cycles, from s on, stays inside its arrays. */
  ghost predicate RunDefined(code: seq<Instruction>, s: State, n: nat)
    decreases n
  {
    Wf(s) && (n > 0 ==> CycleDefined(code, s) && RunDefined(code, CycleStep(code, s), n - 1))
  }

  /**
   * n iterations of the loop of APEX_cpu_run (apex_cpu.c:989-1030) in which the
   * user does not quit: n cycles one after the other.
   */
  function Run(code: seq<Instruction>, s: State, n: nat): (r: State)
    requires RunDefined(code, s, n)
    ensures Wf(r)
    decreases n
  {
    if n == 0 then s else Run(code, CycleStep(code, s), n - 1)
  }
}

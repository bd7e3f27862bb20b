/**
 * Records of the APEX out-of-order CPU (apex_cpu.h): the stage enumeration,
 * the static instruction, the issue-queue entry and the pipeline latch.
 */
module ApexTypes {

  /** Sizes fixed by the machine record. */
  const PHYS_REGS: nat := 48   // phys_regs, phys_regs_valid, free_PR_list
  const ARCH_REGS: nat := 16   // rename_table, r_rename_table and their valid arrays
  const IQ_SIZE: nat := 24     // IssueQueue, freeiq

  /** Program counter of the first instruction in code memory. */
  const CODE_BASE: int := 4000

  /** Functional-unit classes written into an issue-queue entry by decode. */
  const FU_INT: int := 3
  const FU_MUL: int := 4
  const FU_BRANCH: int := 5

  /**
   * The APEX opcodes. Their numeric encodings live in apex_macros.h, which is not
   * part of this model; no stage depends on them beyond telling them apart.
   */
  datatype Opcode =
    | ADD | SUB | ADDL | SUBL | AND | OR | XOR | MUL | CMP | MOVC
    | LOAD | STORE | LDR | STR | JUMP | JAL | BZ | BNZ | NOP | HALT

  /** The anonymous stage enumeration: F = 0 up to BRH2 = 8, in declaration order. */
  datatype Stage = F | DRF | IQ | INTFU | MUL1 | MUL2 | MUL3 | BRH1 | BRH2 {
    /** The enumerator's integer value. */
    function Ordinal(): (n: nat)
      ensures n <= 8
      ensures n < 3 <==> this in {F, DRF, IQ}
      ensures n < 4 <==> this in {F, DRF, IQ, INTFU}
      ensures n < 5 <==> this in {F, DRF, IQ, INTFU, MUL1}
      ensures n < 6 <==> this in {F, DRF, IQ, INTFU, MUL1, MUL2}
    {
      match this
      case F => 0
      case DRF => 1
      case IQ => 2
      case INTFU => 3
      case MUL1 => 4
      case MUL2 => 5
      case MUL3 => 6
      case BRH1 => 7
      case BRH2 => 8
    }
  }

  /** A static instruction in code memory (APEX_Instruction without its text). */
  datatype Instruction = Instruction(opcode: Opcode, rd: int, rs1: int, rs2: int, rs3: int, imm: int)

  /** One issue-queue entry (IQ_ENTRY without its text). Sources and destination are physical indices. */
  datatype IqEntry = IqEntry(
    pc: int,
    opcode: Opcode,
    src1: int, src1Tag: int, src1Ready: bool,
    src2: int, src2Tag: int, src2Ready: bool,
    imm: int,
    finishedStage: Stage,
    desPhyReg: int,
    fuType: int,
    desRd: int)

  /** A pipeline latch (CPU_Stage): the fields the modelled stages read or write. */
  datatype Latch = Latch(
    pc: int,
    opcode: Opcode,
    rs1: int, rs2: int, rd: int,
    imm: int,
    resultBuffer: int,
    hasInsn: bool,
    stalled: bool,
    iqEntry: IqEntry)

  /** The all-zero entry that calloc leaves in every issue-queue slot and latch. */
  const ZeroEntry: IqEntry := IqEntry(0, NOP, 0, 0, false, 0, 0, false, 0, F, 0, 0, 0)

  /** The all-zero latch. */
  const ZeroLatch: Latch := Latch(0, NOP, 0, 0, 0, 0, 0, false, false, ZeroEntry)

  /** The destination of an entry names a physical register and a logical register. */
  predicate DestInRange(e: IqEntry) {
    0 <= e.desPhyReg < PHYS_REGS && 0 <= e.desRd < ARCH_REGS
  }

  /** Both source operands of an entry name physical registers. */
  predicate SourcesInRange(e: IqEntry) {
    0 <= e.src1 < PHYS_REGS && 0 <= e.src2 < PHYS_REGS
  }
}

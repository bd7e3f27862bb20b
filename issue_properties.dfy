/**
 * What APEX_issuequeue promises: per call at most one entry for each of the
 * three units, the winner being the highest-indexed occupied slot the switch
 * selects for that unit; only the winners' slots are freed; each receiving
 * latch gets the winner stamped IQ.
 */
module IssueProperties {
  import opened ApexTypes
  import opened MachineState
  import opened Pipeline

  /** The latch that receives the entries issue selects for unit u. */
  function UnitLatch(s: State, u: Unit): Latch
    requires u != NoUnit
  {
    match u
    case IntUnit => s.intFu
    case MulUnit => s.mul1
    case BranchUnit => s.jbu1
  }

  /**
   * The readiness rules of the switch: ADD and MUL need both source registers
   * valid, MOVC is always ready, and JUMP, JAL and an unready MUL (through the
   * missing break) need the first source's ready flag.
   */
  lemma ReadinessRules(e: IqEntry, valid: seq<bool>)
    requires |valid| == PHYS_REGS && ((e.opcode == ADD || e.opcode == MUL) ==> Readable(e, valid))
    ensures SelectedUnit(e, valid) == IntUnit <==>
              e.opcode == MOVC || (e.opcode == ADD && valid[e.src1] && valid[e.src2])
    ensures SelectedUnit(e, valid) == MulUnit <==> e.opcode == MUL && valid[e.src1] && valid[e.src2]
    ensures SelectedUnit(e, valid) == BranchUnit <==>
              e.src1Ready && (e.opcode == JUMP || e.opcode == JAL || (e.opcode == MUL && !(valid[e.src1] && valid[e.src2])))
  {
  }

  /**
   * For each unit u, issue picks the highest-indexed occupied slot selected
   * for u, if any: that latch receives the entry stamped IQ, unstalled and
   * holding an instruction; with no such slot the latch is left as it was.
   */
  lemma IssuePicksLastReady(s: State, u: Unit)
    requires Wf(s) && IssueOk(s) && u != NoUnit
    ensures var w := LastSelected(s, u, IQ_SIZE);
            var l := UnitLatch(IssueStep(s), u);
            && (w >= 0 ==> && s.iqOccupied[w] && SelectedUnit(s.issueQueue[w], s.physRegsValid) == u
                           && l == UnitLatch(s, u).(iqEntry := s.issueQueue[w].(finishedStage := IQ),
                                                    stalled := false, hasInsn := true))
            && (w == -1 ==> l == UnitLatch(s, u))
            && (forall j :: w < j < IQ_SIZE && s.iqOccupied[j] ==> SelectedUnit(s.issueQueue[j], s.physRegsValid) != u)
  {
    LastSelectedIsLast(s, u, IQ_SIZE);
  }

  /** Different units never win the same slot. */
  lemma WinnersDistinct(s: State)
    requires Wf(s) && IssueOk(s)
    ensures var iw := LastSelected(s, IntUnit, IQ_SIZE);
            var mw := LastSelected(s, MulUnit, IQ_SIZE);
            var bw := LastSelected(s, BranchUnit, IQ_SIZE);
            && (iw >= 0 ==> iw != mw && iw != bw)
            && (mw >= 0 ==> mw != bw)
  {
  }

  /** The number of units that receive an entry. */
  function Issued(s: State): (n: nat)
    requires Wf(s) && IssueOk(s)
    ensures n <= 3
  {
    (if LastSelected(s, IntUnit, IQ_SIZE) >= 0 then 1 else 0)
    + (if LastSelected(s, MulUnit, IQ_SIZE) >= 0 then 1 else 0)
    + (if LastSelected(s, BranchUnit, IQ_SIZE) >= 0 then 1 else 0)
  }

  /**
   * Only the winners' slots are freed, every other slot keeps its occupancy,
   * and the occupied count drops by exactly the number of units fed.
   */
  lemma IssueFreesOnlyWinners(s: State)
    requires Wf(s) && IssueOk(s)
    ensures var r := IssueStep(s);
            var iw := LastSelected(s, IntUnit, IQ_SIZE);
            var mw := LastSelected(s, MulUnit, IQ_SIZE);
            var bw := LastSelected(s, BranchUnit, IQ_SIZE);
            && (forall i :: 0 <= i < IQ_SIZE ==> r.iqOccupied[i] == (s.iqOccupied[i] && i != iw && i != mw && i != bw))
            && CountTrue(r.iqOccupied) == CountTrue(s.iqOccupied) - Issued(s)
  {
    var iw := LastSelected(s, IntUnit, IQ_SIZE);
    var mw := LastSelected(s, MulUnit, IQ_SIZE);
    var bw := LastSelected(s, BranchUnit, IQ_SIZE);
    WinnersDistinct(s);
    var o1 := ReleaseIf(s.iqOccupied, iw);
    var o2 := ReleaseIf(o1, mw);
    ReleaseWinnerCount(s.iqOccupied, iw);
    ReleaseWinnerCount(o1, mw);
    ReleaseWinnerCount(o2, bw);
  }

  /** Freeing an occupied winner's slot lowers the occupied count by one; no winner, no change. */
  lemma ReleaseWinnerCount(occupied: seq<bool>, w: int)
    requires w < |occupied| && (w >= 0 ==> occupied[w])
    ensures CountTrue(ReleaseIf(occupied, w)) == CountTrue(occupied) - (if w >= 0 then 1 else 0)
  {
    if w >= 0 {
      CountTrueUpdate(occupied, w, false);
    }
  }

  /** Issue touches nothing but the three receiving latches and the occupancy flags. */
  lemma IssueFrame(s: State)
    requires Wf(s) && IssueOk(s)
    ensures var r := IssueStep(s);
            r.(intFu := s.intFu, mul1 := s.mul1, jbu1 := s.jbu1, iqOccupied := s.iqOccupied) == s
  {
  }

  /**
   * Decode never sets a ready flag, so in every reachable state nothing is
   * selected for the jump unit and issue leaves jbu1 untouched.
   */
  lemma NothingReachesJumpUnit(s: State)
    requires Inv(s) && IssueOk(s)
    ensures LastSelected(s, BranchUnit, IQ_SIZE) == -1
    ensures IssueStep(s).jbu1 == s.jbu1
  {
  }

  /**
   * The switch selects no unit for HALT, so an occupied slot holding HALT is
   * never freed by issue: every HALT that decode files keeps its slot for good.
   */
  lemma HaltSlotsStayOccupied(s: State)
    requires Wf(s) && IssueOk(s)
    ensures forall i :: 0 <= i < IQ_SIZE && s.iqOccupied[i] && s.issueQueue[i].opcode == HALT ==>
              IssueStep(s).iqOccupied[i] && IssueStep(s).issueQueue[i] == s.issueQueue[i]
  {
  }
}

/**
 * The HyperRAM controller's protocol state machine, clock by clock.
 *
 * Regs holds every register; Next is the transition of one clock edge:
 * the reset/delay logic of the controller itself, then the state machine,
 * whose register updates take effect only while the delay counter is zero
 * and are replaced by reset values while the device reset is held.
 * Resp gives the combinational port outputs of the current cycle.
 */
module Controller {

  import opened Bits
  import opened Common
  import opened ControllerConfig

  datatype State =
    | CaWord0 | CaWord1 | CaWord2 | SelectOp
    | WriteDelay | Write | WriteReg | EndWrite
    | ReadDelay | Read | EndRead | Idle

  /** What the PHY presents to the controller in one cycle. */
  datatype PhyIn = PhyIn(pllLocked: bool, rwdsQa: bool, rwdsQb: bool, dqQa: bv8, dqQb: bv8)

  datatype Regs = Regs(
    state: State,
    dlycnt: nat,
    ramResetB: bool,
    ck: bool,
    csB: bool,
    dqOut: bv16,
    rwdsOut: bv2,
    dqOe: bool,
    rwdsOe: bool,
    ca: bv48,
    initialCr0Write: bool)

  /** Reset command-address word: a register-space, linear-burst write to CR0 of die 0. */
  const ResetCa: bv48 := 0x600001000000

  /** The die-select bit of the command-address word (address bit 22). */
  const DieBit: nat := 35

  function Bit(w: bv48, i: nat): bool
    requires i < 48
  {
    (w >> i) & 1 == 1
  }

  /** The 16-bit slice ca[lo:lo+16]. */
  function CaSlice(ca: bv48, lo: nat): bv16
    requires lo <= 32
  {
    ((ca >> lo) & 0xFFFF) as bv16
  }

  /** ca with bit i set. */
  function SetBit(ca: bv48, i: nat): bv48
    requires i < 48
  {
    ca | ((1 as bv48) << i)
  }

  function BoolBit(b: bool): bv48
  {
    if b then 1 else 0
  }

  /** The command-address word after IDLE accepts a command: bits 47..16 and 2..0 are replaced, 15..3 kept. */
  function AcceptCmd(ca: bv48, cmd: Cmd): bv48
  {
    (ca & 0xFFF8)
      | (BoolBit(!cmd.we) << 47)
      | (BoolBit(cmd.aspace) << 46)
      | (BoolBit(cmd.burstType) << 45)
      | (((cmd.addr >> 3) as bv48) << 16)
      | ((cmd.addr & 7) as bv48)
  }

  /** Register values at reset (power-up, and every cycle the device reset is held). */
  function Reset(c: Config): Regs
  {
    Regs(CaWord0, c.resetDelay, false, false, true, 0, 0, false, false, ResetCa, true)
  }

  // ---------------------------------------------------------------------------
  // Combinational outputs: they depend on the current registers only.

  /** The controller is ready for a command in IDLE, unless the second die's initial CR0 write is still due. */
  function CmdReady(c: Config, r: Regs): bool
  {
    r.state == Idle && !(c.dualDie && r.initialCr0Write && !Bit(r.ca, DieBit))
  }

  function WdataReady(r: Regs): bool
  {
    || (r.state == SelectOp && !Bit(r.ca, 47) && Bit(r.ca, 46) && !r.initialCr0Write)
    || (r.state == Write && r.dlycnt == 0)
    || r.state == WriteReg
  }

  function RdataValid(r: Regs, phy: PhyIn): bool
  {
    r.state == Read && phy.rwdsQa && r.dlycnt == 0
  }

  /** Read data: the A byte of the PHY is the high byte, the B byte the low one. */
  function ReadWord(phy: PhyIn): bv16
  {
    ((phy.dqQa as bv16) << 8) | (phy.dqQb as bv16)
  }

  function Resp(c: Config, r: Regs, phy: PhyIn): PortResp
  {
    PortResp(CmdReady(c, r), WdataReady(r), RdataValid(r, phy), ReadWord(phy))
  }

  /** What the controller drives towards the PHY. */
  datatype Pins = Pins(
    resetN: bool, clkEnable: bool, csN: bool,
    dqDa: bv8, dqDb: bv8, rwdsDa: bool, rwdsDb: bool,
    dqOe: bool, rwdsOe: bool)

  function PinsOf(r: Regs): Pins
  {
    Pins(r.ramResetB, r.ck, r.csB,
         (r.dqOut >> 8) as bv8, (r.dqOut & 0xFF) as bv8,
         (r.rwdsOut >> 1) == 1, (r.rwdsOut & 1) == 1,
         r.dqOe, r.rwdsOe)
  }

  /** While the device reset is held the pins show reset asserted, chip select high, no clock and nothing driven. */
  lemma PinsDuringReset(c: Config, r: Regs)
    requires Inv(c, r) && !r.ramResetB
    ensures var p := PinsOf(r);
      !p.resetN && p.csN && !p.clkEnable && !p.dqOe && !p.rwdsOe
  {
  }

  // ---------------------------------------------------------------------------
  // One clock edge.

  /** The state machine's updates for one enabled clock (delay counter zero, reset released). */
  function Act(c: Config, r: Regs, phy: PhyIn, req: PortReq): Regs
    requires ValidConfig(c)
  {
    var tx := c.phy.txLatency;
    var il := c.initialLatency;
    match r.state
    case CaWord0 =>
      r.(state := CaWord1, csB := false, ck := true, dqOe := true, dqOut := CaSlice(r.ca, 32), rwdsOut := 3)
    case CaWord1 => r.(state := CaWord2, dqOut := CaSlice(r.ca, 16))
    case CaWord2 => r.(state := SelectOp, dqOut := CaSlice(r.ca, 0))
    case SelectOp =>
      if Bit(r.ca, 47) then
        r.(state := ReadDelay, dqOut := 0, dlycnt := tx + c.phy.rxLatency)
      else if Bit(r.ca, 46) then
        if r.initialCr0Write then r.(state := EndWrite, dqOut := c.cr0Value)
        else r.(state := if req.wdata.last then EndWrite else WriteReg, dqOut := req.wdata.data)
      else
        r.(state := WriteDelay, dqOut := 0, dlycnt := tx)
    case WriteDelay =>
      r.(state := Write, rwdsOe := true,
         dlycnt := if c.fixedLatency || phy.rwdsQa then 2 * il - 3 - tx else il - 3 - tx)
    case Write =>
      r.(state := if req.wdata.last then EndWrite else Write, dqOut := req.wdata.data, rwdsOut := !req.wdata.we)
    case WriteReg =>
      r.(state := if req.wdata.last then EndWrite else WriteReg, dqOut := req.wdata.data)
    case EndWrite => r.(state := EndRead, ck := false, rwdsOut := 3, dlycnt := tx)
    case ReadDelay =>
      r.(state := Read, dqOe := false, dlycnt := if c.fixedLatency || phy.rwdsQb then 2 * il else il)
    case Read =>
      if phy.rwdsQa && req.rdataLast then r.(state := EndRead, ck := false, dlycnt := tx) else r
    case EndRead => r.(state := Idle, rwdsOe := false, csB := true)
    case Idle =>
      if c.dualDie && r.initialCr0Write && !Bit(r.ca, DieBit) then
        r.(state := CaWord0, ca := SetBit(r.ca, DieBit))
      else if req.cmdValid then
        r.(state := CaWord0, initialCr0Write := false, ca := AcceptCmd(r.ca, req.cmd))
      else
        r.(initialCr0Write := false)
  }

  /** The registers after one clock edge. */
  function Next(c: Config, r: Regs, phy: PhyIn, req: PortReq): Regs
    requires ValidConfig(c)
  {
    if !r.ramResetB then
      Reset(c).(dlycnt := if r.dlycnt != 0 then r.dlycnt - 1 else c.resetDelay,
                ramResetB := r.dlycnt == 0 && phy.pllLocked)
    else if r.dlycnt != 0 then
      r.(dlycnt := r.dlycnt - 1)
    else
      Act(c, r, phy, req)
  }

  // ---------------------------------------------------------------------------
  // Invariant.

  /** Every state-machine-owned register holds its reset value. */
  predicate FsmAtReset(c: Config, r: Regs)
  {
    Reset(c).(dlycnt := r.dlycnt, ramResetB := r.ramResetB) == r
  }

  /** The states in which the controller is still pushing CR0 to the dies by itself. */
  predicate InitialWriteState(s: State)
  {
    s in {CaWord0, CaWord1, CaWord2, SelectOp, EndWrite, EndRead, Idle}
  }

  ghost predicate Inv(c: Config, r: Regs)
  {
    && ValidConfig(c)
    && r.dlycnt <= DlyBound(c)
    && (!r.ramResetB ==> FsmAtReset(c, r))
    && (r.state == Idle ==> r.dlycnt == 0)
    // chip select is low from the first command-address word until END_READ
    && r.csB == (r.state in {CaWord0, Idle})
    && r.ck == (r.state !in {CaWord0, EndRead, Idle})
    && (r.state == Write ==> r.rwdsOe)
    && (r.state in {Idle, CaWord0, CaWord1, CaWord2, SelectOp, WriteDelay, WriteReg, ReadDelay, Read} ==> !r.rwdsOe)
    && (r.state in {CaWord1, CaWord2, SelectOp, WriteDelay, Write, WriteReg, EndWrite, ReadDelay} ==> r.dqOe)
    && (r.state == Read ==> !r.dqOe)
    // CA15-CA3 are reserved and never written
    && r.ca & 0xFFF8 == 0
    && (r.initialCr0Write ==>
          && InitialWriteState(r.state)
          && (r.ca == ResetCa || (c.dualDie && r.ca == SetBit(ResetCa, DieBit))))
  }

  lemma ResetSatisfiesInv(c: Config)
    requires ValidConfig(c)
    ensures Inv(c, Reset(c))
  {
  }

  lemma {:induction false} NextPreservesInv(c: Config, r: Regs, phy: PhyIn, req: PortReq)
    requires Inv(c, r)
    ensures Inv(c, Next(c, r, phy, req))
  {
    if !r.ramResetB {
      HeldResetPreservesInv(c, r, phy);
    } else if r.dlycnt == 0 {
      ActPreservesInv(c, r, phy, req);
    }
  }

  lemma HeldResetPreservesInv(c: Config, r: Regs, phy: PhyIn)
    requires Inv(c, r) && !r.ramResetB
    ensures Inv(c, Reset(c).(dlycnt := if r.dlycnt != 0 then r.dlycnt - 1 else c.resetDelay,
                             ramResetB := r.dlycnt == 0 && phy.pllLocked))
  {
  }

  lemma ActPreservesInv(c: Config, r: Regs, phy: PhyIn, req: PortReq)
    requires Inv(c, r) && r.ramResetB && r.dlycnt == 0
    ensures Inv(c, Act(c, r, phy, req))
  {
    match r.state
    case Idle =>
      if !(c.dualDie && r.initialCr0Write && !Bit(r.ca, DieBit)) && req.cmdValid {
        AcceptCmdKeepsReserved(r.ca, req.cmd);
      }
    case _ =>
  }

  lemma AcceptCmdKeepsReserved(ca: bv48, cmd: Cmd)
    requires ca & 0xFFF8 == 0
    ensures AcceptCmd(ca, cmd) & 0xFFF8 == 0
  {
  }

  // ---------------------------------------------------------------------------
  // Reset and delay gating.

  /** The state advances only on a clock where the delay counter is zero and the device reset is released; otherwise the counter counts down by one. */
  lemma StateAdvancesOnlyWhenCounterZero(c: Config, r: Regs, phy: PhyIn, req: PortReq)
    requires Inv(c, r)
    ensures Next(c, r, phy, req).state != r.state ==> r.dlycnt == 0 && r.ramResetB
    ensures r.dlycnt != 0 ==> Next(c, r, phy, req).dlycnt == r.dlycnt - 1
    ensures r.dlycnt != 0 && r.ramResetB ==> Next(c, r, phy, req) == r.(dlycnt := r.dlycnt - 1)
  {
  }

  /**
   * Every value the counter takes on a clock edge is a count-down by one, a
   * reload listed in Reloads, or a zero counter left as it is.
   */
  lemma CounterLoadsOnlyReloads(c: Config, r: Regs, phy: PhyIn, req: PortReq)
    requires ValidConfig(c)
    ensures var d := Next(c, r, phy, req).dlycnt;
      d + 1 == r.dlycnt || d in Reloads(c) || d == r.dlycnt == 0
  {
    ReloadsListed(c);
    if !r.ramResetB {
      assert Next(c, r, phy, req).dlycnt == if r.dlycnt != 0 then r.dlycnt - 1 else c.resetDelay;
    } else if r.dlycnt == 0 {
      ActLoadsOnlyReloads(c, r, phy, req);
    }
  }

  /** The value the state machine leaves in the counter: one of the reloads, or 0. */
  predicate LoadsReload(c: Config, d: nat)
  {
    || d == 0 || d == c.phy.txLatency + c.phy.rxLatency || d == c.phy.txLatency
    || d == 2 * c.initialLatency - 3 - c.phy.txLatency || d == 2 * c.initialLatency
    || (!c.fixedLatency && (d == c.initialLatency - 3 - c.phy.txLatency || d == c.initialLatency))
  }

  lemma ActLoadsOnlyReloads(c: Config, r: Regs, phy: PhyIn, req: PortReq)
    requires ValidConfig(c) && r.dlycnt == 0
    ensures LoadsReload(c, Act(c, r, phy, req).dlycnt)
  {
    match r.state
    case SelectOp | WriteDelay | ReadDelay => LatencyLoads(c, r, phy, req);
    case Read | EndWrite | Idle => EndLoads(c, r, phy, req);
    case CaWord0 | CaWord1 | CaWord2 => CaLoadsNothing(c, r, phy, req);
    case Write | WriteReg | EndRead => DataLoadsNothing(c, r, phy, req);
  }

  lemma LatencyLoads(c: Config, r: Regs, phy: PhyIn, req: PortReq)
    requires ValidConfig(c) && r.dlycnt == 0 && r.state in {SelectOp, WriteDelay, ReadDelay}
    ensures LoadsReload(c, Act(c, r, phy, req).dlycnt)
  {
  }

  lemma EndLoads(c: Config, r: Regs, phy: PhyIn, req: PortReq)
    requires ValidConfig(c) && r.dlycnt == 0 && r.state in {Read, EndWrite, Idle}
    ensures LoadsReload(c, Act(c, r, phy, req).dlycnt)
  {
  }

  lemma CaLoadsNothing(c: Config, r: Regs, phy: PhyIn, req: PortReq)
    requires ValidConfig(c) && r.state in {CaWord0, CaWord1, CaWord2}
    ensures Act(c, r, phy, req).dlycnt == r.dlycnt
  {
  }

  lemma DataLoadsNothing(c: Config, r: Regs, phy: PhyIn, req: PortReq)
    requires ValidConfig(c) && r.state in {Write, WriteReg, EndRead}
    ensures Act(c, r, phy, req).dlycnt == r.dlycnt
  {
  }

  lemma ReloadsListed(c: Config)
    requires ValidConfig(c)
    ensures c.resetDelay in Reloads(c) && c.phy.txLatency + c.phy.rxLatency in Reloads(c) && c.phy.txLatency in Reloads(c)
    ensures 2 * c.initialLatency - 3 - c.phy.txLatency in Reloads(c) && 2 * c.initialLatency in Reloads(c)
    ensures !c.fixedLatency ==> c.initialLatency - 3 - c.phy.txLatency in Reloads(c) && c.initialLatency in Reloads(c)
  {
  }

  /** The counter always fits a field of DlyWidth bits. */
  lemma CounterFitsWidth(c: Config, r: Regs)
    requires Inv(c, r)
    ensures r.dlycnt < Pow2(DlyWidth(c))
  {
    BitsForBounds(DlyBound(c));
  }

  /**
   * The device reset is released only on a clock where the counter is zero and
   * the PLL is locked, the counter is then reloaded with the reset delay, and
   * the reset is never asserted again. While it is held, the state machine sits
   * in CA_WORD0 with chip select high and the clock stopped.
   */
  lemma ResetRelease(c: Config, r: Regs, phy: PhyIn, req: PortReq)
    requires Inv(c, r)
    ensures var r' := Next(c, r, phy, req);
      && (r'.ramResetB && !r.ramResetB <==> !r.ramResetB && r.dlycnt == 0 && phy.pllLocked)
      && (r'.ramResetB && !r.ramResetB ==> r'.dlycnt == c.resetDelay && r'.state == CaWord0)
      && (r.ramResetB ==> r'.ramResetB)
    ensures !r.ramResetB ==> r.state == CaWord0 && r.csB && !r.ck && !r.dqOe && !r.rwdsOe
  {
  }

  // ---------------------------------------------------------------------------
  // Command acceptance and the command-address word.

  /** The HyperBus command-address fields of the word built for a command. */
  lemma AcceptCmdFields(ca: bv48, cmd: Cmd)
    ensures var w := AcceptCmd(ca, cmd);
      && Bit(w, 47) == !cmd.we
      && Bit(w, 46) == cmd.aspace
      && Bit(w, 45) == cmd.burstType
      && (w >> 16) & 0x1FFF_FFFF == ((cmd.addr >> 3) as bv48)
      && w & 0x7 == (cmd.addr & 7) as bv48
      && w & 0xFFF8 == ca & 0xFFF8
  {
  }

  /** The three command-address words, most significant first, concatenate back to the whole word. */
  lemma CaWordsConcatenate(ca: bv48)
    ensures ((CaSlice(ca, 32) as bv48) << 32) | ((CaSlice(ca, 16) as bv48) << 16) | (CaSlice(ca, 0) as bv48) == ca
  {
  }

  /**
   * A command is accepted only in IDLE with the device deselected, and is never
   * lost: the handshake moves the state machine to CA_WORD0 with the new
   * command-address word and ends the initial CR0 sequence.
   */
  lemma CmdAccepted(c: Config, r: Regs, phy: PhyIn, req: PortReq)
    requires Inv(c, r) && CmdReady(c, r)
    ensures r.state == Idle && r.csB && !r.ck && r.dlycnt == 0 && r.ramResetB
    ensures req.cmdValid ==> Next(c, r, phy, req) == r.(state := CaWord0, initialCr0Write := false, ca := AcceptCmd(r.ca, req.cmd))
    ensures !req.cmdValid ==> Next(c, r, phy, req) == r.(initialCr0Write := false)
  {
  }

  /** From CA_WORD0 the next three enabled clocks drive ca[32:48], ca[16:32] and ca[0:16] and reach SELECT_OP with the word unchanged. */
  lemma CaWordsDriven(c: Config, r: Regs, t0: (PhyIn, PortReq), t1: (PhyIn, PortReq), t2: (PhyIn, PortReq))
    requires Inv(c, r) && r.state == CaWord0 && r.ramResetB && r.dlycnt == 0
    ensures var r1 := Next(c, r, t0.0, t0.1);
      var r2 := Next(c, r1, t1.0, t1.1);
      var r3 := Next(c, r2, t2.0, t2.1);
      && r1.dqOut == CaSlice(r.ca, 32) && r1.state == CaWord1
      && r2.dqOut == CaSlice(r.ca, 16) && r2.state == CaWord2
      && r3.dqOut == CaSlice(r.ca, 0) && r3.state == SelectOp
      && r3.ca == r.ca && !r1.csB && !r2.csB && !r3.csB && r1.dqOe && r2.dqOe && r3.dqOe
  {
  }

  // ---------------------------------------------------------------------------
  // Handshakes and bus ownership.

  /**
   * Write data is taken only in SELECT_OP (register write), WRITE (once the
   * latency count has run out) and WRITE_REG; read data is offered only in
   * READ once RWDS is seen and the count has run out. In every case the device
   * is selected and clocked.
   */
  lemma DataHandshakes(c: Config, r: Regs, phy: PhyIn)
    requires Inv(c, r)
    ensures WdataReady(r) ==> r.state in {SelectOp, Write, WriteReg} && !r.csB && r.ck && r.dqOe
    ensures WdataReady(r) && r.state == Write ==> r.dlycnt == 0 && r.rwdsOe
    ensures WdataReady(r) && r.state == SelectOp ==> !r.initialCr0Write && !Bit(r.ca, 47) && Bit(r.ca, 46)
    ensures RdataValid(r, phy) ==> r.state == Read && phy.rwdsQa && r.dlycnt == 0 && !r.csB && r.ck && !r.dqOe
    ensures CmdReady(c, r) ==> !WdataReady(r) && !RdataValid(r, phy)
  {
  }

  /** A read transaction leaves READ only through END_READ, which raises chip select and returns to IDLE. */
  lemma ReadEndsInIdle(c: Config, r: Regs, phy: PhyIn, req: PortReq)
    requires Inv(c, r) && r.state in {Read, EndRead}
    ensures var r' := Next(c, r, phy, req);
      && r'.state in {Read, EndRead, Idle}
      && (r'.state == Idle ==> r.state == EndRead && r'.csB && !r'.rwdsOe)
  {
  }

  // ---------------------------------------------------------------------------
  // The initial CR0 writes.

  function NumDies(c: Config): nat
  {
    if c.dualDie then 2 else 1
  }

  /** On this clock the state machine performs one of its own zero-latency CR0 writes. */
  predicate FiresCr0Write(r: Regs)
  {
    r.ramResetB && r.dlycnt == 0 && r.state == SelectOp && r.initialCr0Write
  }

  /** How many of its own CR0 writes the controller has issued, read off its registers. */
  function Cr0WritesIssued(c: Config, r: Regs): nat
  {
    if !r.initialCr0Write then NumDies(c)
    else (if Bit(r.ca, DieBit) then 1 else 0) + (if r.state in {EndWrite, EndRead, Idle} then 1 else 0)
  }

  /**
   * An initial CR0 write is a zero-latency register write (straight from
   * SELECT_OP to END_WRITE) of the CR0 value, to die 0 first and then, on a
   * dual-die module, to die 1; each one adds one to the count.
   */
  lemma Cr0WriteStep(c: Config, r: Regs, phy: PhyIn, req: PortReq)
    requires Inv(c, r)
    ensures Cr0WritesIssued(c, Next(c, r, phy, req)) == Cr0WritesIssued(c, r) + (if FiresCr0Write(r) then 1 else 0)
    ensures FiresCr0Write(r) ==>
      && Next(c, r, phy, req).dqOut == c.cr0Value
      && Next(c, r, phy, req).state == EndWrite
      && !Bit(r.ca, 47) && Bit(r.ca, 46) && Bit(r.ca, 45)
      && r.ca == (if Cr0WritesIssued(c, r) == 0 then ResetCa else SetBit(ResetCa, DieBit))
      && Cr0WritesIssued(c, r) < NumDies(c)
  {
    // treat the held reset and the IDLE step (where the die-1 repeat starts) separately
    if !r.ramResetB {
    } else if r.dlycnt == 0 && r.state == Idle {
    }
  }

  /** Commands are accepted only after every die has received its CR0 write. */
  lemma CmdReadyOnlyAfterCr0Writes(c: Config, r: Regs)
    requires Inv(c, r)
    ensures Cr0WritesIssued(c, r) <= NumDies(c)
    ensures CmdReady(c, r) ==> Cr0WritesIssued(c, r) == NumDies(c)
  {
  }

  /** A client request with nothing valid. */
  const IdleReq := PortReq(false, Cmd(false, false, false, 0), false, Wdata(0, 0, false), false, false)

  /** One clock's inputs. */
  datatype Tick = Tick(phy: PhyIn, req: PortReq)

  function Run(c: Config, r: Regs, ticks: seq<Tick>): Regs
    requires ValidConfig(c)
    decreases |ticks|
  {
    if ticks == [] then r else Run(c, Next(c, r, ticks[0].phy, ticks[0].req), ticks[1..])
  }

  /** The number of initial CR0 writes performed along a run. */
  function Cr0WritesIn(c: Config, r: Regs, ticks: seq<Tick>): nat
    requires ValidConfig(c)
    decreases |ticks|
  {
    if ticks == [] then 0
    else (if FiresCr0Write(r) then 1 else 0) + Cr0WritesIn(c, Next(c, r, ticks[0].phy, ticks[0].req), ticks[1..])
  }

  lemma {:induction false} RunPreservesInv(c: Config, r: Regs, ticks: seq<Tick>)
    requires Inv(c, r)
    ensures Inv(c, Run(c, r, ticks))
    ensures Cr0WritesIssued(c, r) + Cr0WritesIn(c, r, ticks) == Cr0WritesIssued(c, Run(c, r, ticks))
    decreases |ticks|
  {
    if ticks != [] {
      NextPreservesInv(c, r, ticks[0].phy, ticks[0].req);
      Cr0WriteStep(c, r, ticks[0].phy, ticks[0].req);
      RunPreservesInv(c, Next(c, r, ticks[0].phy, ticks[0].req), ticks[1..]);
    }
  }

  /**
   * From reset, whatever the PHY and the port do, the controller performs at
   * most one CR0 write per die, and by the first cycle in which it is ready
   * for a command it has performed exactly one per die.
   */
  lemma StartupCr0Writes(c: Config, ticks: seq<Tick>)
    requires ValidConfig(c)
    ensures Cr0WritesIn(c, Reset(c), ticks) <= NumDies(c)
    ensures CmdReady(c, Run(c, Reset(c), ticks)) ==> Cr0WritesIn(c, Reset(c), ticks) == NumDies(c)
  {
    ResetSatisfiesInv(c);
    RunPreservesInv(c, Reset(c), ticks);
    CmdReadyOnlyAfterCr0Writes(c, Run(c, Reset(c), ticks));
  }

  // ---------------------------------------------------------------------------
  // The controller as a clocked object.

  class HyperRAMController {
    const cfg: Config
    var state: State
    var dlycnt: nat
    var ramResetB: bool
    var ck: bool
    var csB: bool
    var dqOut: bv16
    var rwdsOut: bv2
    var dqOe: bool
    var rwdsOe: bool
    var ca: bv48
    var initialCr0Write: bool

    function Snapshot(): Regs
      reads this
    {
      Regs(state, dlycnt, ramResetB, ck, csB, dqOut, rwdsOut, dqOe, rwdsOe, ca, initialCr0Write)
    }

    ghost predicate Valid()
      reads this
    {
      Inv(cfg, Snapshot())
    }

    constructor (c: Config)
      requires ValidConfig(c)
      ensures cfg == c && Snapshot() == Reset(c) && Valid()
    {
      cfg := c;
      state, dlycnt, ramResetB := CaWord0, c.resetDelay, false;
      ck, csB, dqOut, rwdsOut := false, true, 0, 0;
      dqOe, rwdsOe := false, false;
      ca, initialCr0Write := ResetCa, true;
    }

    /** This cycle's combinational port outputs. */
    method Outputs(phy: PhyIn) returns (resp: PortResp)
      ensures resp == Resp(cfg, Snapshot(), phy)
    {
      var cmdReady := state == Idle && !(cfg.dualDie && initialCr0Write && !Bit(ca, DieBit));
      var wdataReady := false;
      var rdataValid := false;
      match state {
        case SelectOp =>
          wdataReady := !Bit(ca, 47) && Bit(ca, 46) && !initialCr0Write;
        case Write => wdataReady := dlycnt == 0;
        case WriteReg => wdataReady := true;
        case Read => rdataValid := phy.rwdsQa && dlycnt == 0;
        case _ =>
      }
      resp := PortResp(cmdReady, wdataReady, rdataValid, ReadWord(phy));
    }

    /** One clock: returns this cycle's port outputs and performs the clock edge. */
    method Step(phy: PhyIn, req: PortReq) returns (resp: PortResp)
      requires Valid()
      modifies this
      ensures Valid()
      ensures resp == Resp(cfg, old(Snapshot()), phy)
      ensures Snapshot() == Next(cfg, old(Snapshot()), phy, req)
    {
      ghost var before := Snapshot();
      resp := Outputs(phy);
      if !ramResetB {
        HoldReset(phy);
      } else if dlycnt != 0 {
        // counting down; the state machine is not enabled
        dlycnt := dlycnt - 1;
      } else {
        Enabled(phy, req);
      }
      NextPreservesInv(cfg, before, phy, req);
    }

    /** While the device reset is held: count the reset delay down, release the reset once the PLL is locked, and keep the state machine at its reset values. */
    method HoldReset(phy: PhyIn)
      requires !ramResetB
      modifies this
      ensures Snapshot() == Reset(cfg).(dlycnt := if old(dlycnt) != 0 then old(dlycnt) - 1 else cfg.resetDelay,
                                        ramResetB := old(dlycnt) == 0 && phy.pllLocked)
    {
      if dlycnt != 0 {
        dlycnt := dlycnt - 1;
      } else {
        dlycnt := cfg.resetDelay;
        if phy.pllLocked {
          ramResetB := true;
        }
      }
      state, ck, csB, dqOut, rwdsOut := CaWord0, false, true, 0, 0;
      dqOe, rwdsOe, ca, initialCr0Write := false, false, ResetCa, true;
    }

    /** The state machine's updates on an enabled clock. */
    method Enabled(phy: PhyIn, req: PortReq)
      requires ValidConfig(cfg) && ramResetB && dlycnt == 0
      modifies this
      ensures Snapshot() == Act(cfg, old(Snapshot()), phy, req)
    {
      match state {
        case CaWord0 =>
          csB, ck, dqOe := false, true, true;
          dqOut := CaSlice(ca, 32);
          rwdsOut := 3;
          state := CaWord1;
        case CaWord1 =>
          dqOut := CaSlice(ca, 16);
          state := CaWord2;
        case CaWord2 =>
          dqOut := CaSlice(ca, 0);
          state := SelectOp;
        case SelectOp => SelectOperation(req);
        case WriteDelay => WriteLatency(phy);
        case Write | WriteReg | EndWrite => WritePhase(req);
        case ReadDelay | Read | EndRead => ReadPhase(phy, req);
        case Idle => IdleAccept(req);
      }
    }

    /** SELECT_OP: branch on the direction and address-space bits of the command-address word. */
    method SelectOperation(req: PortReq)
      requires ValidConfig(cfg) && ramResetB && dlycnt == 0 && state == SelectOp
      modifies this
      ensures Snapshot() == Act(cfg, old(Snapshot()), PhyIn(false, false, false, 0, 0), req)
    {
      dqOut := 0;
      if Bit(ca, 47) {
        // read
        dlycnt := cfg.phy.txLatency + cfg.phy.rxLatency;
        state := ReadDelay;
      } else if Bit(ca, 46) {
        // zero-latency register write
        state := EndWrite;
        if initialCr0Write {
          dqOut := cfg.cr0Value;
        } else {
          dqOut := req.wdata.data;
          if !req.wdata.last {
            state := WriteReg;
          }
        }
      } else {
        // memory write: wait for the RWDS direction change
        dlycnt := cfg.phy.txLatency;
        state := WriteDelay;
      }
    }

    /** WRITE_DELAY: the controller takes over RWDS and loads the long or short write latency. */
    method WriteLatency(phy: PhyIn)
      requires ValidConfig(cfg) && ramResetB && dlycnt == 0 && state == WriteDelay
      modifies this
      ensures Snapshot() == Act(cfg, old(Snapshot()), phy, IdleReq)
    {
      var tx := cfg.phy.txLatency;
      var il := cfg.initialLatency;
      rwdsOe := true;
      if cfg.fixedLatency || phy.rwdsQa {
        dlycnt := 2 * il - 3 - tx;
      } else {
        dlycnt := il - 3 - tx;
      }
      state := Write;
    }

    method WritePhase(req: PortReq)
      requires ValidConfig(cfg) && ramResetB && dlycnt == 0 && state in {Write, WriteReg, EndWrite}
      modifies this
      ensures Snapshot() == Act(cfg, old(Snapshot()), PhyIn(false, false, false, 0, 0), req)
    {
      match state {
        case Write =>
          dqOut := req.wdata.data;
          rwdsOut := !req.wdata.we;
          if req.wdata.last {
            state := EndWrite;
          }
        case WriteReg =>
          dqOut := req.wdata.data;
          if req.wdata.last {
            state := EndWrite;
          }
        case EndWrite =>
          ck := false;
          rwdsOut := 3;
          dlycnt := cfg.phy.txLatency;
          state := EndRead;
      }
    }

    method ReadPhase(phy: PhyIn, req: PortReq)
      requires ValidConfig(cfg) && ramResetB && dlycnt == 0 && state in {ReadDelay, Read, EndRead}
      modifies this
      ensures Snapshot() == Act(cfg, old(Snapshot()), phy, req)
    {
      match state {
        case ReadDelay =>
          dqOe := false;
          if cfg.fixedLatency || phy.rwdsQb {
            dlycnt := 2 * cfg.initialLatency;
          } else {
            dlycnt := cfg.initialLatency;
          }
          state := Read;
        case Read =>
          if phy.rwdsQa && req.rdataLast {
            ck := false;
            dlycnt := cfg.phy.txLatency;
            state := EndRead;
          }
        case EndRead =>
          rwdsOe := false;
          csB := true;
          state := Idle;
      }
    }

    /** IDLE: repeat the CR0 write for the second die once, otherwise accept the next command. */
    method IdleAccept(req: PortReq)
      requires ValidConfig(cfg) && ramResetB && dlycnt == 0 && state == Idle
      modifies this
      ensures Snapshot() == Act(cfg, old(Snapshot()), PhyIn(false, false, false, 0, 0), req)
    {
      if cfg.dualDie && initialCr0Write && !Bit(ca, DieBit) {
        ca := SetBit(ca, DieBit);
        state := CaWord0;
      } else {
        initialCr0Write := false;
        if req.cmdValid {
          ca := AcceptCmd(ca, req.cmd);
          state := CaWord0;
        }
      }
    }
  }
}

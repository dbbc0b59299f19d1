/**
 * The register-space sequencer: a control/status register whose fields
 * describe one HyperRAM register access, and a four-state machine that issues
 * that access through a native port. At startup it writes CR0 to every die,
 * counting the die number down, and then raises `setup_done`.
 */
module RegisterSpace {

  import opened Common
  import opened Wrappers
  import opened ControllerConfig

  datatype RsState = Start | WaitCmd | WaitWrite | WaitRead

  /** The CSR fields, in register order from bit 0 (busy, bit 31, is computed). */
  datatype Fields = Fields(regValue: bv16, regNr: bv3, regType: bv8, dieNr: bv2, we: bool, strobe: bool)

  datatype RsRegs = RsRegs(state: RsState, setupDone: bool, fields: Fields)

  /** Construction parameters: the latency settings, the die count and the port's address width. */
  datatype Params = Params(initialLatency: nat, fixedLatency: bool, nbanks: nat, addressWidth: nat)

  predicate ValidParams(p: Params)
  {
    3 <= p.initialLatency <= 7 && 1 <= p.nbanks <= 4
  }

  function ResetFields(p: Params): Fields
    requires ValidParams(p)
  {
    Fields(Cr0Value(ILCode(p.initialLatency).value, p.fixedLatency), 0, 1, (p.nbanks - 1) as bv2, true, false)
  }

  function ResetRegs(p: Params): RsRegs
    requires ValidParams(p)
  {
    RsRegs(Start, false, ResetFields(p))
  }

  /** The reset value of reg_value is the CR0 word for the configured latency settings. */
  lemma ResetRegValueIsCr0(p: Params)
    requires ValidParams(p)
    ensures DecodeILCode(Cr0LatencyField(ResetFields(p).regValue)) == Some(p.initialLatency)
    ensures Cr0FixedBit(ResetFields(p).regValue) == p.fixedLatency
    ensures ResetFields(p).regType == 1 && ResetFields(p).we && ResetFields(p).dieNr as int == p.nbanks - 1
  {
    Cr0RoundTrip(p.initialLatency, p.fixedLatency);
  }

  // ---------------------------------------------------------------------------
  // The CSR word.

  function B32(b: bool): bv32
  {
    if b then 1 else 0
  }

  /** The value the CSR reads as: reg_value 15-0, reg_nr 18-16, reg_type 26-19, die_nr 28-27, we 29, strobe 30, busy 31. */
  function CsrWord(f: Fields, busy: bool): bv32
  {
    (f.regValue as bv32) | ((f.regNr as bv32) << 16) | ((f.regType as bv32) << 19)
      | ((f.dieNr as bv32) << 27) | (B32(f.we) << 29) | (B32(f.strobe) << 30) | (B32(busy) << 31)
  }

  /** The writable fields a CSR write of `w` latches. */
  function Latch(w: bv32): Fields
  {
    Fields((w & 0xFFFF) as bv16, ((w >> 16) & 0x7) as bv3, ((w >> 19) & 0xFF) as bv8,
           ((w >> 27) & 0x3) as bv2, (w >> 29) & 1 == 1, (w >> 30) & 1 == 1)
  }

  /** Writing a word and reading it back returns every writable bit; reading the fields and writing them back changes nothing. */
  lemma CsrRoundTrip(f: Fields, busy: bool, w: bv32)
    ensures Latch(CsrWord(f, busy)) == f
    ensures CsrWord(Latch(w), busy) & 0x7FFF_FFFF == w & 0x7FFF_FFFF
    ensures (CsrWord(f, busy) >> 31 == 1) == busy
  {
  }

  // ---------------------------------------------------------------------------
  // Combinational outputs.

  /** Idle: in START with setup complete. */
  predicate IsIdle(r: RsRegs)
  {
    r.state == Start && r.setupDone
  }

  predicate Busy(r: RsRegs)
  {
    !IsIdle(r)
  }

  /** The register address: reg_nr in bits 2-0, reg_type in bits 18-11, die_nr in bits 23-22. */
  function RegAddr(f: Fields): bv32
  {
    (f.regNr as bv32) | ((f.regType as bv32) << 11) | ((f.dieNr as bv32) << 22)
  }

  /** The register access as a command: register address space, linear burst. */
  function CmdOf(p: Params, f: Fields): Cmd
  {
    Cmd(f.we, true, true, Truncate(RegAddr(f), p.addressWidth))
  }

  /** What the register space drives into its port: one command, then a single write word (reg_value) or a single read word. */
  function Req(p: Params, r: RsRegs): PortReq
  {
    PortReq(r.state == WaitCmd, CmdOf(p, r.fields),
            r.state == WaitWrite, Wdata(r.fields.regValue, 0, true),
            r.state == WaitRead, true)
  }

  /** A CSR bus cycle: `re` marks a write, `r` is the written word. */
  datatype CsrIn = CsrIn(re: bool, r: bv32)

  // ---------------------------------------------------------------------------
  // One clock edge.

  /** During startup, a completed write to a die other than die 0 counts the die number down. */
  predicate DecrementDieNr(r: RsRegs, resp: PortResp)
  {
    r.state == WaitWrite && resp.wdataReady && !r.setupDone && r.fields.dieNr != 0
  }

  function NextFields(r: RsRegs, csr: CsrIn, resp: PortResp): Fields
  {
    var f := r.fields;
    if csr.re && IsIdle(r) then Latch(csr.r)
    else f.(strobe := false,
            regValue := if resp.rdataValid then resp.rdataData else f.regValue,
            dieNr := if DecrementDieNr(r, resp) then f.dieNr - 1 else f.dieNr)
  }

  function NextState(r: RsRegs, resp: PortResp): RsState
  {
    match r.state
    case Start => if !r.setupDone || r.fields.strobe then WaitCmd else Start
    case WaitCmd => if resp.cmdReady then (if r.fields.we then WaitWrite else WaitRead) else WaitCmd
    case WaitWrite => if resp.wdataReady then Start else WaitWrite
    case WaitRead => if resp.rdataValid then Start else WaitRead
  }

  function Next(r: RsRegs, csr: CsrIn, resp: PortResp): RsRegs
  {
    RsRegs(NextState(r, resp),
           r.setupDone || (r.state == WaitWrite && resp.wdataReady && r.fields.dieNr == 0),
           NextFields(r, csr, resp))
  }

  // ---------------------------------------------------------------------------
  // Properties of one clock.

  /** Each transaction is one command and one word, of the register space, with a linear burst, whose direction is the `we` field and whose write data is reg_value. */
  lemma IssuedTransaction(p: Params, r: RsRegs)
    ensures var q := Req(p, r);
      && q.cmd.aspace && q.cmd.burstType && q.cmd.we == r.fields.we
      && q.wdata.last && q.rdataLast && q.wdata.data == r.fields.regValue
      && (q.cmdValid ==> !q.wdataValid && !q.rdataReady)
  {
  }

  /** The register address decodes back to its fields when the port is at least 24 bits wide, or when the die number fits the port. */
  lemma RegAddrFields(p: Params, f: Fields)
    requires p.addressWidth >= 24 || (p.addressWidth == 23 && f.dieNr < 2) || (p.addressWidth == 22 && f.dieNr == 0)
    ensures var a := CmdOf(p, f).addr;
      && a == RegAddr(f)
      && a & 0x7 == f.regNr as bv32
      && (a >> 11) & 0xFF == f.regType as bv32
      && (a >> 22) & 0x3 == f.dieNr as bv32
      && a & 0xFF38_07F8 == 0
  {
  }

  /**
   * A CSR write latches the writable fields exactly when the register space is
   * idle; otherwise strobe clears, a valid read word is captured into
   * reg_value and a startup write counts die_nr down.
   */
  lemma CsrWriteRules(r: RsRegs, csr: CsrIn, resp: PortResp)
    ensures csr.re && IsIdle(r) ==> NextFields(r, csr, resp) == Latch(csr.r)
    ensures !(csr.re && IsIdle(r)) ==>
      var f' := NextFields(r, csr, resp);
      && !f'.strobe
      && f'.regValue == (if resp.rdataValid then resp.rdataData else r.fields.regValue)
      && f'.dieNr == (if DecrementDieNr(r, resp) then r.fields.dieNr - 1 else r.fields.dieNr)
      && f'.regNr == r.fields.regNr && f'.regType == r.fields.regType && f'.we == r.fields.we
    ensures Busy(r) ==> Next(r, csr, resp) == Next(r, csr.(re := false), resp)
  {
  }

  /**
   * START is left exactly when setup is incomplete or a strobe is pending;
   * WAIT_CMD moves on with the controller's cmd.ready, to WAIT_WRITE or
   * WAIT_READ by `we`; WAIT_WRITE and WAIT_READ return to START when their
   * word is transferred. setup_done is never cleared, and it is set exactly by
   * a completed write to die 0 during startup.
   */
  lemma Transitions(r: RsRegs, csr: CsrIn, resp: PortResp)
    ensures var r' := Next(r, csr, resp);
      && (r.state == Start ==> (r'.state == WaitCmd <==> !r.setupDone || r.fields.strobe) && r'.state in {Start, WaitCmd})
      && (r.state == WaitCmd ==> r'.state == (if !resp.cmdReady then WaitCmd else if r.fields.we then WaitWrite else WaitRead))
      && (r.state == WaitWrite ==> r'.state == (if resp.wdataReady then Start else WaitWrite))
      && (r.state == WaitRead ==> r'.state == (if resp.rdataValid then Start else WaitRead))
      && (r.setupDone ==> r'.setupDone)
      && (!r.setupDone && r'.setupDone <==> !r.setupDone && r.state == WaitWrite && resp.wdataReady && r.fields.dieNr == 0)
  {
  }

  /** Busy is exactly "not idle in START with setup done", so it holds throughout startup. */
  lemma BusyDuringStartup(r: RsRegs)
    ensures !r.setupDone ==> Busy(r)
    ensures Busy(r) <==> r.state != Start || !r.setupDone
  {
  }

  // ---------------------------------------------------------------------------
  // Startup.

  ghost predicate Inv(p: Params, r: RsRegs)
  {
    && ValidParams(p)
    && (!r.setupDone ==>
          && r.fields.dieNr as int < p.nbanks
          && r.fields.we
          && r.fields.regNr == 0 && r.fields.regType == 1
          && r.state in {Start, WaitCmd, WaitWrite})
  }

  /** A startup write completes on this clock. */
  predicate StartupWrite(r: RsRegs, resp: PortResp)
  {
    !r.setupDone && r.state == WaitWrite && resp.wdataReady
  }

  /** Startup writes completed so far, read off the registers. */
  function StartupWritesDone(p: Params, r: RsRegs): int
  {
    if r.setupDone then p.nbanks else p.nbanks - 1 - r.fields.dieNr as int
  }

  /** Each startup write goes to die nbanks-1-k, k being the writes before it, and adds one to the count. */
  lemma StartupWriteStep(p: Params, r: RsRegs, csr: CsrIn, resp: PortResp)
    requires Inv(p, r)
    ensures Inv(p, Next(r, csr, resp))
    ensures StartupWritesDone(p, Next(r, csr, resp)) == StartupWritesDone(p, r) + (if StartupWrite(r, resp) then 1 else 0)
    ensures StartupWrite(r, resp) ==> r.fields.dieNr as int == p.nbanks - 1 - StartupWritesDone(p, r)
    ensures 0 <= StartupWritesDone(p, r) <= p.nbanks
    ensures r.setupDone <==> StartupWritesDone(p, r) == p.nbanks
  {
  }

  datatype RsTick = RsTick(csr: CsrIn, resp: PortResp)

  function Run(r: RsRegs, ticks: seq<RsTick>): RsRegs
    decreases |ticks|
  {
    if ticks == [] then r else Run(Next(r, ticks[0].csr, ticks[0].resp), ticks[1..])
  }

  function StartupWritesIn(r: RsRegs, ticks: seq<RsTick>): nat
    decreases |ticks|
  {
    if ticks == [] then 0
    else (if StartupWrite(r, ticks[0].resp) then 1 else 0) + StartupWritesIn(Next(r, ticks[0].csr, ticks[0].resp), ticks[1..])
  }

  lemma {:induction false} RunCountsStartupWrites(p: Params, r: RsRegs, ticks: seq<RsTick>)
    requires Inv(p, r)
    ensures Inv(p, Run(r, ticks))
    ensures StartupWritesDone(p, r) + StartupWritesIn(r, ticks) == StartupWritesDone(p, Run(r, ticks))
    decreases |ticks|
  {
    if ticks != [] {
      StartupWriteStep(p, r, ticks[0].csr, ticks[0].resp);
      RunCountsStartupWrites(p, Next(r, ticks[0].csr, ticks[0].resp), ticks[1..]);
    }
  }

  /**
   * From reset, whatever the port and the CSR bus do, at most nbanks startup
   * writes complete, and setup_done is set exactly when nbanks of them have.
   */
  lemma StartupWritesEveryDie(p: Params, ticks: seq<RsTick>)
    requires ValidParams(p)
    ensures StartupWritesIn(ResetRegs(p), ticks) <= p.nbanks
    ensures Run(ResetRegs(p), ticks).setupDone <==> StartupWritesIn(ResetRegs(p), ticks) == p.nbanks
  {
    RunCountsStartupWrites(p, ResetRegs(p), ticks);
    StartupWriteStep(p, Run(ResetRegs(p), ticks), CsrIn(false, 0), NoResp);
  }

  // ---------------------------------------------------------------------------
  // The register space as a clocked object.

  class LiteHyperRAMRegisterSpace {
    const params: Params
    var state: RsState
    var setupDone: bool
    var regValue: bv16
    var regNr: bv3
    var regType: bv8
    var dieNr: bv2
    var we: bool
    var strobe: bool

    function Snapshot(): RsRegs
      reads this
    {
      RsRegs(state, setupDone, Fields(regValue, regNr, regType, dieNr, we, strobe))
    }

    ghost predicate Valid()
      reads this
    {
      Inv(params, Snapshot())
    }

    constructor (p: Params)
      requires ValidParams(p)
      ensures params == p && Snapshot() == ResetRegs(p) && Valid()
    {
      params := p;
      state, setupDone := Start, false;
      regValue := Cr0Value(ILCode(p.initialLatency).value, p.fixedLatency);
      regNr, regType, dieNr, we, strobe := 0, 1, (p.nbanks - 1) as bv2, true, false;
    }

    /** One clock: this cycle's port request and CSR read value, then the clock edge. */
    method Step(csr: CsrIn, resp: PortResp) returns (req: PortReq, csrRead: bv32)
      requires Valid()
      modifies this
      ensures Valid()
      ensures req == Req(params, old(Snapshot()))
      ensures csrRead == CsrWord(old(Snapshot()).fields, Busy(old(Snapshot())))
      ensures Snapshot() == Next(old(Snapshot()), csr, resp)
    {
      ghost var before := Snapshot();
      req := Req(params, Snapshot());
      csrRead := CsrWord(Snapshot().fields, Busy(Snapshot()));
      var idle := state == Start && setupDone;
      var decrement := DecrementDieNr(Snapshot(), resp);
      StepFsm(resp);
      StepFields(csr, resp, idle, decrement);
      StartupWriteStep(params, before, csr, resp);
    }

    /** The state machine and setup_done; it reads the fields as they were before the edge. */
    method StepFsm(resp: PortResp)
      modifies this
      ensures state == NextState(old(Snapshot()), resp)
      ensures setupDone == Next(old(Snapshot()), CsrIn(false, 0), resp).setupDone
      ensures regValue == old(regValue) && regNr == old(regNr) && regType == old(regType)
      ensures dieNr == old(dieNr) && we == old(we) && strobe == old(strobe)
    {
      match state {
        case Start =>
          if !setupDone || strobe {
            state := WaitCmd;
          }
        case WaitCmd =>
          if resp.cmdReady {
            state := if we then WaitWrite else WaitRead;
          }
        case WaitWrite =>
          if resp.wdataReady {
            if !setupDone && dieNr == 0 {
              setupDone := true;
            }
            state := Start;
          }
        case WaitRead =>
          if resp.rdataValid {
            state := Start;
          }
      }
    }

    /** The CSR fields: a write while idle latches them, otherwise strobe clears, read data is captured and a startup write counts die_nr down. */
    method StepFields(csr: CsrIn, resp: PortResp, idle: bool, decrement: bool)
      modifies this
      ensures state == old(state) && setupDone == old(setupDone)
      ensures Snapshot().fields ==
        if csr.re && idle then Latch(csr.r)
        else old(Snapshot()).fields.(strobe := false,
               regValue := if resp.rdataValid then resp.rdataData else old(regValue),
               dieNr := if decrement then old(dieNr) - 1 else old(dieNr))
    {
      if csr.re && idle {
        var f := Latch(csr.r);
        regValue, regNr, regType, dieNr, we, strobe := f.regValue, f.regNr, f.regType, f.dieNr, f.we, f.strobe;
      } else {
        strobe := false;
        if resp.rdataValid {
          regValue := resp.rdataData;
        }
        if decrement {
          dieNr := dieNr - 1;
        }
      }
    }
  }
}

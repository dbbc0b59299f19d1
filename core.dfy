/**
 * The assembled core: a controller, a register space and a crossbar between
 * them. The data and register ports have the controller port's shape; the
 * register space gets the module's die count and the controller's latency
 * settings; the crossbar is locked onto the register port until the register
 * space reports setup done.
 */
module Core {

  import opened Wrappers
  import opened Bits
  import opened Common
  import opened Modules
  import opened ControllerConfig
  import Controller
  import Crossbar
  import RegisterSpace

  /** Everything fixed at construction. */
  datatype CoreConfig = CoreConfig(
    ctrl: Config,
    rs: RegisterSpace.Params,
    ctrlPort: NativePort,
    dataPort: NativePort,
    regPort: NativePort,
    exposedPort: NativePort)

  /**
   * The port handed to the user: the crossbar's data port itself, or for
   * 32-bit data one with an address one bit narrower (it counts 32-bit words,
   * the crossbar 16-bit ones).
   */
  function ExposedPort(p: NativePort): (q: NativePort)
    requires p.dataWidth == 32 ==> p.addressWidth >= 1
    ensures q.dataWidth == p.dataWidth
    ensures q.addressWidth == if p.dataWidth == 32 then p.addressWidth - 1 else p.addressWidth
  {
    if p.dataWidth == 32 then NativePort(p.addressWidth - 1, p.dataWidth) else p
  }

  /** The crossbar-side address for an outer address of a 32-bit data port: a zero bit appended below. */
  function InnerAddr(outer: bv32): bv32
  {
    outer << 1
  }

  /** The inner address is twice the outer one, so its bit 0 is clear and shifting it back recovers the outer address. */
  lemma InnerAddrRoundTrip(outer: bv32)
    requires outer < 0x8000_0000
    ensures InnerAddr(outer) & 1 == 0
    ensures InnerAddr(outer) >> 1 == outer
    ensures InnerAddr(outer) as int == 2 * outer as int
  {
  }

  /**
   * For a 32-bit data port, every address of the exposed port maps to an even
   * crossbar-side address that fits the data port, and distinct exposed
   * addresses map to distinct crossbar-side ones.
   */
  lemma ExposedAddressesFitDataPort(p: NativePort, a: bv32, b: bv32)
    requires p.dataWidth == 32 && 1 <= p.addressWidth <= 32
    requires a as int < Pow2(ExposedPort(p).addressWidth) && b as int < Pow2(ExposedPort(p).addressWidth)
    ensures InnerAddr(a) as int < Pow2(p.addressWidth)
    ensures InnerAddr(a) & 1 == 0
    ensures InnerAddr(a) == InnerAddr(b) ==> a == b
  {
    var w := p.addressWidth - 1;
    ExposedWidthBound(w);
    BelowHalfRange(a);
    BelowHalfRange(b);
    InnerAddrRoundTrip(a);
    InnerAddrRoundTrip(b);
  }

  /** An exposed address width of at most 31 bits keeps addresses below 2^31, and one more bit doubles the range. */
  lemma ExposedWidthBound(w: nat)
    requires w <= 31
    ensures Pow2(w) <= 0x8000_0000
    ensures Pow2(w + 1) == 2 * Pow2(w)
  {
    Pow2Value31();
    Pow2Monotonic(w, 31);
  }

  lemma Pow2Value31()
    ensures Pow2(31) == 0x8000_0000
  {
    Pow2Value22();
    Pow2Add(22, 9);
    Pow2Add(8, 1);
  }

  lemma BelowHalfRange(a: bv32)
    requires a as int < 0x8000_0000
    ensures a < 0x8000_0000
  {
  }

  /** The data port's request as the crossbar sees it: the address cut to the port's width. */
  function OnDataPort(k: CoreConfig, req: PortReq): PortReq
  {
    req.(cmd := req.cmd.(addr := Truncate(req.cmd.addr, k.dataPort.addressWidth)))
  }

  /** Construct the core for a table part. */
  function Build(phy: Phy, part: Part, clkFreq: nat,
                 initialLatency: Option<int>, fixedLatency: Option<bool>): Result<CoreConfig, ConfigError>
  {
    var m := ModuleOf(part);
    match Configure(phy, m, clkFreq, initialLatency, fixedLatency)
    case Err(e) => Err(e)
    case Ok(c) =>
      var port := NewNativePort(c.addressWidth);
      var dataPort := Like(port);
      var regPort := Like(port);
      Ok(CoreConfig(c, RegisterSpace.Params(c.initialLatency, c.fixedLatency, m.nbanks, regPort.addressWidth),
                    port, dataPort, regPort, ExposedPort(dataPort)))
  }

  /** What the assembled parts agree on. */
  predicate WellFormed(k: CoreConfig)
  {
    && ValidConfig(k.ctrl)
    && RegisterSpace.ValidParams(k.rs)
    && k.rs.nbanks == Controller.NumDies(k.ctrl)
    && k.rs.initialLatency == k.ctrl.initialLatency
    && k.rs.fixedLatency == k.ctrl.fixedLatency
    && k.rs.addressWidth == k.ctrl.addressWidth == 21 + k.rs.nbanks
  }

  /**
   * The core is built exactly when the controller accepts the configuration.
   * Its three ports then share one shape (16-bit data, 22 or 23 address
   * bits), the exposed port is the data port, and the register space uses the
   * controller's latency settings and the module's die count; so its reset
   * reg_value is the controller's CR0 word and it counts as many dies as the
   * controller's dual_die flag implies.
   */
  lemma BuildWiring(phy: Phy, part: Part, clkFreq: nat, initialLatency: Option<int>, fixedLatency: Option<bool>)
    ensures Build(phy, part, clkFreq, initialLatency, fixedLatency).Ok?
        <==> Configure(phy, ModuleOf(part), clkFreq, initialLatency, fixedLatency).Ok?
    ensures Build(phy, part, clkFreq, initialLatency, fixedLatency).Ok? ==>
      var k := Build(phy, part, clkFreq, initialLatency, fixedLatency).value;
      && WellFormed(k)
      && k.rs.nbanks == ModuleOf(part).nbanks
      && k.dataPort == k.regPort == k.ctrlPort == k.exposedPort
      && k.ctrlPort == NativePort(k.ctrl.addressWidth, 16)
      && RegisterSpace.ResetFields(k.rs).regValue == k.ctrl.cr0Value
  {
    var m := ModuleOf(part);
    ConfigureOkIff(phy, m, clkFreq, initialLatency, fixedLatency);
    GeometryTable(part);
    Pow2Value22();
    Log2OfPow2(22);
    Log2OfPow2(23);
  }

  // ---------------------------------------------------------------------------
  // The composed clock.

  /** The crossbar's lockout input. */
  function Lockout(rs: RegisterSpace.RsRegs): (lockout: bool)
    ensures lockout <==> !rs.setupDone
  {
    !rs.setupDone
  }

  datatype SysState = SysState(ctrl: Controller.Regs, regSelect: bool, rs: RegisterSpace.RsRegs)

  /** One clock's inputs from outside: the PHY, the user's data port and the CSR bus. */
  datatype SysIn = SysIn(phy: Controller.PhyIn, dataReq: PortReq, csr: RegisterSpace.CsrIn)

  function SysReset(k: CoreConfig): SysState
    requires WellFormed(k)
  {
    SysState(Controller.Reset(k.ctrl), true, RegisterSpace.ResetRegs(k.rs))
  }

  /** This cycle's routing between the controller, the register space and the data port. */
  function Routing(k: CoreConfig, s: SysState, i: SysIn): Crossbar.Routed
  {
    Crossbar.Route(s.regSelect, OnDataPort(k, i.dataReq), RegisterSpace.Req(k.rs, s.rs), Controller.Resp(k.ctrl, s.ctrl, i.phy))
  }

  function SysNext(k: CoreConfig, s: SysState, i: SysIn): SysState
    requires WellFormed(k)
  {
    var regReq := RegisterSpace.Req(k.rs, s.rs);
    var ctrlResp := Controller.Resp(k.ctrl, s.ctrl, i.phy);
    var rt := Routing(k, s, i);
    SysState(Controller.Next(k.ctrl, s.ctrl, i.phy, rt.ctrlReq),
             Crossbar.NextRegSelect(s.regSelect, Lockout(s.rs), ctrlResp.cmdReady, regReq.cmdValid, i.dataReq.cmdValid),
             RegisterSpace.Next(s.rs, i.csr, rt.regResp))
  }

  // ---------------------------------------------------------------------------
  // System invariant.

  ghost predicate SysInv(k: CoreConfig, s: SysState)
  {
    && WellFormed(k)
    && Controller.Inv(k.ctrl, s.ctrl)
    && RegisterSpace.Inv(k.rs, s.rs)
    // lockout keeps the register port selected through startup
    && (!s.rs.setupDone ==> s.regSelect)
    // the register space finishes setup only after the controller's own CR0 writes
    && (s.rs.setupDone ==> s.ctrl.ramResetB && !s.ctrl.initialCr0Write)
    && OnlyWritesDuringStartup(k, s)
  }

  /**
   * Until setup is done, reg_value still holds the CR0 word and the controller
   * neither holds a read command nor is in a read state, so no read word can
   * overwrite reg_value.
   */
  ghost predicate OnlyWritesDuringStartup(k: CoreConfig, s: SysState)
  {
    !s.rs.setupDone ==>
      && s.rs.fields.regValue == k.ctrl.cr0Value
      && !Controller.Bit(s.ctrl.ca, 47)
      && s.ctrl.state !in {Controller.ReadDelay, Controller.Read}
  }

  /** A controller holding a write command, and fed write commands only, never reaches a read state. */
  lemma ControllerStaysWriting(c: Config, r: Controller.Regs, phy: Controller.PhyIn, req: PortReq)
    requires Controller.Inv(c, r) && req.cmd.we
    requires !Controller.Bit(r.ca, 47) && r.state !in {Controller.ReadDelay, Controller.Read}
    ensures var r' := Controller.Next(c, r, phy, req);
      !Controller.Bit(r'.ca, 47) && r'.state !in {Controller.ReadDelay, Controller.Read}
  {
    if r.ramResetB && r.dlycnt == 0 && r.state == Controller.Idle {
      if c.dualDie && r.initialCr0Write && !Controller.Bit(r.ca, Controller.DieBit) {
        DieBitKeepsDirection(r.ca);
      } else if req.cmdValid {
        Controller.AcceptCmdFields(r.ca, req.cmd);
      }
    }
  }

  lemma DieBitKeepsDirection(ca: bv48)
    ensures Controller.Bit(Controller.SetBit(ca, Controller.DieBit), 47) == Controller.Bit(ca, 47)
  {
  }

  /** One clock during startup keeps reg_value at CR0 and the controller away from reads. */
  lemma StartupStepKeepsCr0(k: CoreConfig, s: SysState, i: SysIn)
    requires SysInv(k, s) && !s.rs.setupDone
    ensures OnlyWritesDuringStartup(k, SysNext(k, s, i))
  {
    var rt := Routing(k, s, i);
    assert rt.ctrlReq == RegisterSpace.Req(k.rs, s.rs);
    assert !rt.regResp.rdataValid;
    ControllerStaysWriting(k.ctrl, s.ctrl, i.phy, rt.ctrlReq);
  }

  lemma SysResetSatisfiesInv(k: CoreConfig)
    requires WellFormed(k)
    ensures SysInv(k, SysReset(k))
  {
    Controller.ResetSatisfiesInv(k.ctrl);
  }

  /** The controller never lowers its device reset again, and never restarts its CR0 writes, once both are done. */
  lemma ControllerStaysConfigured(k: CoreConfig, r: Controller.Regs, phy: Controller.PhyIn, req: PortReq)
    requires WellFormed(k) && r.ramResetB && !r.initialCr0Write
    ensures Controller.Next(k.ctrl, r, phy, req).ramResetB
    ensures !Controller.Next(k.ctrl, r, phy, req).initialCr0Write
  {
    if r.dlycnt == 0 {
      match r.state
      case Idle =>
      case SelectOp =>
      case Read =>
      case _ =>
    }
  }

  /** A write word is accepted only once the controller's own CR0 writes are done. */
  lemma WdataReadyAfterCr0Writes(k: CoreConfig, r: Controller.Regs)
    requires Controller.Inv(k.ctrl, r)
    ensures Controller.WdataReady(r) ==> r.ramResetB && !r.initialCr0Write
  {
  }

  lemma {:induction false} SysNextPreservesInv(k: CoreConfig, s: SysState, i: SysIn)
    requires SysInv(k, s)
    ensures SysInv(k, SysNext(k, s, i))
  {
    var rt := Routing(k, s, i);
    var s' := SysNext(k, s, i);
    Controller.NextPreservesInv(k.ctrl, s.ctrl, i.phy, rt.ctrlReq);
    RegisterSpace.StartupWriteStep(k.rs, s.rs, i.csr, rt.regResp);
    RegisterSpace.Transitions(s.rs, i.csr, rt.regResp);
    if !s.rs.setupDone {
      StartupStepKeepsCr0(k, s, i);
    }
    if s.rs.setupDone {
      ControllerStaysConfigured(k, s.ctrl, i.phy, rt.ctrlReq);
    } else if s'.rs.setupDone {
      assert rt.regResp.wdataReady;
      WdataReadyAfterCr0Writes(k, s.ctrl);
      ControllerStaysConfigured(k, s.ctrl, i.phy, rt.ctrlReq);
    } else {
      Crossbar.PriorityHolds(s.regSelect, Lockout(s.rs), Controller.CmdReady(k.ctrl, s.ctrl),
                             RegisterSpace.Req(k.rs, s.rs).cmdValid, i.dataReq.cmdValid);
    }
  }

  function SysRun(k: CoreConfig, s: SysState, ins: seq<SysIn>): SysState
    requires WellFormed(k)
    decreases |ins|
  {
    if ins == [] then s else SysRun(k, SysNext(k, s, ins[0]), ins[1..])
  }

  lemma {:induction false} SysRunPreservesInv(k: CoreConfig, s: SysState, ins: seq<SysIn>)
    requires SysInv(k, s)
    ensures SysInv(k, SysRun(k, s, ins))
    decreases |ins|
  {
    if ins != [] {
      SysNextPreservesInv(k, s, ins[0]);
      SysRunPreservesInv(k, SysNext(k, s, ins[0]), ins[1..]);
    }
  }

  // ---------------------------------------------------------------------------
  // What the user's data port sees.

  /**
   * In every state reachable from reset, until the register space reports
   * setup done, the controller serves the register space only and the data
   * port sees cmd.ready, wdata.ready and rdata.valid low; once it reports
   * setup done, the controller has already written CR0 to every die itself.
   */
  lemma DataPortAfterSetup(k: CoreConfig, ins: seq<SysIn>, i: SysIn)
    requires WellFormed(k)
    ensures var s := SysRun(k, SysReset(k), ins);
      && (!s.rs.setupDone ==>
            Routing(k, s, i).dataResp == NoResp && Routing(k, s, i).ctrlReq == RegisterSpace.Req(k.rs, s.rs))
      && (s.rs.setupDone ==> Controller.Cr0WritesIssued(k.ctrl, s.ctrl) == Controller.NumDies(k.ctrl))
  {
    SysResetSatisfiesInv(k);
    SysRunPreservesInv(k, SysReset(k), ins);
  }

  /**
   * In every state reachable from reset, until setup is done, the request the
   * controller receives is the register space's: a write to register address
   * space, register type 1 and number 0 (CR0) of die die_nr, whose data word
   * is the controller's CR0 value; and no read word reaches the register space.
   */
  lemma StartupWritesCarryCr0(k: CoreConfig, ins: seq<SysIn>, i: SysIn)
    requires WellFormed(k)
    ensures var s := SysRun(k, SysReset(k), ins);
      var q := Routing(k, s, i).ctrlReq;
      !s.rs.setupDone ==>
        && q == RegisterSpace.Req(k.rs, s.rs)
        && q.cmd.we && q.cmd.aspace
        && q.cmd.addr & 0x7 == 0
        && (q.cmd.addr >> 11) & 0xFF == 1
        && (q.cmd.addr >> 22) & 0x3 == s.rs.fields.dieNr as bv32
        && q.cmd.addr & 0xFF38_07F8 == 0
        && q.wdata.data == k.ctrl.cr0Value
        && !Routing(k, s, i).regResp.rdataValid
  {
    SysResetSatisfiesInv(k);
    SysRunPreservesInv(k, SysReset(k), ins);
    var s := SysRun(k, SysReset(k), ins);
    if !s.rs.setupDone {
      RegisterSpace.RegAddrFields(k.rs, s.rs.fields);
      RegisterSpace.IssuedTransaction(k.rs, s.rs);
    }
  }

  /**
   * The crossbar hands the controller from one client to the other only in a
   * cycle where the controller sits in IDLE and receives no command, so a
   * transaction is never split between the two clients.
   */
  lemma OwnershipChangesOnlyInIdle(k: CoreConfig, s: SysState, i: SysIn)
    requires WellFormed(k)
    ensures SysNext(k, s, i).regSelect != s.regSelect ==>
      && s.ctrl.state == Controller.Idle
      && Controller.CmdReady(k.ctrl, s.ctrl)
      && !Routing(k, s, i).ctrlReq.cmdValid
  {
    Crossbar.SwitchRules(s.regSelect, Lockout(s.rs), OnDataPort(k, i.dataReq), RegisterSpace.Req(k.rs, s.rs),
                         Controller.Resp(k.ctrl, s.ctrl, i.phy));
  }
}

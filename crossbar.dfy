/**
 * The crossbar: a one-bit priority register choosing which client port (data
 * or register) is connected to the controller's port, updated on every clock,
 * and the combinational routing that connects exactly that port.
 */
module Crossbar {

  import opened Common

  /** Hand the controller to the data port: not locked out, controller ready, register port idle. */
  predicate SwitchToData(lockout: bool, ctrlCmdReady: bool, regCmdValid: bool)
  {
    !lockout && ctrlCmdReady && !regCmdValid
  }

  /** Hand the controller to the register port: controller ready, register command pending, data port idle. */
  predicate SwitchToReg(ctrlCmdReady: bool, regCmdValid: bool, dataCmdValid: bool)
  {
    ctrlCmdReady && regCmdValid && !dataCmdValid
  }

  /** The priority register after a clock edge; of two assignments in one clock the later one would win. */
  function NextRegSelect(regSelect: bool, lockout: bool, ctrlCmdReady: bool,
                         regCmdValid: bool, dataCmdValid: bool): bool
  {
    if SwitchToReg(ctrlCmdReady, regCmdValid, dataCmdValid) then true
    else if SwitchToData(lockout, ctrlCmdReady, regCmdValid) then false
    else regSelect
  }

  /** What each side sees after routing. */
  datatype Routed = Routed(ctrlReq: PortReq, dataResp: PortResp, regResp: PortResp)

  /** Connect the selected client to the controller; the other one sees no handshake at all. */
  function Route(regSelect: bool, dataReq: PortReq, regReq: PortReq, ctrlResp: PortResp): Routed
  {
    if regSelect then Routed(regReq, NoResp, ctrlResp)
    else Routed(dataReq, ctrlResp, NoResp)
  }

  /** The two switching conditions never hold together. */
  lemma GuardsExclusive(lockout: bool, ctrlCmdReady: bool, regCmdValid: bool, dataCmdValid: bool)
    ensures !(SwitchToData(lockout, ctrlCmdReady, regCmdValid) && SwitchToReg(ctrlCmdReady, regCmdValid, dataCmdValid))
  {
  }

  /**
   * The priority changes only when the controller is ready for a command and
   * the selected port has none pending, so no command crosses in the cycle of
   * a switch; it moves to the data port exactly when not locked out and the
   * register port is idle, and to the register port exactly when the register
   * port has a command and the data port has none.
   */
  lemma SwitchRules(s: bool, lockout: bool, dataReq: PortReq, regReq: PortReq, ctrlResp: PortResp)
    ensures var s' := NextRegSelect(s, lockout, ctrlResp.cmdReady, regReq.cmdValid, dataReq.cmdValid);
      && (s' != s ==> ctrlResp.cmdReady && !Route(s, dataReq, regReq, ctrlResp).ctrlReq.cmdValid)
      && (s && !s' <==> s && SwitchToData(lockout, ctrlResp.cmdReady, regReq.cmdValid))
      && (!s && s' <==> !s && SwitchToReg(ctrlResp.cmdReady, regReq.cmdValid, dataReq.cmdValid))
  {
  }

  /** A data port that keeps a command pending keeps the controller; lockout keeps it on the register port. */
  lemma PriorityHolds(s: bool, lockout: bool, ctrlCmdReady: bool, regCmdValid: bool, dataCmdValid: bool)
    ensures !s && dataCmdValid ==> !NextRegSelect(s, lockout, ctrlCmdReady, regCmdValid, dataCmdValid)
    ensures s && lockout ==> NextRegSelect(s, lockout, ctrlCmdReady, regCmdValid, dataCmdValid)
  {
  }

  /**
   * Exactly one client is connected: the controller sees all of the selected
   * client's signals (its read `last` included) and that client sees the
   * controller's; the other client sees cmd.ready, wdata.ready and
   * rdata.valid low.
   */
  lemma RouteConnectsOne(s: bool, dataReq: PortReq, regReq: PortReq, ctrlResp: PortResp)
    ensures var rt := Route(s, dataReq, regReq, ctrlResp);
      && rt.ctrlReq == (if s then regReq else dataReq)
      && rt.ctrlReq.rdataLast == (if s then regReq.rdataLast else dataReq.rdataLast)
      && (if s then rt.regResp else rt.dataResp) == ctrlResp
      && var other := if s then rt.dataResp else rt.regResp;
         !other.cmdReady && !other.wdataReady && !other.rdataValid
  {
  }

  /** One clock's inputs to the crossbar. */
  datatype XbarIn = XbarIn(lockout: bool, dataReq: PortReq, regReq: PortReq, ctrlResp: PortResp)

  function RunRegSelect(s: bool, ins: seq<XbarIn>): bool
    decreases |ins|
  {
    if ins == [] then s
    else RunRegSelect(NextRegSelect(s, ins[0].lockout, ins[0].ctrlResp.cmdReady,
                                    ins[0].regReq.cmdValid, ins[0].dataReq.cmdValid), ins[1..])
  }

  /**
   * Starting from reset (register port selected) and with lockout held
   * throughout, the register port stays selected and the data port never sees
   * cmd.ready, wdata.ready or rdata.valid.
   */
  lemma {:induction false} LockoutKeepsRegisterPort(ins: seq<XbarIn>, k: nat)
    requires forall i :: 0 <= i < |ins| ==> ins[i].lockout
    requires k <= |ins|
    ensures RunRegSelect(true, ins[..k])
    ensures k < |ins| ==> Route(RunRegSelect(true, ins[..k]), ins[k].dataReq, ins[k].regReq, ins[k].ctrlResp).dataResp == NoResp
    decreases k
  {
    if k > 0 {
      LockoutKeepsRegisterPort(ins, k - 1);
      RunRegSelectSnoc(true, ins[..k - 1], ins[k - 1]);
      assert ins[..k] == ins[..k - 1] + [ins[k - 1]];
    }
  }

  lemma {:induction false} RunRegSelectSnoc(s: bool, ins: seq<XbarIn>, x: XbarIn)
    ensures RunRegSelect(s, ins + [x])
         == NextRegSelect(RunRegSelect(s, ins), x.lockout, x.ctrlResp.cmdReady, x.regReq.cmdValid, x.dataReq.cmdValid)
    decreases |ins|
  {
    if ins != [] {
      var s1 := NextRegSelect(s, ins[0].lockout, ins[0].ctrlResp.cmdReady, ins[0].regReq.cmdValid, ins[0].dataReq.cmdValid);
      assert (ins + [x])[1..] == ins[1..] + [x];
      RunRegSelectSnoc(s1, ins[1..], x);
    }
  }

  class LiteHyperRAMCrossbar {
    var regSelect: bool

    constructor ()
      ensures regSelect
    {
      regSelect := true;
    }

    /** One clock: route this cycle's signals, then update the priority register. */
    method Step(lockout: bool, dataReq: PortReq, regReq: PortReq, ctrlResp: PortResp) returns (routed: Routed)
      modifies this
      ensures routed == Route(old(regSelect), dataReq, regReq, ctrlResp)
      ensures regSelect == NextRegSelect(old(regSelect), lockout, ctrlResp.cmdReady, regReq.cmdValid, dataReq.cmdValid)
    {
      if regSelect {
        routed := Routed(regReq, NoResp, ctrlResp);
      } else {
        routed := Routed(dataReq, ctrlResp, NoResp);
      }
      if !lockout && ctrlResp.cmdReady && !regReq.cmdValid {
        regSelect := false;
      }
      if ctrlResp.cmdReady && regReq.cmdValid && !dataReq.cmdValid {
        regSelect := true;
      }
    }
  }
}

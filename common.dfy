/**
 * The native port: three flow-controlled channels (cmd, wdata, rdata) between a
 * client and the controller. A record description lists (name, width) fields;
 * the payload datatypes carry the values the 16-bit controller datapath uses.
 */
module Common {

  import opened Bits

  datatype Field = Field(name: string, width: nat)

  function CmdDescription(addressWidth: nat): seq<Field>
  {
    [Field("we", 1), Field("aspace", 1), Field("burst_type", 1), Field("addr", addressWidth)]
  }

  function WdataDescription(dataWidth: nat): seq<Field>
  {
    [Field("data", dataWidth), Field("we", dataWidth / 8)]
  }

  function RdataDescription(dataWidth: nat): seq<Field>
  {
    [Field("data", dataWidth)]
  }

  /** Total payload width of a record description. */
  function Width(d: seq<Field>): nat
  {
    if d == [] then 0 else d[0].width + Width(d[1..])
  }

  function Names(d: seq<Field>): seq<string>
  {
    if d == [] then [] else [d[0].name] + Names(d[1..])
  }

  /** A native port: the widths its three channels are built from. */
  datatype NativePort = NativePort(addressWidth: nat, dataWidth: nat)

  const DefaultDataWidth: nat := 16

  /** A port of the given widths; the data width defaults to 16. */
  function NewNativePort(addressWidth: nat, dataWidth: nat := DefaultDataWidth): (p: NativePort)
    ensures p.addressWidth == addressWidth && p.dataWidth == dataWidth
  {
    NativePort(addressWidth, dataWidth)
  }

  /**
   * A new port with the same shape as `p`. The core builds its ports with a
   * `like` that the port class does not define; this is the meaning the model
   * gives it.
   */
  function Like(p: NativePort): (q: NativePort)
    ensures q == p
  {
    NativePort(p.addressWidth, p.dataWidth)
  }

  /**
   * The payload of each channel follows from the port's two widths: cmd has
   * three one-bit flags and an address of the port's address width, wdata the
   * data word and a byte-enable bit per byte, rdata the data word alone. At
   * the default data width this is the 16-bit word and two-bit mask of `Wdata`.
   */
  lemma ChannelLayouts(p: NativePort)
    ensures var c := CmdDescription(p.addressWidth);
      && |c| == 4
      && c[0] == Field("we", 1) && c[1] == Field("aspace", 1) && c[2] == Field("burst_type", 1)
      && c[3] == Field("addr", p.addressWidth)
    ensures var w := WdataDescription(p.dataWidth);
      |w| == 2 && w[0] == Field("data", p.dataWidth) && w[1] == Field("we", p.dataWidth / 8)
    ensures RdataDescription(p.dataWidth) == [Field("data", p.dataWidth)]
    ensures p.dataWidth == DefaultDataWidth ==> WdataDescription(p.dataWidth)[1].width == 2
    ensures Names(CmdDescription(p.addressWidth)) == ["we", "aspace", "burst_type", "addr"]
    ensures Width(CmdDescription(p.addressWidth)) == 3 + p.addressWidth
    ensures Names(WdataDescription(p.dataWidth)) == ["data", "we"]
    ensures Width(WdataDescription(p.dataWidth)) == p.dataWidth + p.dataWidth / 8
    ensures Names(RdataDescription(p.dataWidth)) == ["data"]
    ensures Width(RdataDescription(p.dataWidth)) == p.dataWidth
  {
    var c := CmdDescription(p.addressWidth);
    assert c[3..][1..] == [];
    assert Width(c[3..]) == p.addressWidth && Names(c[3..]) == ["addr"];
    assert c[2..][1..] == c[3..];
    assert Width(c[2..]) == 1 + p.addressWidth && Names(c[2..]) == ["burst_type", "addr"];
    assert c[1..][1..] == c[2..];
    var w := WdataDescription(p.dataWidth);
    assert w[1..][1..] == [];
    assert Width(w[1..]) == p.dataWidth / 8 && Names(w[1..]) == ["we"];
    assert RdataDescription(p.dataWidth)[1..] == [];
  }

  /** The part of a 32-bit address that a port of the given address width carries. */
  function Truncate(a: bv32, width: nat): bv32
  {
    if width >= 32 then a else a & (((1 as bv32) << width) - 1)
  }

  /** A command: direction, address space, burst type and address. */
  datatype Cmd = Cmd(we: bool, aspace: bool, burstType: bool, addr: bv32)

  /** A write word with its per-byte enable mask and end-of-burst flag. */
  datatype Wdata = Wdata(data: bv16, we: bv2, last: bool)

  /** What a client drives towards the controller in one cycle. */
  datatype PortReq = PortReq(
    cmdValid: bool, cmd: Cmd,
    wdataValid: bool, wdata: Wdata,
    rdataReady: bool, rdataLast: bool)

  /** What the controller drives back towards a client in one cycle. */
  datatype PortResp = PortResp(
    cmdReady: bool, wdataReady: bool,
    rdataValid: bool, rdataData: bv16)

  /** The response a port sees when nothing drives it. */
  const NoResp := PortResp(false, false, false, 0)
}

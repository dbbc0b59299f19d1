/**
 * Construction-time configuration of the HyperRAM controller: the checks that
 * reject a module / clock / PHY / latency combination, and the values derived
 * from an accepted one (initial latency, fixed latency, dual die, reset delay,
 * the Configuration Register 0 word and the port's address width).
 */
module ControllerConfig {

  import opened Wrappers
  import opened Bits
  import opened Modules

  /** The PHY's pipeline depths, in controller clock cycles. */
  datatype Phy = Phy(txLatency: nat, rxLatency: nat)

  /** The ECP5 PHY: two cycles of transmit latency, one of receive latency. */
  const Ecp5Phy := Phy(2, 1)

  datatype ConfigError =
    | ClockExceedsModuleMax
    | InvalidInitialLatency
    | TooLowInitialLatencyForFrequency
    | FixedLatencyRequiredForDualDie
    | InitialLatencyTooLowForPhy
    | FixedLatencyRequiredForInitialLatency
    | NoLatencyCode             // il_code has no entry (a module whose maximum exceeds 7)
    | GeometryNotPowerOfTwo     // log2_int of banks * rows * columns fails

  datatype Config = Config(
    phy: Phy,
    initialLatency: nat,
    fixedLatency: bool,
    dualDie: bool,
    resetDelay: nat,
    cr0Value: bv16,
    addressWidth: nat)

  /** Initial-latency field codes of Configuration Register 0 (bits 7-4). */
  function ILCode(il: int): Option<bv4>
  {
    if il == 3 then Some(0xE)
    else if il == 4 then Some(0xF)
    else if il == 5 then Some(0x0)
    else if il == 6 then Some(0x1)
    else if il == 7 then Some(0x2)
    else None
  }

  /** The latency a CR0 initial-latency code stands for; the inverse of ILCode. */
  function DecodeILCode(code: bv4): Option<nat>
  {
    if code == 0xE then Some(3)
    else if code == 0xF then Some(4)
    else if code == 0x0 then Some(5)
    else if code == 0x1 then Some(6)
    else if code == 0x2 then Some(7)
    else None
  }

  /** CR0: deep power-down off, default drive strength and burst settings, with the latency code and the fixed-latency bit. */
  function Cr0Value(code: bv4, fixedLatency: bool): bv16
  {
    0x8f07 | ((code as bv16) << 4) | (if fixedLatency then 0x0008 else 0)
  }

  /** Bits 7-4 of a CR0 word. */
  function Cr0LatencyField(cr0: bv16): bv4
  {
    ((cr0 >> 4) & 0xF) as bv4
  }

  /** Bit 3 of a CR0 word. */
  function Cr0FixedBit(cr0: bv16): bool
  {
    (cr0 >> 3) & 1 == 1
  }

  /** The CR0 word decodes back to the latency and fixed-latency choice it was built from, and keeps every other bit of 0x8f07. */
  lemma Cr0RoundTrip(il: int, fixedLatency: bool)
    requires ILCode(il).Some?
    ensures var cr0 := Cr0Value(ILCode(il).value, fixedLatency);
      && DecodeILCode(Cr0LatencyField(cr0)) == Some(il as nat)
      && Cr0FixedBit(cr0) == fixedLatency
      && cr0 & 0xFF07 == 0x8f07
  {
  }

  /** The codes exist exactly for latencies 3 to 7. */
  lemma ILCodeDomain(il: int)
    ensures ILCode(il).Some? <==> 3 <= il <= 7
    ensures ILCode(il).Some? ==> DecodeILCode(ILCode(il).value) == Some(il as nat)
  {
  }

  /** Migen's log2_int with need_pow2: zero maps to zero, anything else must be a power of two. */
  function AddressWidth(n: nat): Option<nat>
  {
    if n == 0 then Some(0)
    else if IsPowerOfTwo(n) then Some(Log2(n))
    else None
  }

  /** Cycles the controller waits after PHY lock before releasing the device reset. */
  function ResetDelay(clkFreq: nat): nat
  {
    clkFreq / 5000000 + 1
  }

  /** The controller's constructor checks and derived values. */
  function Configure(phy: Phy, m: HyperRAMModule, clkFreq: nat,
                     initialLatency: Option<int>, fixedLatency: Option<bool>): Result<Config, ConfigError>
  {
    if clkFreq > m.maxclock then Err(ClockExceedsModuleMax)
    else
      var minIL := MinInitialLatency(clkFreq);
      var il := initialLatency.GetOr(minIL);
      if il < 3 || il > m.maxInitialLatency then Err(InvalidInitialLatency)
      else if il < minIL then Err(TooLowInitialLatencyForFrequency)
      else
        var dualDie := m.nbanks > 1;
        var fixed := fixedLatency.GetOr(dualDie);
        if dualDie && !fixed then Err(FixedLatencyRequiredForDualDie)
        else if 2 * il < 1 + 2 + phy.txLatency then Err(InitialLatencyTooLowForPhy)
        else if il < 1 + 2 + phy.txLatency && !fixed then Err(FixedLatencyRequiredForInitialLatency)
        else match ILCode(il)
          case None => Err(NoLatencyCode)
          case Some(code) =>
            match AddressWidth(m.nbanks * m.nrows * m.ncols)
            case None => Err(GeometryNotPowerOfTwo)
            case Some(aw) =>
              Ok(Config(phy, il as nat, fixed, dualDie, ResetDelay(clkFreq), Cr0Value(code, fixed), aw))
  }

  /** What every accepted configuration satisfies. */
  predicate ValidConfig(c: Config)
  {
    && 3 <= c.initialLatency <= 7
    && (c.dualDie ==> c.fixedLatency)
    && 2 * c.initialLatency >= 3 + c.phy.txLatency
    && (!c.fixedLatency ==> c.initialLatency >= 3 + c.phy.txLatency)
    && c.resetDelay >= 1
    && c.cr0Value == Cr0Value(ILCode(c.initialLatency).value, c.fixedLatency)
  }

  /**
   * Construction succeeds exactly when the clock is within the module's rating,
   * the (defaulted) initial latency lies in [3, module max] and meets the
   * frequency minimum, a dual-die module uses fixed latency, the PHY's transmit
   * latency leaves room in the long (and, without fixed latency, the short)
   * write latency, a CR0 code exists and the geometry is a power of two; the
   * result then carries the defaulted values and a CR0 word that decodes back to them.
   */
  lemma ConfigureOkIff(phy: Phy, m: HyperRAMModule, clkFreq: nat,
                       initialLatency: Option<int>, fixedLatency: Option<bool>)
    ensures var il := initialLatency.GetOr(MinInitialLatency(clkFreq));
      var fixed := fixedLatency.GetOr(m.nbanks > 1);
      Configure(phy, m, clkFreq, initialLatency, fixedLatency).Ok? <==>
        && clkFreq <= m.maxclock
        && 3 <= il <= m.maxInitialLatency
        && il >= MinInitialLatency(clkFreq)
        && (m.nbanks > 1 ==> fixed)
        && 2 * il >= 3 + phy.txLatency
        && (il < 3 + phy.txLatency ==> fixed)
        && il <= 7
        && AddressWidth(m.nbanks * m.nrows * m.ncols).Some?
    ensures Configure(phy, m, clkFreq, initialLatency, fixedLatency).Ok? ==>
      var c := Configure(phy, m, clkFreq, initialLatency, fixedLatency).value;
      && ValidConfig(c)
      && c.initialLatency as int == initialLatency.GetOr(MinInitialLatency(clkFreq))
      && c.fixedLatency == fixedLatency.GetOr(m.nbanks > 1)
      && c.dualDie == (m.nbanks > 1)
      && c.resetDelay == ResetDelay(clkFreq)
      && c.phy == phy
      && DecodeILCode(Cr0LatencyField(c.cr0Value)) == Some(c.initialLatency)
      && Cr0FixedBit(c.cr0Value) == c.fixedLatency
  {
    var il := initialLatency.GetOr(MinInitialLatency(clkFreq));
    if 3 <= il <= 7 {
      Cr0RoundTrip(il, fixedLatency.GetOr(m.nbanks > 1));
    }
  }

  /** Every table part is accepted at its rated clock with the default latency once fixed latency is on; its port is 22 or 23 bits wide. */
  lemma RatedClockAccepted(p: Part)
    ensures var m := ModuleOf(p);
      var r := Configure(Ecp5Phy, m, m.maxclock, None, Some(true));
      && r.Ok?
      && r.value.addressWidth == 21 + m.nbanks
      && r.value.initialLatency == MinInitialLatency(m.maxclock)
  {
    var m := ModuleOf(p);
    GeometryTable(p);
    RatedClockLatencyFits(p);
    Pow2Value22();
    Log2OfPow2(22);
    Log2OfPow2(23);
    ConfigureOkIff(Ecp5Phy, m, m.maxclock, None, Some(true));
  }

  /**
   * A dual-die part needs no fixed-latency argument: at any clock up to its
   * rating, with default arguments, fixed latency defaults to on and the
   * configuration is accepted with the frequency's minimum latency.
   */
  lemma DualDieDefaultsToFixed(part: Part, clkFreq: nat)
    requires ModuleOf(part).nbanks == 2 && clkFreq <= ModuleOf(part).maxclock
    ensures var r := Configure(Ecp5Phy, ModuleOf(part), clkFreq, None, None);
      && r.Ok? && r.value.fixedLatency && r.value.dualDie
      && r.value.initialLatency == MinInitialLatency(clkFreq)
  {
    var m := ModuleOf(part);
    GeometryTable(part);
    RatedClockLatencyFits(part);
    MinInitialLatencyMonotonic(clkFreq, m.maxclock);
    Pow2Value22();
    Log2OfPow2(23);
    ConfigureOkIff(Ecp5Phy, m, clkFreq, None, None);
  }

  /**
   * With the ECP5 PHY (transmit latency 2), every single-die part at 100 MHz
   * with default arguments gets latency 4, which is below 3 + 2, and is
   * rejected for lack of fixed latency; asking for fixed latency makes it
   * acceptable.
   */
  lemma SingleDieAt100MHzNeedsFixedLatency(part: Part)
    requires ModuleOf(part).nbanks == 1
    ensures Configure(Ecp5Phy, ModuleOf(part), 100000000, None, None)
         == Err(FixedLatencyRequiredForInitialLatency)
    ensures Configure(Ecp5Phy, ModuleOf(part), 100000000, None, Some(true)).Ok?
  {
    GeometryTable(part);
    RatedClockAtLeast100MHz(part);
    Pow2Value22();
    Log2OfPow2(22);
  }

  // ---------------------------------------------------------------------------
  // The delay counter's width.

  function Max3(a: nat, b: nat, c: nat): nat
  {
    if a >= b && a >= c then a else if b >= c then b else c
  }

  /** The exclusive bound the counter is declared with (`Signal(max=...)`). */
  function DlyBound(c: Config): nat
  {
    Max3(c.resetDelay, c.phy.txLatency + c.phy.rxLatency, 2 * c.initialLatency)
  }

  /** The width Migen gives a counter declared with exclusive bound DlyBound. */
  function DlyWidthAsWritten(c: Config): nat
    requires ValidConfig(c)
  {
    BitsFor(DlyBound(c) - 1)
  }

  /** A width that holds every value up to and including DlyBound. */
  function DlyWidth(c: Config): nat
  {
    BitsFor(DlyBound(c))
  }

  /** Every value the controller loads into the counter in an accepted configuration. */
  function Reloads(c: Config): set<nat>
    requires ValidConfig(c)
  {
    var tx := c.phy.txLatency;
    var il := c.initialLatency;
    {c.resetDelay, tx + c.phy.rxLatency, tx, 2 * il - 3 - tx, 2 * il, il}
      + (if c.fixedLatency then {} else {il - 3 - tx})
  }

  /** Both write-latency reloads are non-negative: the long one always, the short one whenever it can be taken. */
  lemma WriteDelayReloadsNonNegative(c: Config)
    requires ValidConfig(c)
    ensures 2 * c.initialLatency - 3 - c.phy.txLatency >= 0
    ensures !c.fixedLatency ==> c.initialLatency - 3 - c.phy.txLatency >= 0
  {
  }

  /** No reload exceeds the declared bound. */
  lemma ReloadsWithinBound(c: Config, v: nat)
    requires ValidConfig(c) && v in Reloads(c)
    ensures v <= DlyBound(c)
  {
  }

  /** As written, a reload fits the counter provided the bound is not a power of two. */
  lemma ReloadFitsAsWritten(c: Config, v: nat)
    requires ValidConfig(c) && v in Reloads(c) && !IsPowerOfTwo(DlyBound(c))
    ensures v < Pow2(DlyWidthAsWritten(c))
  {
    ExclusiveBoundHolds(DlyBound(c), v);
  }

  /**
   * As written, the counter wraps: S27KL0641DA at 30 MHz with latency 4 and
   * fixed latency has bound 8 and a 3-bit counter, so the 8-cycle read-latency
   * reload becomes 0; at 75 MHz the 16-cycle reset delay becomes 0.
   */
  lemma ReloadWrapsAsWritten()
    ensures var r := Configure(Ecp5Phy, ModuleOf(S27KL0641DA), 30000000, Some(4), Some(true));
      && r.Ok? && DlyBound(r.value) == 8 && 2 * r.value.initialLatency == 8
      && 8 in Reloads(r.value) && 8 % Pow2(DlyWidthAsWritten(r.value)) == 0
    ensures var r := Configure(Ecp5Phy, ModuleOf(S27KL0641DA), 75000000, None, Some(true));
      && r.Ok? && r.value.resetDelay == 16 && DlyBound(r.value) == 16
      && 16 % Pow2(DlyWidthAsWritten(r.value)) == 0
  {
    GeometryTable(S27KL0641DA);
    Pow2Value22();
    Log2OfPow2(22);
    ExclusiveBoundOverflows(3);
    ExclusiveBoundOverflows(4);
  }

  /** With the corrected width every reload fits, whatever the bound. */
  lemma ReloadFits(c: Config, v: nat)
    requires ValidConfig(c) && v in Reloads(c)
    ensures v < Pow2(DlyWidth(c))
  {
    BitsForBounds(DlyBound(c));
  }
}

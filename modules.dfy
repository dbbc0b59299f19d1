/**
 * HyperRAM device profiles: the per-part constant table and the rule that maps
 * an operating clock frequency (in Hz) to the minimum legal initial latency.
 */
module Modules {

  import opened Wrappers
  import opened Bits

  /** The constants every part carries. */
  datatype HyperRAMModule = HyperRAMModule(
    maxclock: nat,
    nbanks: nat,
    nrows: nat,
    ncols: nat,
    maxInitialLatency: nat)

  /** Every supported part, alias names included. */
  datatype Part =
    | S27KL0641DA | S27KL0641
    | S70KL1281DA | S70KL1281
    | S27KS0641DP | S27KS0641
    | S70KS1281DP | S70KS1281
    | S27KS0641DA | S70KS1281DA
    | S27KS0641DG | S70KS1281DG
    | S70KL1282DP | S70KL1282GA
    | S70KS1282GA | S70KS1282

  /** Maximum initial latency of the base profile; three 128 Mbit parts raise it to 7. */
  const DefaultMaxInitialLatency: nat := 6

  /** The part an alias name stands for; a part that is not an alias has no parent. */
  function Parent(p: Part): Option<Part>
  {
    match p
    case S27KL0641 => Some(S27KL0641DA)
    case S70KL1281 => Some(S70KL1281DA)
    case S27KS0641 => Some(S27KS0641DP)
    case S70KS1281 => Some(S70KS1281DP)
    case S70KS1282 => Some(S70KS1282GA)
    case _ => None
  }

  function Base(maxclock: nat, nbanks: nat): HyperRAMModule
  {
    HyperRAMModule(maxclock, nbanks, 8192, 512, DefaultMaxInitialLatency)
  }

  /** The constant table; an alias takes every constant from its parent. */
  function ModuleOf(p: Part): HyperRAMModule
    decreases if Parent(p).Some? then 1 else 0
  {
    match p
    case S27KL0641DA => Base(100000000, 1)
    case S70KL1281DA => Base(100000000, 2)
    case S27KS0641DP => Base(166000000, 1)
    case S70KS1281DP => Base(166000000, 2)
    case S27KS0641DA => Base(100000000, 1)
    case S70KS1281DA => Base(100000000, 2)
    case S27KS0641DG => Base(133000000, 1)
    case S70KS1281DG => Base(133000000, 2)
    case S70KL1282DP => Base(166000000, 2).(maxInitialLatency := 7)
    case S70KL1282GA => Base(200000000, 2).(maxInitialLatency := 7)
    case S70KS1282GA => Base(200000000, 2).(maxInitialLatency := 7)
    case _ => ModuleOf(Parent(p).value)
  }

  /** Minimum initial latency (in clock cycles) for a clock frequency in Hz. */
  function MinInitialLatency(clkFreq: nat): (il: nat)
    ensures 3 <= il <= 7
  {
    if clkFreq <= 83000000 then 3
    else if clkFreq <= 100000000 then 4
    else if clkFreq <= 133000000 then 5
    else if clkFreq <= 166000000 then 6
    else 7
  }

  /** A faster clock never allows a lower initial latency. */
  lemma MinInitialLatencyMonotonic(f1: nat, f2: nat)
    requires f1 <= f2
    ensures MinInitialLatency(f1) <= MinInitialLatency(f2)
  {
  }

  /** The frequency bands of the latency rule, each band closed at its upper edge. */
  lemma MinInitialLatencyBands(f: nat)
    ensures MinInitialLatency(f) == 3 <==> f <= 83000000
    ensures MinInitialLatency(f) == 4 <==> 83000000 < f <= 100000000
    ensures MinInitialLatency(f) == 5 <==> 100000000 < f <= 133000000
    ensures MinInitialLatency(f) == 6 <==> 133000000 < f <= 166000000
    ensures MinInitialLatency(f) == 7 <==> 166000000 < f
  {
  }

  /** Only S70KL1282DP, S70KL1282GA and S70KS1282GA (and S70KS1282, an alias of the last) raise the maximum latency to 7. */
  lemma MaxInitialLatencyTable(p: Part)
    ensures ModuleOf(p).maxInitialLatency == (if p in {S70KL1282DP, S70KL1282GA, S70KS1282GA, S70KS1282} then 7 else 6)
  {
    if Parent(p).Some? {
      assert ModuleOf(p) == ModuleOf(Parent(p).value);
    }
  }

  /** Every part can run at its rated clock with the default latency. */
  lemma RatedClockLatencyFits(p: Part)
    ensures MinInitialLatency(ModuleOf(p).maxclock) <= ModuleOf(p).maxInitialLatency
  {
  }

  /** Every part is rated for 100 MHz or more. */
  lemma RatedClockAtLeast100MHz(p: Part)
    ensures ModuleOf(p).maxclock >= 100000000
  {
    if Parent(p).Some? {
      assert ModuleOf(p) == ModuleOf(Parent(p).value);
    }
  }

  /** Every part has one or two dies of 8192 rows by 512 columns, so its address width is 22 or 23 bits. */
  lemma GeometryTable(p: Part)
    ensures ModuleOf(p).nbanks in {1, 2}
    ensures ModuleOf(p).nrows == 8192 && ModuleOf(p).ncols == 512
    ensures ModuleOf(p).maxInitialLatency <= 7
    ensures var m := ModuleOf(p);
      m.nbanks * m.nrows * m.ncols == if m.nbanks == 1 then Pow2(22) else Pow2(23)
  {
    Pow2Value22();
  }

  lemma Pow2Value22()
    ensures Pow2(22) == 4194304 && Pow2(23) == 8388608
  {
    Pow2Add(8, 8);
    Pow2Add(16, 6);
    Pow2Add(22, 1);
  }

  /** An alias carries exactly the constants of the part it is derived from. */
  lemma AliasesMatchParents(p: Part)
    requires Parent(p).Some?
    ensures ModuleOf(p) == ModuleOf(Parent(p).value)
    ensures Parent(Parent(p).value).None?
  {
  }
}

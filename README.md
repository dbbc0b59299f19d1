# litehyperram in Dafny

A model of LiteHyperRAM, a HyperRAM controller core written in Migen, together with proofs about the model. The core has three clocked parts, and the model has one Dafny module for each:

- **`Controller`**: the protocol state machine. It builds the 48-bit HyperBus command-address (CA) word and sequences the read, write and zero-latency register-write phases. A reloadable delay counter gates every state change, and the controller owns the device reset.
- **`Crossbar`**: a one-bit priority register. It chooses whether the data port or the register port drives the controller's single native port.
- **`RegisterSpace`**: a control/status register and a four-state sequencer. They issue HyperRAM register accesses. At startup the sequencer writes the CR0 word once to each die, counting the die number down, and then raises `setup_done` (`RegisterSpace.StartupWritesEveryDie`, `Core.StartupWritesCarryCr0`).

The remaining modules model the support code:

- **`ControllerConfig`**: the construction-time checks and derived values. These are the initial latency, fixed latency, dual die, reset delay, the Configuration Register 0 word and the port's address width. With the ECP5 PHY (tx_latency 2), a single-die part at 100 MHz with default arguments gets initial latency 4 < 3 + 2, so fixed latency must be requested (`ControllerConfig.SingleDieAt100MHzNeedsFixedLatency`).
- **`Modules`**: the HyperRAM device table and `min_initial_latency`.
- **`Common`**: the native port's record layouts.
- **`Core`**: the wiring of the three parts.
- **`Bits`** and **`Wrappers`**: helpers.

Each clocked part is written twice:

- As a datatype of registers with a pure `Next` function for one clock edge. Migen's semantics are written out: combinational outputs depend only on the current registers. `NextValue`/`NextState` take effect only when the delay counter is zero. The state machine is held at its reset values while the device reset is low, but the reset-less counter is not.
- As a class with the same fields whose `Step` method performs the clock edge in place. Its `ensures` ties the new fields to `Next` of the old ones.

The properties are stated as lemmas about `Next`, and about runs of it from reset over arbitrary inputs. Those inputs are the PHY's RWDS and PLL-lock signals, the client ports and the CSR bus.

## Model

| member | source | states |
|---|---|---|
| Modules.MinInitialLatency | litehyperram/modules.py:10-15 | the frequency-mandated minimum initial latency is always between 3 and 7 |
| Modules.MinInitialLatencyBands | litehyperram/modules.py:10-15 | the minimum is 3 up to 83 MHz, 4 up to 100 MHz, 5 up to 133 MHz, 6 up to 166 MHz and 7 above, each band stated in both directions |
| Modules.MinInitialLatencyMonotonic | litehyperram/modules.py:10-15 | a faster clock never needs a smaller minimum latency |
| Modules.MaxInitialLatencyTable | litehyperram/modules.py:4-99 | the maximum initial latency is 7 for S70KL1282DP, S70KL1282GA, S70KS1282GA and its alias S70KS1282, and the class default 6 for every other part |
| Modules.RatedClockLatencyFits | litehyperram/modules.py:4-99 | for every part, the minimum latency at its rated clock is within its maximum |
| Modules.RatedClockAtLeast100MHz | litehyperram/modules.py:17-99 | every part is rated for at least 100 MHz |
| Modules.GeometryTable | litehyperram/modules.py:17-96 | every part has 1 or 2 banks, 8192 rows and 512 columns, so its word count is 2^22 or 2^23 |
| Modules.AliasesMatchParents | litehyperram/modules.py:17-99 | an alias part carries exactly its parent's constants, and no alias has an alias as its parent |
| Common.ChannelLayouts | litehyperram/common.py:5-20 | field by field: cmd is we, aspace and burst_type of 1 bit each, then addr of address_width bits; wdata is data of data_width bits, then we of data_width/8 bits (2 at the default width); rdata is data of data_width bits alone. The names and total widths follow |
| Common.NewNativePort | litehyperram/common.py:22-28 | a port records both widths it is built with, and the data width defaults to 16 |
| ControllerConfig.ILCodeDomain | litehyperram/core/controller.py:13 | a latency code exists exactly for initial latencies 3 to 7, and each decodes back to its latency |
| ControllerConfig.Cr0RoundTrip | litehyperram/core/controller.py:40-41 | the CR0 word's bits 7-4 decode back to the initial latency, bit 3 is the fixed-latency flag, and every other bit is that of 0x8f07 |
| ControllerConfig.ConfigureOkIff | litehyperram/core/controller.py:15-41 | construction succeeds if and only if every check passes: the clock is within the rating; the defaulted latency is in [3, module max] and meets the frequency minimum; a dual-die module has fixed latency (defaulted to dual_die); 2·il ≥ 3+tx; il < 3+tx only with fixed latency; and the geometry is a power of two. The result then carries the defaulted values, reset_delay = clk/5 MHz + 1, and a CR0 word that decodes back to them |
| ControllerConfig.RatedClockAccepted | litehyperram/core/controller.py:17-41 | every part is accepted at its rated clock with the ECP5 PHY, the default latency and fixed latency; its port address is 22 or 23 bits |
| ControllerConfig.DualDieDefaultsToFixed | litehyperram/core/controller.py:17-41 | every dual-die part, at any clock up to its rating with default arguments and the ECP5 PHY, gets fixed latency without asking and is accepted with the frequency's minimum latency |
| ControllerConfig.SingleDieAt100MHzNeedsFixedLatency | litehyperram/core/controller.py:17-41 | with the ECP5 PHY, every single-die part at 100 MHz with default arguments gets latency 4 < 3+2 and is rejected for lack of fixed latency, and is accepted once fixed latency is requested |
| ControllerConfig.WriteDelayReloadsNonNegative | litehyperram/core/controller.py:122-129 | in an accepted configuration, both WRITE_DELAY reloads (2·il−3−tx, and il−3−tx when latency is variable) are non-negative |
| ControllerConfig.ReloadsWithinBound | litehyperram/core/controller.py:46-48 | every value loaded into the delay counter is at most its declared bound max(reset_delay, tx+rx, 2·il) |
| ControllerConfig.ReloadFitsAsWritten | litehyperram/core/controller.py:46-48 | with the counter's declared width, every reload fits, provided the bound is not a power of two |
| ControllerConfig.ReloadWrapsAsWritten | litehyperram/core/controller.py:46-48 | two accepted configurations whose bound is a power of two, where a reload equal to the bound is a multiple of the counter's range and so wraps to 0 |
| ControllerConfig.ReloadFits | litehyperram/core/controller.py:46-48 | with the corrected width, every reload fits whatever the bound |
| Controller.ResetSatisfiesInv | litehyperram/core/controller.py:43-83 | the reset register values satisfy the controller invariant |
| Controller.NextPreservesInv | litehyperram/core/controller.py:49-184 | one clock edge preserves the invariant. The invariant says: the counter stays within its bound; the FSM is at reset while the device reset is low; chip select is low exactly outside CA_WORD0/IDLE; the clock runs exactly outside CA_WORD0/END_READ/IDLE; the drivers are enabled per state; CA15-3 stay zero; during the initial CR0 writes the CA word is the reset word or its die-1 copy |
| Controller.HeldResetPreservesInv | litehyperram/core/controller.py:49-80 | a clock with the device reset held preserves the invariant |
| Controller.ActPreservesInv | litehyperram/core/controller.py:85-184 | an enabled clock of the state machine preserves the invariant |
| Controller.AcceptCmdKeepsReserved | litehyperram/core/controller.py:178-184 | accepting a command leaves the reserved CA bits 15-3 zero |
| Controller.PinsDuringReset | litehyperram/core/controller.py:43-71 | while the device reset is held, the PHY sees reset asserted, chip select high, no clock and no drivers enabled |
| Controller.StateAdvancesOnlyWhenCounterZero | litehyperram/core/controller.py:49-80 | the state changes only on a clock with the counter at zero and the reset released; a non-zero counter counts down by one and nothing else changes |
| Controller.CounterLoadsOnlyReloads | litehyperram/core/controller.py:49-168 | on every clock the counter either counts down by one, takes one of the values listed in `ControllerConfig.Reloads`, or stays at 0 |
| Controller.CounterFitsWidth | litehyperram/core/controller.py:46-48 | under the invariant the counter always fits the corrected width bits_for(bound) |
| Controller.ResetRelease | litehyperram/core/controller.py:49-80 | the device reset rises exactly on a clock with the counter at zero and the PLL locked; the counter is then reloaded with reset_delay; the reset never falls again; while it is held the FSM sits in CA_WORD0 with chip select high and the clock stopped |
| Controller.AcceptCmdFields | litehyperram/core/controller.py:178-184 | the CA word built for a command has CA47 = not we, CA46 = aspace, CA45 = burst_type, CA44-16 = addr[31:3] and CA2-0 = addr[2:0], and keeps CA15-3 |
| Controller.CaWordsConcatenate | litehyperram/core/controller.py:85-99 | the three 16-bit CA slices, most significant first, concatenate back to the CA word |
| Controller.CmdAccepted | litehyperram/core/controller.py:170-184 | cmd.ready implies IDLE with the device deselected, the counter at zero and the reset released; a valid command moves to CA_WORD0 with its CA word and ends the initial CR0 sequence |
| Controller.CaWordsDriven | litehyperram/core/controller.py:85-99 | from CA_WORD0, three enabled clocks drive ca[47:32], ca[31:16] and ca[15:0] with chip select low and data drivers on, and reach SELECT_OP |
| Controller.DataHandshakes | litehyperram/core/controller.py:101-163 | wdata.ready is given only in SELECT_OP (a register write outside the initial CR0 writes), in WRITE once the counter is zero, and in WRITE_REG; rdata.valid is given only in READ with RWDS high and the counter zero; the device is selected and clocked in both cases; cmd.ready excludes both |
| Controller.ReadEndsInIdle | litehyperram/core/controller.py:157-168 | READ is left only through END_READ, which raises chip select and returns to IDLE |
| Controller.Cr0WriteStep | litehyperram/core/controller.py:82-176 | each clock adds one to the count of the controller's own CR0 writes exactly when it performs one. Such a write is a zero-latency register write of cr0_value from SELECT_OP to END_WRITE, to die 0 first and then die 1, and never exceeds the die count |
| Controller.CmdReadyOnlyAfterCr0Writes | litehyperram/core/controller.py:170-177 | the count of CR0 writes never exceeds the number of dies, and cmd.ready implies every die has had its CR0 write |
| Controller.RunPreservesInv | litehyperram/core/controller.py:49-184 | over any run, the invariant holds throughout, and the CR0-write count grows by the writes performed along the run |
| Controller.StartupCr0Writes | litehyperram/core/controller.py:82-177 | from reset, whatever the PHY and port do, at most one CR0 write goes to each die, and by the first cycle in which cmd.ready is high exactly one has gone to each die |
| Controller.HyperRAMController.constructor | litehyperram/core/controller.py:43-83 | the registers start at their reset values |
| Controller.HyperRAMController.Outputs | litehyperram/core/controller.py:63-184 | the combinational port outputs (cmd.ready, wdata.ready, rdata.valid, rdata.data) of the current state |
| Controller.HyperRAMController.Step | litehyperram/core/controller.py:49-184 | one clock edge updates the registers in place to `Next` of the old ones and keeps the invariant |
| Controller.HyperRAMController.HoldReset | litehyperram/core/controller.py:49-80 | while the reset is held: counter down or reloaded, reset released on PLL lock, FSM registers at their reset values |
| Controller.HyperRAMController.Enabled | litehyperram/core/controller.py:78-184 | an enabled clock performs the current state's action |
| Controller.HyperRAMController.SelectOperation | litehyperram/core/controller.py:101-120 | SELECT_OP branches to a read, a zero-latency register write (of cr0_value during the initial writes) or a memory write |
| Controller.HyperRAMController.WriteLatency | litehyperram/core/controller.py:122-129 | WRITE_DELAY takes RWDS and loads the long latency (fixed latency or RWDS high) or the short one |
| Controller.HyperRAMController.WritePhase | litehyperram/core/controller.py:131-146 | WRITE, WRITE_REG and END_WRITE |
| Controller.HyperRAMController.ReadPhase | litehyperram/core/controller.py:148-168 | READ_DELAY, READ and END_READ |
| Controller.HyperRAMController.IdleAccept | litehyperram/core/controller.py:170-184 | IDLE repeats the CR0 write for die 1 once, otherwise accepts a command |
| Crossbar.GuardsExclusive | litehyperram/core/crossbar.py:12-17 | the two reg_select update conditions never hold together |
| Crossbar.SwitchRules | litehyperram/core/crossbar.py:12-36 | reg_select changes only when the controller is ready and the selected port offers no command. It falls exactly when not locked out and the register port is idle, and rises exactly when the register port has a command and the data port has none |
| Crossbar.PriorityHolds | litehyperram/core/crossbar.py:12-17 | a data port that keeps a command pending keeps the controller, and lockout keeps the register port selected |
| Crossbar.RouteConnectsOne | litehyperram/core/crossbar.py:19-36 | the controller sees exactly the selected port's signals (its rdata.last included); that port sees the controller's; the other port sees cmd.ready, wdata.ready and rdata.valid low |
| Crossbar.LockoutKeepsRegisterPort | litehyperram/core/crossbar.py:10-36 | from reset with lockout held, reg_select stays 1 and the data port never sees a ready or a valid |
| Crossbar.LiteHyperRAMCrossbar.constructor | litehyperram/core/crossbar.py:10 | reg_select resets to 1 |
| Crossbar.LiteHyperRAMCrossbar.Step | litehyperram/core/crossbar.py:12-36 | one clock routes the channels and updates reg_select in place; of the two updates, the later one wins |
| RegisterSpace.ResetRegValueIsCr0 | litehyperram/core/registerspace.py:14-37 | the reset reg_value decodes to the configured latency and fixed-latency flag; reg_type resets to 1 (configuration), we to 1, die_nr to nbanks-1 |
| RegisterSpace.CsrRoundTrip | litehyperram/core/registerspace.py:22-61 | the CSR word places the fields at bits 0, 16, 19, 27, 29, 30 and busy at 31. Writing a word latches every writable bit, and the read value gives the fields back |
| RegisterSpace.IssuedTransaction | litehyperram/core/registerspace.py:48-57 | the issued command is a register-space (aspace 1), linear-burst (1) access whose direction is the we field; each transaction is one word (wdata.last and rdata.last set) whose write data is reg_value |
| RegisterSpace.RegAddrFields | litehyperram/core/registerspace.py:52-54 | when the die number fits the port, the command address is reg_nr in bits 2-0, reg_type in bits 18-11 and die_nr in bits 23-22, with all other bits zero |
| RegisterSpace.CsrWriteRules | litehyperram/core/registerspace.py:63-75 | a CSR write latches the writable fields exactly when idle. Otherwise strobe clears, a valid read word is captured into reg_value, and a startup write counts die_nr down. While busy, a CSR write changes nothing |
| RegisterSpace.Transitions | litehyperram/core/registerspace.py:79-103 | START leaves exactly when setup is not done or strobe is set; WAIT_CMD goes to WAIT_WRITE or WAIT_READ by we on cmd.ready; WAIT_WRITE and WAIT_READ return to START on their handshake; setup_done is never cleared, and is set exactly by a startup write to die 0 |
| RegisterSpace.BusyDuringStartup | litehyperram/core/registerspace.py:58-80 | busy is 1 exactly outside START-with-setup-done, so it is 1 throughout startup |
| RegisterSpace.StartupWriteStep | litehyperram/core/registerspace.py:36-99 | the startup invariant is preserved: we stays 1, WAIT_READ is never entered and die_nr < nbanks. Each startup write goes to die nbanks-1-k (k the writes before it) and adds one to the count; setup_done holds exactly when the count is nbanks |
| RegisterSpace.RunCountsStartupWrites | litehyperram/core/registerspace.py:63-103 | over any run, the count of startup writes grows by the writes performed along it |
| RegisterSpace.StartupWritesEveryDie | litehyperram/core/registerspace.py:17-99 | from reset, whatever the port and CSR bus do, at most nbanks startup writes complete, and setup_done is set exactly when nbanks have |
| RegisterSpace.LiteHyperRAMRegisterSpace.constructor | litehyperram/core/registerspace.py:12-46 | the fields and state start at their reset values |
| RegisterSpace.LiteHyperRAMRegisterSpace.Step | litehyperram/core/registerspace.py:48-103 | one clock returns the port request and CSR read value, then updates the fields and state in place to `Next` of the old ones, keeping the startup invariant |
| RegisterSpace.LiteHyperRAMRegisterSpace.StepFsm | litehyperram/core/registerspace.py:77-103 | the FSM and setup_done update |
| RegisterSpace.LiteHyperRAMRegisterSpace.StepFields | litehyperram/core/registerspace.py:63-75 | the CSR field update |
| Core.ExposedAddressesFitDataPort | litehyperram/core/__init__.py:22-33 | for a 32-bit data port, every address of the exposed port, which is one bit narrower, maps to an even address that fits the crossbar's data port; distinct exposed addresses map to distinct crossbar addresses |
| Core.InnerAddrRoundTrip | litehyperram/core/__init__.py:27 | the crossbar-side address is twice the outer one: bit 0 is zero and shifting back recovers the outer address |
| Core.BuildWiring | litehyperram/core/__init__.py:10-21 | the core is built exactly when the controller accepts the configuration. The data, register and exposed ports then all have the controller port's shape. The register space gets the module's die count and the controller's latency settings, so its reset reg_value is the controller's CR0 word and its die count matches dual_die |
| Core.SysResetSatisfiesInv | litehyperram/core/__init__.py:10-21 | the assembled reset state satisfies the system invariant |
| Core.ControllerStaysConfigured | litehyperram/core/controller.py:49-184 | once the device reset is released and the initial CR0 writes are over, neither comes back |
| Core.WdataReadyAfterCr0Writes | litehyperram/core/controller.py:101-140 | the controller takes a client's write word only after its reset is released and its own CR0 writes are over |
| Core.SysNextPreservesInv | litehyperram/core/__init__.py:10-21 | one system clock preserves the invariant: both parts' invariants hold; reg_select stays 1 until setup is done; setup done implies the controller's own CR0 writes are over; until setup is done, reg_value holds the CR0 word and the controller holds no read command and is in no read state |
| Core.SysRunPreservesInv | litehyperram/core/__init__.py:10-21 | the system invariant holds along any run |
| Core.StartupWritesCarryCr0 | litehyperram/core/registerspace.py:48-99 | in every state reachable from reset, until setup_done, the controller's request is the register space's: a write to register space, register type 1 and number 0 (CR0) of die die_nr, carrying the controller's CR0 word, and no read word reaches reg_value |
| Core.DataPortAfterSetup | litehyperram/core/__init__.py:21 | with lockout wired to "setup not done", in every state reachable from reset, until setup_done the controller serves only the register space and the data port sees no ready and no valid; once setup_done is set, the controller has already written CR0 to every die |
| Core.OwnershipChangesOnlyInIdle | litehyperram/core/crossbar.py:12-17 | the crossbar switches clients only in a cycle where the controller is in IDLE with cmd.ready and receives no command, so a transaction is never split between clients |

## Left out

- The ECP5 PHY (`litehyperram/phy/ecp5hyperramphy.py`) is not part of this model beyond its constants tx_latency 2 and rx_latency 1 (`ControllerConfig.Ecp5Phy`). Its DDR primitives, PLL and 90° clock are vendor hardware. RWDS, the read bytes and `pll_locked` are free inputs of every clock (`Controller.PhyIn`), and the pins are an output record (`Controller.PinsOf`).
- The Wishbone frontend (`litehyperram/frontend/wishbone.py`) is not part of this model: it rests on LiteX stream converters that are not modelled.
- Migen and LiteX machinery is not modelled: stream endpoints' `first`/`param` signals, CSR aggregation and documentation, `AutoCSR`. Channels are plain valid/ready/payload records, and the CSR bus is a write strobe with its word (`RegisterSpace.CsrIn`).
- The system reset (`ResetSignal()`, controller.py:49-50) is modelled only as construction: the constructors and `Reset` functions. A system reset in the middle of a run is not modelled.
- Device behaviour is not modelled: there is no memory, so there is no read-after-write round trip. Electrical DDR timing and bus turnaround are also left out.
- The 32-bit controller datapath does not exist in this controller. Only the address shift and the narrower exposed port of `litehyperram/core/__init__.py:22-33` are modelled. The controller port here is always 16 bits wide, so the 16-bit branch is the one `Core.Build` takes.
- Clock frequencies are integer Hz.
- Command addresses are 32-bit values cut to the port's address width on the way into the crossbar (`Common.Truncate`), as the port's narrower `addr` signal does in hardware.
- Controller.Next: the delay counter is an unbounded natural kept within its bound by the invariant. The wrap-around of the declared width is stated separately, under Findings.
- Core.Build: `litehyperram/core/__init__.py:13-17` calls `LiteHyperRAMNativePort.like` and reads `controller.initial_latency`/`fixed_latency`, but neither common.py nor controller.py defines them. The model takes `like` as a same-shape copy (`Common.Like`) and takes the latency settings from the configuration result (`ControllerConfig.Configure`).
- RegisterSpace: the register port's `wdata.we` byte mask is never driven by the register space and is modelled as 0. `rdata.data[-16:]` is the whole 16-bit word.
- RegisterSpace.ValidParams admits up to 4 dies, since die_nr is 2 bits wide. The device table only has 1 or 2.

## Findings

| source | as written | input that shows it | evidently intended | confidence | as-written member | corrected member |
|---|---|---|---|---|---|---|
| litehyperram/core/controller.py:46-48 | `dlycnt` is declared `Signal(max=M)` with M = max(reset_delay, tx+rx, 2·initial_latency). Migen takes M as an exclusive bound, so the counter holds values below 2^bits_for(M−1). A reload of exactly M therefore wraps to 0 when M is a power of two | S27KL0641DA with the ECP5 PHY at 30 MHz, initial_latency 4, fixed latency: M = 8, a 3-bit counter, and READ_DELAY's 8-cycle reload becomes 0. At 75 MHz, reset_delay 16 becomes 0 | a counter wide enough for every reload, i.e. bits_for(M) bits | not executed | ControllerConfig.ReloadWrapsAsWritten | ControllerConfig.ReloadFits |

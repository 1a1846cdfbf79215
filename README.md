# Arduino UNO R4 WiFi runtime, modelled in Dafny

This project models the core of a bare-metal Rust runtime for the Arduino UNO R4 WiFi board
(Renesas RA4M1 microcontroller, Arm Cortex-M4, ARMv7-M). It covers four parts of that runtime:

- **Register read-modify-write operations** (`registers.dfy`, module `Registers`).
  `volatile_or`, `volatile_and` and `volatile_xor` each read a memory-mapped register once,
  combine it with a mask and write it back once. Memory-mapped I/O is a class `Mmio`:
  - `regs` is the register file, a map from address to a 32-bit value.
  - `trace` is the log of every volatile read and write, with its address, width and value.
- **GPIO pins** (`pins.dfy`, module `Pins`; `ports.dfy`, module `Ports`).
  - The PWPR write-protection register.
  - The per-pin function-select registers (PFSR), written between an unlock and a lock of PWPR.
  - The per-port control registers PCNTR1 (output) and PCNTR2 (input).
  - The pin modes and the operations of each mode.
  - Splitting the four ports into pins.
  - The take-once global `PORTS` behind `get_pins`, which hands out the 20 header pins D0-D13
    and A0-A5.
- **The SysTick timer** (`systick.dfy`, module `SystemTimer`), as in section B3.3 of the ARMv7-M
  Architecture Reference Manual: the handle with its `enabled` flag, the four timer registers,
  24-bit masking, and the `instance` singleton accessor.
- **Start-up** (`boot.dfy`, module `Boot`; `vectors.dfy`, module `Vectors`).
  - `initialize_ram` zero-fills `.bss` and then copies `.data`. Memory is an `array<bv8>`, and
    the linker symbols are the fields of a `RamLayout`.
  - `Reset` runs `initialize_ram` before it hands over to `__main`.
  - The constant `EXCEPTIONS` and `EXTERNAL_INTERRUPTS` tables, laid out as in section B1.5.3 of
    the ARMv7-M Architecture Reference Manual.

`scenarios.dfy` (module `Scenarios`) composes these parts into whole runs: blinking the LED,
reading a pull-up input, the timer reload value, and the two singleton accessors.

The `Pin` implementation covers every mode (`src/peripherals/pins.rs:267-298`), so
`into_output`, `into_input`, `into_input_pullup` and `into_unknown` are available from any mode,
and the model provides all four from any mode.

## Model

| member | source | states |
|---|---|---|
| `Registers.Mmio.VolatileOr` | src/peripherals/registers.rs:23-25 | the register becomes the old value OR the mask and every other register is unchanged; exactly one read of the old value, then one write of the new value, at the register's width; the result stays within that width |
| `Registers.Mmio.VolatileAnd` | src/peripherals/registers.rs:28-31 | the register becomes the old value AND the mask, nothing else changes; one read, then one write, within the width |
| `Registers.Mmio.VolatileXor` | src/peripherals/registers.rs:34-37 | the register becomes the old value XOR the mask, nothing else changes; one read, then one write, within the width |
| `Registers.PrimitivesTouchOnlyAddressed` | src/peripherals/registers.rs:20-38 | each of the three operations keeps the set of registers and the value of every other register |
| `Registers.OrIntoIdempotent` | src/peripherals/registers.rs:23-25 | OR-ing the same mask twice equals OR-ing it once |
| `Registers.AndIntoIdempotent` | src/peripherals/registers.rs:28-31 | AND-ing the same mask twice equals AND-ing it once |
| `Registers.XorIntoInvolutive` | src/peripherals/registers.rs:34-37 | XOR-ing the same mask twice restores the whole register file |
| `Registers.CombineKeepsWidth` | src/peripherals/registers.rs:9-11 | for 8-, 16- and 32-bit registers, combining in-width values with OR, AND or XOR stays in width |
| `Registers.OrIntoSetsBit` | src/peripherals/registers.rs:23-25 | OR-ing in bit k sets bit k of the register |
| `Registers.AndIntoClearsBit` | src/peripherals/registers.rs:28-31 | AND-ing with the complement of bit k clears bit k |
| `Registers.XorIntoFlipsBit` | src/peripherals/registers.rs:34-37 | XOR-ing in bit k negates bit k |
| `Registers.OrIntoKeepsOtherBit` | src/peripherals/registers.rs:23-25 | OR-ing in bit a keeps every other bit b |
| `Registers.AndIntoKeepsOtherBit` | src/peripherals/registers.rs:28-31 | clearing bit a keeps every other bit b |
| `Registers.XorIntoKeepsOtherBit` | src/peripherals/registers.rs:34-37 | flipping bit a keeps every other bit b |
| `Pins.PwprAsWrittenMisaligned` | src/peripherals/pins.rs:59 | PWPR's address is not 4-byte aligned, so the 32-bit access the code declares is misaligned; the 8-bit access the model uses is aligned |
| `Pins.Unlock` | src/peripherals/pins.rs:66-69 | writes PWPR 0 and then bit 6 (0x40), in that order, and leaves PWPR at 0x40 |
| `Pins.Lock` | src/peripherals/pins.rs:73-76 | writes PWPR 0 and then bit 7 (0x80), in that order, and leaves PWPR at 0x80 |
| `Pins.PfsrAddress` | src/peripherals/pins.rs:93 | the function-select register of pin (port, pin) lies in the function-select bank at 0x40040800 + 4 * (16 * port + pin), on a word boundary |
| `Pins.PfsrAddressInjective` | src/peripherals/pins.rs:86-93 | distinct pins (port and pin below 16) have distinct function-select registers, and conversely |
| `Pins.SetToInput` | src/peripherals/pins.rs:102-108 | the accesses are unlock, PFSR := 0, lock; afterwards PWPR is 0x80, the pin's PFSR is 0 and nothing else changed |
| `Pins.SetToInputPullup` | src/peripherals/pins.rs:110-116 | unlock, PFSR := 0x10 (bit 4), lock; PWPR ends at 0x80 |
| `Pins.SetToOutput` | src/peripherals/pins.rs:118-124 | unlock, PFSR := 0x04 (bit 2), lock; PWPR ends at 0x80 |
| `Pins.ConfiguredChangesOnlyPin` | src/peripherals/pins.rs:102-124 | a configuration change leaves PWPR locked at 0x80 and the pin's PFSR at the new value, and changes no other register |
| `Pins.ConfigWritesProtected` | src/peripherals/pins.rs:102-124 | if every PFSR write in a trace comes right after an unlock and right before a lock, a configuration change keeps that so |
| `Pins.OtherAccessesProtected` | src/peripherals/pins.rs:141-165 | appending accesses that write no PFSR keeps every PFSR write bracketed by unlock and lock |
| `Pins.PortAccessesProtected` | src/peripherals/pins.rs:141-165 | reads and read-modify-writes of the port-control registers keep every PFSR write bracketed |
| `Pins.Pcntr1Address` | src/peripherals/pins.rs:134 | PCNTR1 of a port is a word-aligned address at or above 0x40040000 and below the function-select bank |
| `Pins.Pcntr2Address` | src/peripherals/pins.rs:135 | PCNTR2 of a port is likewise a word-aligned address in the port-control range |
| `Pins.PortAddressesDistinct` | src/peripherals/pins.rs:131-135 | PCNTR1 and PCNTR2 addresses are distinct across ports and from each other, and neither is PWPR or a PFSR |
| `Pins.PinBitsDistinct` | src/peripherals/pins.rs:141-165 | distinct pins of a port use distinct output bits (pin + 16) and distinct input bits (pin) |
| `Pins.SetHighDrivesPin` | src/peripherals/pins.rs:149-153 | after the OR of bit pin + 16 into PCNTR1 the pin is driven high |
| `Pins.SetHighKeepsOthers` | src/peripherals/pins.rs:149-153 | setting one pin high leaves whether every other pin is driven high unchanged |
| `Pins.SetLowDrivesPin` | src/peripherals/pins.rs:155-159 | after the AND with the complement of bit pin + 16 the pin is not driven high |
| `Pins.SetLowKeepsOthers` | src/peripherals/pins.rs:155-159 | setting one pin low leaves every other pin's output unchanged |
| `Pins.ToggleFlipsPin` | src/peripherals/pins.rs:161-165 | toggling negates whether the pin is driven high |
| `Pins.ToggleKeepsOthers` | src/peripherals/pins.rs:161-165 | toggling one pin leaves every other pin's output unchanged |
| `Pins.ToggleTwiceRestores` | src/peripherals/pins.rs:161-165 | two toggles of a pin restore the register file exactly |
| `Pins.PinIsSetHigh` | src/peripherals/pins.rs:141-143 | one read of PCNTR1; the result is bit pin + 16 of the value read |
| `Pins.PinIsHigh` | src/peripherals/pins.rs:145-147 | one read of PCNTR2; the result is bit pin of the value read |
| `Pins.SetPinHigh` | src/peripherals/pins.rs:149-153 | PCNTR1 is OR-ed with bit pin + 16 by one read and one write |
| `Pins.SetPinLow` | src/peripherals/pins.rs:155-159 | PCNTR1 is AND-ed with the complement of bit pin + 16 by one read and one write |
| `Pins.TogglePinOutput` | src/peripherals/pins.rs:161-165 | PCNTR1 is XOR-ed with bit pin + 16 by one read and one write |
| `Pins.IntoUnknown` | src/peripherals/pins.rs:277-279 | from any mode, the same physical pin, unconfigured, with no register access |
| `Pins.IntoOutput` | src/peripherals/pins.rs:282-285 | from any mode, the same pin in output mode, after the output configuration sequence |
| `Pins.IntoInput` | src/peripherals/pins.rs:288-291 | from any mode, the same pin in input mode, after the input configuration sequence |
| `Pins.IntoInputPullup` | src/peripherals/pins.rs:294-297 | from any mode, the same pin in pull-up input mode, after the pull-up configuration sequence |
| `Pins.IsSetHigh` | src/peripherals/pins.rs:302-304 | an output pin reports whether it is driven high, by exactly one read of PCNTR1 |
| `Pins.SetHigh` | src/peripherals/pins.rs:307-309 | an output pin is driven high afterwards, with only its own bit changed, by one read and one write of PCNTR1 |
| `Pins.SetLow` | src/peripherals/pins.rs:312-314 | an output pin is not driven high afterwards, by one read and one write of PCNTR1 |
| `Pins.Set` | src/peripherals/pins.rs:207-212 | `set(Low)` has the effect of `set_low` and `set(High)` that of `set_high`, each by one read and one write of PCNTR1; the pin is driven high exactly when the status is High |
| `Pins.Toggle` | src/peripherals/pins.rs:317-319 | an output pin's driven state is negated, by one read and one write of PCNTR1 |
| `Pins.IsInputPullup` | src/peripherals/pins.rs:328-343 | false for an input pin, true for a pull-up input pin |
| `Pins.IsHigh` | src/peripherals/pins.rs:324-326 | an input pin reports bit pin of PCNTR2, by exactly one read of PCNTR2 |
| `Pins.IsLow` | src/peripherals/pins.rs:227-229 | `is_low` is the negation of `is_high`, by exactly one read of PCNTR2 |
| `Pins.GetStatus` | src/peripherals/pins.rs:232-238 | the status is High exactly when the pin reads high, by exactly one read of PCNTR2 |
| `Ports.PortNumber` | src/peripherals/pins.rs:377-383 | each port's number selects valid registers (below 16) |
| `Ports.PortNumberInjective` | src/peripherals/pins.rs:377-383 | distinct ports have distinct numbers |
| `Ports.SplitPins` | src/peripherals/pins.rs:362-372 | splitting a port hands out exactly its listed pins, each unconfigured, on that port, valid, and no two the same physical pin |
| `Ports.SplitAt` | src/peripherals/pins.rs:368-372 | pin n of a split port is that port's pin n, unconfigured |
| `Ports.HeaderPinAtWiring` | src/peripherals/pins.rs:388-409 | the wiring of header pins can be inverted: from the microcontroller pin one recovers the header pin, and every wired pin is valid |
| `Ports.SplitPinsAllWired` | src/peripherals/pins.rs:377-383 | every pin that a split port hands out is the microcontroller pin of some header pin, so `get_pins` (src/peripherals/pins.rs:433-454) leaves no split pin without a header name |
| `Ports.BoardPinIdInjective` | src/peripherals/pins.rs:388-409 | every header pin is a valid microcontroller pin, and two header pins share one exactly when they are the same header pin |
| `Ports.BoardPinsWiring` | src/peripherals/pins.rs:426-455 | each header pin that `get_pins` assembles is the unconfigured pin the board wires to it (for example D13 is port 1 pin 2, D10 port 1 pin 3, A0 port 0 pin 14) |
| `Ports.PortRegistry.constructor` | src/peripherals/pins.rs:418-423 | at reset `PORTS` holds all four port tokens |
| `Ports.PortRegistry.GetPins` | src/peripherals/pins.rs:426-455 | returns the header pins exactly when the port tokens were still present, each wired as above; afterwards no tokens are left |
| `SystemTimer.RegistersAligned` | src/peripherals/systick.rs:22-35 | the four timer registers are at word-aligned addresses |
| `SystemTimer.ClampToCount` | src/peripherals/systick.rs:114 | masking with 0x00FFFFFF yields a 24-bit value, keeps a 24-bit value, and is idempotent |
| `SystemTimer.ReloadRoundTrip` | src/peripherals/systick.rs:113-124 | after writing the clamped reload value, reading it back gives `v & 0x00FFFFFF`, which is `v` when `v` fits in 24 bits; no other register changes |
| `SystemTimer.EnableKeepsOtherControlBits` | src/peripherals/systick.rs:64-80 | enabling and disabling change no CSR bit but bit 0 |
| `SystemTimer.SysTick.constructor` | src/peripherals/systick.rs:38-40 | a new handle is not enabled |
| `SystemTimer.SysTick.GetTicksPer10ms` | src/peripherals/systick.rs:56-58 | one read of CALIB; the result is its low 24 bits, below 2^24 |
| `SystemTimer.SysTick.Enable` | src/peripherals/systick.rs:64-69 | CSR is OR-ed with bit 0 by one read and one write, bit 0 is then set, and `is_enabled` becomes true |
| `SystemTimer.SysTick.Disable` | src/peripherals/systick.rs:75-80 | CSR is AND-ed with the complement of bit 0, bit 0 is then clear, and `is_enabled` becomes false |
| `SystemTimer.SysTick.TimerWrapped` | src/peripherals/systick.rs:92-94 | one read of CSR; the result is whether bit 16 of it is set |
| `SystemTimer.SysTick.GetCurrentValue` | src/peripherals/systick.rs:98-100 | one read of CVR, returned unchanged |
| `SystemTimer.SysTick.Reset` | src/peripherals/systick.rs:104-108 | a single write of 0 to CVR and no other register change |
| `SystemTimer.SysTick.SetResetValue` | src/peripherals/systick.rs:113-118 | a single write of the low 24 bits of the value to RVR; the top 8 bits are dropped |
| `SystemTimer.SysTick.GetResetValue` | src/peripherals/systick.rs:122-124 | one read of RVR; the result is its low 24 bits, below 2^24 |
| `SystemTimer.SysTickRegistry.constructor` | src/peripherals/systick.rs:45 | at reset no timer handle has been created |
| `SystemTimer.SysTickRegistry.Instance` | src/peripherals/systick.rs:43-52 | as written: a fresh, disabled handle exactly when the flag is clear, and the flag is left as it was |
| `SystemTimer.SysTickRegistry.InstanceOnce` | src/peripherals/systick.rs:42-52 | as documented: a fresh, disabled handle exactly on the first call, after which the flag is set |
| `Boot.BssZeroed` | src/lib.rs:58-59 | after initialisation every `.bss` byte that `.data` does not overlap is 0 |
| `Boot.DataCopied` | src/lib.rs:60-61 | after initialisation byte k of `.data` is byte k of the initial values as they were after zeroing `.bss` (the original byte unless it lies in `.bss`), so zeroing comes first |
| `Boot.OthersUnchanged` | src/lib.rs:58-61 | bytes outside `.bss` and `.data` are unchanged, and so is the memory size |
| `Boot.EmptySectionsNoop` | src/lib.rs:58-61 | with both sections empty, initialisation changes nothing |
| `Boot.WriteBytes` | src/lib.rs:59 | the loop sets exactly the `count` bytes from `dst` to the value and leaves the rest |
| `Boot.CopyNonoverlapping` | src/lib.rs:61 | the loop copies `count` bytes from `src` to `dst` and leaves the rest, given non-overlapping ranges |
| `Boot.InitializeRam` | src/lib.rs:40-62 | memory becomes the zero-filled-then-copied image of the old memory |
| `Boot.Reset` | src/lib.rs:72-78 | the memory `__main` starts with is the initialised memory |
| `Vectors.Repeat` | src/lib.rs:149-152 | `[e; n]` has length n and every entry is e |
| `Vectors.VectorEntry` | src/lib.rs:95-152 | for vector numbers 2 to 47, the entry is reserved exactly when the architecture reserves the number (7 to 10 and 13) |
| `Vectors.ExceptionSlot` | src/lib.rs:95-139 | `EXCEPTIONS` has 14 slots, and the slot of vector v is reserved exactly for v in 7-10 and 13 |
| `Vectors.TableSizes` | src/lib.rs:95-152 | 14 exception slots and 32 external-interrupt slots, all of the latter the default handler |
| `Vectors.ReservedSlots` | src/lib.rs:95-139 | the reserved exception slots are array indices 5 to 8 and 11 |
| `Scenarios.LedToggle` | src/peripherals/pins.rs:300-319 | D13 as output: after `set_high` and `toggle`, `is_set_high` is false |
| `Scenarios.PullupInput` | src/peripherals/pins.rs:334-344 | D10 as a pull-up input, for any PCNTR2 value: it reports `is_input_pullup`, `is_high` is bit 3 of PCNTR2, and `is_low == !is_high` |
| `Scenarios.GetPinsTwice` | src/peripherals/pins.rs:426-427 | the first `get_pins` returns the pins and the second returns none |
| `Scenarios.ReloadValue` | src/peripherals/systick.rs:113-124 | `set_reset_value(v)` then `get_reset_value()` gives `v & 0x00FFFFFF` |
| `Scenarios.EnableThenDisable` | src/peripherals/systick.rs:64-86 | after `enable` the handle reports enabled; after `disable` it reports disabled and CSR bit 0 is clear |
| `Scenarios.TwoInstancesAsWritten` | src/peripherals/systick.rs:43-52 | as written, two calls of `instance` both return a handle, and the handles are distinct objects |
| `Scenarios.TwoInstancesCorrected` | src/peripherals/systick.rs:42 | with the flag set on first use, only the first call returns a handle |

## Left out

- Hardware behaviour of registers is not modelled: the compiler's ordering of volatile
  accesses, the clearing of CSR bit 16 when CSR is read, the counting of CVR, and the pin
  levels the hardware puts into PCNTR2. A read returns the register file's current value.
- The non-volatile `read`/`write` calls are modelled as logged accesses like the volatile ones.
  These are in `pin_is_set_high`, `pin_is_high`, `set_to_output` and the timer's `reset`.
- Compile-time type-state (`PhantomData`, the `PinMode` type parameter, zero-sized types) is
  not modelled as types. The mode is a runtime field of `Pin`, and each mode's operations
  require that mode.
- Ownership is not modelled: the model does not show that no two live values claim one
  physical pin.
- The `entry!` macro, the panic handler and `default_exception_handler` are left out. They are
  infinite loops with no behaviour beyond not returning.
- `Boot.Reset` ends where control passes to `__main`; what `__main` does is not part of this
  model.
- Linker placement is left out: the `.vector_table.*` sections, `RESET_VECTOR` and the initial
  value of SP. The linker symbols `_sbss` … `_sidata` are the fields of a `RamLayout`.
- Vector-table entries are `Reserved` or `Default` rather than addresses, because the handler's
  address is decided at link time.
- Register addresses are unbounded naturals, not 32-bit machine addresses. Every address the code
  computes is below 2^32, so no wrap-around arises.
- The build script and the example programs are not part of this model.
- `Ports.Split`: has no ensures of its own. What `split` hands out (src/peripherals/pins.rs:368-372)
  is stated by `Ports.SplitPins` and `Ports.SplitAt`.
- `Ports.BoardPins`: has no ensures of its own. The struct that `get_pins` assembles
  (src/peripherals/pins.rs:428-454) is stated by `Ports.BoardPinsWiring`, and in the method by
  `Ports.PortRegistry.GetPins`.
- `Boot.ValidLayout`: requires `sbss <= ebss` and `sdata <= edata`. The linker script guarantees
  both orderings. So the case where the `usize` subtractions at src/lib.rs:58 and src/lib.rs:60
  would overflow is not modelled.
- `SystemTimer.SysTick.IsEnabled`: has no ensures of its own. It returns the handle's flag, and
  reads no register. `SystemTimer.SysTick.Enable`, `SystemTimer.SysTick.Disable` and the
  constructor state what that flag is.

## Findings

| source | as written | input that shows it | evidently intended | confidence | as-written member | corrected member |
|---|---|---|---|---|---|---|
| src/peripherals/pins.rs:59 | PWPR is declared as `*mut u32` at 0x40040D03, so `unlock` and `lock` make 32-bit writes to an address that is not a multiple of 4 | any call of `unlock` or `lock`: 0x40040D03 mod 4 = 3 | an 8-bit access to the 8-bit PWPR register | medium, not executed | `Pins.PwprAsWrittenMisaligned` | `Pins.Unlock` |
| src/peripherals/systick.rs:43-52 | `instance` reads `SYSTICK_CREATED` but never sets it, so every call returns a new handle | two calls of `instance` in one run: both return `Some` | set the flag when the first handle is made, so later calls return `None` as line 42 documents | high, not executed | `Scenarios.TwoInstancesAsWritten` | `SystemTimer.SysTickRegistry.InstanceOnce` |

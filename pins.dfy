/** The GPIO pin layer of the RA4M1: the write-protection register, the per-pin function-select
    registers, the per-port output/input control registers, and the pin configuration modes.

    The configuration mode of a pin, which the original keeps in the type of the pin value,
    is here a field of a `Pin` value; the operations that only exist for one mode require the
    pin to be in that mode. */
module Pins {
  import opened Registers

  /** Configuration mode of a pin. */
  datatype PinMode = Unknown | Output | Input | InputPullup

  /** Level of a pin. */
  datatype PinStatus = Low | High

  /** Physical identity of a pin: its port number and its number within the port. */
  datatype PinId = PinId(port: nat, pin: nat)

  /** A pin value: which physical pin, in which configuration mode. */
  datatype Pin = Pin(id: PinId, mode: PinMode)

  /** Port and pin numbers small enough for the register layout: 16 pins per port. */
  predicate ValidPinId(id: PinId)
  {
    id.port < 16 && id.pin < 16
  }

  // ---------------------------------------------------------------------------------------
  // Pin write protection

  /** Address of the pin write-protection register PWPR. */
  const PWPR: nat := 0x4004_0D03

  /** Width of the accesses to PWPR. The register is one byte wide; the Rust code declares it
      as `*mut u32` (see `PwprAsWrittenMisaligned`). */
  const PWPR_WIDTH: Width := W8

  /** PWPR with only bit 6 set: function-select writes enabled. */
  const PWPR_UNLOCK: bv32 := 0x40

  /** PWPR with only bit 7 set: bit 6 itself write-protected. */
  const PWPR_LOCK: bv32 := 0x80

  /** As written, PWPR is accessed as a 32-bit register, at an address that is not a multiple
      of four; an access of the register's own width (one byte) is aligned. */
  lemma PwprAsWrittenMisaligned()
    ensures !Aligned(PWPR, W32)
    ensures Aligned(PWPR, PWPR_WIDTH)
  {
  }

  /** The two writes of `unlock`: clear PWPR, then set bit 6. */
  function UnlockWrites(): seq<Access>
  {
    [Write(PWPR, PWPR_WIDTH, 0), Write(PWPR, PWPR_WIDTH, PWPR_UNLOCK)]
  }

  /** The two writes of `lock`: clear PWPR, then set bit 7. */
  function LockWrites(): seq<Access>
  {
    [Write(PWPR, PWPR_WIDTH, 0), Write(PWPR, PWPR_WIDTH, PWPR_LOCK)]
  }

  /** `PinWriteProtection::unlock`. */
  method Unlock(bus: Mmio)
    requires PWPR in bus.regs
    modifies bus
    ensures bus.regs == old(bus.regs)[PWPR := PWPR_UNLOCK]
    ensures bus.trace == old(bus.trace) + UnlockWrites()
  {
    bus.WriteVolatile(PWPR, PWPR_WIDTH, 0);
    bus.WriteVolatile(PWPR, PWPR_WIDTH, PWPR_UNLOCK);
  }

  /** `PinWriteProtection::lock`. */
  method Lock(bus: Mmio)
    requires PWPR in bus.regs
    modifies bus
    ensures bus.regs == old(bus.regs)[PWPR := PWPR_LOCK]
    ensures bus.trace == old(bus.trace) + LockWrites()
  {
    bus.WriteVolatile(PWPR, PWPR_WIDTH, 0);
    bus.WriteVolatile(PWPR, PWPR_WIDTH, PWPR_LOCK);
  }

  // ---------------------------------------------------------------------------------------
  // Pin function select

  const PFS_BASE: nat := 0x4004_0800

  /** Function-select values: all bits clear is a plain input, bit 4 adds the pull-up,
      bit 2 makes the pin an output. */
  const PFS_INPUT: bv32 := 0
  const PFS_INPUT_PULLUP: bv32 := 0x10
  const PFS_OUTPUT: bv32 := 0x04

  /** Address of the function-select register PFSR of pin `id`. */
  function PfsrAddress(id: PinId): (a: nat)
    requires ValidPinId(id)
    ensures IsPfsrAddress(a)
  {
    PFS_BASE + 4 * (16 * id.port + id.pin)
  }

  /** `a` lies in the bank of function-select registers, on a register boundary. */
  predicate IsPfsrAddress(a: nat)
  {
    PFS_BASE <= a < PFS_BASE + 0x400 && (a - PFS_BASE) % 4 == 0
  }

  /** Distinct pins have distinct function-select registers. */
  lemma PfsrAddressInjective(id1: PinId, id2: PinId)
    requires ValidPinId(id1) && ValidPinId(id2)
    ensures PfsrAddress(id1) == PfsrAddress(id2) <==> id1 == id2
  {
    if PfsrAddress(id1) == PfsrAddress(id2) {
      assert 16 * id1.port + id1.pin == 16 * id2.port + id2.pin;
    }
  }

  /** The registers a configuration change needs are mapped. */
  predicate ConfigMapped(regs: RegisterFile, id: PinId)
    requires ValidPinId(id)
  {
    PWPR in regs && PfsrAddress(id) in regs
  }

  /** The writes of one configuration change: unlock, write the function select, lock. */
  function ConfigWrites(id: PinId, value: bv32): seq<Access>
    requires ValidPinId(id)
  {
    UnlockWrites() + [Write(PfsrAddress(id), W32, value)] + LockWrites()
  }

  /** The register file after a configuration change of pin `id` to `value`. */
  function Configured(regs: RegisterFile, id: PinId, value: bv32): RegisterFile
    requires ValidPinId(id)
  {
    regs[PWPR := PWPR_LOCK][PfsrAddress(id) := value]
  }

  /** A configuration change leaves PWPR locked, sets the pin's own function select, and
      changes no other register. */
  lemma ConfiguredChangesOnlyPin(regs: RegisterFile, id: PinId, value: bv32, other: nat)
    requires ValidPinId(id) && ConfigMapped(regs, id)
    requires other in regs && other != PWPR && other != PfsrAddress(id)
    ensures Configured(regs, id, value).Keys == regs.Keys
    ensures Configured(regs, id, value)[PWPR] == PWPR_LOCK
    ensures Configured(regs, id, value)[PfsrAddress(id)] == value
    ensures Configured(regs, id, value)[other] == regs[other]
  {
    assert PfsrAddress(id) != PWPR;
  }

  /** Every write to a function-select register in `t` comes right after the two unlock
      writes and right before the two lock writes. */
  ghost predicate WritesProtected(t: seq<Access>)
  {
    forall i | 0 <= i < |t| && t[i].Write? && IsPfsrAddress(t[i].addr) ::
      2 <= i && i + 2 < |t| && t[i - 2..i] == UnlockWrites() && t[i + 1..i + 3] == LockWrites()
  }

  /** A configuration change keeps every function-select write bracketed. */
  lemma ConfigWritesProtected(t: seq<Access>, id: PinId, value: bv32)
    requires ValidPinId(id) && WritesProtected(t)
    ensures WritesProtected(t + ConfigWrites(id, value))
  {
    var u := t + ConfigWrites(id, value);
    var n := |t|;
    assert !IsPfsrAddress(PWPR);
    forall i | 0 <= i < |u| && u[i].Write? && IsPfsrAddress(u[i].addr)
      ensures 2 <= i && i + 2 < |u| && u[i - 2..i] == UnlockWrites() && u[i + 1..i + 3] == LockWrites()
    {
      if i < n {
        assert u[i] == t[i];
        assert u[i - 2..i] == t[i - 2..i];
        assert u[i + 1..i + 3] == t[i + 1..i + 3];
      } else {
        assert i == n + 2;
        assert u[i - 2..i] == UnlockWrites();
        assert u[i + 1..i + 3] == LockWrites();
      }
    }
  }

  /** Accesses that write no function-select register keep every earlier one bracketed. */
  lemma OtherAccessesProtected(t: seq<Access>, u: seq<Access>)
    requires WritesProtected(t)
    requires forall j | 0 <= j < |u| :: !(u[j].Write? && IsPfsrAddress(u[j].addr))
    ensures WritesProtected(t + u)
  {
    var v := t + u;
    forall i | 0 <= i < |v| && v[i].Write? && IsPfsrAddress(v[i].addr)
      ensures 2 <= i && i + 2 < |v| && v[i - 2..i] == UnlockWrites() && v[i + 1..i + 3] == LockWrites()
    {
      assert i < |t|;
      assert v[i] == t[i];
      assert v[i - 2..i] == t[i - 2..i];
      assert v[i + 1..i + 3] == t[i + 1..i + 3];
    }
  }

  /** `PinFunctionSelect::set_to_input`. */
  method SetToInput(bus: Mmio, id: PinId)
    requires ValidPinId(id) && ConfigMapped(bus.regs, id)
    modifies bus
    ensures bus.regs == Configured(old(bus.regs), id, PFS_INPUT)
    ensures bus.trace == old(bus.trace) + ConfigWrites(id, PFS_INPUT)
  {
    Unlock(bus);
    bus.WriteVolatile(PfsrAddress(id), W32, PFS_INPUT);
    Lock(bus);
  }

  /** `PinFunctionSelect::set_to_input_pullup`. */
  method SetToInputPullup(bus: Mmio, id: PinId)
    requires ValidPinId(id) && ConfigMapped(bus.regs, id)
    modifies bus
    ensures bus.regs == Configured(old(bus.regs), id, PFS_INPUT_PULLUP)
    ensures bus.trace == old(bus.trace) + ConfigWrites(id, PFS_INPUT_PULLUP)
  {
    Unlock(bus);
    bus.WriteVolatile(PfsrAddress(id), W32, PFS_INPUT_PULLUP);
    Lock(bus);
  }

  /** `PinFunctionSelect::set_to_output`. */
  method SetToOutput(bus: Mmio, id: PinId)
    requires ValidPinId(id) && ConfigMapped(bus.regs, id)
    modifies bus
    ensures bus.regs == Configured(old(bus.regs), id, PFS_OUTPUT)
    ensures bus.trace == old(bus.trace) + ConfigWrites(id, PFS_OUTPUT)
  {
    Unlock(bus);
    bus.WriteVolatile(PfsrAddress(id), W32, PFS_OUTPUT);
    Lock(bus);
  }

  // ---------------------------------------------------------------------------------------
  // Port control

  const PORT_BASE: nat := 0x4004_0000
  const PORT_GAP: nat := 0x20

  /** Address of the output control register PCNTR1 of a port. */
  function Pcntr1Address(port: nat): (a: nat)
    requires port < 16
    ensures PORT_BASE <= a < PFS_BASE && Aligned(a, W32)
  {
    PORT_BASE + port * PORT_GAP
  }

  /** Address of the input register PCNTR2 of a port. */
  function Pcntr2Address(port: nat): (a: nat)
    requires port < 16
    ensures PORT_BASE <= a < PFS_BASE && Aligned(a, W32)
  {
    PORT_BASE + 4 + port * PORT_GAP
  }

  /** The port registers of distinct ports are distinct, PCNTR1 and PCNTR2 never coincide,
      and none of them is PWPR or a function-select register. */
  lemma PortAddressesDistinct(p1: nat, p2: nat)
    requires p1 < 16 && p2 < 16
    ensures Pcntr1Address(p1) == Pcntr1Address(p2) <==> p1 == p2
    ensures Pcntr2Address(p1) == Pcntr2Address(p2) <==> p1 == p2
    ensures Pcntr1Address(p1) != Pcntr2Address(p2)
    ensures !IsPfsrAddress(Pcntr1Address(p1)) && !IsPfsrAddress(Pcntr2Address(p1))
    ensures Pcntr1Address(p1) != PWPR && Pcntr2Address(p1) != PWPR
  {
  }

  /** Index of the output bit of a pin in PCNTR1: `pin + 16`. */
  function OutputBit(pin: nat): bv5
    requires pin < 16
  {
    (pin + 16) as bv5
  }

  /** Index of the input bit of a pin in PCNTR2: `pin`. */
  function InputBit(pin: nat): bv5
    requires pin < 16
  {
    pin as bv5
  }

  /** Distinct pins of a port have distinct output bits and distinct input bits. */
  lemma PinBitsDistinct(p1: nat, p2: nat)
    requires p1 < 16 && p2 < 16 && p1 != p2
    ensures OutputBit(p1) != OutputBit(p2) && InputBit(p1) != InputBit(p2)
  {
    IndexRoundTrip(p1);
    IndexRoundTrip(p2);
    IndexRoundTrip(p1 + 16);
    IndexRoundTrip(p2 + 16);
  }

  lemma IndexRoundTrip(k: nat)
    requires k < 32
    ensures (k as bv5) as int == k
  {
  }

  /** PCNTR1 with only the output bit of the pin set. */
  function OutputMask(pin: nat): bv32
    requires pin < 16
  {
    Bit(OutputBit(pin))
  }

  /** The output of pin `id` is set to HIGH in `regs`. */
  predicate DrivesHigh(regs: RegisterFile, id: PinId)
    requires ValidPinId(id) && Pcntr1Address(id.port) in regs
  {
    BitSet(regs[Pcntr1Address(id.port)], OutputBit(id.pin))
  }

  /** Pin `id` receives HIGH voltage according to `regs`. */
  predicate ReadsHigh(regs: RegisterFile, id: PinId)
    requires ValidPinId(id) && Pcntr2Address(id.port) in regs
  {
    BitSet(regs[Pcntr2Address(id.port)], InputBit(id.pin))
  }

  /** Setting the output bit of pin `id` makes the pin drive HIGH. */
  lemma SetHighDrivesPin(regs: RegisterFile, id: PinId)
    requires ValidPinId(id) && Pcntr1Address(id.port) in regs
    ensures DrivesHigh(OrInto(regs, Pcntr1Address(id.port), OutputMask(id.pin)), id)
  {
    OrIntoSetsBit(regs, Pcntr1Address(id.port), OutputBit(id.pin));
  }

  /** Setting the output bit of pin `id` leaves the output of every other pin as it was. */
  lemma SetHighKeepsOthers(regs: RegisterFile, id: PinId, other: PinId)
    requires ValidPinId(id) && ValidPinId(other) && other != id
    requires Pcntr1Address(id.port) in regs && Pcntr1Address(other.port) in regs
    ensures DrivesHigh(OrInto(regs, Pcntr1Address(id.port), OutputMask(id.pin)), other)
        == DrivesHigh(regs, other)
  {
    if other.port == id.port {
      PinBitsDistinct(id.pin, other.pin);
      OrIntoKeepsOtherBit(regs, Pcntr1Address(id.port), OutputBit(id.pin), OutputBit(other.pin));
    } else {
      assert Pcntr1Address(other.port) != Pcntr1Address(id.port);
    }
  }

  /** Clearing the output bit of pin `id` makes the pin drive LOW. */
  lemma SetLowDrivesPin(regs: RegisterFile, id: PinId)
    requires ValidPinId(id) && Pcntr1Address(id.port) in regs
    ensures !DrivesHigh(AndInto(regs, Pcntr1Address(id.port), !OutputMask(id.pin)), id)
  {
    AndIntoClearsBit(regs, Pcntr1Address(id.port), OutputBit(id.pin));
  }

  /** Clearing the output bit of pin `id` leaves the output of every other pin as it was. */
  lemma SetLowKeepsOthers(regs: RegisterFile, id: PinId, other: PinId)
    requires ValidPinId(id) && ValidPinId(other) && other != id
    requires Pcntr1Address(id.port) in regs && Pcntr1Address(other.port) in regs
    ensures DrivesHigh(AndInto(regs, Pcntr1Address(id.port), !OutputMask(id.pin)), other)
        == DrivesHigh(regs, other)
  {
    if other.port == id.port {
      PinBitsDistinct(id.pin, other.pin);
      AndIntoKeepsOtherBit(regs, Pcntr1Address(id.port), OutputBit(id.pin), OutputBit(other.pin));
    } else {
      assert Pcntr1Address(other.port) != Pcntr1Address(id.port);
    }
  }

  /** Flipping the output bit of pin `id` inverts the pin's output. */
  lemma ToggleFlipsPin(regs: RegisterFile, id: PinId)
    requires ValidPinId(id) && Pcntr1Address(id.port) in regs
    ensures DrivesHigh(XorInto(regs, Pcntr1Address(id.port), OutputMask(id.pin)), id)
        == !DrivesHigh(regs, id)
  {
    XorIntoFlipsBit(regs, Pcntr1Address(id.port), OutputBit(id.pin));
  }

  /** Flipping the output bit of pin `id` leaves the output of every other pin as it was. */
  lemma ToggleKeepsOthers(regs: RegisterFile, id: PinId, other: PinId)
    requires ValidPinId(id) && ValidPinId(other) && other != id
    requires Pcntr1Address(id.port) in regs && Pcntr1Address(other.port) in regs
    ensures DrivesHigh(XorInto(regs, Pcntr1Address(id.port), OutputMask(id.pin)), other)
        == DrivesHigh(regs, other)
  {
    if other.port == id.port {
      PinBitsDistinct(id.pin, other.pin);
      XorIntoKeepsOtherBit(regs, Pcntr1Address(id.port), OutputBit(id.pin), OutputBit(other.pin));
    } else {
      assert Pcntr1Address(other.port) != Pcntr1Address(id.port);
    }
  }

  /** Two toggles of a pin restore PCNTR1, and with it the whole register file, exactly. */
  lemma ToggleTwiceRestores(regs: RegisterFile, id: PinId)
    requires ValidPinId(id) && Pcntr1Address(id.port) in regs
    ensures XorInto(XorInto(regs, Pcntr1Address(id.port), OutputMask(id.pin)),
                    Pcntr1Address(id.port), OutputMask(id.pin)) == regs
  {
    XorIntoInvolutive(regs, Pcntr1Address(id.port), OutputMask(id.pin));
  }

  /** `PortControl::pin_is_set_high`: one read of PCNTR1. */
  method PinIsSetHigh(bus: Mmio, port: nat, pin: nat) returns (b: bool)
    requires port < 16 && pin < 16 && Pcntr1Address(port) in bus.regs
    modifies bus`trace
    ensures b == DrivesHigh(bus.regs, PinId(port, pin))
    ensures bus.trace == old(bus.trace) + [Read(Pcntr1Address(port), W32, bus.regs[Pcntr1Address(port)])]
  {
    var v := bus.ReadVolatile(Pcntr1Address(port), W32);
    b := BitSet(v, OutputBit(pin));
  }

  /** `PortControl::pin_is_high`: one read of PCNTR2. */
  method PinIsHigh(bus: Mmio, port: nat, pin: nat) returns (b: bool)
    requires port < 16 && pin < 16 && Pcntr2Address(port) in bus.regs
    modifies bus`trace
    ensures b == ReadsHigh(bus.regs, PinId(port, pin))
    ensures bus.trace == old(bus.trace) + [Read(Pcntr2Address(port), W32, bus.regs[Pcntr2Address(port)])]
  {
    var v := bus.ReadVolatile(Pcntr2Address(port), W32);
    b := BitSet(v, InputBit(pin));
  }

  /** `PortControl::set_pin_high`: OR the output bit into PCNTR1. */
  method SetPinHigh(bus: Mmio, port: nat, pin: nat)
    requires port < 16 && pin < 16 && Pcntr1Address(port) in bus.regs
    modifies bus
    ensures bus.regs == OrInto(old(bus.regs), Pcntr1Address(port), OutputMask(pin))
    ensures bus.trace == old(bus.trace) + [Read(Pcntr1Address(port), W32, old(bus.regs[Pcntr1Address(port)])),
                                           Write(Pcntr1Address(port), W32, bus.regs[Pcntr1Address(port)])]
  {
    bus.VolatileOr(Pcntr1Address(port), W32, OutputMask(pin));
  }

  /** `PortControl::set_pin_low`: AND the complement of the output bit into PCNTR1. */
  method SetPinLow(bus: Mmio, port: nat, pin: nat)
    requires port < 16 && pin < 16 && Pcntr1Address(port) in bus.regs
    modifies bus
    ensures bus.regs == AndInto(old(bus.regs), Pcntr1Address(port), !OutputMask(pin))
    ensures bus.trace == old(bus.trace) + [Read(Pcntr1Address(port), W32, old(bus.regs[Pcntr1Address(port)])),
                                           Write(Pcntr1Address(port), W32, bus.regs[Pcntr1Address(port)])]
  {
    bus.VolatileAnd(Pcntr1Address(port), W32, !OutputMask(pin));
  }

  /** `PortControl::toggle_pin_output`: XOR the output bit into PCNTR1. */
  method TogglePinOutput(bus: Mmio, port: nat, pin: nat)
    requires port < 16 && pin < 16 && Pcntr1Address(port) in bus.regs
    modifies bus
    ensures bus.regs == XorInto(old(bus.regs), Pcntr1Address(port), OutputMask(pin))
    ensures bus.trace == old(bus.trace) + [Read(Pcntr1Address(port), W32, old(bus.regs[Pcntr1Address(port)])),
                                           Write(Pcntr1Address(port), W32, bus.regs[Pcntr1Address(port)])]
  {
    bus.VolatileXor(Pcntr1Address(port), W32, OutputMask(pin));
  }

  // ---------------------------------------------------------------------------------------
  // Pin modes and their operations

  /** The register accesses a port-control operation adds to the log write no
      function-select register. */
  lemma PortAccessesProtected(t: seq<Access>, port: nat, v1: bv32, v2: bv32)
    requires port < 16 && WritesProtected(t)
    ensures WritesProtected(t + [Read(Pcntr1Address(port), W32, v1)])
    ensures WritesProtected(t + [Read(Pcntr2Address(port), W32, v1)])
    ensures WritesProtected(t + [Read(Pcntr1Address(port), W32, v1), Write(Pcntr1Address(port), W32, v2)])
  {
    PortAddressesDistinct(port, port);
    OtherAccessesProtected(t, [Read(Pcntr1Address(port), W32, v1)]);
    OtherAccessesProtected(t, [Read(Pcntr2Address(port), W32, v1)]);
    OtherAccessesProtected(t, [Read(Pcntr1Address(port), W32, v1), Write(Pcntr1Address(port), W32, v2)]);
  }

  /** `Pin::into_unknown`: forget the configuration; no register is touched. */
  function IntoUnknown(p: Pin): (q: Pin)
    ensures q.id == p.id && q.mode == Unknown
  {
    Pin(p.id, Unknown)
  }

  /** `Pin::into_output`, available from every mode. */
  method IntoOutput(bus: Mmio, p: Pin) returns (q: Pin)
    requires ValidPinId(p.id) && ConfigMapped(bus.regs, p.id)
    modifies bus
    ensures q.id == p.id && q.mode == Output
    ensures bus.regs == Configured(old(bus.regs), p.id, PFS_OUTPUT)
    ensures bus.trace == old(bus.trace) + ConfigWrites(p.id, PFS_OUTPUT)
    ensures WritesProtected(old(bus.trace)) ==> WritesProtected(bus.trace)
  {
    SetToOutput(bus, p.id);
    if WritesProtected(old(bus.trace)) {
      ConfigWritesProtected(old(bus.trace), p.id, PFS_OUTPUT);
    }
    q := Pin(p.id, Output);
  }

  /** `Pin::into_input`, available from every mode. */
  method IntoInput(bus: Mmio, p: Pin) returns (q: Pin)
    requires ValidPinId(p.id) && ConfigMapped(bus.regs, p.id)
    modifies bus
    ensures q.id == p.id && q.mode == Input
    ensures bus.regs == Configured(old(bus.regs), p.id, PFS_INPUT)
    ensures bus.trace == old(bus.trace) + ConfigWrites(p.id, PFS_INPUT)
    ensures WritesProtected(old(bus.trace)) ==> WritesProtected(bus.trace)
  {
    SetToInput(bus, p.id);
    if WritesProtected(old(bus.trace)) {
      ConfigWritesProtected(old(bus.trace), p.id, PFS_INPUT);
    }
    q := Pin(p.id, Input);
  }

  /** `Pin::into_input_pullup`, available from every mode. */
  method IntoInputPullup(bus: Mmio, p: Pin) returns (q: Pin)
    requires ValidPinId(p.id) && ConfigMapped(bus.regs, p.id)
    modifies bus
    ensures q.id == p.id && q.mode == InputPullup
    ensures bus.regs == Configured(old(bus.regs), p.id, PFS_INPUT_PULLUP)
    ensures bus.trace == old(bus.trace) + ConfigWrites(p.id, PFS_INPUT_PULLUP)
    ensures WritesProtected(old(bus.trace)) ==> WritesProtected(bus.trace)
  {
    SetToInputPullup(bus, p.id);
    if WritesProtected(old(bus.trace)) {
      ConfigWritesProtected(old(bus.trace), p.id, PFS_INPUT_PULLUP);
    }
    q := Pin(p.id, InputPullup);
  }

  /** `OutputPin::is_set_high`. */
  method IsSetHigh(bus: Mmio, p: Pin) returns (b: bool)
    requires p.mode == Output && ValidPinId(p.id) && Pcntr1Address(p.id.port) in bus.regs
    modifies bus`trace
    ensures b == DrivesHigh(bus.regs, p.id)
    ensures bus.trace == old(bus.trace) + [Read(Pcntr1Address(p.id.port), W32, bus.regs[Pcntr1Address(p.id.port)])]
    ensures WritesProtected(old(bus.trace)) ==> WritesProtected(bus.trace)
  {
    b := PinIsSetHigh(bus, p.id.port, p.id.pin);
    if WritesProtected(old(bus.trace)) {
      PortAccessesProtected(old(bus.trace), p.id.port, bus.regs[Pcntr1Address(p.id.port)], 0);
    }
  }

  /** `OutputPin::set_high`. */
  method SetHigh(bus: Mmio, p: Pin)
    requires p.mode == Output && ValidPinId(p.id) && Pcntr1Address(p.id.port) in bus.regs
    modifies bus
    ensures bus.regs == OrInto(old(bus.regs), Pcntr1Address(p.id.port), OutputMask(p.id.pin))
    ensures DrivesHigh(bus.regs, p.id)
    ensures bus.trace == old(bus.trace) + [Read(Pcntr1Address(p.id.port), W32, old(bus.regs[Pcntr1Address(p.id.port)])),
                                           Write(Pcntr1Address(p.id.port), W32, bus.regs[Pcntr1Address(p.id.port)])]
    ensures WritesProtected(old(bus.trace)) ==> WritesProtected(bus.trace)
  {
    ghost var regs0, trace0 := bus.regs, bus.trace;
    SetPinHigh(bus, p.id.port, p.id.pin);
    SetHighDrivesPin(regs0, p.id);
    if WritesProtected(trace0) {
      PortAccessesProtected(trace0, p.id.port, regs0[Pcntr1Address(p.id.port)], bus.regs[Pcntr1Address(p.id.port)]);
    }
  }

  /** `OutputPin::set_low`. */
  method SetLow(bus: Mmio, p: Pin)
    requires p.mode == Output && ValidPinId(p.id) && Pcntr1Address(p.id.port) in bus.regs
    modifies bus
    ensures bus.regs == AndInto(old(bus.regs), Pcntr1Address(p.id.port), !OutputMask(p.id.pin))
    ensures !DrivesHigh(bus.regs, p.id)
    ensures bus.trace == old(bus.trace) + [Read(Pcntr1Address(p.id.port), W32, old(bus.regs[Pcntr1Address(p.id.port)])),
                                           Write(Pcntr1Address(p.id.port), W32, bus.regs[Pcntr1Address(p.id.port)])]
    ensures WritesProtected(old(bus.trace)) ==> WritesProtected(bus.trace)
  {
    ghost var regs0, trace0 := bus.regs, bus.trace;
    SetPinLow(bus, p.id.port, p.id.pin);
    SetLowDrivesPin(regs0, p.id);
    if WritesProtected(trace0) {
      PortAccessesProtected(trace0, p.id.port, regs0[Pcntr1Address(p.id.port)], bus.regs[Pcntr1Address(p.id.port)]);
    }
  }

  /** `OutputPin::set`: LOW behaves as `set_low`, HIGH as `set_high`. */
  method Set(bus: Mmio, p: Pin, status: PinStatus)
    requires p.mode == Output && ValidPinId(p.id) && Pcntr1Address(p.id.port) in bus.regs
    modifies bus
    ensures status == Low ==> bus.regs == AndInto(old(bus.regs), Pcntr1Address(p.id.port), !OutputMask(p.id.pin))
    ensures status == High ==> bus.regs == OrInto(old(bus.regs), Pcntr1Address(p.id.port), OutputMask(p.id.pin))
    ensures DrivesHigh(bus.regs, p.id) <==> status == High
    ensures bus.trace == old(bus.trace) + [Read(Pcntr1Address(p.id.port), W32, old(bus.regs[Pcntr1Address(p.id.port)])),
                                           Write(Pcntr1Address(p.id.port), W32, bus.regs[Pcntr1Address(p.id.port)])]
    ensures WritesProtected(old(bus.trace)) ==> WritesProtected(bus.trace)
  {
    match status
    case Low => SetLow(bus, p);
    case High => SetHigh(bus, p);
  }

  /** `OutputPin::toggle`. */
  method Toggle(bus: Mmio, p: Pin)
    requires p.mode == Output && ValidPinId(p.id) && Pcntr1Address(p.id.port) in bus.regs
    modifies bus
    ensures bus.regs == XorInto(old(bus.regs), Pcntr1Address(p.id.port), OutputMask(p.id.pin))
    ensures DrivesHigh(bus.regs, p.id) == !DrivesHigh(old(bus.regs), p.id)
    ensures bus.trace == old(bus.trace) + [Read(Pcntr1Address(p.id.port), W32, old(bus.regs[Pcntr1Address(p.id.port)])),
                                           Write(Pcntr1Address(p.id.port), W32, bus.regs[Pcntr1Address(p.id.port)])]
    ensures WritesProtected(old(bus.trace)) ==> WritesProtected(bus.trace)
  {
    ghost var regs0, trace0 := bus.regs, bus.trace;
    TogglePinOutput(bus, p.id.port, p.id.pin);
    ToggleFlipsPin(regs0, p.id);
    if WritesProtected(trace0) {
      PortAccessesProtected(trace0, p.id.port, regs0[Pcntr1Address(p.id.port)], bus.regs[Pcntr1Address(p.id.port)]);
    }
  }

  /** The modes that implement `InputPin`. */
  predicate IsInputMode(m: PinMode)
  {
    m == Input || m == InputPullup
  }

  /** `InputPin::is_input_pullup`: false for an input pin, true for an input pin with pull-up. */
  function IsInputPullup(p: Pin): (r: bool)
    requires IsInputMode(p.mode)
    ensures r <==> p.mode == InputPullup
  {
    match p.mode
    case InputPullup => true
    case Input => false
  }

  /** `InputPin::is_high`. */
  method IsHigh(bus: Mmio, p: Pin) returns (b: bool)
    requires IsInputMode(p.mode) && ValidPinId(p.id) && Pcntr2Address(p.id.port) in bus.regs
    modifies bus`trace
    ensures b == ReadsHigh(bus.regs, p.id)
    ensures bus.trace == old(bus.trace) + [Read(Pcntr2Address(p.id.port), W32, bus.regs[Pcntr2Address(p.id.port)])]
    ensures WritesProtected(old(bus.trace)) ==> WritesProtected(bus.trace)
  {
    b := PinIsHigh(bus, p.id.port, p.id.pin);
    if WritesProtected(old(bus.trace)) {
      PortAccessesProtected(old(bus.trace), p.id.port, bus.regs[Pcntr2Address(p.id.port)], 0);
    }
  }

  /** `InputPin::is_low`: the negation of `is_high`. */
  method IsLow(bus: Mmio, p: Pin) returns (b: bool)
    requires IsInputMode(p.mode) && ValidPinId(p.id) && Pcntr2Address(p.id.port) in bus.regs
    modifies bus`trace
    ensures b == !ReadsHigh(bus.regs, p.id)
    ensures bus.trace == old(bus.trace) + [Read(Pcntr2Address(p.id.port), W32, bus.regs[Pcntr2Address(p.id.port)])]
    ensures WritesProtected(old(bus.trace)) ==> WritesProtected(bus.trace)
  {
    var high := IsHigh(bus, p);
    b := !high;
  }

  /** `InputPin::get_status`: HIGH exactly when `is_high`. */
  method GetStatus(bus: Mmio, p: Pin) returns (s: PinStatus)
    requires IsInputMode(p.mode) && ValidPinId(p.id) && Pcntr2Address(p.id.port) in bus.regs
    modifies bus`trace
    ensures s == High <==> ReadsHigh(bus.regs, p.id)
    ensures bus.trace == old(bus.trace) + [Read(Pcntr2Address(p.id.port), W32, bus.regs[Pcntr2Address(p.id.port)])]
    ensures WritesProtected(old(bus.trace)) ==> WritesProtected(bus.trace)
  {
    var high := IsHigh(bus, p);
    if high {
      s := High;
    } else {
      s := Low;
    }
  }
}

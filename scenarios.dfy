/** Whole-program runs of the model on a concrete board: the register file holds the registers
    the run touches, all initially 0. Each method's contract is the observable outcome. */
module Scenarios {
  import opened Wrappers
  import opened Registers
  import opened Pins
  import opened Ports
  import opened SystemTimer

  /** The registers one pin needs: PWPR, its function select and its port's two port-control
      registers, all 0. */
  function PinRegisters(id: PinId): (regs: RegisterFile)
    requires ValidPinId(id)
    ensures ConfigMapped(regs, id)
    ensures Pcntr1Address(id.port) in regs && Pcntr2Address(id.port) in regs
  {
    map[PWPR := 0, PfsrAddress(id) := 0, Pcntr1Address(id.port) := 0, Pcntr2Address(id.port) := 0]
  }

  /** The LED on D13: take the board pins, make D13 an output, drive it high and toggle it; it
      then reads back as driven low. */
  method LedToggle() returns (setHigh: bool)
    ensures !setHigh
  {
    var registry := new PortRegistry();
    var pins := registry.GetPins();
    var led := pins.value.Get(D13);
    var bus := new Mmio(PinRegisters(led.id));
    var out := IntoOutput(bus, led);
    SetHigh(bus, out);
    Toggle(bus, out);
    setHigh := IsSetHigh(bus, out);
  }

  /** D10 in pull-up input mode, whatever its port's input register `pcntr2` holds: the pin
      reports that mode, `is_high` is bit 3 of `pcntr2` (D10 is port 1 pin 3), and `is_low` is
      its negation. */
  method PullupInput(pcntr2: bv32) returns (pullup: bool, high: bool, low: bool)
    ensures pullup
    ensures high <==> pcntr2 & 0x8 != 0
    ensures low == !high
  {
    var registry := new PortRegistry();
    var pins := registry.GetPins();
    var button := pins.value.Get(D10);
    var regs := PinRegisters(button.id)[Pcntr2Address(button.id.port) := pcntr2];
    var bus := new Mmio(regs);
    var input := IntoInputPullup(bus, button);
    PortAddressesDistinct(button.id.port, button.id.port);
    pullup := IsInputPullup(input);
    high := IsHigh(bus, input);
    low := IsLow(bus, input);
  }

  /** `get_pins` hands the pins out once: the second call gets none. */
  method GetPinsTwice() returns (first: bool, second: bool)
    ensures first && !second
  {
    var registry := new PortRegistry();
    var a := registry.GetPins();
    var b := registry.GetPins();
    first, second := a.Some?, b.Some?;
  }

  /** The SysTick registers, all 0. */
  const SYSTICK_REGISTERS: RegisterFile := map[CSR := 0, RVR := 0, CVR := 0, CALIB := 0]

  /** Setting the reload value and reading it back gives its low 24 bits. */
  method ReloadValue(v: bv32) returns (r: bv32)
    ensures r == v & COUNT_MASK
    ensures IsCount(v) ==> r == v
  {
    var bus := new Mmio(SYSTICK_REGISTERS);
    var timer := new SysTick();
    ghost var before := bus.regs;
    timer.SetResetValue(bus, v);
    r := timer.GetResetValue(bus);
    ReloadRoundTrip(before, v, CSR);
  }

  /** Enabling the timer makes it report enabled; disabling it then leaves it disabled, with bit
      0 of CSR clear. */
  method EnableThenDisable() returns (afterEnable: bool, enabled: bool, bit: bool)
    ensures afterEnable
    ensures !enabled && !bit
  {
    var bus := new Mmio(SYSTICK_REGISTERS);
    var timer := new SysTick();
    timer.Enable(bus);
    afterEnable := timer.IsEnabled();
    timer.Disable(bus);
    enabled := timer.IsEnabled();
    bit := BitSet(bus.regs[CSR], ENABLE_BIT);
  }

  /** `SysTick::instance` as written: two calls both hand out a handle, and the handles are
      different objects, so two owners can drive the same timer. */
  method TwoInstancesAsWritten() returns (first: bool, second: bool, distinct: bool)
    ensures first && second && distinct
  {
    var registry := new SysTickRegistry();
    var a := registry.Instance();
    var b := registry.Instance();
    first, second := a.Some?, b.Some?;
    distinct := a.value != b.value;
  }

  /** `SysTick::instance` as documented: only the first call hands out a handle. */
  method TwoInstancesCorrected() returns (first: bool, second: bool)
    ensures first && !second
  {
    var registry := new SysTickRegistry();
    var a := registry.InstanceOnce();
    var b := registry.InstanceOnce();
    first, second := a.Some?, b.Some?;
  }
}

/** The SysTick timer of the Cortex-M4 core (section B3.3 of the ARMv7-M Architecture Reference
    Manual): a 24-bit down-counter with a control and status register, a reload value, the
    current value and a calibration value.

    The counting itself is done by hardware and is not modelled: the registers are plain
    entries of the register file, and each operation is the accesses it makes. */
module SystemTimer {
  import opened Wrappers
  import opened Registers

  /** Control and status register: bit 0 enables the counter, bit 16 is the count flag. */
  const CSR: nat := 0xE000_E010
  /** Reload value register: the low 24 bits are loaded when the counter reaches 0. */
  const RVR: nat := 0xE000_E014
  /** Current value register. */
  const CVR: nat := 0xE000_E018
  /** Calibration register: the low 24 bits are the number of ticks in 10 ms. */
  const CALIB: nat := 0xE000_E01C

  /** The low 24 bits, the width of the counter. */
  const COUNT_MASK: bv32 := 0x00FF_FFFF

  /** Bit 0 of CSR: the counter runs. */
  const ENABLE_BIT: bv5 := 0
  /** Bit 16 of CSR: the counter reached 0 since CSR was last read. */
  const COUNT_FLAG_BIT: bv5 := 16

  /** `v` fits in the 24-bit counter. */
  predicate IsCount(v: bv32)
  {
    v & !COUNT_MASK == 0
  }

  /** The four SysTick registers are word registers at word-aligned addresses. */
  lemma RegistersAligned()
    ensures Aligned(CSR, W32) && Aligned(RVR, W32) && Aligned(CVR, W32) && Aligned(CALIB, W32)
  {
  }

  /** Masking with `COUNT_MASK` gives a 24-bit value, leaves a 24-bit value unchanged, and
      masking twice is masking once. */
  lemma ClampToCount(v: bv32)
    ensures IsCount(v & COUNT_MASK)
    ensures IsCount(v) ==> v & COUNT_MASK == v
    ensures (v & COUNT_MASK) & COUNT_MASK == v & COUNT_MASK
  {
  }

  /** Reading back the reload value after `set_reset_value(v)` gives the low 24 bits of `v`,
      and `v` itself when it fits in 24 bits; no other register changes. */
  lemma ReloadRoundTrip(regs: RegisterFile, v: bv32, other: nat)
    requires RVR in regs
    ensures regs[RVR := v & COUNT_MASK][RVR] & COUNT_MASK == v & COUNT_MASK
    ensures IsCount(v) ==> regs[RVR := v & COUNT_MASK][RVR] & COUNT_MASK == v
    ensures other in regs && other != RVR ==> regs[RVR := v & COUNT_MASK][other] == regs[other]
  {
    ClampToCount(v);
  }

  /** Enabling or disabling the counter changes bit 0 of CSR and no other bit of it. */
  lemma EnableKeepsOtherControlBits(regs: RegisterFile, k: bv5)
    requires CSR in regs && k != ENABLE_BIT
    ensures BitSet(OrInto(regs, CSR, Bit(ENABLE_BIT))[CSR], k) == BitSet(regs[CSR], k)
    ensures BitSet(AndInto(regs, CSR, !Bit(ENABLE_BIT))[CSR], k) == BitSet(regs[CSR], k)
  {
  }

  /** `SysTick`: the timer handle. `enabled` records the last `enable` or `disable`. */
  class SysTick {
    var enabled: bool

    /** `SysTick::new`: a handle that has not enabled the timer. */
    constructor ()
      ensures !enabled
    {
      enabled := false;
    }

    /** `is_enabled`: whether the last of `enable` and `disable` called on this handle was
        `enable` (false before either). */
    function IsEnabled(): bool
      reads this
    {
      enabled
    }

    /** `get_ticks_per_10ms`: the low 24 bits of CALIB, by one read. */
    method GetTicksPer10ms(bus: Mmio) returns (t: bv32)
      requires CALIB in bus.regs
      modifies bus`trace
      ensures IsCount(t) && t == bus.regs[CALIB] & COUNT_MASK
      ensures bus.trace == old(bus.trace) + [Read(CALIB, W32, bus.regs[CALIB])]
    {
      RegistersAligned();
      var v := bus.ReadVolatile(CALIB, W32);
      t := v & COUNT_MASK;
      ClampToCount(v);
    }

    /** `enable`: set bit 0 of CSR by one read and one write; the handle records it. */
    method Enable(bus: Mmio)
      requires CSR in bus.regs
      modifies this, bus
      ensures IsEnabled()
      ensures bus.regs == OrInto(old(bus.regs), CSR, Bit(ENABLE_BIT))
      ensures BitSet(bus.regs[CSR], ENABLE_BIT)
      ensures bus.trace == old(bus.trace) + [Read(CSR, W32, old(bus.regs[CSR])), Write(CSR, W32, bus.regs[CSR])]
    {
      RegistersAligned();
      bus.VolatileOr(CSR, W32, Bit(ENABLE_BIT));
      OrIntoSetsBit(old(bus.regs), CSR, ENABLE_BIT);
      enabled := true;
    }

    /** `disable`: clear bit 0 of CSR by one read and one write; the handle records it. */
    method Disable(bus: Mmio)
      requires CSR in bus.regs
      modifies this, bus
      ensures !IsEnabled()
      ensures bus.regs == AndInto(old(bus.regs), CSR, !Bit(ENABLE_BIT))
      ensures !BitSet(bus.regs[CSR], ENABLE_BIT)
      ensures bus.trace == old(bus.trace) + [Read(CSR, W32, old(bus.regs[CSR])), Write(CSR, W32, bus.regs[CSR])]
    {
      RegistersAligned();
      bus.VolatileAnd(CSR, W32, !Bit(ENABLE_BIT));
      AndIntoClearsBit(old(bus.regs), CSR, ENABLE_BIT);
      enabled := false;
    }

    /** `timer_wrapped`: bit 16 of CSR, by one read. */
    method TimerWrapped(bus: Mmio) returns (w: bool)
      requires CSR in bus.regs
      modifies bus`trace
      ensures w == BitSet(bus.regs[CSR], COUNT_FLAG_BIT)
      ensures bus.trace == old(bus.trace) + [Read(CSR, W32, bus.regs[CSR])]
    {
      RegistersAligned();
      var v := bus.ReadVolatile(CSR, W32);
      w := BitSet(v, COUNT_FLAG_BIT);
    }

    /** `get_current_value`: CVR, by one read. */
    method GetCurrentValue(bus: Mmio) returns (v: bv32)
      requires CVR in bus.regs
      modifies bus`trace
      ensures v == bus.regs[CVR]
      ensures bus.trace == old(bus.trace) + [Read(CVR, W32, v)]
    {
      RegistersAligned();
      v := bus.ReadVolatile(CVR, W32);
    }

    /** `reset`: write 0 to CVR. */
    method Reset(bus: Mmio)
      requires CVR in bus.regs
      modifies bus
      ensures bus.regs == old(bus.regs)[CVR := 0]
      ensures bus.trace == old(bus.trace) + [Write(CVR, W32, 0)]
    {
      RegistersAligned();
      bus.WriteVolatile(CVR, W32, 0);
    }

    /** `set_reset_value`: write the low 24 bits of `v` to RVR; the top 8 bits are dropped. */
    method SetResetValue(bus: Mmio, v: bv32)
      requires RVR in bus.regs
      modifies bus
      ensures bus.regs == old(bus.regs)[RVR := v & COUNT_MASK]
      ensures IsCount(bus.regs[RVR])
      ensures bus.trace == old(bus.trace) + [Write(RVR, W32, v & COUNT_MASK)]
    {
      RegistersAligned();
      ClampToCount(v);
      bus.WriteVolatile(RVR, W32, v & COUNT_MASK);
    }

    /** `get_reset_value`: the low 24 bits of RVR, by one read. */
    method GetResetValue(bus: Mmio) returns (v: bv32)
      requires RVR in bus.regs
      modifies bus`trace
      ensures IsCount(v) && v == bus.regs[RVR] & COUNT_MASK
      ensures bus.trace == old(bus.trace) + [Read(RVR, W32, bus.regs[RVR])]
    {
      RegistersAligned();
      var r := bus.ReadVolatile(RVR, W32);
      v := r & COUNT_MASK;
      ClampToCount(r);
    }
  }

  /** The function-local static `SYSTICK_CREATED` behind `SysTick::instance`. */
  class SysTickRegistry {
    var created: bool

    /** At reset no handle has been created. */
    constructor ()
      ensures !created
    {
      created := false;
    }

    /** `SysTick::instance` as written: a new handle whenever the flag is clear, but the flag is
        never set, so every call returns a new handle. */
    method Instance() returns (r: Option<SysTick>)
      ensures r.Some? <==> !created
      ensures r.Some? ==> fresh(r.value) && !r.value.IsEnabled()
    {
      if !created {
        var t := new SysTick();
        r := Some(t);
      } else {
        r := None;
      }
    }

    /** `SysTick::instance` as its documentation promises: a new handle only on the first call,
        which sets the flag. */
    method InstanceOnce() returns (r: Option<SysTick>)
      modifies this
      ensures r.Some? <==> !old(created)
      ensures r.Some? ==> fresh(r.value) && !r.value.IsEnabled()
      ensures created
    {
      if !created {
        var t := new SysTick();
        created := true;
        r := Some(t);
      } else {
        r := None;
      }
    }
  }
}

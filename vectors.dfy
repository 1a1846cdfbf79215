/** The vector table after the reset vector: the fourteen system exceptions (vector numbers 2 to
    15) and the thirty-two external interrupts of the board (vector numbers 16 to 47), as laid
    out in section B1.5.3 of the ARMv7-M Architecture Reference Manual.

    An entry is either a reserved word of 0 or the address of the default handler; the handler
    itself, an infinite loop, is not modelled. */
module Vectors {

  /** One word of the vector table. */
  datatype VectorTableEntry = Reserved | Default

  /** The first vector number held in `EXCEPTIONS` (0 is the initial value of SP, 1 the reset
      vector). */
  const FIRST_EXCEPTION: nat := 2
  /** The first vector number of an external interrupt. */
  const FIRST_EXTERNAL: nat := 16
  /** The number of external interrupts of the RA4M1. */
  const NUM_EXTERNAL_INTERRUPTS: nat := 32

  /** `EXCEPTIONS`: NMI, HardFault, MemManage, BusFault, UsageFault, four reserved words, SVCall,
      DebugMonitor, one reserved word, PendSV and SysTick. */
  const EXCEPTIONS: seq<VectorTableEntry> := [
    Default, Default, Default, Default, Default,
    Reserved, Reserved, Reserved, Reserved,
    Default, Default,
    Reserved,
    Default, Default]

  /** The array expression `[e; n]`: `n` copies of `e`. */
  function Repeat(e: VectorTableEntry, n: nat): (r: seq<VectorTableEntry>)
    ensures |r| == n
    ensures forall i | 0 <= i < n :: r[i] == e
  {
    if n == 0 then [] else [e] + Repeat(e, n - 1)
  }

  /** `EXTERNAL_INTERRUPTS`: every external interrupt goes to the default handler. */
  const EXTERNAL_INTERRUPTS: seq<VectorTableEntry> := Repeat(Default, NUM_EXTERNAL_INTERRUPTS)

  /** The vector numbers below 16 that the architecture reserves. */
  predicate ArchReserved(v: nat)
  {
    7 <= v <= 10 || v == 13
  }

  /** The entry of the table for vector number `v`. */
  function VectorEntry(v: nat): (e: VectorTableEntry)
    requires FIRST_EXCEPTION <= v < FIRST_EXTERNAL + NUM_EXTERNAL_INTERRUPTS
    ensures e == Reserved <==> ArchReserved(v)
  {
    if v < FIRST_EXTERNAL then
      ExceptionSlot(v);
      EXCEPTIONS[v - FIRST_EXCEPTION]
    else
      EXTERNAL_INTERRUPTS[v - FIRST_EXTERNAL]
  }

  /** The slot of each system exception holds a reserved word exactly when the architecture
      reserves that vector number. */
  lemma ExceptionSlot(v: nat)
    requires FIRST_EXCEPTION <= v < FIRST_EXTERNAL
    ensures |EXCEPTIONS| == FIRST_EXTERNAL - FIRST_EXCEPTION
    ensures EXCEPTIONS[v - FIRST_EXCEPTION] == Reserved <==> ArchReserved(v)
  {
  }

  /** The two tables have the sizes the vector table layout fixes, and every external interrupt
      goes to the default handler. */
  lemma TableSizes()
    ensures |EXCEPTIONS| == 14 && |EXTERNAL_INTERRUPTS| == 32
    ensures forall i | 0 <= i < |EXTERNAL_INTERRUPTS| :: EXTERNAL_INTERRUPTS[i] == Default
  {
  }

  /** Exactly five of the system-exception slots are reserved: array indices 5 to 8 and 11. */
  lemma ReservedSlots(i: nat)
    requires i < |EXCEPTIONS|
    ensures EXCEPTIONS[i] == Reserved <==> (5 <= i <= 8 || i == 11)
  {
    ExceptionSlot(i + FIRST_EXCEPTION);
  }
}

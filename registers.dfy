/** The volatile register primitives every peripheral is built on.

    Memory-mapped hardware registers are a map from address to register contents, held by an
    `Mmio` object together with the log of every volatile access made so far. The three
    read-modify-write operations read the addressed register once, combine the value with a
    mask, and write the result back once. */
module Registers {

  /** The register types the primitives support: `u8`, `u16` and `u32`. */
  datatype Width = W8 | W16 | W32

  /** Size in bytes of a register of width `w`. */
  function Bytes(w: Width): nat
  {
    match w
    case W8 => 1
    case W16 => 2
    case W32 => 4
  }

  /** The bits of a 32-bit word that lie above a register of width `w`. */
  function HighBits(w: Width): bv32
  {
    match w
    case W8 => 0xFFFF_FF00
    case W16 => 0xFFFF_0000
    case W32 => 0
  }

  /** The word with only bit `k` set. Bit indices are five-bit numbers, 0 to 31. */
  function Bit(k: bv5): bv32
  {
    1 << k
  }

  /** Bit `k` of `x` is set. */
  predicate BitSet(x: bv32, k: bv5)
  {
    x & Bit(k) != 0
  }

  /** `v` is a value of the register type of width `w`: no bit above the width is set. */
  predicate Fits(w: Width, v: bv32)
  {
    v & HighBits(w) == 0
  }

  /** A volatile access of width `w` at `addr` must be aligned to the size of the access. */
  predicate Aligned(addr: nat, w: Width)
  {
    addr % Bytes(w) == 0
  }

  /** One volatile access, as the bus sees it. */
  datatype Access =
    | Read(addr: nat, width: Width, value: bv32)
    | Write(addr: nat, width: Width, value: bv32)

  /** Contents of the memory-mapped registers, by address. */
  type RegisterFile = map<nat, bv32>

  /** The register file after OR-ing `mask` into the register at `addr`. */
  function OrInto(regs: RegisterFile, addr: nat, mask: bv32): RegisterFile
    requires addr in regs
  {
    regs[addr := regs[addr] | mask]
  }

  /** The register file after AND-ing `mask` into the register at `addr`. */
  function AndInto(regs: RegisterFile, addr: nat, mask: bv32): RegisterFile
    requires addr in regs
  {
    regs[addr := regs[addr] & mask]
  }

  /** The register file after XOR-ing `mask` into the register at `addr`. */
  function XorInto(regs: RegisterFile, addr: nat, mask: bv32): RegisterFile
    requires addr in regs
  {
    regs[addr := regs[addr] ^ mask]
  }

  /** Each primitive touches only the addressed register: every other register keeps its
      value, and no register appears or disappears. */
  lemma PrimitivesTouchOnlyAddressed(regs: RegisterFile, addr: nat, mask: bv32, other: nat)
    requires addr in regs && other in regs && other != addr
    ensures OrInto(regs, addr, mask).Keys == regs.Keys && OrInto(regs, addr, mask)[other] == regs[other]
    ensures AndInto(regs, addr, mask).Keys == regs.Keys && AndInto(regs, addr, mask)[other] == regs[other]
    ensures XorInto(regs, addr, mask).Keys == regs.Keys && XorInto(regs, addr, mask)[other] == regs[other]
  {
  }

  /** The bit facts above, for the register at `addr` of a register file. */
  lemma OrIntoSetsBit(regs: RegisterFile, addr: nat, a: bv5)
    requires addr in regs
    ensures BitSet(OrInto(regs, addr, Bit(a))[addr], a)
  {
  }

  lemma AndIntoClearsBit(regs: RegisterFile, addr: nat, a: bv5)
    requires addr in regs
    ensures !BitSet(AndInto(regs, addr, !Bit(a))[addr], a)
  {
  }

  lemma XorIntoFlipsBit(regs: RegisterFile, addr: nat, a: bv5)
    requires addr in regs
    ensures BitSet(XorInto(regs, addr, Bit(a))[addr], a) == !BitSet(regs[addr], a)
  {
  }

  lemma OrIntoKeepsOtherBit(regs: RegisterFile, addr: nat, a: bv5, b: bv5)
    requires addr in regs && a != b
    ensures BitSet(OrInto(regs, addr, Bit(a))[addr], b) == BitSet(regs[addr], b)
  {
  }

  lemma AndIntoKeepsOtherBit(regs: RegisterFile, addr: nat, a: bv5, b: bv5)
    requires addr in regs && a != b
    ensures BitSet(AndInto(regs, addr, !Bit(a))[addr], b) == BitSet(regs[addr], b)
  {
  }

  lemma XorIntoKeepsOtherBit(regs: RegisterFile, addr: nat, a: bv5, b: bv5)
    requires addr in regs && a != b
    ensures BitSet(XorInto(regs, addr, Bit(a))[addr], b) == BitSet(regs[addr], b)
  {
  }

  /** OR-ing the same mask twice is the same as OR-ing it once. */
  lemma OrIntoIdempotent(regs: RegisterFile, addr: nat, mask: bv32)
    requires addr in regs
    ensures OrInto(OrInto(regs, addr, mask), addr, mask) == OrInto(regs, addr, mask)
  {
  }

  /** AND-ing the same mask twice is the same as AND-ing it once. */
  lemma AndIntoIdempotent(regs: RegisterFile, addr: nat, mask: bv32)
    requires addr in regs
    ensures AndInto(AndInto(regs, addr, mask), addr, mask) == AndInto(regs, addr, mask)
  {
  }

  /** XOR-ing the same mask twice restores the original register file. */
  lemma XorIntoInvolutive(regs: RegisterFile, addr: nat, mask: bv32)
    requires addr in regs
    ensures XorInto(XorInto(regs, addr, mask), addr, mask) == regs
  {
    XorIntoRestoresEach(regs, addr, mask);
  }

  lemma XorIntoRestoresEach(regs: RegisterFile, addr: nat, mask: bv32)
    requires addr in regs
    ensures XorInto(XorInto(regs, addr, mask), addr, mask).Keys == regs.Keys
    ensures forall a | a in regs :: XorInto(XorInto(regs, addr, mask), addr, mask)[a] == regs[a]
  {
    XorTwice(regs[addr], mask);
  }

  lemma XorTwice(x: bv32, mask: bv32)
    ensures (x ^ mask) ^ mask == x
  {
  }

  /** Combining two values of a register type gives a value of that type again
      (for AND, one operand of the type suffices). */
  lemma CombineKeepsWidth(w: Width, x: bv32, mask: bv32)
    ensures Fits(w, x) && Fits(w, mask) ==> Fits(w, x | mask) && Fits(w, x ^ mask)
    ensures Fits(w, x) ==> Fits(w, x & mask)
  {
    ClearBitsClosed(HighBits(w), x, mask);
  }

  lemma ClearBitsClosed(high: bv32, x: bv32, mask: bv32)
    ensures x & high == 0 && mask & high == 0 ==> (x | mask) & high == 0 && (x ^ mask) & high == 0
    ensures x & high == 0 ==> (x & mask) & high == 0
  {
  }

  /** The memory-mapped register space and the log of volatile accesses made to it. */
  class Mmio {
    var regs: RegisterFile
    var trace: seq<Access>

    constructor (initial: RegisterFile)
      ensures regs == initial && trace == []
    {
      regs := initial;
      trace := [];
    }

    /** `read_volatile`: one logged read of the register at `addr`. */
    method ReadVolatile(addr: nat, w: Width) returns (v: bv32)
      requires addr in regs && Aligned(addr, w)
      modifies this`trace
      ensures v == regs[addr]
      ensures trace == old(trace) + [Read(addr, w, v)]
    {
      v := regs[addr];
      trace := trace + [Read(addr, w, v)];
    }

    /** `write_volatile`: one logged write of `v` to the register at `addr`. */
    method WriteVolatile(addr: nat, w: Width, v: bv32)
      requires addr in regs && Aligned(addr, w) && Fits(w, v)
      modifies this
      ensures regs == old(regs)[addr := v]
      ensures trace == old(trace) + [Write(addr, w, v)]
    {
      regs := regs[addr := v];
      trace := trace + [Write(addr, w, v)];
    }

    /** `volatile_or`: the register becomes its old value OR `mask`, by one read then one write. */
    method VolatileOr(addr: nat, w: Width, mask: bv32)
      requires addr in regs && Aligned(addr, w) && Fits(w, regs[addr]) && Fits(w, mask)
      modifies this
      ensures regs == OrInto(old(regs), addr, mask)
      ensures trace == old(trace) + [Read(addr, w, old(regs[addr])), Write(addr, w, regs[addr])]
      ensures Fits(w, regs[addr])
    {
      var v := ReadVolatile(addr, w);
      CombineKeepsWidth(w, v, mask);
      WriteVolatile(addr, w, v | mask);
    }

    /** `volatile_and`: the register becomes its old value AND `mask`, by one read then one write. */
    method VolatileAnd(addr: nat, w: Width, mask: bv32)
      requires addr in regs && Aligned(addr, w) && Fits(w, regs[addr]) && Fits(w, mask)
      modifies this
      ensures regs == AndInto(old(regs), addr, mask)
      ensures trace == old(trace) + [Read(addr, w, old(regs[addr])), Write(addr, w, regs[addr])]
      ensures Fits(w, regs[addr])
    {
      var v := ReadVolatile(addr, w);
      CombineKeepsWidth(w, v, mask);
      WriteVolatile(addr, w, v & mask);
    }

    /** `volatile_xor`: the register becomes its old value XOR `mask`, by one read then one write. */
    method VolatileXor(addr: nat, w: Width, mask: bv32)
      requires addr in regs && Aligned(addr, w) && Fits(w, regs[addr]) && Fits(w, mask)
      modifies this
      ensures regs == XorInto(old(regs), addr, mask)
      ensures trace == old(trace) + [Read(addr, w, old(regs[addr])), Write(addr, w, regs[addr])]
      ensures Fits(w, regs[addr])
    {
      var v := ReadVolatile(addr, w);
      CombineKeepsWidth(w, v, mask);
      WriteVolatile(addr, w, v ^ mask);
    }
  }
}

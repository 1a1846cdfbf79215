/** Start-up of the runtime: the reset handler initialises RAM (zero the `.bss` section, then
    copy the initial values of the `.data` section from flash) and then enters the program's
    main function.

    Memory is one byte array indexed by address; the five section boundaries the linker
    script defines are the fields of a `RamLayout`. */
module Boot {

  /** The linker symbols `_sbss`, `_ebss`, `_sdata`, `_edata` and `_sidata`, as addresses. */
  datatype RamLayout = RamLayout(sbss: nat, ebss: nat, sdata: nat, edata: nat, sidata: nat)
  {
    /** Number of bytes of `.bss`: `ebss - sbss`. */
    function BssCount(): nat
      requires sbss <= ebss
    {
      ebss - sbss
    }

    /** Number of bytes of `.data`: `edata - sdata`. */
    function DataCount(): nat
      requires sdata <= edata
    {
      edata - sdata
    }
  }

  /** The copy of `count` bytes from `src` to `dst` reads no byte it writes. */
  predicate NonOverlapping(src: nat, dst: nat, count: nat)
  {
    src + count <= dst || dst + count <= src
  }

  /** What the start-up code needs of the layout: both sections are well-formed ranges of a
      memory of `size` bytes, the initial values fit in memory, and the copy's source and
      destination do not overlap (the condition `copy_nonoverlapping` states). */
  predicate ValidLayout(l: RamLayout, size: nat)
  {
    l.sbss <= l.ebss <= size
    && l.sdata <= l.edata <= size
    && l.sidata + (l.edata - l.sdata) <= size
    && NonOverlapping(l.sidata, l.sdata, l.edata - l.sdata)
  }

  /** `m` with the `count` bytes from `dst` set to `v`. */
  function Fill(m: seq<bv8>, dst: nat, count: nat, v: bv8): seq<bv8>
    requires dst + count <= |m|
  {
    seq(|m|, j requires 0 <= j < |m| => if dst <= j < dst + count then v else m[j])
  }

  /** `m` with the `count` bytes from `src` copied to `dst`. */
  function Copy(m: seq<bv8>, src: nat, dst: nat, count: nat): seq<bv8>
    requires src + count <= |m| && dst + count <= |m|
  {
    seq(|m|, j requires 0 <= j < |m| => if dst <= j < dst + count then m[src + (j - dst)] else m[j])
  }

  /** Memory after `initialize_ram`: first `.bss` is zeroed, then `.data` is copied. */
  function InitializedRam(m: seq<bv8>, l: RamLayout): seq<bv8>
    requires ValidLayout(l, |m|)
  {
    Copy(Fill(m, l.sbss, l.BssCount(), 0), l.sidata, l.sdata, l.DataCount())
  }

  /** After initialisation every `.bss` byte that is not also a `.data` byte is 0. */
  lemma BssZeroed(m: seq<bv8>, l: RamLayout, i: nat)
    requires ValidLayout(l, |m|)
    requires l.sbss <= i < l.ebss && !(l.sdata <= i < l.edata)
    ensures InitializedRam(m, l)[i] == 0
  {
  }

  /** After initialisation byte `k` of `.data` holds byte `k` of the initial values, as they
      were after `.bss` was zeroed: the original byte, or 0 where the initial values lie
      inside `.bss`. */
  lemma DataCopied(m: seq<bv8>, l: RamLayout, k: nat)
    requires ValidLayout(l, |m|)
    requires k < l.edata - l.sdata
    ensures InitializedRam(m, l)[l.sdata + k] == if l.sbss <= l.sidata + k < l.ebss then 0 else m[l.sidata + k]
  {
  }

  /** Initialisation changes no byte outside `.bss` and `.data`, nor the size of memory. */
  lemma OthersUnchanged(m: seq<bv8>, l: RamLayout, i: nat)
    requires ValidLayout(l, |m|)
    requires i < |m| && !(l.sbss <= i < l.ebss) && !(l.sdata <= i < l.edata)
    ensures |InitializedRam(m, l)| == |m|
    ensures InitializedRam(m, l)[i] == m[i]
  {
  }

  /** With both sections empty, initialisation changes nothing. */
  lemma EmptySectionsNoop(m: seq<bv8>, l: RamLayout)
    requires ValidLayout(l, |m|) && l.sbss == l.ebss && l.sdata == l.edata
    ensures InitializedRam(m, l) == m
  {
  }

  /** `ptr::write_bytes`: set `count` bytes from `dst` to `v`, one byte at a time. */
  method WriteBytes(mem: array<bv8>, dst: nat, v: bv8, count: nat)
    requires dst + count <= mem.Length
    modifies mem
    ensures mem[..] == Fill(old(mem[..]), dst, count, v)
  {
    var i := 0;
    while i < count
      invariant i <= count
      invariant forall j | 0 <= j < mem.Length :: mem[j] == if dst <= j < dst + i then v else old(mem[j])
    {
      mem[dst + i] := v;
      i := i + 1;
    }
  }

  /** `ptr::copy_nonoverlapping`: copy `count` bytes from `src` to `dst`, one byte at a time. */
  method CopyNonoverlapping(mem: array<bv8>, src: nat, dst: nat, count: nat)
    requires src + count <= mem.Length && dst + count <= mem.Length
    requires NonOverlapping(src, dst, count)
    modifies mem
    ensures mem[..] == Copy(old(mem[..]), src, dst, count)
  {
    var i := 0;
    while i < count
      invariant i <= count
      invariant forall j | 0 <= j < mem.Length ::
        mem[j] == if dst <= j < dst + i then old(mem[src + (j - dst)]) else old(mem[j])
    {
      mem[dst + i] := mem[src + i];
      i := i + 1;
    }
  }

  /** `initialize_ram`: zero `.bss`, then copy `.data`. */
  method InitializeRam(mem: array<bv8>, l: RamLayout)
    requires ValidLayout(l, mem.Length)
    modifies mem
    ensures mem[..] == InitializedRam(old(mem[..]), l)
  {
    WriteBytes(mem, l.sbss, 0, l.BssCount());
    CopyNonoverlapping(mem, l.sidata, l.sdata, l.DataCount());
  }

  /** `Reset`: initialise RAM, then hand over to `__main`, which never returns. The result is
      the memory `__main` starts with. */
  method Reset(mem: array<bv8>, l: RamLayout) returns (atMain: seq<bv8>)
    requires ValidLayout(l, mem.Length)
    modifies mem
    ensures atMain == mem[..] == InitializedRam(old(mem[..]), l)
  {
    InitializeRam(mem, l);
    atMain := mem[..];
  }
}

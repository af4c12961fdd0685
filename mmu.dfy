// The x86 32-bit paging constants the monitor uses (inc/mmu.h is not part
// of this model; the values are those of section 4.3 of the Intel 64 and
// IA-32 Architectures Software Developer's Manual, Volume 3A).

module Mmu {
  import opened Chars

  const PTE_P: bv32 := 0x1    // present
  const PTE_W: bv32 := 0x2    // writable
  const PTE_U: bv32 := 0x4    // user-accessible
  const PTE_PS: bv32 := 0x80  // page size: a 4 MiB page directly in the directory

  const PGSIZE: int := 4096          // bytes mapped by one page-table entry
  const PTSIZE: int := 0x40_0000     // bytes mapped by one page-directory entry
  const NPDENTRIES: int := 1024

  /** Page-directory index of `va`: bits 31..22, i.e. (va >> 22) & 0x3FF. */
  function PDX(va: u32): (i: int)
    ensures 0 <= i < NPDENTRIES
    ensures i * PTSIZE <= va < (i + 1) * PTSIZE
  {
    va / PTSIZE
  }

  /** The frame address held in an entry: the entry with its low 12 flag bits cleared. */
  function PteAddr(e: bv32): (a: bv32)
    ensures a & 0xFFF == 0
    ensures (a ^ e) & 0xFFFF_F000 == 0
  {
    e & 0xFFFF_F000
  }
}

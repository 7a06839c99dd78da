/**
  Demand paging with swap: do_swap (mm/vmm.c), swap_in and swap_out (mm/swap.c), and the
  parts of alloc_page, get_pte and map (mm/pmm.c) on their path.
 */
module Swap {
  import opened Memory
  import opened Slots
  import opened SwapDisk

  const ENTRIES: nat := 1024           // entries of a directory or of a page table

  /**
    The page directory as raw entries, physical memory by frame, the swap disk by sector,
    vm_fifo as frame numbers, page->va by frame, the frames alloc_page may hand out, and
    the directory entries whose address range is paged.
   */
  datatype Mm = Mm(dir: seq<Word>, ram: seq<Frame>, disk: seq<Sector>, fifo: seq<nat>, va: seq<Word>, free: set<nat>,
                   user: set<nat>)

  ghost predicate Shape(s: Mm) {
    && |s.dir| == ENTRIES && |s.ram| == |s.va| <= PAGES && |s.disk| == SECTORS
    && (forall k :: 0 <= k < |s.fifo| ==> s.fifo[k] < |s.ram|)
    && forall d :: d in s.user ==> d < ENTRIES
  }

  function SetFrame(s: Mm, f: nat, page: Frame): Mm
    requires f < |s.ram|
  {
    Mm(s.dir, s.ram[f := page], s.disk, s.fifo, s.va, s.free, s.user)
  }

  // ---------------------------------------------------------------------
  // Page tables
  // ---------------------------------------------------------------------

  predicate HasTable(s: Mm, v: nat)
    requires |s.dir| == ENTRIES && v < PAGES
  {
    Present(s.dir[v / ENTRIES]) && PageAddr(s.dir[v / ENTRIES]) < |s.ram|
  }

  function Table(s: Mm, v: nat): nat
    requires |s.dir| == ENTRIES && v < PAGES
  {
    PageAddr(s.dir[v / ENTRIES])
  }

  /** *get_pte(v): the entry for page v, 0 where there is no table. */
  function Pte(s: Mm, v: nat): Word
    requires |s.dir| == ENTRIES && v < PAGES
  {
    if HasTable(s, v) then s.ram[Table(s, v)][v % ENTRIES] else 0
  }

  function SetPte(s: Mm, v: nat, p: Word): Mm
    requires |s.dir| == ENTRIES && v < PAGES
  {
    if HasTable(s, v) then SetFrame(s, Table(s, v), s.ram[Table(s, v)][v % ENTRIES := p]) else s
  }

  // ---------------------------------------------------------------------
  // Eviction and allocation
  // ---------------------------------------------------------------------

  /** swap_write: frame f to the slot of its page. */
  function WriteOut(s: Mm, f: nat): Mm
    requires Shape(s) && f < |s.ram|
  {
    Mm(s.dir, s.ram, WritePage(s.disk, WriteSector(s.va[f]), s.ram[f]), s.fifo, s.va, s.free, s.user)
  }

  /** The page in frame f becomes a slot. */
  function ToSlot(s: Mm, f: nat): Mm
    requires Shape(s) && f < |s.ram|
  {
    SetPte(WriteOut(s, f), s.va[f] / 4096, SlotPte(s.va[f]))
  }

  function DropFirst(s: Mm): Mm
    requires s.fifo != []
  {
    Mm(s.dir, s.ram, s.disk, s.fifo[1..], s.va, s.free + {s.fifo[0]}, s.user)
  }

  /** swap_out(mm, 1): the oldest resident page goes to its slot and its frame is free again. */
  function Evict(s: Mm): Mm
    requires Shape(s)
  {
    if s.fifo == [] then s else DropFirst(ToSlot(s, s.fifo[0]))
  }

  function Taken(s: Mm, f: nat): Mm {
    Mm(s.dir, s.ram, s.disk, s.fifo, s.va, s.free - {f}, s.user)
  }

  /** alloc_page(1) handing out frame f, with its eviction hook. */
  function Alloc(s: Mm, f: nat): Mm
    requires Shape(s)
  {
    Evict(Taken(s, f))
  }

  /** get_pte(v, 1): a zeroed table in frame t behind the directory entry, if there is none yet. */
  function NewTable(s: Mm, v: nat, t: nat): Mm
    requires Shape(s) && v < PAGES && t < |s.ram|
  {
    Mm(s.dir[v / ENTRIES := t * 4096 + 7], s.ram[t := ZeroPage()], s.disk, s.fifo, s.va, s.free, s.user)
  }

  function WithTable(s: Mm, v: nat, t: nat): Mm
    requires Shape(s) && v < PAGES && t < |s.ram|
  {
    if Present(s.dir[v / ENTRIES]) then s else NewTable(Alloc(s, t), v, t)
  }

  // ---------------------------------------------------------------------
  // The fault
  // ---------------------------------------------------------------------

  /** map(v, f, bits) on an entry that is not present. */
  function SetEntry(s: Mm, v: nat, f: nat, bits: nat): Mm
    requires |s.dir| == ENTRIES && v < PAGES && f < PAGES && bits < 512
  {
    SetPte(s, v, WithPageAddr(WithSign(Pte(s, v), bits), f))
  }

  /** page->va = v and the append to vm_fifo. */
  function AddLast(s: Mm, v: nat, f: nat): Mm
    requires v < PAGES && f < |s.va|
  {
    Mm(s.dir, s.ram, s.disk, s.fifo + [f], s.va[f := v * 4096], s.free, s.user)
  }

  function MapPage(s: Mm, v: nat, f: nat, bits: nat): Mm
    requires Shape(s) && v < PAGES && f < |s.ram| && bits < 512
  {
    AddLast(SetEntry(s, v, f, bits), v, f)
  }

  /** The page in the slot that an entry names. */
  function InSlot(s: Mm, p: Word): Frame
    requires |s.disk| == SECTORS
  {
    ReadPage(s.disk, ReadSector(p))
  }

  /** The never-mapped branch of do_swap: the new page keeps whatever the frame held. */
  function FirstTouch(s: Mm, v: nat, f: nat): Mm
    requires Shape(s) && v < PAGES && f < |s.ram|
  {
    MapPage(Alloc(s, f), v, f, 5)
  }

  /** swap_read: the slot named by the entry of page v into frame f. */
  function ReadIn(s: Mm, v: nat, f: nat): Mm
    requires Shape(s) && v < PAGES && f < |s.ram|
  {
    SetFrame(s, f, InSlot(s, Pte(s, v)))
  }

  function SwapIn(s: Mm, v: nat, f: nat): Mm
    requires Shape(s) && v < PAGES && f < |s.ram|
  {
    MapPage(ReadIn(Alloc(s, f), v, f), v, f, 7)
  }

  function Bring(s: Mm, v: nat, f: nat): Mm
    requires Shape(s) && v < PAGES && f < |s.ram|
  {
    if LooksUnmapped(Pte(s, v)) then FirstTouch(s, v, f) else SwapIn(s, v, f)
  }

  /** do_swap past its checks, given the frames t and f that its allocations return. */
  function Fault(s: Mm, v: nat, t: nat, f: nat): Mm
    requires Shape(s) && v < PAGES && t < |s.ram| && f < |s.ram|
  {
    Bring(WithTable(s, v, t), v, f)
  }
}

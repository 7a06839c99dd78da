/**
  Raw page-table entries and swap slots (include/pmm.h, mm/swap.c): a 32-bit entry
  with fields sign:9, os:3 and page_addr:20, and the sector a swapped page goes to.
 */
module Slots {
  import opened Memory

  const PAGES: nat := 0x10_0000        // virtual page numbers
  const SECTORS: nat := 0x80_0000      // sectors a u32 byte offset can name
  const PAGE_SECTORS: nat := 8         // PAGE_SIZE / SECTSIZE

  function Sign(p: Word): nat { p % 512 }

  function Os(p: Word): nat { p / 512 % 8 }

  function PageAddr(p: Word): nat { p / 4096 }

  /** pte->sign = b. */
  function WithSign(p: Word, b: nat): Word
    requires b < 512
  {
    p - p % 512 + b
  }

  /** pte->page_addr = a. */
  function WithPageAddr(p: Word, a: nat): Word
    requires a < PAGES
  {
    a * 4096 + p % 4096
  }

  predicate Present(p: Word) { Sign(p) % 2 == 1 }

  /** The test for a page that was never mapped (mm/vmm.c:183). */
  predicate LooksUnmapped(p: Word) { PageAddr(p) == 0 && Sign(p) == 0 }

  /** The three fields of a word, and nothing else, make it up. */
  lemma FieldsOf(p: Word, a: nat, o: nat, b: nat)
    requires b < 512 && o < 8
    ensures p == a * 4096 + o * 512 + b <==> PageAddr(p) == a && Os(p) == o && Sign(p) == b
  {
    var x := p / 512;
    assert p == x * 512 + p % 512 && x == (x / 8) * 8 + x % 8;
    assert p / 4096 == x / 8;
    if p == a * 4096 + o * 512 + b {
      assert p == (a * 8 + o) * 512 + b;
      assert x == a * 8 + o;
    }
  }

  /** Writing sign and page_addr leaves the os bits alone. */
  lemma FieldsAreIndependent(p: Word, b: nat, a: nat)
    requires b < 512 && a < PAGES
    ensures var q := WithPageAddr(WithSign(p, b), a);
            Sign(q) == b && Os(q) == Os(p) && PageAddr(q) == a
  {
    var r := WithSign(p, b);
    FieldsOf(p, PageAddr(p), Os(p), Sign(p));
    FieldsOf(r, PageAddr(p), Os(p), b);
    FieldsOf(WithPageAddr(r, a), a, Os(p), b);
    assert r % 4096 == Os(p) * 512 + b;
  }

  /** The same in numbers. */
  lemma EntryBits(p: Word, b: nat, a: nat)
    requires b < 512 && a < PAGES
    ensures var q := WithPageAddr(WithSign(p, b), a);
            q % 512 == b && q / 512 % 8 == p / 512 % 8 && q / 4096 == a
  {
    FieldsAreIndependent(p, b, a);
  }

  lemma PresentBit(p: Word)
    ensures Present(p) <==> p % 2 == 1
  {
    assert p == 2 * (256 * (p / 512)) + p % 512;
  }

  // ---------------------------------------------------------------------
  // Slots
  // ---------------------------------------------------------------------

  /** The entry swap_out leaves for the page at va. */
  function SlotPte(va: Word): Word { (va / 4096 + 1) * 256 % WORDS }

  /** x * PAGE_SIZE / SECTSIZE in u32 arithmetic. */
  function SectorOf(x: nat): (r: nat)
    ensures r == PAGE_SECTORS * (x % PAGES) && r + PAGE_SECTORS <= SECTORS
  {
    assert x * 4096 == (x / PAGES) * WORDS + (x % PAGES) * 4096;
    assert x * 4096 % WORDS == (x % PAGES) * 4096;
    x * 4096 % WORDS / 512
  }

  /** The sector swap_out writes to. */
  function WriteSector(va: Word): nat { SectorOf(va / 4096 + 1) }

  /** The sector swap_read decodes from an entry. */
  function ReadSector(p: Word): nat { SectorOf(p / 256) }

  /** What is written is what is read back, for every page, the wrapping last one included. */
  lemma SlotRoundTrip(va: Word)
    ensures ReadSector(SlotPte(va)) == WriteSector(va)
    ensures WriteSector(va) == if va / 4096 == PAGES - 1 then 0 else PAGE_SECTORS * (va / 4096 + 1)
    ensures ReadSector(SlotPte(va)) + PAGE_SECTORS <= SECTORS
  {
    var v := va / 4096;
    assert SlotPte(va) == (v + 1) * 256;
    assert SlotPte(va) / 256 == v + 1;
  }

  predicate SectorsApart(a: nat, b: nat) { a + PAGE_SECTORS <= b || b + PAGE_SECTORS <= a }

  /** Different pages use disjoint sectors even though the multiplication wraps. */
  lemma SlotsDisjoint(va: Word, vb: Word)
    ensures va / 4096 != vb / 4096 <==> SectorsApart(WriteSector(va), WriteSector(vb))
  {
    SlotRoundTrip(va);
    SlotRoundTrip(vb);
  }

  /** A slot is never present, and two pages never share one. */
  lemma SlotNeverPresent(va: Word, vb: Word)
    ensures !Present(SlotPte(va)) && SlotPte(va) != 0
    ensures SlotPte(va) == SlotPte(vb) <==> va / 4096 == vb / 4096
  {
    assert SlotPte(va) == (va / 4096 + 1) * 256;
    assert SlotPte(vb) == (vb / 4096 + 1) * 256;
  }

  /** Where the slot bits are visible to the never-mapped test. */
  predicate Distinguishable(v: nat) { (v + 1) % 2 == 1 || v + 1 >= 16 }

  /** The never-mapped test sees a slot exactly when page + 1 is odd or at least 16. */
  lemma SlotSeenExactly(va: Word)
    ensures !LooksUnmapped(SlotPte(va)) <==> Distinguishable(va / 4096)
    ensures Distinguishable(va / 4096) <==> va / 4096 !in {1, 3, 5, 7, 9, 11, 13}
  {
    var v := va / 4096;
    assert SlotPte(va) == (v + 1) * 256;
    assert PageAddr(SlotPte(va)) == 0 <==> v + 1 < 16;
    if (v + 1) % 2 == 0 {
      assert (v + 1) * 256 == (v + 1) / 2 * 512;
    } else {
      assert (v + 1) * 256 == (v + 1) / 2 * 512 + 256;
    }
  }
}

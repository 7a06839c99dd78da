/**
  Page pointers and page addresses in 32-bit arithmetic (mm/pmm.c). alloc_page returns
  the pointer of a struct Page plus 0xC0000000, other code uses it without; both work.
 */
module PagePointers {
  import opened Memory

  const VIRTUAL: int := 0xC000_0000    // VERTUAL_MEM
  const STRUCT_SIZE: int := 24         // sizeof(struct Page)
  const MAX_PAGES: int := 30000        // MAX_PAGE_NUM

  type Address = a: int | 0 <= a < WORDS

  predicate Congruent(x: int, y: int) { (x - y) % WORDS == 0 }

  /** A value of page - pages: times the size of the struct it gives the distance in bytes, modulo 2^32. */
  predicate Index(pages: Address, page: Address, q: int) { Congruent(STRUCT_SIZE * q, page - pages) }

  /** &pages[i]. */
  function Pointer(pages: Address, i: nat): Address { (pages + STRUCT_SIZE * i) % WORDS }

  /** The same pointer as alloc_page returns it. */
  function Alias(page: Address): Address { (page + VIRTUAL) % WORDS }

  /** pg_to_addr_pa and pg_to_addr_la, given the value q of page - pages. */
  function ToPhysical(begin: Address, q: int): Address { (q * PAGE_SIZE + begin) % WORDS }

  function ToLinear(begin: Address, q: int): Address { (q * PAGE_SIZE + begin + VIRTUAL) % WORDS }

  /** pa_addr_to_pg and la_addr_to_pg. */
  function FromPhysical(pages: Address, begin: Address, a: Address): Address {
    (pages + STRUCT_SIZE * ((a - begin) % WORDS / PAGE_SIZE)) % WORDS
  }

  function FromLinear(pages: Address, begin: Address, a: Address): Address {
    (pages + STRUCT_SIZE * ((a - VIRTUAL - begin) % WORDS / PAGE_SIZE)) % WORDS
  }

  lemma Multiple(x: int, k: int)
    requires x == WORDS * k
    ensures x % WORDS == 0
  {
  }

  lemma Factor(x: int)
    requires x % WORDS == 0
    ensures x == WORDS * (x / WORDS)
  {
  }

  lemma SameResidue(x: int, y: int)
    requires Congruent(x, y)
    ensures x % WORDS == y % WORDS
  {
    Factor(x - y);
    assert x == y + WORDS * ((x - y) / WORDS);
  }

  /** 3 divides k, as it does not divide 2^29 == 3 * 0xAAA_AAAA + 2. */
  lemma ThirdOf(x: int, k: int) returns (t: int)
    requires 3 * x == 0x2000_0000 * k
    ensures k == 3 * t && x == 0x2000_0000 * t
  {
    t := k - (x - 0xAAA_AAAA * k);
  }

  /** The offset does not depend on which quotient the division gives, nor on the alias. */
  lemma OffsetOf(q: int, i: int, aliased: bool)
    requires Congruent(STRUCT_SIZE * q, STRUCT_SIZE * i + if aliased then VIRTUAL else 0)
    ensures Congruent(q * PAGE_SIZE, i * PAGE_SIZE)
  {
    var shift := if aliased then 0x800_0000 else 0;   // 0xC0000000 == 24 * 2^27
    var x := q - i - shift;
    var k := (24 * x) / WORDS;
    Factor(24 * x);
    assert 3 * x == 0x2000_0000 * k;
    var t := ThirdOf(x, k);
    Multiple(q * PAGE_SIZE - i * PAGE_SIZE, shift / 0x10_0000 + 0x200 * t);
  }

  lemma IndexOf(pages: Address, i: nat, aliased: bool, q: int)
    requires i < MAX_PAGES
    requires Index(pages, if aliased then Alias(Pointer(pages, i)) else Pointer(pages, i), q)
    ensures Congruent(q * PAGE_SIZE, i * PAGE_SIZE)
  {
    var page := if aliased then Alias(Pointer(pages, i)) else Pointer(pages, i);
    var exact := pages + STRUCT_SIZE * i + if aliased then VIRTUAL else 0;
    var m := (pages + STRUCT_SIZE * i) / WORDS + if aliased then (Pointer(pages, i) + VIRTUAL) / WORDS else 0;
    assert page == exact - WORDS * m;
    Factor(STRUCT_SIZE * q - (page - pages));
    Multiple(STRUCT_SIZE * q - (exact - pages), (STRUCT_SIZE * q - (page - pages)) / WORDS - m);
    OffsetOf(q, i, aliased);
  }

  /** Both forms of the pointer of frame i give the address of frame i, whatever quotient the subtraction yields. */
  lemma AliasesAgree(pages: Address, begin: Address, i: nat, q: int, aliased: bool)
    requires i < MAX_PAGES
    requires Index(pages, if aliased then Alias(Pointer(pages, i)) else Pointer(pages, i), q)
    ensures ToPhysical(begin, q) == (begin + i * PAGE_SIZE) % WORDS
    ensures ToLinear(begin, q) == (begin + i * PAGE_SIZE + VIRTUAL) % WORDS
  {
    IndexOf(pages, i, aliased, q);
    SameResidue(q * PAGE_SIZE + begin, i * PAGE_SIZE + begin);
    SameResidue(q * PAGE_SIZE + begin + VIRTUAL, i * PAGE_SIZE + begin + VIRTUAL);
  }

  /** From either form through an address and back: the form without 0xC0000000. */
  lemma RoundTrip(pages: Address, begin: Address, i: nat, q: int, aliased: bool)
    requires i < MAX_PAGES
    requires Index(pages, if aliased then Alias(Pointer(pages, i)) else Pointer(pages, i), q)
    ensures FromLinear(pages, begin, ToLinear(begin, q)) == Pointer(pages, i)
    ensures FromPhysical(pages, begin, ToPhysical(begin, q)) == Pointer(pages, i)
  {
    AliasesAgree(pages, begin, i, q, aliased);
    Back(begin + VIRTUAL, i);
    Back(begin, i);
  }

  lemma Back(base: int, i: nat)
    requires i < MAX_PAGES
    ensures ((base + i * PAGE_SIZE) % WORDS - base) % WORDS / PAGE_SIZE == i
  {
    var x := base + i * PAGE_SIZE;
    assert x % WORDS - base == i * PAGE_SIZE - WORDS * (x / WORDS);
    Multiple((x % WORDS - base) - i * PAGE_SIZE, -(x / WORDS));
    SameResidue(x % WORDS - base, i * PAGE_SIZE);
  }

  /** Different frames have different addresses. */
  lemma AddressesDiffer(begin: Address, i: nat, j: nat)
    requires i < MAX_PAGES && j < MAX_PAGES
    ensures ToPhysical(begin, i) == ToPhysical(begin, j) <==> i == j
  {
    Back(begin, i);
    Back(begin, j);
  }

  /** There is such a quotient for the aliased pointer, although 24 does not divide the signed distance. */
  lemma QuotientExists(pages: Address, i: nat)
    requires i < MAX_PAGES
    ensures Index(pages, Alias(Pointer(pages, i)), i + 0x800_0000)
  {
    var x := pages + STRUCT_SIZE * i;
    var y := x % WORDS + VIRTUAL;
    Multiple(STRUCT_SIZE * (i + 0x800_0000) - (y % WORDS - pages), x / WORDS + y / WORDS);
  }
}

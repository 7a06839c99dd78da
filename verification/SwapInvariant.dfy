/** What every fault keeps: distinct page tables, the residency invariant, and the contents of all pages. */
module SwapInvariant {
  import opened Memory
  import opened Slots
  import opened SwapDisk
  import opened Swap

  predicate InUser(s: Mm, v: nat) { v < PAGES && v / ENTRIES in s.user }

  predicate IsTable(s: Mm, d: nat)
    requires |s.dir| == ENTRIES
  {
    d in s.user && d < ENTRIES && Present(s.dir[d])
  }

  /** Page tables of the paged range are distinct frames, neither free nor resident pages. */
  ghost predicate Tables(s: Mm) {
    && Shape(s)
    && (forall d: nat :: IsTable(s, d) ==>
          PageAddr(s.dir[d]) < |s.ram| && PageAddr(s.dir[d]) !in s.free && PageAddr(s.dir[d]) !in s.fifo)
    && (forall d: nat, e: nat :: IsTable(s, d) && IsTable(s, e) && d != e ==> PageAddr(s.dir[d]) != PageAddr(s.dir[e]))
    && forall f :: f in s.free ==> f < |s.ram|
  }

  /** Frame f holds the page at page->va: the entry of that page names it. */
  ghost predicate Resident(s: Mm, f: nat)
    requires Shape(s)
  {
    && f < |s.ram| && f !in s.free
    && s.va[f] % 4096 == 0 && InUser(s, s.va[f] / 4096)
    && Present(Pte(s, s.va[f] / 4096)) && PageAddr(Pte(s, s.va[f] / 4096)) == f
  }

  /** vm_fifo is exactly the present pages, one frame each, and never holds more than one. */
  ghost predicate Residency(s: Mm) {
    && Shape(s)
    && |s.fifo| <= 1
    && (forall f :: f in s.fifo ==> Resident(s, f))
    && forall v: nat :: InUser(s, v) && Present(Pte(s, v)) ==>
         PageAddr(Pte(s, v)) in s.fifo && s.va[PageAddr(Pte(s, v))] == v * 4096
  }

  /** An entry that is not present is empty or names the slot of its own page. */
  ghost predicate Slotted(s: Mm)
    requires Shape(s)
  {
    forall v: nat :: InUser(s, v) && !Present(Pte(s, v)) ==> Pte(s, v) == 0 || Pte(s, v) == SlotPte(v * 4096)
  }

  ghost predicate Inv(s: Mm) {
    Tables(s) && Residency(s) && Slotted(s)
  }

  /** What the page holds, in its frame or in its slot. */
  function Contents(s: Mm, v: nat): Frame
    requires Shape(s) && v < PAGES
  {
    if Present(Pte(s, v)) && PageAddr(Pte(s, v)) < |s.ram| then s.ram[PageAddr(Pte(s, v))] else InSlot(s, Pte(s, v))
  }

  /** Page v has been touched in both or in neither, and holds the same. */
  predicate Keeps(s: Mm, s': Mm, v: nat)
    requires Shape(s) && Shape(s') && v < PAGES
  {
    && (Pte(s', v) == 0 <==> Pte(s, v) == 0)
    && (Pte(s, v) != 0 ==> Contents(s', v) == Contents(s, v))
  }

  /** Frame f is allocated and not yet in use. */
  ghost predicate Spare(s: Mm, f: nat)
    requires Shape(s)
  {
    && f < |s.ram| && f !in s.free && f !in s.fifo
    && forall d: nat :: IsTable(s, d) ==> PageAddr(s.dir[d]) != f
  }

  // ---------------------------------------------------------------------
  // Entries
  // ---------------------------------------------------------------------

  lemma SetPteReads(s: Mm, v: nat, p: Word, u: nat)
    requires Tables(s) && InUser(s, v) && InUser(s, u) && HasTable(s, v)
    ensures Pte(SetPte(s, v, p), u) == if u == v then p else Pte(s, u)
  {
    assert IsTable(s, v / ENTRIES);
    if u / ENTRIES != v / ENTRIES && HasTable(s, u) {
      assert IsTable(s, u / ENTRIES);
    }
  }

  /** Writing an entry changes no frame but its table. */
  lemma SetPteFrames(s: Mm, v: nat, p: Word, f: nat)
    requires Tables(s) && InUser(s, v) && HasTable(s, v) && f < |s.ram|
    requires f in s.fifo || f in s.free || Spare(s, f)
    ensures SetPte(s, v, p).ram[f] == s.ram[f]
  {
    assert IsTable(s, v / ENTRIES);
  }

  lemma SetPteTables(s: Mm, v: nat, p: Word)
    requires Tables(s) && v < PAGES
    ensures Tables(SetPte(s, v, p))
  {
    var s' := SetPte(s, v, p);
    assert forall d: nat :: IsTable(s', d) <==> IsTable(s, d);
  }

  // ---------------------------------------------------------------------
  // Eviction
  // ---------------------------------------------------------------------

  lemma WriteOutTables(s: Mm, f: nat)
    requires Tables(s) && f < |s.ram|
    ensures Tables(WriteOut(s, f))
  {
    assert forall d: nat :: IsTable(WriteOut(s, f), d) <==> IsTable(s, d);
  }

  lemma OnlyResident(s: Mm, f: nat, u: nat)
    requires Residency(s) && f in s.fifo && InUser(s, u) && u != s.va[f] / 4096
    ensures !Present(Pte(s, u))
  {
  }

  lemma WriteOutReads(s: Mm, f: nat, u: nat)
    requires Shape(s) && f < |s.ram| && u < PAGES
    ensures var s1 := WriteOut(s, f);
            Shape(s1) && Pte(s1, u) == Pte(s, u) && (HasTable(s1, u) <==> HasTable(s, u)) && s1.user == s.user
  {
  }

  lemma ToSlotReads(s: Mm, f: nat, u: nat)
    requires Inv(s) && f in s.fifo && InUser(s, u)
    ensures var v := s.va[f] / 4096;
            Pte(ToSlot(s, f), u) == if u == v then SlotPte(v * 4096) else Pte(s, u)
    ensures u != s.va[f] / 4096 ==> !Present(Pte(s, u))
  {
    var v := s.va[f] / 4096;
    assert Resident(s, f);
    if u != v {
      OnlyResident(s, f, u);
    }
    assert s.va[f] == v * 4096;
    WriteOutTables(s, f);
    WriteOutReads(s, f, u);
    WriteOutReads(s, f, v);
    SetPteReads(WriteOut(s, f), v, SlotPte(s.va[f]), u);
  }

  lemma ToSlotKeeps(s: Mm, f: nat, u: nat)
    requires Inv(s) && f in s.fifo && InUser(s, u)
    ensures Keeps(s, ToSlot(s, f), u)
  {
    assert Resident(s, f);
    var va := s.va[f];
    ToSlotReads(s, f, u);
    SlotNeverPresent(va, va);
    SlotRoundTrip(va);
    PageRoundTrip(s.disk, WriteSector(va), s.ram[f]);
    if u != va / 4096 && Pte(s, u) != 0 {
      SlotRoundTrip(u * 4096);
      SlotsDisjoint(va, u * 4096);
    }
  }

  lemma DropFirstTables(s: Mm)
    requires Tables(s) && s.fifo != []
    ensures Tables(DropFirst(s))
  {
    var s' := DropFirst(s);
    assert s.fifo[0] in s.fifo && forall f :: f in s'.fifo ==> f in s.fifo;
    assert forall d: nat :: IsTable(s', d) <==> IsTable(s, d);
  }

  lemma EvictedTables(s: Mm)
    requires Tables(s)
    ensures Tables(Evict(s))
  {
    if s.fifo != [] {
      var f := s.fifo[0];
      WriteOutTables(s, f);
      SetPteTables(WriteOut(s, f), s.va[f] / 4096, SlotPte(s.va[f]));
      DropFirstTables(ToSlot(s, f));
    }
  }

  lemma EvictedFields(s: Mm)
    requires Shape(s) && |s.fifo| <= 1
    ensures var s' := Evict(s);
            && s'.dir == s.dir && s'.va == s.va && s'.fifo == [] && s'.user == s.user && |s'.ram| == |s.ram|
            && forall f :: f in s'.free <==> f in s.free || f in s.fifo
  {
  }

  lemma EvictReads(s: Mm, u: nat)
    requires Inv(s) && InUser(s, u)
    ensures Shape(Evict(s))
    ensures !Present(Pte(Evict(s), u)) && (Pte(Evict(s), u) == 0 || Pte(Evict(s), u) == SlotPte(u * 4096))
    ensures !Present(Pte(s, u)) ==> Pte(Evict(s), u) == Pte(s, u)
    ensures Keeps(s, Evict(s), u)
  {
    if s.fifo != [] {
      var f := s.fifo[0];
      assert Resident(s, f);
      ToSlotReads(s, f, u);
      ToSlotKeeps(s, f, u);
      SlotNeverPresent(u * 4096, u * 4096);
    }
  }

  /** Evicting keeps the invariant, empties vm_fifo and changes no page. */
  lemma EvictKeeps(s: Mm)
    requires Inv(s)
    ensures Inv(Evict(s)) && Evict(s).fifo == []
    ensures forall u: nat :: InUser(s, u) ==> Keeps(s, Evict(s), u)
  {
    EvictedTables(s);
    EvictedFields(s);
    forall u: nat | InUser(s, u)
      ensures !Present(Pte(Evict(s), u)) && (Pte(Evict(s), u) == 0 || Pte(Evict(s), u) == SlotPte(u * 4096))
      ensures Keeps(s, Evict(s), u)
    {
      EvictReads(s, u);
    }
  }

  /** Residency depends on the entries, vm_fifo and page->va only. */
  lemma SameEntries(s: Mm, s': Mm)
    requires Residency(s) && Slotted(s) && Shape(s')
    requires s'.fifo == s.fifo && s'.va == s.va && s'.user == s.user && s'.free <= s.free
    requires forall u: nat :: InUser(s, u) ==> Pte(s', u) == Pte(s, u)
    ensures Residency(s') && Slotted(s')
  {
    forall f | f in s'.fifo ensures Resident(s', f) {
      assert Resident(s, f);
    }
    assert forall u: nat :: InUser(s', u) ==> InUser(s, u);
  }

  // ---------------------------------------------------------------------
  // Allocation
  // ---------------------------------------------------------------------

  lemma TakenReads(s: Mm, f: nat, u: nat)
    requires Shape(s) && u < PAGES
    ensures Shape(Taken(s, f)) && Pte(Taken(s, f), u) == Pte(s, u) && Contents(Taken(s, f), u) == Contents(s, u)
    ensures HasTable(Taken(s, f), u) <==> HasTable(s, u)
  {
  }

  lemma TakenInv(s: Mm, f: nat)
    requires Inv(s) && f in s.free
    ensures Inv(Taken(s, f)) && Spare(Taken(s, f), f)
  {
    var s' := Taken(s, f);
    assert forall d: nat :: IsTable(s', d) <==> IsTable(s, d);
    forall v: nat | InUser(s, v) ensures Pte(s', v) == Pte(s, v) {
      TakenReads(s, f, v);
    }
    SameEntries(s, s');
  }

  /** Eviction changes no frame but the table of the page it evicts. */
  lemma EvictFrames(s: Mm, f: nat)
    requires Inv(s) && f < |s.ram| && forall d: nat :: IsTable(s, d) ==> PageAddr(s.dir[d]) != f
    ensures Shape(Evict(s)) && |Evict(s).ram| == |s.ram| && Evict(s).ram[f] == s.ram[f]
  {
    EvictedFields(s);
    EvictedTables(s);
    if s.fifo != [] {
      var g := s.fifo[0];
      assert Resident(s, g);
      var v := s.va[g] / 4096;
      assert IsTable(s, v / ENTRIES);
      assert Table(s, v) != f;
    }
  }

  lemma EvictSpares(s: Mm, f: nat)
    requires Inv(s) && Spare(s, f)
    ensures Shape(Evict(s)) && Spare(Evict(s), f)
  {
    EvictedFields(s);
    EvictedTables(s);
    assert forall d: nat :: IsTable(Evict(s), d) <==> IsTable(s, d);
  }

  /** alloc_page: the frame is spare with its old content, nothing is resident, and no page changes. */
  lemma AllocKeeps(s: Mm, f: nat)
    requires Inv(s) && f in s.free
    ensures var s' := Alloc(s, f);
            && Inv(s') && Spare(s', f) && s'.fifo == [] && s'.dir == s.dir && s'.user == s.user && |s'.ram| == |s.ram|
            && (forall g :: g in s'.free <==> (g in s.free && g != f) || g in s.fifo)
  {
    TakenInv(s, f);
    EvictKeeps(Taken(s, f));
    EvictSpares(Taken(s, f), f);
    EvictedFields(Taken(s, f));
  }

  lemma AllocFrames(s: Mm, f: nat, g: nat)
    requires Inv(s) && f in s.free && (g in s.free || g in s.fifo)
    ensures Shape(Alloc(s, f)) && g < |Alloc(s, f).ram| == |s.ram| && Alloc(s, f).ram[g] == s.ram[g]
  {
    TakenInv(s, f);
    assert forall d: nat :: IsTable(Taken(s, f), d) <==> IsTable(s, d);
    EvictFrames(Taken(s, f), g);
  }

  lemma AllocReads(s: Mm, f: nat, u: nat)
    requires Inv(s) && f in s.free && InUser(s, u)
    ensures Shape(Alloc(s, f)) && Keeps(s, Alloc(s, f), u)
    ensures !Present(Pte(s, u)) ==> Pte(Alloc(s, f), u) == Pte(s, u)
    ensures !Present(Pte(Alloc(s, f), u))
  {
    TakenInv(s, f);
    TakenReads(s, f, u);
    EvictReads(Taken(s, f), u);
  }

  // ---------------------------------------------------------------------
  // A new page table
  // ---------------------------------------------------------------------

  lemma NewTableReads(s: Mm, v: nat, t: nat, u: nat)
    requires Inv(s) && Spare(s, t) && InUser(s, v) && InUser(s, u) && !Present(s.dir[v / ENTRIES])
    ensures Shape(NewTable(s, v, t)) && Pte(NewTable(s, v, t), u) == Pte(s, u)
    ensures Keeps(s, NewTable(s, v, t), u)
    ensures HasTable(NewTable(s, v, t), v)
  {
    var e: Word := t * 4096 + 7;
    assert e % 512 == 7 && e / 4096 == t;
    if HasTable(s, u) {
      assert IsTable(s, u / ENTRIES);
    }
  }

  lemma NewTableTables(s: Mm, v: nat, t: nat)
    requires Tables(s) && Spare(s, t) && InUser(s, v) && !Present(s.dir[v / ENTRIES])
    ensures Tables(NewTable(s, v, t))
  {
    var s' := NewTable(s, v, t);
    var e: Word := t * 4096 + 7;
    assert e % 512 == 7 && e / 4096 == t;
    assert forall d: nat :: IsTable(s', d) <==> IsTable(s, d) || d == v / ENTRIES;
    assert forall d: nat :: IsTable(s', d) ==>
             PageAddr(s'.dir[d]) == if d == v / ENTRIES then t else PageAddr(s.dir[d]);
  }

  lemma NewTableInv(s: Mm, v: nat, t: nat)
    requires Inv(s) && Spare(s, t) && InUser(s, v) && !Present(s.dir[v / ENTRIES])
    ensures Inv(NewTable(s, v, t))
  {
    var s' := NewTable(s, v, t);
    NewTableTables(s, v, t);
    forall u: nat | InUser(s, u) ensures Pte(s', u) == Pte(s, u) {
      NewTableReads(s, v, t, u);
    }
    SameEntries(s, s');
  }

  // ---------------------------------------------------------------------
  // Filling and mapping a spare frame
  // ---------------------------------------------------------------------

  lemma SetFrameReads(s: Mm, f: nat, page: Frame, u: nat)
    requires Inv(s) && Spare(s, f) && InUser(s, u)
    ensures var s' := SetFrame(s, f, page);
            Shape(s') && Pte(s', u) == Pte(s, u) && Keeps(s, s', u) && (HasTable(s', u) <==> HasTable(s, u))
  {
    if HasTable(s, u) {
      assert IsTable(s, u / ENTRIES);
    }
  }

  lemma SetFrameInv(s: Mm, f: nat, page: Frame)
    requires Inv(s) && Spare(s, f)
    ensures Inv(SetFrame(s, f, page)) && Spare(SetFrame(s, f, page), f)
  {
    var s' := SetFrame(s, f, page);
    assert forall d: nat :: IsTable(s', d) <==> IsTable(s, d);
    forall u: nat | InUser(s, u) ensures Pte(s', u) == Pte(s, u) {
      SetFrameReads(s, f, page, u);
    }
    SameEntries(s, s');
  }

  lemma NoneResident(s: Mm, u: nat)
    requires Residency(s) && s.fifo == [] && InUser(s, u)
    ensures !Present(Pte(s, u))
  {
  }

  lemma MapReads(s: Mm, v: nat, f: nat, bits: nat, u: nat)
    requires Inv(s) && Spare(s, f) && s.fifo == [] && InUser(s, v) && InUser(s, u) && HasTable(s, v)
    requires bits < 512 && bits % 2 == 1
    ensures var s' := MapPage(s, v, f, bits);
            && Shape(s')
            && (u != v ==> Pte(s', u) == Pte(s, u) && Keeps(s, s', u))
            && Present(Pte(s', v)) && PageAddr(Pte(s', v)) == f && Contents(s', v) == s.ram[f]
  {
    var p := WithPageAddr(WithSign(Pte(s, v), bits), f);
    FieldsAreIndependent(Pte(s, v), bits, f);
    SetPteReads(s, v, p, u);
    SetPteReads(s, v, p, v);
    SetPteFrames(s, v, p, f);
    NoneResident(s, u);
  }

  lemma AddLastTables(s: Mm, v: nat, f: nat)
    requires Tables(s) && Spare(s, f) && v < PAGES
    ensures Tables(AddLast(s, v, f))
  {
    assert forall d: nat :: IsTable(AddLast(s, v, f), d) <==> IsTable(s, d);
  }

  lemma MapTables(s: Mm, v: nat, f: nat, bits: nat)
    requires Tables(s) && Spare(s, f) && v < PAGES && bits < 512
    ensures Tables(MapPage(s, v, f, bits))
  {
    var s1 := SetEntry(s, v, f, bits);
    SetPteTables(s, v, WithPageAddr(WithSign(Pte(s, v), bits), f));
    assert forall d: nat :: IsTable(s1, d) <==> IsTable(s, d);
    AddLastTables(s1, v, f);
  }

  /** One page added to an empty vm_fifo. */
  lemma OneResident(s: Mm, s': Mm, v: nat, f: nat)
    requires Residency(s) && Slotted(s) && s.fifo == [] && Shape(s') && InUser(s, v) && f < |s'.ram|
    requires s'.fifo == [f] && s'.va[f] == v * 4096 && s'.user == s.user && f !in s'.free
    requires forall u: nat :: InUser(s, u) && u != v ==> Pte(s', u) == Pte(s, u)
    requires Present(Pte(s', v)) && PageAddr(Pte(s', v)) == f
    ensures Residency(s') && Slotted(s')
  {
    assert forall u: nat :: InUser(s', u) ==> InUser(s, u);
    assert s'.va[f] / 4096 == v;
    assert Resident(s', f);
    forall u: nat | InUser(s, u) ensures !Present(Pte(s, u)) {
      NoneResident(s, u);
    }
  }

  lemma MapInv(s: Mm, v: nat, f: nat, bits: nat)
    requires Inv(s) && Spare(s, f) && s.fifo == [] && InUser(s, v) && HasTable(s, v)
    requires bits < 512 && bits % 2 == 1
    ensures Inv(MapPage(s, v, f, bits))
  {
    var s' := MapPage(s, v, f, bits);
    MapTables(s, v, f, bits);
    MapReads(s, v, f, bits, v);
    forall u: nat | InUser(s, u) && u != v ensures Pte(s', u) == Pte(s, u) {
      MapReads(s, v, f, bits, u);
    }
    OneResident(s, s', v, f);
  }

  // ---------------------------------------------------------------------
  // The fault
  // ---------------------------------------------------------------------

  /** The frames that the allocations of a fault return: t for a page table if one is missing, f for the page. */
  ghost predicate FramesGiven(s: Mm, v: nat, t: nat, f: nat)
    requires Shape(s) && v < PAGES
  {
    && t < |s.ram|
    && if Present(s.dir[v / ENTRIES]) then f in s.free else t in s.free && f in Alloc(s, t).free
  }

  lemma NewTableKeeps(s: Mm, v: nat, t: nat)
    requires Inv(s) && InUser(s, v) && !Present(s.dir[v / ENTRIES]) && t in s.free
    ensures var s1 := NewTable(Alloc(s, t), v, t);
            && Inv(s1) && HasTable(s1, v) && s1.user == s.user && |s1.ram| == |s.ram|
            && forall u: nat :: InUser(s, u) ==> Keeps(s, s1, u) && (!Present(Pte(s, u)) ==> Pte(s1, u) == Pte(s, u))
  {
    AllocKeeps(s, t);
    NewTableInv(Alloc(s, t), v, t);
    forall u: nat | InUser(s, u)
      ensures Keeps(s, NewTable(Alloc(s, t), v, t), u)
      ensures !Present(Pte(s, u)) ==> Pte(NewTable(Alloc(s, t), v, t), u) == Pte(s, u)
    {
      AllocReads(s, t, u);
      NewTableReads(Alloc(s, t), v, t, u);
    }
    NewTableReads(Alloc(s, t), v, t, v);
  }

  lemma WithTableKeeps(s: Mm, v: nat, t: nat)
    requires Inv(s) && InUser(s, v) && t < |s.ram| && (Present(s.dir[v / ENTRIES]) || t in s.free)
    ensures var s1 := WithTable(s, v, t);
            && Inv(s1) && HasTable(s1, v) && s1.user == s.user && |s1.ram| == |s.ram|
            && forall u: nat :: InUser(s, u) ==> Keeps(s, s1, u) && (!Present(Pte(s, u)) ==> Pte(s1, u) == Pte(s, u))
  {
    if Present(s.dir[v / ENTRIES]) {
      assert IsTable(s, v / ENTRIES);
    } else {
      NewTableKeeps(s, v, t);
    }
  }

  lemma WithTableFrame(s: Mm, v: nat, t: nat, f: nat)
    requires Inv(s) && InUser(s, v) && FramesGiven(s, v, t, f)
    ensures f in WithTable(s, v, t).free && f < |s.ram| == |WithTable(s, v, t).ram|
    ensures WithTable(s, v, t).ram[f] == s.ram[f]
  {
    if !Present(s.dir[v / ENTRIES]) {
      AllocKeeps(s, t);
      AllocFrames(s, t, f);
    }
  }

  lemma FirstTouchKeeps(s: Mm, v: nat, f: nat)
    requires Inv(s) && InUser(s, v) && HasTable(s, v) && f in s.free && !Present(Pte(s, v))
    ensures var s' := FirstTouch(s, v, f);
            && Inv(s') && s'.user == s.user && |s'.ram| == |s.ram|
            && Present(Pte(s', v)) && PageAddr(Pte(s', v)) == f && Contents(s', v) == s.ram[f]
            && forall u: nat :: InUser(s, u) && u != v ==> Keeps(s, s', u)
  {
    var s1 := Alloc(s, f);
    AllocKeeps(s, f);
    AllocFrames(s, f, f);
    assert HasTable(s1, v);
    MapInv(s1, v, f, 5);
    MapReads(s1, v, f, 5, v);
    forall u: nat | InUser(s, u) && u != v ensures Keeps(s, FirstTouch(s, v, f), u) {
      AllocReads(s, f, u);
      MapReads(s1, v, f, 5, u);
    }
  }

  lemma SwapInKeeps(s: Mm, v: nat, f: nat)
    requires Inv(s) && InUser(s, v) && HasTable(s, v) && f in s.free && !Present(Pte(s, v)) && Pte(s, v) != 0
    ensures var s' := SwapIn(s, v, f);
            && Inv(s') && s'.user == s.user && |s'.ram| == |s.ram|
            && Present(Pte(s', v)) && PageAddr(Pte(s', v)) == f && Contents(s', v) == Contents(s, v)
            && forall u: nat :: InUser(s, u) && u != v ==> Keeps(s, s', u)
  {
    var s1 := Alloc(s, f);
    AllocKeeps(s, f);
    AllocReads(s, f, v);
    var page := InSlot(s1, Pte(s1, v));
    var s2 := SetFrame(s1, f, page);
    SetFrameInv(s1, f, page);
    SetFrameReads(s1, f, page, v);
    assert HasTable(s1, v);
    MapInv(s2, v, f, 7);
    MapReads(s2, v, f, 7, v);
    forall u: nat | InUser(s, u) && u != v ensures Keeps(s, SwapIn(s, v, f), u) {
      AllocReads(s, f, u);
      SetFrameReads(s1, f, page, u);
      MapReads(s2, v, f, 7, u);
    }
  }

  /** Page v came into frame f with this content; no other page changed. */
  ghost predicate Brought(s: Mm, s': Mm, v: nat, f: nat, page: Frame)
    requires Shape(s) && v < PAGES
  {
    && Inv(s') && s'.user == s.user && |s'.ram| == |s.ram|
    && Present(Pte(s', v)) && PageAddr(Pte(s', v)) == f && Contents(s', v) == page
    && forall u: nat :: InUser(s, u) && u != v ==> Keeps(s, s', u)
  }

  /** What the faulting page holds afterwards: its old content, or what frame f held. */
  function After(s: Mm, v: nat, f: nat): Frame
    requires Shape(s) && v < PAGES && f < |s.ram|
  {
    if LooksUnmapped(Pte(s, v)) then s.ram[f] else Contents(s, v)
  }

  lemma BringKeeps(s: Mm, v: nat, f: nat)
    requires Inv(s) && InUser(s, v) && HasTable(s, v) && f in s.free && !Present(Pte(s, v))
    ensures Brought(s, Bring(s, v, f), v, f, After(s, v, f))
  {
    if LooksUnmapped(Pte(s, v)) {
      FirstTouchKeeps(s, v, f);
    } else {
      SwapInKeeps(s, v, f);
    }
  }

  lemma BroughtCompose(s: Mm, s1: Mm, s': Mm, v: nat, f: nat)
    requires Shape(s) && Shape(s1) && InUser(s, v) && f < |s.ram| == |s1.ram| && s1.user == s.user
    requires Pte(s1, v) == Pte(s, v) && s1.ram[f] == s.ram[f]
    requires forall u: nat :: InUser(s, u) ==> Keeps(s, s1, u)
    requires Brought(s1, s', v, f, After(s1, v, f))
    ensures Brought(s, s', v, f, After(s, v, f))
  {
    assert Keeps(s, s1, v);
    forall u: nat | InUser(s, u) && u != v ensures Keeps(s, s', u) {
      assert InUser(s1, u);
      assert Keeps(s, s1, u) && Keeps(s1, s', u);
    }
  }

  /**
    A fault keeps the invariant and the contents of every other page. The faulting page
    becomes resident; it holds what it held if the never-mapped test sees its slot, and
    what its new frame happened to hold if not.
   */
  lemma FaultKeeps(s: Mm, v: nat, t: nat, f: nat)
    requires Inv(s) && InUser(s, v) && !Present(Pte(s, v)) && FramesGiven(s, v, t, f)
    ensures f < |s.ram| && Brought(s, Fault(s, v, t, f), v, f, After(s, v, f))
  {
    WithTableKeeps(s, v, t);
    WithTableFrame(s, v, t, f);
    BringKeeps(WithTable(s, v, t), v, f);
    BroughtCompose(s, WithTable(s, v, t), Fault(s, v, t, f), v, f);
  }

  // ---------------------------------------------------------------------
  // The bits of the entries
  // ---------------------------------------------------------------------

  lemma MapPte(s: Mm, v: nat, f: nat, bits: nat)
    requires Inv(s) && Spare(s, f) && InUser(s, v) && HasTable(s, v) && bits < 512
    ensures Pte(MapPage(s, v, f, bits), v) == WithPageAddr(WithSign(Pte(s, v), bits), f)
    ensures MapPage(s, v, f, bits).dir == s.dir
  {
    SetPteReads(s, v, WithPageAddr(WithSign(Pte(s, v), bits), f), v);
  }

  lemma MapEntry(s: Mm, v: nat, f: nat, bits: nat)
    requires Inv(s) && Spare(s, f) && InUser(s, v) && HasTable(s, v) && bits < 512
    ensures var p, p' := Pte(s, v), Pte(MapPage(s, v, f, bits), v);
            p' % 512 == bits && p' / 512 % 8 == p / 512 % 8 && p' / 4096 == f
    ensures MapPage(s, v, f, bits).dir == s.dir
  {
    EntryBits(Pte(s, v), bits, f);
    MapPte(s, v, f, bits);
  }

  lemma BringEntry(s: Mm, v: nat, f: nat)
    requires Inv(s) && InUser(s, v) && HasTable(s, v) && f in s.free && !Present(Pte(s, v))
    ensures var p, p' := Pte(s, v), Pte(Bring(s, v, f), v);
            && p' % 512 == (if p % 512 == 0 && p / 4096 == 0 then 5 else 7)
            && p' / 512 % 8 == p / 512 % 8 && p' / 4096 == f
    ensures Bring(s, v, f).dir == s.dir
  {
    var s1 := Alloc(s, f);
    AllocKeeps(s, f);
    AllocReads(s, f, v);
    if LooksUnmapped(Pte(s, v)) {
      MapEntry(s1, v, f, 5);
    } else {
      var page := InSlot(s1, Pte(s1, v));
      SetFrameInv(s1, f, page);
      SetFrameReads(s1, f, page, v);
      MapEntry(SetFrame(s1, f, page), v, f, 7);
    }
  }

  lemma WithTableDir(s: Mm, v: nat, t: nat)
    requires Inv(s) && v < PAGES && t < |s.ram|
    ensures WithTable(s, v, t).dir ==
            if s.dir[v / ENTRIES] % 2 == 1 then s.dir else s.dir[v / ENTRIES := t * 4096 + 7]
  {
    PresentBit(s.dir[v / ENTRIES]);
  }

  /**
    The entry a fault leaves: frame f, sign 5 for a page that looks never mapped and 7 for
    one swapped in, the os bits of the old entry; and a new table is behind sign 7.
   */
  lemma FaultEntry(s: Mm, v: nat, t: nat, f: nat)
    requires Inv(s) && InUser(s, v) && FramesGiven(s, v, t, f) && !Present(Pte(s, v)) && f < |s.ram|
    ensures |Fault(s, v, t, f).dir| == ENTRIES
    ensures var p, p' := Pte(s, v), Pte(Fault(s, v, t, f), v);
            && p' % 512 == (if p % 512 == 0 && p / 4096 == 0 then 5 else 7)
            && p' / 512 % 8 == p / 512 % 8 && p' / 4096 == f
    ensures Fault(s, v, t, f).dir ==
            if s.dir[v / ENTRIES] % 2 == 1 then s.dir else s.dir[v / ENTRIES := t * 4096 + 7]
  {
    WithTableKeeps(s, v, t);
    WithTableFrame(s, v, t, f);
    var s1 := WithTable(s, v, t);
    assert Pte(s1, v) == Pte(s, v);
    BringEntry(s1, v, f);
    WithTableDir(s, v, t);
  }
}

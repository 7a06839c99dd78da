/** The paging code as it updates memory in place: swap.c, vmm.c and the pmm.c functions they call. */
module Paging {
  import opened Memory
  import opened Slots
  import opened SwapDisk
  import opened Swap
  import opened SwapInvariant
  import R = SwapRuns

  /** struct vma_struct. */
  datatype Region = Region(start: Word, end: Word, flags: Word)

  datatype Outcome = Served | NoRegion | Refused | OutOfMemory

  predicate Contains(r: Region, addr: nat) { r.start <= addr < r.end }

  /** Regions are disjoint and lie in the paged range. */
  ghost predicate RegionsOk(regions: seq<Region>, user: set<nat>) {
    && (forall i, j, addr: nat :: 0 <= i < j < |regions| ==>
          !(Contains(regions[i], addr) && Contains(regions[j], addr)))
    && forall i, v: nat :: 0 <= i < |regions| && v < PAGES && Contains(regions[i], v * 4096) ==> v / ENTRIES in user
  }

  predicate Bit(flags: nat, b: nat)
    requires b > 0
  {
    flags / b % 2 == 1
  }

  /** The permission checks of do_swap. */
  predicate Permits(r: Region, isWrite: bool) {
    if isWrite then Bit(r.flags, 2) else Bit(r.flags, 1) || Bit(r.flags, 4)
  }

  /** The bits that forbid an access are clear, in numbers: the second for a store, the first and third for a load. */
  lemma PermitsInNumbers(r: Region)
    ensures !Permits(r, true) <==> r.flags % 4 < 2
    ensures !Permits(r, false) <==> r.flags % 2 == 0 && r.flags % 8 < 4
  {
    assert r.flags == 4 * (r.flags / 4) + r.flags % 4;
  }

  /** The frames that the allocations of a fault return, where there are any. */
  ghost predicate Offered(s: Mm, v: nat, t: nat, f: nat)
    requires Shape(s) && v < PAGES
  {
    && t < |s.ram| && f < |s.ram|
    && (s.free != {} && !Present(s.dir[v / ENTRIES]) ==> t in s.free)
    && (WithTable(s, v, t).free != {} ==> f in WithTable(s, v, t).free)
  }

  /** An allocation of the fault finds no free frame: the one for a missing table, or the one for the page. */
  ghost predicate NoFrame(s: Mm, v: nat, t: nat)
    requires Shape(s) && v < PAGES && t < |s.ram|
  {
    (!Present(s.dir[v / ENTRIES]) && s.free == {}) || WithTable(s, v, t).free == {}
  }

  /** A region containing addr lets the access through: its flags have 2 for a store, 1 or 4 for a load. */
  ghost predicate Lets(regions: seq<Region>, addr: nat, isWrite: bool) {
    exists i :: 0 <= i < |regions| && regions[i].start <= addr < regions[i].end &&
                if isWrite then regions[i].flags % 4 >= 2 else regions[i].flags % 2 == 1 || regions[i].flags % 8 >= 4
  }

  /** The page is there, or a region lets the access fault it in. */
  ghost predicate LawfulStep(regions: seq<Region>, s: Mm, a: R.Access) {
    Shape(s) && a.page < PAGES && (Present(Pte(s, a.page)) || Lets(regions, a.page * 4096, a.isWrite))
  }

  ghost predicate Lawful(regions: seq<Region>, states: seq<Mm>, accesses: seq<R.Access>) {
    && |states| == |accesses| + 1
    && forall i {:trigger accesses[i]} :: 0 <= i < |accesses| ==> LawfulStep(regions, states[i], accesses[i])
  }

  class AddressSpace {
    const dir: array<Word>
    const ram: array<Frame>
    const disk: array<Sector>
    const va: array<Word>
    const regions: seq<Region>
    ghost const user: set<nat>
    var cache: int               // mm->cache as an index into regions, -1 for NULL
    var fifo: seq<nat>
    var free: set<nat>

    ghost function View(): Mm
      reads this, dir, ram, disk, va
    {
      Mm(dir[..], ram[..], disk[..], fifo, va[..], free, user)
    }

    ghost predicate Valid()
      reads this, dir, ram, disk, va
    {
      dir != va && -1 <= cache < |regions| && RegionsOk(regions, user) && Inv(View())
    }

    /** The region containing addr, if any: the cache never changes the answer. */
    method FindVma(addr: Word) returns (found: bool, i: nat)
      requires -1 <= cache < |regions| && RegionsOk(regions, user)
      modifies this`cache
      ensures forall j :: 0 <= j < |regions| && Contains(regions[j], addr) <==> found && j == i
      ensures found ==> i < |regions|
      ensures cache == if found then i else old(cache)
    {
      if cache != -1 && regions[cache].start < addr && regions[cache].end > addr {
        return true, cache;
      }
      i := 0;
      while i < |regions|
        invariant i <= |regions| && cache == old(cache)
        invariant forall j :: 0 <= j < i ==> !Contains(regions[j], addr)
      {
        if regions[i].start <= addr && regions[i].end > addr {
          cache := i;
          return true, i;
        }
        i := i + 1;
      }
      found := false;
    }

    /** *get_pte(v, 0), where there is a table. */
    method ReadPte(v: nat) returns (p: Word)
      requires Shape(View()) && v < PAGES && HasTable(View(), v)
      ensures p == Pte(View(), v)
    {
      p := ram[PageAddr(dir[v / ENTRIES])][v % ENTRIES];
    }

    method WritePte(v: nat, p: Word)
      requires Shape(View()) && v < PAGES && HasTable(View(), v)
      modifies ram
      ensures View() == SetPte(old(View()), v, p)
    {
      var t := PageAddr(dir[v / ENTRIES]);
      ram[t] := ram[t][v % ENTRIES := p];
    }

    /** swap_read. */
    method SwapRead(f: nat, p: Word)
      requires Shape(View()) && f < ram.Length
      modifies ram
      ensures View() == SetFrame(old(View()), f, InSlot(old(View()), p))
    {
      ReadSectors(disk, ReadSector(p), ram, f);
    }

    /** swap_write of the page in frame f. */
    method SwapWrite(f: nat)
      requires Shape(View()) && f < ram.Length
      modifies disk
      ensures View() == WriteOut(old(View()), f)
    {
      WriteSectors(ram[f], disk, WriteSector(va[f]));
    }

    /** swap_out(mm, 1). */
    method SwapOut()
      requires Inv(View())
      modifies this`fifo, this`free, ram, disk
      ensures View() == Evict(old(View()))
    {
      var n := 1;
      while fifo != [] && n > 0
        invariant 0 <= n <= 1 && cache == old(cache) && (n == 1 ==> unchanged(this, ram, disk))
        invariant n == 0 ==> View() == Evict(old(View()))
      {
        var f := fifo[0];
        assert Resident(View(), f);
        SwapWrite(f);
        WritePte(va[f] / 4096, SlotPte(va[f]));
        fifo, free := fifo[1..], free + {f};
        n := n - 1;
      }
    }

    /** alloc_page(1), where the free list gives frame f; no frame is NULL. */
    method AllocPage(f: nat) returns (ok: bool)
      requires Inv(View()) && (free != {} ==> f in free)
      modifies this`fifo, this`free, ram, disk
      ensures ok <==> old(free) != {}
      ensures View() == if ok then Alloc(old(View()), f) else old(View())
    {
      if free == {} {
        return false;
      }
      TakenInv(View(), f);
      free := free - {f};
      SwapOut();
      ok := true;
    }

    /** get_pte(v, 1): makes a page table if there is none, and fails if there is no frame for it. */
    method GetPte(v: nat, t: nat) returns (ok: bool)
      requires Inv(View()) && dir != va && v < PAGES && t < ram.Length
      requires free != {} && !Present(dir[v / ENTRIES]) ==> t in free
      modifies this`fifo, this`free, ram, disk, dir
      ensures ok <==> Present(old(dir[v / ENTRIES])) || old(free) != {}
      ensures View() == if ok then WithTable(old(View()), v, t) else old(View())
    {
      ok := true;
      if !Present(dir[v / ENTRIES]) {
        ok := AllocPage(t);
        if ok {
          PutTable(v, t);
        }
      }
    }

    /** The page table made by get_pte. */
    method PutTable(v: nat, t: nat)
      requires Shape(View()) && dir != va && v < PAGES && t < ram.Length
      modifies ram, dir
      ensures View() == NewTable(old(View()), v, t)
    {
      ram[t] := ZeroPage();
      dir[v / ENTRIES] := t * 4096 + 7;
    }

    /** map on an entry that is not present, page->va and the append to vm_fifo. */
    method Map(v: nat, f: nat, bits: nat)
      requires Shape(View()) && dir != va && v < PAGES && HasTable(View(), v) && f < ram.Length && bits < 512
      modifies this`fifo, ram, va
      ensures View() == MapPage(old(View()), v, f, bits)
    {
      var p := ReadPte(v);
      WritePte(v, WithPageAddr(WithSign(p, bits), f));
      va[f] := v * 4096;
      fifo := fifo + [f];
    }

    /** The never-mapped branch of do_swap. */
    method MapFirst(v: nat, f: nat) returns (ok: bool)
      requires Inv(View()) && dir != va && InUser(View(), v) && HasTable(View(), v) && (free != {} ==> f in free)
      modifies this`fifo, this`free, ram, disk, va
      ensures ok <==> old(free) != {}
      ensures ok ==> f < ram.Length && View() == FirstTouch(old(View()), v, f)
      ensures !ok ==> View() == old(View())
    {
      if free != {} {
        AllocKeeps(View(), f);
      }
      ok := AllocPage(f);
      if ok {
        Map(v, f, 5);
      }
    }

    /** swap_in, which would read through a null page where this fails. */
    method BringIn(v: nat, f: nat) returns (ok: bool)
      requires Inv(View()) && dir != va && InUser(View(), v) && HasTable(View(), v) && (free != {} ==> f in free)
      modifies this`fifo, this`free, ram, disk, va
      ensures ok <==> old(free) != {}
      ensures ok ==> f < ram.Length && View() == SwapIn(old(View()), v, f)
      ensures !ok ==> View() == old(View())
    {
      if free != {} {
        AllocKeeps(View(), f);
      }
      ok := AllocPage(f);
      if ok {
        ghost var s := View();
        var p := ReadPte(v);
        SetFrameReads(s, f, InSlot(s, p), v);
        SwapRead(f, p);
        Map(v, f, 7);
      }
    }

    /**
      do_swap(cr2, is_write) on a page that is not present: the outcome, and on success
      the page is in frame f with its content, every other page as it was.
     */
    method DoSwap(cr2: Word, isWrite: bool, t: nat, f: nat) returns (r: Outcome)
      requires Valid() && !Present(Pte(View(), cr2 / 4096)) && Offered(View(), cr2 / 4096, t, f)
      modifies this, ram, disk, dir, va
      ensures Valid()
      ensures r == NoRegion <==>
                forall i :: 0 <= i < |regions| ==> !(regions[i].start <= cr2 / 4096 * 4096 < regions[i].end)
      ensures r == Refused <==>
                exists i :: 0 <= i < |regions| && regions[i].start <= cr2 / 4096 * 4096 < regions[i].end &&
                            if isWrite then regions[i].flags % 4 < 2
                            else regions[i].flags % 2 == 0 && regions[i].flags % 8 < 4
      ensures r == NoRegion || r == Refused ==> View() == old(View())
      ensures r == OutOfMemory <==>
                Lets(regions, cr2 / 4096 * 4096, isWrite) && NoFrame(old(View()), cr2 / 4096, t)
      ensures r == Served <==>
                Lets(regions, cr2 / 4096 * 4096, isWrite) && !NoFrame(old(View()), cr2 / 4096, t)
      ensures r == OutOfMemory ==> free == {}
      ensures r == OutOfMemory ==> View() == old(View()) || View() == WithTable(old(View()), cr2 / 4096, t)
      ensures r == Served ==> View() == Fault(old(View()), cr2 / 4096, t, f)
      ensures r == Served ==>
                Brought(old(View()), View(), cr2 / 4096, f, After(old(View()), cr2 / 4096, f))
    {
      var v := cr2 / 4096;
      var found, i := FindVma(v * 4096);
      if !found {
        return NoRegion;
      }
      PermitsInNumbers(regions[i]);
      if !Permits(regions[i], isWrite) {
        return Refused;
      }
      r := Serve(v, t, f);
    }

    /** do_swap past its checks. */
    method Serve(v: nat, t: nat, f: nat) returns (r: Outcome)
      requires Inv(View()) && dir != va && InUser(View(), v) && !Present(Pte(View(), v)) && Offered(View(), v, t, f)
      modifies this`fifo, this`free, ram, disk, dir, va
      ensures Inv(View())
      ensures r == if NoFrame(old(View()), v, t) then OutOfMemory else Served
      ensures r == OutOfMemory ==> free == {} && (View() == old(View()) || View() == WithTable(old(View()), v, t))
      ensures r == Served ==> View() == Fault(old(View()), v, t, f)
      ensures r == Served ==> Brought(old(View()), View(), v, f, After(old(View()), v, f))
    {
      ghost var s := View();
      var ok := GetPte(v, t);
      if !ok {
        return OutOfMemory;
      }
      WithTableKeeps(s, v, t);
      ok := MapOrBring(v, f);
      if !ok {
        return OutOfMemory;
      }
      FramesFrom(s, v, t, f);
      FaultKeeps(s, v, t, f);
      r := Served;
    }

    /** The branch of do_swap on whether the entry looks as if it was never mapped. */
    method MapOrBring(v: nat, f: nat) returns (ok: bool)
      requires Inv(View()) && dir != va && InUser(View(), v) && HasTable(View(), v) && (free != {} ==> f in free)
      modifies this`fifo, this`free, ram, disk, va
      ensures ok <==> old(free) != {}
      ensures ok ==> f < ram.Length && View() == Bring(old(View()), v, f)
      ensures !ok ==> View() == old(View())
    {
      var p := ReadPte(v);
      if PageAddr(p) == 0 && Sign(p) == 0 {
        ok := MapFirst(v, f);
      } else {
        ok := BringIn(v, f);
      }
    }

    // -------------------------------------------------------------------
    // Accesses by the processor
    // -------------------------------------------------------------------

    /** Frames that the allocations of a fault on page v may return. */
    method PickFrames(v: nat) returns (t: nat, f: nat)
      requires Inv(View()) && v < PAGES && ram.Length > 0
      ensures Offered(View(), v, t, f)
    {
      t, f := 0, 0;
      var left := free;
      if !Present(dir[v / ENTRIES]) {
        if free != {} {
          t :| t in free;
        }
        left := free - {t} + set g | g in fifo;
        TableLeaves(View(), v, t);
      }
      if left != {} {
        f :| f in left;
      }
    }

    method LoadWord(v: nat, offset: nat) returns (w: Word)
      requires Inv(View()) && InUser(View(), v) && Present(Pte(View(), v)) && offset < PAGE_WORDS
      ensures w == Contents(View(), v)[offset]
    {
      FrameOfPage(View(), v);
      var p := ReadPte(v);
      w := ram[PageAddr(p)][offset];
    }

    method StoreWord(v: nat, offset: nat, w: Word)
      requires Inv(View()) && InUser(View(), v) && Present(Pte(View(), v)) && offset < PAGE_WORDS
      modifies ram
      ensures View() == R.StoreWord(old(View()), v, offset, w)
    {
      FrameOfPage(View(), v);
      var p := ReadPte(v);
      ram[PageAddr(p)] := ram[PageAddr(p)][offset := w];
    }

    /** The entry of page v, as the processor looks it up. */
    method IsPresent(v: nat) returns (present: bool)
      requires Inv(View()) && InUser(View(), v)
      ensures present <==> Present(Pte(View(), v))
    {
      present := false;
      if Present(dir[v / ENTRIES]) {
        assert IsTable(View(), v / ENTRIES);
        var p := ReadPte(v);
        present := Present(p);
      }
    }

    /** The fault of an access, if its page is not present. */
    method MakePresent(a: R.Access) returns (r: Outcome)
      requires Valid() && InUser(View(), a.page) && a.offset < PAGE_WORDS
      requires Offered(View(), a.page, a.table, a.frame)
      modifies this, ram, disk, dir, va
      ensures Valid()
      ensures r == Served ==> R.CanStep(old(View()), a) && View() == R.Touch(old(View()), a)
      ensures r == Served <==> Present(Pte(old(View()), a.page)) ||
                               (Lets(regions, a.page * 4096, a.isWrite) && !NoFrame(old(View()), a.page, a.table))
    {
      r := Served;
      var present := IsPresent(a.page);
      if !present {
        ghost var s := View();
        r := DoSwap(a.page * 4096, a.isWrite, a.table, a.frame);
        if r == Served {
          FramesFrom(s, a.page, a.table, a.frame);
        }
      }
    }

    /** A load or store: a fault if the page is not present, then the access. */
    method Access(a: R.Access) returns (r: Outcome, w: Word)
      requires Valid() && InUser(View(), a.page) && a.offset < PAGE_WORDS
      requires Offered(View(), a.page, a.table, a.frame)
      modifies this, ram, disk, dir, va
      ensures Valid()
      ensures r == Served ==> R.IsStep(old(View()), a, View()) && w == Contents(View(), a.page)[a.offset]
      ensures r == Served <==> Present(Pte(old(View()), a.page)) ||
                               (Lets(regions, a.page * 4096, a.isWrite) && !NoFrame(old(View()), a.page, a.table))
    {
      ghost var s := View();
      w := 0;
      r := MakePresent(a);
      if r == Served {
        w := Finish(a, s);
      }
    }

    /** The access once the page is present. */
    method Finish(a: R.Access, ghost s: Mm) returns (w: Word)
      requires Valid() && Inv(s) && R.CanStep(s, a) && View() == R.Touch(s, a)
      modifies ram
      ensures Valid() && R.IsStep(s, a, View()) && w == Contents(View(), a.page)[a.offset]
    {
      R.TouchMoves(s, a);
      ghost var s1 := View();
      if a.isWrite {
        StoreWord(a.page, a.offset, a.value);
        R.StoreKeeps(s1, a.page, a.offset, a.value);
      }
      w := LoadWord(a.page, a.offset);
    }

    /**
      The accesses one after the other, each with frames that are free at the time, up to
      the first that cannot be served: a run of the state machine, loads giving the
      contents of memory.
     */
    method RunAll(wanted: seq<R.Access>)
      returns (words: seq<Word>, ghost states: seq<Mm>, ghost accesses: seq<R.Access>)
      requires Valid() && ram.Length > 0
      requires forall i :: 0 <= i < |wanted| ==> InUser(View(), wanted[i].page) && wanted[i].offset < PAGE_WORDS
      modifies this, ram, disk, dir, va
      ensures Valid() && R.IsRun(states, accesses) && states[0] == old(View())
      ensures Answers(wanted, words, states, accesses)
      ensures |words| == |wanted| ==> states[|words|] == View()
      ensures |words| < |wanted| ==> CannotServe(regions, states[|words|], wanted[|words|])
      ensures Lawful(regions, states, accesses)
    {
      words, states, accesses := [], [View()], [];
      ghost var pages := user;
      for i := 0 to |wanted|
        invariant Valid() && |words| == i && View().user == pages
        invariant R.IsRun(states, accesses) && Answers(wanted, words, states, accesses)
        invariant Lawful(regions, states, accesses)
        invariant states[0] == old(View()) && states[i] == View()
      {
        var r, w, a := AccessNext(wanted[i]);
        if r != Served {
          return;
        }
        AnswersOneMore(wanted, words, states, accesses, w, View(), a);
        states := R.Extended(states, accesses, a, View());
        words, accesses := words + [w], accesses + [a];
      }
    }

    method AccessNext(wanted: R.Access) returns (r: Outcome, w: Word, ghost a: R.Access)
      requires Valid() && ram.Length > 0 && InUser(View(), wanted.page) && wanted.offset < PAGE_WORDS
      modifies this, ram, disk, dir, va
      ensures Valid() && Asks(a, wanted)
      ensures r == Served ==> R.IsStep(old(View()), a, View()) && Gives(View(), wanted, w)
      ensures r == Served ==> LawfulStep(regions, old(View()), a)
      ensures r != Served ==> CannotServe(regions, old(View()), wanted)
    {
      ghost var s := View();
      var t, f := PickFrames(wanted.page);
      var given := R.Access(wanted.page, wanted.offset, wanted.isWrite, wanted.value, t, f);
      a := given;
      r, w := Access(given);
      if r != Served {
        assert Blocked(regions, s, wanted, t);
      }
    }
  }

  /** The same access, whatever frames it names. */
  predicate Asks(a: R.Access, wanted: R.Access) {
    a == R.Access(wanted.page, wanted.offset, wanted.isWrite, wanted.value, a.table, a.frame)
  }

  ghost predicate Gives(s: Mm, a: R.Access, w: Word) {
    Shape(s) && a.page < PAGES && a.offset < PAGE_WORDS && w == Contents(s, a.page)[a.offset]
  }

  /** The accesses made are those wanted, and the words are what memory held after each. */
  ghost predicate Answers(wanted: seq<R.Access>, words: seq<Word>, states: seq<Mm>, accesses: seq<R.Access>) {
    && |words| == |accesses| <= |wanted| && |states| == |accesses| + 1
    && (forall i :: 0 <= i < |accesses| ==> Asks(accesses[i], wanted[i]))
    && forall i :: 0 <= i < |words| ==> Gives(states[i + 1], wanted[i], words[i])
  }

  lemma AnswersOneMore(wanted: seq<R.Access>, words: seq<Word>, states: seq<Mm>, accesses: seq<R.Access>,
                       w: Word, s: Mm, a: R.Access)
    requires Answers(wanted, words, states, accesses) && |words| < |wanted|
    requires Asks(a, wanted[|words|]) && Gives(s, wanted[|words|], w)
    ensures Answers(wanted, words + [w], states + [s], accesses + [a])
  {
  }

  /** The page is not present, and no region permits the access or there is no frame. */
  ghost predicate Blocked(regions: seq<Region>, s: Mm, a: R.Access, t: nat) {
    && Shape(s) && a.page < PAGES && t < |s.ram| && !Present(Pte(s, a.page))
    && (s.free != {} && !Present(s.dir[a.page / ENTRIES]) ==> t in s.free)
    && (!Lets(regions, a.page * 4096, a.isWrite) || NoFrame(s, a.page, t))
  }

  ghost predicate CannotServe(regions: seq<Region>, s: Mm, a: R.Access) {
    exists t: nat :: Blocked(regions, s, a, t)
  }

  lemma TableLeaves(s: Mm, v: nat, t: nat)
    requires Inv(s) && v < PAGES && t < |s.ram| && !Present(s.dir[v / ENTRIES])
    ensures WithTable(s, v, t).free == s.free - {t} + set g | g in s.fifo
  {
  }

  /** The frame of a present page. */
  lemma FrameOfPage(s: Mm, v: nat)
    requires Inv(s) && InUser(s, v) && Present(Pte(s, v))
    ensures HasTable(s, v) && PageAddr(Pte(s, v)) < |s.ram|
    ensures Contents(s, v) == s.ram[PageAddr(Pte(s, v))]
  {
    assert PageAddr(Pte(s, v)) in s.fifo;
  }

  /** Frames offered where there are frames are the frames given. */
  lemma FramesFrom(s: Mm, v: nat, t: nat, f: nat)
    requires Inv(s) && InUser(s, v) && Offered(s, v, t, f) && WithTable(s, v, t).free != {}
    requires Present(s.dir[v / ENTRIES]) || s.free != {}
    ensures FramesGiven(s, v, t, f)
  {
  }
}

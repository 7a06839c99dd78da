/**
  Where the paging starts, and a run that loses a page because its slot is one the
  never-mapped test cannot see.
 */
module SwapLoss {
  import opened Memory
  import opened Slots
  import opened SwapDisk
  import opened Swap
  import opened SwapInvariant
  import opened SwapRuns

  const KERNEL_ENTRY: nat := 768       // 0xC0000000 >> 22

  /**
    After boot and vmm_init: entries 0 and 768 share the kernel's table, nothing has
    faulted yet, and the paged range holds only entries that are absent.
   */
  ghost predicate Booted(s: Mm) {
    && Shape(s)
    && Present(s.dir[0]) && Present(s.dir[KERNEL_ENTRY]) && PageAddr(s.dir[0]) == PageAddr(s.dir[KERNEL_ENTRY])
    && s.fifo == []
    && (forall d :: d in s.user ==> !Present(s.dir[d]))
    && forall f :: f in s.free ==> f < |s.ram|
  }

  /** The booted kernel satisfies the invariant, and its paged range is one without entry 0. */
  lemma BootInv(s: Mm)
    requires Booted(s)
    ensures Inv(s) && 0 !in s.user
  {
    assert forall d: nat :: !IsTable(s, d);
    assert forall v: nat | InUser(s, v) :: Pte(s, v) == 0;
  }

  /** Every run of the booted kernel is a run of flat memory. */
  lemma BootedRunRefines(states: seq<Mm>, accesses: seq<Access>)
    requires |states| == |accesses| + 1 && Booted(states[0])
    requires forall i {:trigger accesses[i]} :: 0 <= i < |accesses| ==> IsStep(states[i], accesses[i], states[i + 1])
    ensures forall i :: 0 <= i < |states| ==> Shape(states[i]) && Inv(states[i])
    ensures IsFlatRun(Flats(states), accesses, Initials(states, accesses))
  {
    BootInv(states[0]);
    KernelRunRefines(states, accesses);
  }

  function Directory(): (r: seq<Word>)
    ensures |r| == ENTRIES && r[0] == r[KERNEL_ENTRY] == 7
    ensures forall d :: 0 < d < ENTRIES && d != KERNEL_ENTRY ==> r[d] == 0
  {
    seq(ENTRIES, d => if d == 0 || d == KERNEL_ENTRY then 7 else 0)
  }

  /** Such a state: the kernel's table in frame 0, four free frames, entry 3 paged, as in test_swap. */
  lemma SomeBoot(disk: seq<Sector>, table: Frame) returns (s: Mm)
    requires |disk| == SECTORS
    ensures Booted(s) && s.user == {3} && s.free == {1, 2, 3, 4} && s.ram[0] == table
  {
    s := Mm(Directory(), [table, ZeroPage(), ZeroPage(), ZeroPage(), ZeroPage()], disk, [],
            [0, 0, 0, 0, 0], {1, 2, 3, 4}, {3});
  }

  /** A directory that boot does not make: entry 0 absent and paged, nothing mapped, four zeroed frames. */
  function EmptyDirectory(disk: seq<Sector>): Mm {
    Mm(seq(ENTRIES, i => 0), [ZeroPage(), ZeroPage(), ZeroPage(), ZeroPage()], disk, [],
       [0, 0, 0, 0], {0, 1, 2, 3}, {0})
  }

  /** Any access to another page leaves such a page forgotten. */
  lemma AnotherPageForgets(s: Mm, a: Access, s': Mm, v: nat)
    requires Inv(s) && IsStep(s, a, s') && InUser(s, v) && v != a.page && Pte(s, v) != 0 && !Distinguishable(v)
    ensures Inv(s') && s'.user == s.user && Forgotten(s', v)
  {
    StepMoves(s, a, s');
    assert Keeps(s, s', v);
    OneAtATime(s', a.page, v);
  }

  lemma OneAtATime(s: Mm, u: nat, v: nat)
    requires Residency(s) && InUser(s, u) && InUser(s, v) && u != v && Present(Pte(s, u))
    ensures !Present(Pte(s, v))
  {
    assert PageAddr(Pte(s, u)) == s.fifo[0];
  }

  // ---------------------------------------------------------------------
  // Frames that an access does not use
  // ---------------------------------------------------------------------

  lemma AllocLeaves(s: Mm, f: nat, g: nat)
    requires Inv(s) && f in s.free && g in s.free && g != f
    ensures Inv(Alloc(s, f)) && g in Alloc(s, f).free && Alloc(s, f).ram[g] == s.ram[g]
  {
    AllocKeeps(s, f);
    AllocFrames(s, f, g);
  }

  lemma WithTableLeaves(s: Mm, v: nat, t: nat, f: nat, g: nat)
    requires Inv(s) && InUser(s, v) && FramesGiven(s, v, t, f) && g in s.free && g != t
    ensures g in WithTable(s, v, t).free && WithTable(s, v, t).ram[g] == s.ram[g]
  {
    if !Present(s.dir[v / ENTRIES]) {
      AllocLeaves(s, t, g);
    }
  }

  lemma MapLeaves(s: Mm, v: nat, f: nat, bits: nat, g: nat)
    requires Tables(s) && InUser(s, v) && HasTable(s, v) && f < |s.ram| && bits < 512 && g in s.free && g != f
    ensures g in MapPage(s, v, f, bits).free && MapPage(s, v, f, bits).ram[g] == s.ram[g]
  {
    SetPteFrames(s, v, WithPageAddr(WithSign(Pte(s, v), bits), f), g);
  }

  lemma BringLeaves(s: Mm, v: nat, f: nat, g: nat)
    requires Inv(s) && InUser(s, v) && HasTable(s, v) && f in s.free && g in s.free && g != f
    ensures g in Bring(s, v, f).free && g < |Bring(s, v, f).ram| && Bring(s, v, f).ram[g] == s.ram[g]
  {
    var s1 := Alloc(s, f);
    AllocKeeps(s, f);
    AllocLeaves(s, f, g);
    assert HasTable(s1, v);
    if LooksUnmapped(Pte(s, v)) {
      MapLeaves(s1, v, f, 5, g);
    } else {
      var page := InSlot(s1, Pte(s1, v));
      SetFrameInv(s1, f, page);
      SetFrameReads(s1, f, page, v);
      MapLeaves(SetFrame(s1, f, page), v, f, 7, g);
    }
  }

  /** A free frame that a fault is not given stays free and keeps its content. */
  lemma FaultLeaves(s: Mm, v: nat, t: nat, f: nat, g: nat)
    requires Inv(s) && InUser(s, v) && FramesGiven(s, v, t, f) && g in s.free && g != t && g != f
    ensures f < |s.ram| && g in Fault(s, v, t, f).free
    ensures g < |Fault(s, v, t, f).ram| && Fault(s, v, t, f).ram[g] == s.ram[g]
  {
    WithTableKeeps(s, v, t);
    WithTableFrame(s, v, t, f);
    WithTableLeaves(s, v, t, f, g);
    BringLeaves(WithTable(s, v, t), v, f, g);
  }

  lemma StepLeaves(s: Mm, a: Access, s': Mm, g: nat)
    requires Inv(s) && IsStep(s, a, s') && g in s.free && g != a.table && g != a.frame
    ensures g in s'.free && g < |s'.ram| && s'.ram[g] == s.ram[g]
  {
    if !Present(Pte(s, a.page)) {
      FaultLeaves(s, a.page, a.table, a.frame, g);
    }
    TouchMoves(s, a);
  }

  // ---------------------------------------------------------------------
  // The run
  // ---------------------------------------------------------------------

  /** A step that faults on a page in a range that has its table. */
  lemma CanTouch(s: Mm, a: Access, s1: Mm)
    requires Inv(s) && InUser(s, a.page) && a.offset < PAGE_WORDS && !Present(Pte(s, a.page))
    requires a.table < |s.ram| && HasTable(s, a.page) && a.frame in s.free
    requires s1 == Touch(s, a)
    ensures Shape(s1) && IsStep(s, a, Put(s1, a))
  {
    TouchMoves(s, a);
  }

  const STORE_ONE := Access(1, 0, true, 7, 0, 1)
  const LOAD_TWO := Access(2, 0, false, 0, 0, 2)
  const LOAD_ONE := Access(1, 0, false, 0, 0, 3)

  /** With entry 0 paged: store 7 to page 1, load page 2, load page 1; the load gives 0. */
  lemma PageLost(disk: seq<Sector>) returns (s1: Mm, s2: Mm, s3: Mm)
    requires |disk| == SECTORS
    ensures IsStep(EmptyDirectory(disk), STORE_ONE, s1) && Inv(s1) && Contents(s1, 1)[0] == 7
    ensures IsStep(s1, LOAD_TWO, s2)
    ensures IsStep(s2, LOAD_ONE, s3) && Inv(s3) && Contents(s3, 1)[0] == 0
  {
    s1 := FirstStep(disk);
    s2 := SecondStep(s1);
    s3 := ThirdStep(s2);
  }

  lemma FirstStep(disk: seq<Sector>) returns (s1: Mm)
    requires |disk| == SECTORS
    ensures IsStep(EmptyDirectory(disk), STORE_ONE, s1) && Inv(s1) && s1.user == {0}
    ensures Present(Pte(s1, 1)) && Pte(s1, 2) == 0 && Contents(s1, 1)[0] == 7
    ensures 2 in s1.free && 3 in s1.free && s1.ram[3] == ZeroPage()
  {
    var s, a := EmptyDirectory(disk), STORE_ONE;
    assert Pte(s, 1) == 0 && Pte(s, 2) == 0;
    AllocKeeps(s, 0);
    TouchMoves(s, a);
    s1 := Put(Touch(s, a), a);
    StepMoves(s, a, s1);
    assert Keeps(s, s1, 2);
    StepLeaves(s, a, s1, 2);
    StepLeaves(s, a, s1, 3);
  }

  lemma SecondStep(s1: Mm) returns (s2: Mm)
    requires Inv(s1) && s1.user == {0} && Present(Pte(s1, 1)) && Pte(s1, 2) == 0
    requires 2 in s1.free && 3 in s1.free && s1.ram[3] == ZeroPage()
    ensures IsStep(s1, LOAD_TWO, s2) && Inv(s2) && s2.user == {0} && Forgotten(s2, 1)
    ensures 3 in s2.free && s2.ram[3] == ZeroPage()
  {
    assert HasTable(s1, 1) && HasTable(s1, 2);
    s2 := Touch(s1, LOAD_TWO);
    CanTouch(s1, LOAD_TWO, s2);
    AnotherPageForgets(s1, LOAD_TWO, s2, 1);
    StepLeaves(s1, LOAD_TWO, s2, 3);
  }

  lemma ThirdStep(s2: Mm) returns (s3: Mm)
    requires Inv(s2) && s2.user == {0} && Forgotten(s2, 1) && 3 in s2.free && s2.ram[3] == ZeroPage()
    ensures IsStep(s2, LOAD_ONE, s3) && Inv(s3) && Contents(s3, 1)[0] == 0
  {
    assert HasTable(s2, 1);
    s3 := Touch(s2, LOAD_ONE);
    CanTouch(s2, LOAD_ONE, s3);
    StepMoves(s2, LOAD_ONE, s3);
    FoundExactly(s2, LOAD_ONE);
  }
}

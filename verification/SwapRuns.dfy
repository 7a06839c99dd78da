/** Runs of page accesses: memory seen through faults is a flat memory. */
module SwapRuns {
  import opened Memory
  import opened Slots
  import opened SwapDisk
  import opened Swap
  import opened SwapInvariant

  /** One load or store, with the frames its fault would be given. */
  datatype Access = Access(page: nat, offset: nat, isWrite: bool, value: Word, table: nat, frame: nat)

  /** A store to a present page. */
  function StoreWord(s: Mm, v: nat, offset: nat, w: Word): Mm
    requires Shape(s) && v < PAGES && offset < PAGE_WORDS
  {
    if PageAddr(Pte(s, v)) < |s.ram| then
      SetFrame(s, PageAddr(Pte(s, v)), s.ram[PageAddr(Pte(s, v))][offset := w])
    else s
  }

  /** The access faults if its page is not present. */
  function Touch(s: Mm, a: Access): Mm
    requires Shape(s) && a.page < PAGES && (Present(Pte(s, a.page)) || (a.table < |s.ram| && a.frame < |s.ram|))
  {
    if Present(Pte(s, a.page)) then s else Fault(s, a.page, a.table, a.frame)
  }

  function Put(s: Mm, a: Access): Mm
    requires Shape(s) && a.page < PAGES && a.offset < PAGE_WORDS
  {
    if a.isWrite then StoreWord(s, a.page, a.offset, a.value) else s
  }

  /** The page is paged, and its fault, if it has one, is given frames. */
  ghost predicate CanStep(s: Mm, a: Access) {
    && Shape(s) && InUser(s, a.page) && a.offset < PAGE_WORDS
    && (Present(Pte(s, a.page)) || (a.frame < |s.ram| && FramesGiven(s, a.page, a.table, a.frame)))
  }

  ghost predicate IsStep(s: Mm, a: Access, s': Mm) {
    CanStep(s, a) && Shape(Touch(s, a)) && s' == Put(Touch(s, a), a)
  }

  // ---------------------------------------------------------------------
  // One access
  // ---------------------------------------------------------------------

  /** Page v is present with this content; every other page is as before. */
  ghost predicate Moved(s: Mm, s': Mm, v: nat, page: Frame)
    requires Shape(s) && v < PAGES
  {
    && Inv(s') && s'.user == s.user && Present(Pte(s', v)) && Contents(s', v) == page
    && forall u: nat :: InUser(s, u) && u != v ==> Keeps(s, s', u)
  }

  lemma MovedCompose(s: Mm, s1: Mm, s': Mm, v: nat, page1: Frame, page: Frame)
    requires Shape(s) && Shape(s1) && v < PAGES && Moved(s, s1, v, page1) && Moved(s1, s', v, page)
    ensures Moved(s, s', v, page)
  {
    forall u: nat | InUser(s, u) && u != v ensures Keeps(s, s', u) {
      assert Keeps(s, s1, u) && Keeps(s1, s', u);
    }
  }

  lemma StoreEntries(s: Mm, v: nat, offset: nat, w: Word, u: nat)
    requires Inv(s) && InUser(s, v) && InUser(s, u) && Present(Pte(s, v)) && offset < PAGE_WORDS
    ensures Shape(StoreWord(s, v, offset, w)) && Pte(StoreWord(s, v, offset, w), u) == Pte(s, u)
  {
    assert PageAddr(Pte(s, v)) in s.fifo;
    if HasTable(s, u) {
      assert IsTable(s, u / ENTRIES);
    }
  }

  /** A store to a present page changes that word of that page and nothing else. */
  lemma StoreKeeps(s: Mm, v: nat, offset: nat, w: Word)
    requires Inv(s) && InUser(s, v) && Present(Pte(s, v)) && offset < PAGE_WORDS
    ensures Moved(s, StoreWord(s, v, offset, w), v, Contents(s, v)[offset := w])
  {
    var s' := StoreWord(s, v, offset, w);
    var f := PageAddr(Pte(s, v));
    assert f in s.fifo && Resident(s, f);
    assert forall d: nat :: IsTable(s', d) <==> IsTable(s, d);
    forall u: nat | InUser(s, u) ensures Pte(s', u) == Pte(s, u) {
      StoreEntries(s, v, offset, w, u);
    }
    SameEntries(s, s');
    forall u: nat | InUser(s, u) && u != v ensures Keeps(s, s', u) {
      OnlyResident(s, f, u);
    }
  }

  /** The page as the access finds it. */
  function Found(s: Mm, a: Access): Frame
    requires Shape(s) && a.page < PAGES && (Present(Pte(s, a.page)) || a.frame < |s.ram|)
  {
    if Present(Pte(s, a.page)) then Contents(s, a.page) else After(s, a.page, a.frame)
  }

  function Left(page: Frame, a: Access): Frame
    requires a.offset < PAGE_WORDS
  {
    if a.isWrite then page[a.offset := a.value] else page
  }

  lemma TouchMoves(s: Mm, a: Access)
    requires Inv(s) && CanStep(s, a)
    ensures Shape(Touch(s, a)) && Moved(s, Touch(s, a), a.page, Found(s, a))
  {
    if !Present(Pte(s, a.page)) {
      FaultKeeps(s, a.page, a.table, a.frame);
    }
  }

  lemma StoreMoves(s: Mm, s1: Mm, a: Access, page: Frame)
    requires Shape(s) && InUser(s, a.page) && Moved(s, s1, a.page, page) && a.offset < PAGE_WORDS
    ensures Moved(s, Put(s1, a), a.page, Left(page, a))
  {
    if a.isWrite {
      assert InUser(s1, a.page);
      StoreKeeps(s1, a.page, a.offset, a.value);
      MovedCompose(s, s1, Put(s1, a), a.page, page, Left(page, a));
    }
  }

  /** An access keeps the invariant and every other page, and leaves the page it found, updated by a store. */
  lemma StepMoves(s: Mm, a: Access, s': Mm)
    requires Inv(s) && IsStep(s, a, s')
    ensures Moved(s, s', a.page, Left(Found(s, a), a))
  {
    TouchMoves(s, a);
    StoreMoves(s, Touch(s, a), a, Found(s, a));
  }

  // ---------------------------------------------------------------------
  // Flat memory
  // ---------------------------------------------------------------------

  /** The pages touched so far and what they hold. */
  ghost function Flat(s: Mm): map<nat, Frame>
    requires Shape(s)
  {
    map v: nat | v < PAGES && InUser(s, v) && Pte(s, v) != 0 :: Contents(s, v)
  }

  /** An access on a memory without frames, tables or disk; a page touched for the first time holds initial. */
  function FlatStep(m: map<nat, Frame>, a: Access, initial: Frame): map<nat, Frame>
    requires a.offset < PAGE_WORDS
  {
    m[a.page := Left(if a.page in m then m[a.page] else initial, a)]
  }

  /** What a page touched for the first time by this access would hold. */
  function Initial(s: Mm, a: Access): Frame {
    if a.frame < |s.ram| then s.ram[a.frame] else ZeroPage()
  }

  /** The page is out, and its slot looks like it was never mapped. */
  ghost predicate Forgotten(s: Mm, v: nat)
    requires Shape(s) && v < PAGES
  {
    Pte(s, v) != 0 && !Present(Pte(s, v)) && !Distinguishable(v)
  }

  /** The never-mapped test answers for pages never touched, and for forgotten ones. */
  lemma LooksExactly(s: Mm, v: nat)
    requires Inv(s) && InUser(s, v) && !Present(Pte(s, v))
    ensures LooksUnmapped(Pte(s, v)) <==> Pte(s, v) == 0 || Forgotten(s, v)
  {
    SlotSeenExactly(v * 4096);
  }

  lemma FoundExactly(s: Mm, a: Access)
    requires Inv(s) && CanStep(s, a)
    ensures Found(s, a) ==
            if Pte(s, a.page) == 0 || Forgotten(s, a.page) then Initial(s, a) else Contents(s, a.page)
  {
    if !Present(Pte(s, a.page)) {
      LooksExactly(s, a.page);
    }
  }

  lemma FlatAt(s: Mm, s': Mm, v: nat, page: Frame, u: nat)
    requires Shape(s) && InUser(s, v) && Moved(s, s', v, page)
    ensures u in Flat(s') <==> u == v || u in Flat(s)
    ensures u in Flat(s') ==> Flat(s')[u] == if u == v then page else Flat(s)[u]
  {
    if InUser(s, u) && u != v {
      assert Keeps(s, s', u);
    }
  }

  lemma UpdatedMap<T>(m: map<nat, T>, m': map<nat, T>, v: nat, x: T)
    requires forall u: nat :: u in m' <==> u == v || u in m
    requires forall u: nat :: u in m' ==> m'[u] == if u == v then x else m[u]
    ensures m' == m[v := x]
  {
  }

  lemma MovedFlat(s: Mm, s': Mm, v: nat, page: Frame)
    requires Shape(s) && InUser(s, v) && Moved(s, s', v, page)
    ensures Flat(s') == Flat(s)[v := page]
  {
    var m, m' := Flat(s), Flat(s');
    forall u: nat ensures u in m' <==> u == v || u in m {
      FlatAt(s, s', v, page, u);
    }
    forall u: nat | u in m' ensures m'[u] == if u == v then page else m[u] {
      FlatAt(s, s', v, page, u);
    }
    UpdatedMap(m, m', v, page);
  }

  /** Every access that does not find its page forgotten is an access on flat memory. */
  lemma StepRefines(s: Mm, a: Access, s': Mm)
    requires Inv(s) && IsStep(s, a, s') && !Forgotten(s, a.page)
    ensures Inv(s') && Flat(s') == FlatStep(Flat(s), a, Initial(s, a))
  {
    StepMoves(s, a, s');
    MovedFlat(s, s', a.page, Left(Found(s, a), a));
    FoundExactly(s, a);
  }

  /**
    An access agrees with flat memory exactly when its page is not forgotten, or what it
    leaves in the page is the same all the same: the new frame held the page by chance,
    but for the word a store overwrites.
   */
  lemma AccessRefinesExactly(s: Mm, a: Access, s': Mm)
    requires Inv(s) && IsStep(s, a, s')
    ensures Inv(s')
    ensures Flat(s') == FlatStep(Flat(s), a, Initial(s, a)) <==>
            !Forgotten(s, a.page) || Left(Initial(s, a), a) == Left(Contents(s, a.page), a)
  {
    StepMoves(s, a, s');
    MovedFlat(s, s', a.page, Left(Found(s, a), a));
    FoundExactly(s, a);
    assert Flat(s')[a.page] == Left(Found(s, a), a);
  }

  // ---------------------------------------------------------------------
  // Runs
  // ---------------------------------------------------------------------

  ghost predicate IsRun(states: seq<Mm>, accesses: seq<Access>) {
    && |states| == |accesses| + 1
    && Inv(states[0])
    && forall i {:trigger accesses[i]} :: 0 <= i < |accesses| ==>
         IsStep(states[i], accesses[i], states[i + 1])
  }

  /** Adding one access to a run gives a run. */
  ghost function Extended(states: seq<Mm>, accesses: seq<Access>, a: Access, s': Mm): (longer: seq<Mm>)
    requires IsRun(states, accesses) && IsStep(states[|accesses|], a, s')
    ensures IsRun(longer, accesses + [a]) && longer == states + [s']
  {
    states + [s']
  }

  /** Every access is to a page whose slot the never-mapped test can see. */
  predicate Visible(accesses: seq<Access>) {
    forall i :: 0 <= i < |accesses| ==> Distinguishable(accesses[i].page)
  }

  ghost predicate IsFlatRun(flats: seq<map<nat, Frame>>, accesses: seq<Access>, initials: seq<Frame>) {
    && |flats| == |accesses| + 1 && |initials| == |accesses|
    && forall i {:trigger accesses[i]} :: 0 <= i < |accesses| ==>
         accesses[i].offset < PAGE_WORDS && flats[i + 1] == FlatStep(flats[i], accesses[i], initials[i])
  }

  /** The invariant, residency included, in every state of every run from one that has it. */
  lemma {:induction false} InvInEveryRun(states: seq<Mm>, accesses: seq<Access>, n: nat)
    requires IsRun(states, accesses) && n < |states|
    ensures Inv(states[n]) && states[n].user == states[0].user
  {
    if n > 0 {
      InvInEveryRun(states, accesses, n - 1);
      StepMoves(states[n - 1], accesses[n - 1], states[n]);
    }
  }

  ghost function Flats(states: seq<Mm>): (r: seq<map<nat, Frame>>)
    requires forall i :: 0 <= i < |states| ==> Shape(states[i])
    ensures |r| == |states| && forall i :: 0 <= i < |states| ==> r[i] == Flat(states[i])
  {
    if states == [] then [] else Flats(states[..|states| - 1]) + [Flat(states[|states| - 1])]
  }

  function Initials(states: seq<Mm>, accesses: seq<Access>): (r: seq<Frame>)
    requires |states| == |accesses| + 1
    ensures |r| == |accesses| && forall i :: 0 <= i < |accesses| ==> r[i] == Initial(states[i], accesses[i])
  {
    var n := |accesses|;
    if n == 0 then [] else Initials(states[..n], accesses[..n - 1]) + [Initial(states[n - 1], accesses[n - 1])]
  }

  /** Swap transparency: every run, seen page by page, is a run of flat memory. */
  lemma RunRefines(states: seq<Mm>, accesses: seq<Access>)
    requires IsRun(states, accesses) && Visible(accesses)
    ensures forall i :: 0 <= i < |states| ==> Shape(states[i]) && Inv(states[i])
    ensures IsFlatRun(Flats(states), accesses, Initials(states, accesses))
  {
    forall i | 0 <= i < |states| ensures Shape(states[i]) && Inv(states[i]) {
      InvInEveryRun(states, accesses, i);
    }
    var flats, initials := Flats(states), Initials(states, accesses);
    forall i {:trigger accesses[i]} | 0 <= i < |accesses|
      ensures accesses[i].offset < PAGE_WORDS && flats[i + 1] == FlatStep(flats[i], accesses[i], initials[i])
    {
      InvInEveryRun(states, accesses, i);
      StepRefines(states[i], accesses[i], states[i + 1]);
    }
  }

  /** No access in positions i to j stores to this word. */
  ghost predicate NotStored(accesses: seq<Access>, i: nat, j: nat, v: nat, offset: nat)
    requires i <= j <= |accesses|
  {
    forall k :: i <= k < j ==> !(accesses[k].isWrite && accesses[k].page == v && accesses[k].offset == offset)
  }

  predicate Holds(m: map<nat, Frame>, v: nat, offset: nat, w: Word) {
    v in m && offset < PAGE_WORDS && m[v][offset] == w
  }

  lemma {:induction false} FlatLastStore(flats: seq<map<nat, Frame>>, accesses: seq<Access>, initials: seq<Frame>,
                                         i: nat, j: nat)
    requires IsFlatRun(flats, accesses, initials) && i < j <= |accesses| && accesses[i].isWrite
    requires NotStored(accesses, i + 1, j, accesses[i].page, accesses[i].offset)
    ensures Holds(flats[j], accesses[i].page, accesses[i].offset, accesses[i].value)
    decreases j
  {
    var a := accesses[j - 1];
    assert flats[j] == FlatStep(flats[j - 1], a, initials[j - 1]);
    if j > i + 1 {
      FlatLastStore(flats, accesses, initials, i, j - 1);
    }
  }

  /** A word stored by access i is there until the next store to it, whatever is evicted in between. */
  lemma LastStoreIsRead(states: seq<Mm>, accesses: seq<Access>, i: nat, j: nat)
    requires IsRun(states, accesses) && Visible(accesses) && i < j < |states| && accesses[i].isWrite
    requires NotStored(accesses, i + 1, j, accesses[i].page, accesses[i].offset)
    ensures Inv(states[j]) && Holds(Flat(states[j]), accesses[i].page, accesses[i].offset, accesses[i].value)
  {
    RunRefines(states, accesses);
    FlatLastStore(Flats(states), accesses, Initials(states, accesses), i, j);
  }

  // ---------------------------------------------------------------------
  // Ranges without directory entry 0
  // ---------------------------------------------------------------------

  lemma FarPageSeen(v: nat)
    requires v / ENTRIES != 0
    ensures Distinguishable(v)
  {
  }

  /** Where entry 0 is not paged, every page is one whose slot is seen. */
  lemma AlwaysVisible(states: seq<Mm>, accesses: seq<Access>)
    requires IsRun(states, accesses) && 0 !in states[0].user
    ensures Visible(accesses)
  {
    forall i | 0 <= i < |accesses| ensures Distinguishable(accesses[i].page) {
      InvInEveryRun(states, accesses, i);
      assert IsStep(states[i], accesses[i], states[i + 1]);
      FarPageSeen(accesses[i].page);
    }
  }

  /**
    Swap transparency for every paged range the kernel can have: boot fills entry 0, so
    it is not paged, and then every run of accesses is a run of flat memory.
   */
  lemma KernelRunRefines(states: seq<Mm>, accesses: seq<Access>)
    requires IsRun(states, accesses) && 0 !in states[0].user
    ensures forall i :: 0 <= i < |states| ==> Shape(states[i]) && Inv(states[i])
    ensures IsFlatRun(Flats(states), accesses, Initials(states, accesses))
  {
    AlwaysVisible(states, accesses);
    RunRefines(states, accesses);
  }

  /** In such a range a stored word is there until the next store to it, whatever is evicted in between. */
  lemma KernelLastStoreIsRead(states: seq<Mm>, accesses: seq<Access>, i: nat, j: nat)
    requires IsRun(states, accesses) && 0 !in states[0].user && i < j < |states| && accesses[i].isWrite
    requires NotStored(accesses, i + 1, j, accesses[i].page, accesses[i].offset)
    ensures Inv(states[j]) && Holds(Flat(states[j]), accesses[i].page, accesses[i].offset, accesses[i].value)
  {
    AlwaysVisible(states, accesses);
    LastStoreIsRead(states, accesses, i, j);
  }
}

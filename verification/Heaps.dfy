/**
  The chunk list of malloc and free (mm/malloc.c): first fit with splitting, growth by
  whole pages, immediate coalescing with both list neighbours.
 */
module Heaps {
  import opened Memory

  const HEADER: nat := 12     // sizeof(struct Chunk)

  /** A chunk at addr: its header, then size payload bytes. */
  datatype Chunk = Chunk(addr: nat, size: nat, used: bool)

  /** Pages handed out by one alloc_page call. */
  datatype Run = Run(base: nat, pages: nat)

  /** The chunks in list order, the pages obtained, and the bytes at the ends of runs that no chunk covers. */
  datatype Heap = Heap(chunks: seq<Chunk>, runs: seq<Run>, slack: nat)

  function End(c: Chunk): nat { c.addr + HEADER + c.size }

  predicate Adjacent(c: Chunk, d: Chunk) { End(c) == d.addr }

  predicate ChunksApart(c: Chunk, d: Chunk) { End(c) <= d.addr || End(d) <= c.addr }

  function RunEnd(r: Run): nat { r.base + r.pages * PAGE_SIZE }

  predicate Covers(c: Chunk, x: int) { c.addr <= x < End(c) }

  predicate InRun(x: int, r: Run) { r.base <= x < RunEnd(r) }

  // ---------------------------------------------------------------------
  // malloc
  // ---------------------------------------------------------------------

  /** total_alloc_size of malloc, in u32 arithmetic. */
  function Total(size: Word): Word { (HEADER + size) % WORDS }

  /**
    The sum covers header and payload exactly when size is at most 2^32 - 13; for the
    twelve larger sizes it wraps to less than a header, so that any free chunk of twelve
    bytes would serve a request of four gigabytes.
   */
  lemma TotalCovers(size: Word, c: Chunk)
    ensures Total(size) >= HEADER + size <==> size < WORDS - HEADER
    ensures size >= WORDS - HEADER ==> Total(size) < HEADER
    ensures size >= WORDS - HEADER && !c.used && c.size >= HEADER ==> Serves(c, Total(size)) && c.size + WORDS > size
  {
    if size >= WORDS - HEADER {
      assert HEADER + size == WORDS + (HEADER + size - WORDS);
    }
  }

  predicate Serves(c: Chunk, total: nat) { !c.used && c.size >= total }

  /** The first chunk that serves the request, or the length of the list. */
  function FirstFit(chunks: seq<Chunk>, total: nat): (i: nat)
    ensures i <= |chunks|
    ensures i < |chunks| ==> Serves(chunks[i], total)
    ensures forall j :: 0 <= j < i ==> !Serves(chunks[j], total)
  {
    if chunks == [] || Serves(chunks[0], total) then 0
    else
      var k := FirstFit(chunks[1..], total);
      assert forall j :: 0 < j < k + 1 ==> chunks[j] == chunks[1..][j - 1];
      k + 1
  }

  /** The block handed out and the free rest of chunk c. */
  function Parts(c: Chunk, total: nat): seq<Chunk>
    requires HEADER <= total <= c.size
  {
    [Chunk(c.addr, total - HEADER, true), Chunk(c.addr + total, c.size - total, false)]
  }

  function Split(chunks: seq<Chunk>, i: nat, total: nat): seq<Chunk>
    requires i < |chunks| && HEADER <= total <= chunks[i].size
  {
    chunks[..i] + Parts(chunks[i], total) + chunks[i + 1..]
  }

  function PagesFor(total: nat): nat {
    total / PAGE_SIZE + if total % PAGE_SIZE > 0 then 1 else 0
  }

  function Remaining(total: nat): nat
    ensures total + Remaining(total) == PagesFor(total) * PAGE_SIZE
  {
    PagesFor(total) * PAGE_SIZE - total
  }

  function Grow(chunks: seq<Chunk>, base: nat, total: nat): seq<Chunk>
    requires HEADER <= total
  {
    var taken := chunks + [Chunk(base, total - HEADER, true)];
    if Remaining(total) > HEADER then taken + [Chunk(base + total, Remaining(total) - HEADER, false)] else taken
  }

  /** alloc_page gives pages at base that no earlier run covers; only used when the list has no fit. */
  predicate FreshRun(h: Heap, base: nat, pages: nat) {
    forall r :: 0 <= r < |h.runs| ==> base + pages * PAGE_SIZE <= h.runs[r].base || RunEnd(h.runs[r]) <= base
  }

  predicate CanMalloc(h: Heap, size: nat, base: nat) {
    FirstFit(h.chunks, HEADER + size) < |h.chunks| || FreshRun(h, base, PagesFor(HEADER + size))
  }

  function Malloc(h: Heap, size: nat, base: nat): Heap {
    var total := HEADER + size;
    var i := FirstFit(h.chunks, total);
    if i < |h.chunks| then h.(chunks := Split(h.chunks, i, total))
    else Heap(Grow(h.chunks, base, total),
              h.runs + [Run(base, PagesFor(total))],
              h.slack + if Remaining(total) > HEADER then 0 else Remaining(total))
  }

  /** The chunk malloc hands out. */
  function Given(h: Heap, size: nat, base: nat): Chunk {
    var i := FirstFit(h.chunks, HEADER + size);
    Chunk(if i < |h.chunks| then h.chunks[i].addr else base, size, true)
  }

  // ---------------------------------------------------------------------
  // free
  // ---------------------------------------------------------------------

  predicate CanMerge(chunks: seq<Chunk>, i: nat) {
    i + 1 < |chunks| && !chunks[i].used && !chunks[i + 1].used && Adjacent(chunks[i], chunks[i + 1])
  }

  function Merge(chunks: seq<Chunk>, i: nat): seq<Chunk> {
    if CanMerge(chunks, i) then
      chunks[..i] + [Chunk(chunks[i].addr, chunks[i].size + HEADER + chunks[i + 1].size, false)] + chunks[i + 2..]
    else chunks
  }

  function Released(chunks: seq<Chunk>, i: nat): seq<Chunk>
    requires i < |chunks|
  {
    chunks[i := chunks[i].(used := false)]
  }

  /** Free, then merge with the previous chunk, then the result with the next one. */
  function FreeAt(chunks: seq<Chunk>, i: nat): seq<Chunk>
    requires i < |chunks|
  {
    var freed := Released(chunks, i);
    if i > 0 && CanMerge(freed, i - 1) then Merge(Merge(freed, i - 1), i - 1) else Merge(freed, i)
  }

  function Free(h: Heap, i: nat): Heap
    requires i < |h.chunks|
  {
    h.(chunks := FreeAt(h.chunks, i))
  }

  // ---------------------------------------------------------------------
  // The invariant
  // ---------------------------------------------------------------------

  ghost predicate AllApart(chunks: seq<Chunk>) {
    forall i, j :: 0 <= i < j < |chunks| ==> ChunksApart(chunks[i], chunks[j])
  }

  ghost predicate Obtained(x: int, runs: seq<Run>) {
    exists r :: 0 <= r < |runs| && InRun(x, runs[r])
  }

  /** Every byte of every chunk, header included, lies in pages obtained from alloc_page. */
  ghost predicate InsidePages(chunks: seq<Chunk>, runs: seq<Run>) {
    forall i, x :: 0 <= i < |chunks| && Covers(chunks[i], x) ==> Obtained(x, runs)
  }

  /** No two list neighbours are both free and adjacent. */
  ghost predicate Coalesced(chunks: seq<Chunk>) {
    forall i: nat :: !CanMerge(chunks, i)
  }

  function Bytes(chunks: seq<Chunk>): nat {
    if chunks == [] then 0 else Bytes(chunks[..|chunks| - 1]) + HEADER + chunks[|chunks| - 1].size
  }

  function PageCount(runs: seq<Run>): nat {
    if runs == [] then 0 else PageCount(runs[..|runs| - 1]) + runs[|runs| - 1].pages
  }

  /** Every byte of every page obtained is in exactly one chunk or is slack; at most 12 bytes of slack per run. */
  predicate Conserved(h: Heap) {
    Bytes(h.chunks) + h.slack == PAGE_SIZE * PageCount(h.runs) && h.slack <= HEADER * |h.runs|
  }

  ghost predicate Inv(h: Heap) {
    AllApart(h.chunks) && InsidePages(h.chunks, h.runs) && Coalesced(h.chunks) && Conserved(h)
  }

  /** The blocks in use. */
  ghost function Live(h: Heap): set<Chunk> {
    set c | c in h.chunks && c.used
  }

  lemma {:induction false} BytesConcat(a: seq<Chunk>, b: seq<Chunk>)
    ensures Bytes(a + b) == Bytes(a) + Bytes(b)
  {
    if b == [] {
      assert a + b == a;
    } else {
      assert (a + b)[..|a + b| - 1] == a + b[..|b| - 1];
      BytesConcat(a, b[..|b| - 1]);
    }
  }

  lemma BytesReplace(chunks: seq<Chunk>, i: nat, j: nat, mid: seq<Chunk>)
    requires i <= j <= |chunks| && Bytes(mid) == Bytes(chunks[i..j])
    ensures Bytes(chunks[..i] + mid + chunks[j..]) == Bytes(chunks)
  {
    BytesConcat(chunks[..i], mid);
    BytesConcat(chunks[..i] + mid, chunks[j..]);
    BytesConcat(chunks[..i], chunks[i..j]);
    BytesConcat(chunks[..i] + chunks[i..j], chunks[j..]);
    assert chunks == chunks[..i] + chunks[i..j] + chunks[j..];
  }

  lemma BytesOne(c: Chunk)
    ensures Bytes([c]) == HEADER + c.size
  {
    assert [c][..0] == [];
  }

  lemma BytesTwo(c: Chunk, d: Chunk)
    ensures Bytes([c, d]) == HEADER + c.size + HEADER + d.size
  {
    assert [c, d][..1] == [c];
    BytesOne(c);
  }

  // ---------------------------------------------------------------------
  // Splitting keeps the invariant
  // ---------------------------------------------------------------------

  lemma SplitAt(chunks: seq<Chunk>, i: nat, total: nat, k: nat)
    requires i < |chunks| && HEADER <= total <= chunks[i].size && k <= |chunks|
    ensures |Split(chunks, i, total)| == |chunks| + 1
    ensures Split(chunks, i, total)[k] ==
            if k < i then chunks[k]
            else if k == i then Chunk(chunks[i].addr, total - HEADER, true)
            else if k == i + 1 then Chunk(chunks[i].addr + total, chunks[i].size - total, false)
            else chunks[k - 1]
  {
  }

  lemma SplitKeepsCoalesced(chunks: seq<Chunk>, i: nat, total: nat)
    requires Coalesced(chunks) && i < |chunks| && Serves(chunks[i], total) && HEADER <= total
    ensures Coalesced(Split(chunks, i, total))
  {
    var next := Split(chunks, i, total);
    forall j: nat ensures !CanMerge(next, j) {
      if j + 1 < |next| {
        SplitAt(chunks, i, total, j);
        SplitAt(chunks, i, total, j + 1);
        assert !CanMerge(chunks, if j <= i then j else j - 1);
      }
    }
  }

  lemma PartsBytes(c: Chunk, total: nat)
    requires HEADER <= total <= c.size
    ensures Bytes(Parts(c, total)) == Bytes([c])
  {
    BytesTwo(Parts(c, total)[0], Parts(c, total)[1]);
    BytesOne(c);
  }

  lemma SplitKeepsBytes(chunks: seq<Chunk>, i: nat, total: nat)
    requires i < |chunks| && HEADER <= total <= chunks[i].size
    ensures Bytes(Split(chunks, i, total)) == Bytes(chunks)
  {
    PartsBytes(chunks[i], total);
    assert chunks[i..i + 1] == [chunks[i]];
    BytesReplace(chunks, i, i + 1, Parts(chunks[i], total));
  }

  lemma SplitKeepsAll(h: Heap, i: nat, total: nat)
    requires Inv(h) && i < |h.chunks| && Serves(h.chunks[i], total) && HEADER <= total
    ensures Inv(h.(chunks := Split(h.chunks, i, total)))
  {
    SplitKeepsCoalesced(h.chunks, i, total);
    SplitKeepsBytes(h.chunks, i, total);
  }

  // ---------------------------------------------------------------------
  // Growing keeps the invariant
  // ---------------------------------------------------------------------

  /** The chunks a growth appends. */
  function Added(base: nat, total: nat): (r: seq<Chunk>)
    requires HEADER <= total
  {
    Grow([], base, total)
  }

  lemma GrowKeepsPages(h: Heap, size: nat, base: nat)
    requires Inv(h) && FirstFit(h.chunks, HEADER + size) == |h.chunks|
    ensures InsidePages(Malloc(h, size, base).chunks, Malloc(h, size, base).runs)
  {
    var h' := Malloc(h, size, base);
    forall k, x | 0 <= k < |h'.chunks| && Covers(h'.chunks[k], x) ensures Obtained(x, h'.runs) {
      if k < |h.chunks| {
        assert Covers(h.chunks[k], x);
        assert Obtained(x, h.runs);
        var r :| 0 <= r < |h.runs| && InRun(x, h.runs[r]);
        assert InRun(x, h'.runs[r]);
      } else {
        assert InRun(x, h'.runs[|h.runs|]);
      }
    }
  }

  lemma GrowKeepsDisjoint(h: Heap, size: nat, base: nat)
    requires Inv(h) && FirstFit(h.chunks, HEADER + size) == |h.chunks| && CanMalloc(h, size, base)
    ensures AllApart(Malloc(h, size, base).chunks)
  {
    var h' := Malloc(h, size, base);
    forall j, k | 0 <= j < k < |h'.chunks| ensures ChunksApart(h'.chunks[j], h'.chunks[k]) {
      var c, d := h'.chunks[j], h'.chunks[k];
      if k < |h.chunks| {
        assert ChunksApart(h.chunks[j], h.chunks[k]);
      } else if j < |h.chunks| && !ChunksApart(c, d) {
        var x := if c.addr >= d.addr then c.addr else d.addr;
        assert Covers(h.chunks[j], x);
        assert Obtained(x, h.runs);
        var r :| 0 <= r < |h.runs| && InRun(x, h.runs[r]);
      }
    }
  }

  lemma GrowKeepsCoalesced(chunks: seq<Chunk>, base: nat, total: nat)
    requires Coalesced(chunks) && HEADER <= total
    ensures Coalesced(Grow(chunks, base, total))
  {
    forall j: nat ensures !CanMerge(Grow(chunks, base, total), j) {
      assert !CanMerge(chunks, j);
    }
  }

  lemma AddedBytes(base: nat, total: nat)
    requires HEADER <= total
    ensures Bytes(Added(base, total)) + (if Remaining(total) > HEADER then 0 else Remaining(total))
            == PAGE_SIZE * PagesFor(total)
  {
    var taken := Chunk(base, total - HEADER, true);
    if Remaining(total) > HEADER {
      BytesTwo(taken, Chunk(base + total, Remaining(total) - HEADER, false));
      assert Added(base, total) == [taken, Chunk(base + total, Remaining(total) - HEADER, false)];
    } else {
      BytesOne(taken);
      assert Added(base, total) == [taken];
    }
  }

  lemma RunsGrow(h: Heap, size: nat, base: nat)
    requires FirstFit(h.chunks, HEADER + size) == |h.chunks|
    ensures PageCount(Malloc(h, size, base).runs) == PageCount(h.runs) + PagesFor(HEADER + size)
    ensures |Malloc(h, size, base).runs| == |h.runs| + 1
  {
    assert Malloc(h, size, base).runs[..|h.runs|] == h.runs;
  }

  lemma GrowParts(h: Heap, size: nat, base: nat)
    requires FirstFit(h.chunks, HEADER + size) == |h.chunks|
    ensures var h', total := Malloc(h, size, base), HEADER + size;
            && Bytes(h'.chunks) == Bytes(h.chunks) + Bytes(Added(base, total))
            && PageCount(h'.runs) == PageCount(h.runs) + PagesFor(total)
            && |h'.runs| == |h.runs| + 1
            && h'.slack == h.slack + (PAGE_SIZE * PagesFor(total) - Bytes(Added(base, total)))
            && Bytes(Added(base, total)) <= PAGE_SIZE * PagesFor(total) <= Bytes(Added(base, total)) + HEADER
  {
    var total := HEADER + size;
    BytesConcat(h.chunks, Added(base, total));
    AddedBytes(base, total);
    assert Grow(h.chunks, base, total) == h.chunks + Added(base, total);
    RunsGrow(h, size, base);
  }

  lemma GrowConserves(h: Heap, size: nat, base: nat)
    requires Conserved(h) && FirstFit(h.chunks, HEADER + size) == |h.chunks|
    ensures Conserved(Malloc(h, size, base))
  {
    GrowParts(h, size, base);
  }

  lemma GrowKeepsInv(h: Heap, size: nat, base: nat)
    requires Inv(h) && FirstFit(h.chunks, HEADER + size) == |h.chunks| && CanMalloc(h, size, base)
    ensures Inv(Malloc(h, size, base))
  {
    GrowKeepsPages(h, size, base);
    GrowKeepsDisjoint(h, size, base);
    GrowKeepsCoalesced(h.chunks, base, HEADER + size);
    GrowConserves(h, size, base);
  }

  lemma MallocKeepsInv(h: Heap, size: nat, base: nat)
    requires Inv(h) && CanMalloc(h, size, base)
    ensures Inv(Malloc(h, size, base))
  {
    if FirstFit(h.chunks, HEADER + size) < |h.chunks| {
      SplitKeepsAll(h, FirstFit(h.chunks, HEADER + size), HEADER + size);
    } else {
      GrowKeepsInv(h, size, base);
    }
  }

  // ---------------------------------------------------------------------
  // Freeing keeps the invariant
  // ---------------------------------------------------------------------

  lemma MergeAt(chunks: seq<Chunk>, i: nat, k: nat)
    requires CanMerge(chunks, i) && k + 1 < |chunks|
    ensures |Merge(chunks, i)| == |chunks| - 1
    ensures Merge(chunks, i)[k] ==
            if k < i then chunks[k]
            else if k == i then Chunk(chunks[i].addr, chunks[i].size + HEADER + chunks[i + 1].size, false)
            else chunks[k + 1]
  {
  }

  lemma MergeKeepsDisjoint(chunks: seq<Chunk>, i: nat)
    requires AllApart(chunks)
    ensures AllApart(Merge(chunks, i))
  {
    if CanMerge(chunks, i) {
      var next := Merge(chunks, i);
      forall j, k | 0 <= j < k < |next| ensures ChunksApart(next[j], next[k]) {
        MergeAt(chunks, i, j);
        MergeAt(chunks, i, k);
        var j', k' := if j <= i then j else j + 1, if k <= i then k else k + 1;
        assert ChunksApart(chunks[j'], chunks[k']);
        if j == i {
          assert ChunksApart(chunks[i + 1], chunks[k']);
        } else if k == i {
          assert ChunksApart(chunks[j'], chunks[i + 1]);
        }
      }
    }
  }

  lemma MergeKeepsBytes(chunks: seq<Chunk>, i: nat)
    ensures Bytes(Merge(chunks, i)) == Bytes(chunks)
  {
    if CanMerge(chunks, i) {
      var joined := Chunk(chunks[i].addr, chunks[i].size + HEADER + chunks[i + 1].size, false);
      assert chunks[i..i + 2] == [chunks[i], chunks[i + 1]];
      BytesTwo(chunks[i], chunks[i + 1]);
      BytesOne(joined);
      BytesReplace(chunks, i, i + 2, [joined]);
    }
  }

  lemma MergeKeepsPages(chunks: seq<Chunk>, i: nat, runs: seq<Run>)
    requires InsidePages(chunks, runs)
    ensures InsidePages(Merge(chunks, i), runs)
  {
    if CanMerge(chunks, i) {
      var next := Merge(chunks, i);
      forall k, x | 0 <= k < |next| && Covers(next[k], x) ensures Obtained(x, runs) {
        MergeAt(chunks, i, k);
        if k == i {
          assert Covers(chunks[i], x) || Covers(chunks[i + 1], x);
        } else {
          assert Covers(chunks[if k < i then k else k + 1], x);
        }
      }
    }
  }

  lemma MergeKeeps(chunks: seq<Chunk>, i: nat, runs: seq<Run>)
    requires AllApart(chunks) && InsidePages(chunks, runs)
    ensures AllApart(Merge(chunks, i)) && InsidePages(Merge(chunks, i), runs)
    ensures Bytes(Merge(chunks, i)) == Bytes(chunks)
  {
    MergeKeepsDisjoint(chunks, i);
    MergeKeepsPages(chunks, i, runs);
    MergeKeepsBytes(chunks, i);
  }

  lemma ReleasedKeepsBytes(chunks: seq<Chunk>, i: nat)
    requires i < |chunks|
    ensures Bytes(Released(chunks, i)) == Bytes(chunks)
  {
    var c := chunks[i].(used := false);
    assert Released(chunks, i) == chunks[..i] + [c] + chunks[i + 1..];
    assert chunks[i..i + 1] == [chunks[i]];
    BytesOne(chunks[i]);
    BytesOne(c);
    BytesReplace(chunks, i, i + 1, [c]);
  }

  lemma ReleasedKeeps(chunks: seq<Chunk>, i: nat, runs: seq<Run>)
    requires AllApart(chunks) && InsidePages(chunks, runs) && i < |chunks|
    ensures AllApart(Released(chunks, i)) && InsidePages(Released(chunks, i), runs)
    ensures Bytes(Released(chunks, i)) == Bytes(chunks)
  {
    var next := Released(chunks, i);
    forall j, k | 0 <= j < k < |next| ensures ChunksApart(next[j], next[k]) {
      assert ChunksApart(chunks[j], chunks[k]);
    }
    forall k, x | 0 <= k < |next| && Covers(next[k], x) ensures Obtained(x, runs) {
      assert Covers(chunks[k], x);
    }
    ReleasedKeepsBytes(chunks, i);
  }

  /** Only the freed chunk can be mergeable with a neighbour, and both merges are tried. */
  lemma FreeKeepsCoalesced(chunks: seq<Chunk>, i: nat)
    requires Coalesced(chunks) && i < |chunks| && chunks[i].used
    ensures Coalesced(FreeAt(chunks, i))
  {
    var freed := Released(chunks, i);
    forall j: nat | j != i && j + 1 != i ensures !CanMerge(freed, j) {
      assert !CanMerge(chunks, j);
    }
    if i > 0 && CanMerge(freed, i - 1) {
      var once := Merge(freed, i - 1);
      forall j: nat | j != i - 1 ensures !CanMerge(once, j) {
        assert !CanMerge(freed, if j < i - 1 then j else j + 1);
      }
      MergeOnceMore(once, i - 1);
    } else {
      MergeOnceMore(freed, i);
    }
  }

  lemma MergeOnceMore(chunks: seq<Chunk>, i: nat)
    requires i < |chunks| && !chunks[i].used
    requires forall j: nat :: j != i ==> !CanMerge(chunks, j)
    ensures Coalesced(Merge(chunks, i))
  {
    var next := Merge(chunks, i);
    if CanMerge(chunks, i) {
      forall j: nat ensures !CanMerge(next, j) {
        if j < i {
          assert !CanMerge(chunks, j);
        } else {
          assert !CanMerge(chunks, j + 1);
        }
      }
    } else {
      forall j: nat ensures !CanMerge(next, j) {
        assert j != i ==> !CanMerge(chunks, j);
      }
    }
  }

  lemma MergeTwiceKeeps(chunks: seq<Chunk>, i: nat, runs: seq<Run>)
    requires AllApart(chunks) && InsidePages(chunks, runs)
    ensures AllApart(Merge(Merge(chunks, i), i)) && InsidePages(Merge(Merge(chunks, i), i), runs)
    ensures Bytes(Merge(Merge(chunks, i), i)) == Bytes(chunks)
  {
    MergeKeeps(chunks, i, runs);
    MergeKeeps(Merge(chunks, i), i, runs);
  }

  lemma FreeKeeps(chunks: seq<Chunk>, i: nat, runs: seq<Run>)
    requires AllApart(chunks) && InsidePages(chunks, runs) && i < |chunks|
    ensures AllApart(FreeAt(chunks, i)) && InsidePages(FreeAt(chunks, i), runs)
    ensures Bytes(FreeAt(chunks, i)) == Bytes(chunks)
  {
    var freed := Released(chunks, i);
    ReleasedKeeps(chunks, i, runs);
    if i > 0 && CanMerge(freed, i - 1) {
      MergeTwiceKeeps(freed, i - 1, runs);
    } else {
      MergeKeeps(freed, i, runs);
    }
  }

  lemma FreeKeepsInv(h: Heap, i: nat)
    requires Inv(h) && i < |h.chunks| && h.chunks[i].used
    ensures Inv(Free(h, i))
  {
    FreeKeeps(h.chunks, i, h.runs);
    FreeKeepsCoalesced(h.chunks, i);
  }

  // ---------------------------------------------------------------------
  // The blocks in use
  // ---------------------------------------------------------------------

  lemma MergeKeepsLive(chunks: seq<Chunk>, i: nat, c: Chunk)
    requires c.used
    ensures c in Merge(chunks, i) <==> c in chunks
  {
    if CanMerge(chunks, i) {
      assert chunks == chunks[..i] + [chunks[i], chunks[i + 1]] + chunks[i + 2..];
    }
  }

  lemma SplitAddsBlock(chunks: seq<Chunk>, i: nat, total: nat)
    requires i < |chunks| && Serves(chunks[i], total) && HEADER <= total && AllApart(chunks)
    ensures var given := Chunk(chunks[i].addr, total - HEADER, true);
            && (forall c: Chunk :: c.used ==> (c in Split(chunks, i, total) <==> c in chunks || c == given))
            && (forall c :: c in chunks && c.used ==> ChunksApart(c, given))
  {
    assert chunks == chunks[..i] + [chunks[i]] + chunks[i + 1..];
    forall c | c in chunks && c.used ensures ChunksApart(c, Chunk(chunks[i].addr, total - HEADER, true)) {
      var k :| 0 <= k < |chunks| && chunks[k] == c;
      if k < i {
        assert ChunksApart(chunks[k], chunks[i]);
      } else {
        assert ChunksApart(chunks[i], chunks[k]);
      }
    }
  }

  lemma GrowAddsBlock(h: Heap, size: nat, base: nat)
    requires Inv(h) && CanMalloc(h, size, base) && FirstFit(h.chunks, HEADER + size) == |h.chunks|
    ensures var given := Chunk(base, size, true);
            && (forall c: Chunk :: c.used ==>
                  (c in Grow(h.chunks, base, HEADER + size) <==> c in h.chunks || c == given))
            && (forall c :: c in h.chunks && c.used ==> ChunksApart(c, given))
  {
    GrowKeepsDisjoint(h, size, base);
    var next := Malloc(h, size, base).chunks;
    assert next[|h.chunks|] == Chunk(base, size, true);
    forall c | c in h.chunks && c.used ensures ChunksApart(c, Chunk(base, size, true)) {
      var k :| 0 <= k < |h.chunks| && h.chunks[k] == c;
      assert ChunksApart(next[k], next[|h.chunks|]);
    }
  }

  /** malloc adds exactly the block it returns, which overlaps no block in use and has the requested size. */
  lemma MallocAddsBlock(h: Heap, size: nat, base: nat)
    requires Inv(h) && CanMalloc(h, size, base)
    ensures Live(Malloc(h, size, base)) == Live(h) + {Given(h, size, base)}
    ensures forall c :: c in Live(h) ==> ChunksApart(c, Given(h, size, base))
  {
    var i := FirstFit(h.chunks, HEADER + size);
    var given := Given(h, size, base);
    if i < |h.chunks| {
      SplitAddsBlock(h.chunks, i, HEADER + size);
    } else {
      GrowAddsBlock(h, size, base);
    }
    var next := Malloc(h, size, base).chunks;
    assert forall c: Chunk :: c.used ==> (c in next <==> c in h.chunks || c == given);
    assert forall c :: c in h.chunks && c.used ==> ChunksApart(c, given);
  }

  /** free removes exactly the freed block. */
  lemma FreeRemovesBlock(h: Heap, i: nat)
    requires Inv(h) && i < |h.chunks| && h.chunks[i].used
    ensures Live(Free(h, i)) == Live(h) - {h.chunks[i]}
  {
    var freed := Released(h.chunks, i);
    forall c: Chunk | c.used ensures c in Free(h, i).chunks <==> c in h.chunks && c != h.chunks[i] {
      if i > 0 && CanMerge(freed, i - 1) {
        MergeKeepsLive(freed, i - 1, c);
        MergeKeepsLive(Merge(freed, i - 1), i - 1, c);
      } else {
        MergeKeepsLive(freed, i, c);
      }
      if c in h.chunks && c != h.chunks[i] {
        var k :| 0 <= k < |h.chunks| && h.chunks[k] == c;
        assert freed[k] == c;
      }
      if c in freed {
        var k :| 0 <= k < |freed| && freed[k] == c;
        assert k != i && h.chunks[k] == c;
        assert ChunksApart(h.chunks[if k < i then k else i], h.chunks[if k < i then i else k]);
      }
    }
  }

  /** A malloc served by splitting, followed by the free of that block, restores the heap exactly. */
  lemma MallocThenFree(h: Heap, size: nat, base: nat)
    requires Coalesced(h.chunks) && FirstFit(h.chunks, HEADER + size) < |h.chunks|
    ensures var i := FirstFit(h.chunks, HEADER + size);
            && i < |Malloc(h, size, base).chunks|
            && Malloc(h, size, base).chunks[i] == Given(h, size, base)
            && Free(Malloc(h, size, base), i) == h
  {
    SplitThenFree(h.chunks, FirstFit(h.chunks, HEADER + size), HEADER + size);
  }

  lemma SplitThenFree(chunks: seq<Chunk>, i: nat, total: nat)
    requires Coalesced(chunks) && i < |chunks| && Serves(chunks[i], total) && HEADER <= total
    ensures FreeAt(Split(chunks, i, total), i) == chunks
  {
    var freed := Released(Split(chunks, i, total), i);
    assert freed[i] == Chunk(chunks[i].addr, total - HEADER, false);
    assert freed[i + 1] == Chunk(chunks[i].addr + total, chunks[i].size - total, false);
    if i > 0 {
      assert !CanMerge(chunks, i - 1);
      assert freed[i - 1] == chunks[i - 1];
    }
    assert CanMerge(freed, i);
    assert Merge(freed, i) == chunks;
  }

  // ---------------------------------------------------------------------
  // Which chunk, and which pages
  // ---------------------------------------------------------------------

  /** Chunk k is free and holds header and payload of the request; none before it does. */
  ghost predicate FirstRoom(chunks: seq<Chunk>, size: nat, k: nat) {
    && k < |chunks| && !chunks[k].used && chunks[k].size >= HEADER + size
    && forall j :: 0 <= j < k ==> chunks[j].used || chunks[j].size < HEADER + size
  }

  lemma FirstRoomIsFirstFit(chunks: seq<Chunk>, size: nat, k: nat)
    requires FirstRoom(chunks, size, k)
    ensures FirstFit(chunks, HEADER + size) == k
  {
    var i := FirstFit(chunks, HEADER + size);
    assert Serves(chunks[k], HEADER + size);
    assert forall j :: 0 <= j < k ==> !Serves(chunks[j], HEADER + size);
  }

  /** The block is at the first free chunk with 12 + size bytes, an exact fit included, cut off its front. */
  lemma MallocUsesFirstRoom(h: Heap, size: nat, base: nat, k: nat)
    requires FirstRoom(h.chunks, size, k)
    ensures Given(h, size, base) == Chunk(h.chunks[k].addr, size, true)
    ensures Malloc(h, size, base).chunks ==
            h.chunks[..k] + [Chunk(h.chunks[k].addr, size, true),
                             Chunk(h.chunks[k].addr + 12 + size, h.chunks[k].size - 12 - size, false)]
            + h.chunks[k + 1..]
  {
    FirstRoomIsFirstFit(h.chunks, size, k);
  }

  /** malloc goes for new pages exactly when no free chunk has 12 + size bytes. */
  lemma MallocFitsExactly(h: Heap, size: nat, base: nat)
    ensures (exists k :: 0 <= k < |h.chunks| && !h.chunks[k].used && h.chunks[k].size >= 12 + size)
            <==> Malloc(h, size, base).runs == h.runs
  {
    var i := FirstFit(h.chunks, HEADER + size);
    if i < |h.chunks| {
      assert Serves(h.chunks[i], HEADER + size);
    } else {
      assert forall k :: 0 <= k < |h.chunks| ==> !Serves(h.chunks[k], HEADER + size);
      assert |Malloc(h, size, base).runs| == |h.runs| + 1;
    }
  }

  /** The pages are the fewest that hold total bytes. */
  lemma PagesLeast(total: nat)
    ensures PagesFor(total) * 4096 >= total
    ensures forall n: nat :: n * 4096 >= total ==> n >= PagesFor(total)
  {
  }

  /**
    Without room malloc takes the fewest pages for 12 + size bytes at base and appends the
    block; what is left of them becomes a chunk that holds at least one byte, or is too
    little for that.
   */
  lemma MallocGrowsLeast(h: Heap, size: nat, base: nat)
    requires forall k :: 0 <= k < |h.chunks| ==> h.chunks[k].used || h.chunks[k].size < 12 + size
    ensures var h' := Malloc(h, size, base);
            && Given(h, size, base) == Chunk(base, size, true)
            && (exists n: nat :: h'.runs == h.runs + [Run(base, n)] && n * 4096 >= 12 + size > (n - 1) * 4096)
            && h.chunks + [Chunk(base, size, true)] <= h'.chunks
            && (forall c :: c in h'.chunks[|h.chunks|..] && !c.used ==> c.size >= 1)
            && h'.slack <= h.slack + 12
  {
    var total := HEADER + size;
    assert forall k :: 0 <= k < |h.chunks| ==> !Serves(h.chunks[k], total);
    assert FirstFit(h.chunks, total) == |h.chunks|;
    PagesLeast(total);
    assert Malloc(h, size, base).runs == h.runs + [Run(base, PagesFor(total))];
    assert Grow(h.chunks, base, total)[|h.chunks|..] == Added(base, total);
  }

  // ---------------------------------------------------------------------
  // Whole runs
  // ---------------------------------------------------------------------

  datatype Op = DoMalloc(size: nat, base: nat) | DoFree(i: nat)

  /** malloc needs fresh pages only when no chunk fits; free is called on blocks in use only. */
  predicate CanDo(h: Heap, op: Op) {
    match op
    case DoMalloc(size, base) => CanMalloc(h, size, base)
    case DoFree(i) => i < |h.chunks| && h.chunks[i].used
  }

  function Do(h: Heap, op: Op): Heap
    requires CanDo(h, op)
  {
    match op
    case DoMalloc(size, base) => Malloc(h, size, base)
    case DoFree(i) => Free(h, i)
  }

  /** malloc_init. */
  const EMPTY := Heap([], [], 0)

  ghost predicate IsRun(ops: seq<Op>, heaps: seq<Heap>) {
    && |heaps| == |ops| + 1
    && heaps[0] == EMPTY
    && forall i :: 0 <= i < |ops| ==> CanDo(heaps[i], ops[i]) && heaps[i + 1] == Do(heaps[i], ops[i])
  }

  /** In every run chunks are disjoint, inside obtained pages, fully coalesced, and no byte is lost. */
  lemma {:induction false} HeapSafe(ops: seq<Op>, heaps: seq<Heap>, i: nat)
    requires IsRun(ops, heaps) && i < |heaps|
    ensures Inv(heaps[i])
  {
    if i > 0 {
      HeapSafe(ops, heaps, i - 1);
      assert CanDo(heaps[i - 1], ops[i - 1]) && heaps[i - 1 + 1] == Do(heaps[i - 1], ops[i - 1]);
      match ops[i - 1]
      case DoMalloc(size, base) => MallocKeepsInv(heaps[i - 1], size, base);
      case DoFree(k) => FreeKeepsInv(heaps[i - 1], k);
    }
  }
}

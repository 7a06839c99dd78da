/** The kernel heap object: malloc_init, malloc and free (mm/malloc.c). */
module KernelHeap {
  import opened Memory
  import opened Lists
  import opened Heaps
  import opened HeapMemory
  import Steps = Malloc

  /** The node before chunk k, and the one after it: chunk_head at the ends. */
  function PrevOf(head: nat, chunks: seq<Chunk>, k: nat): nat
    requires k < |chunks|
  {
    if k > 0 then chunks[k - 1].addr + 4 else head
  }

  function NextOf(head: nat, chunks: seq<Chunk>, k: nat): nat
    requires k < |chunks|
  {
    if k + 1 < |chunks| then chunks[k + 1].addr + 4 else head
  }

  /** The header of chunk k in memory. */
  method ReadHeader(mem: array<Byte>, head: nat, chunk: nat, ghost chunks: seq<Chunk>, ghost k: nat)
    returns (used: bool, size: nat, prev: nat, next: nat)
    requires Represents(mem[..], head, chunks) && k < |chunks| && chunk == chunks[k].addr
    ensures Chunk(chunk, size, used) == chunks[k]
    ensures prev == PrevOf(head, chunks, k) && next == NextOf(head, chunks, k)
    ensures chunk + 4 != head
  {
    Steps.Walk(mem[..], head, chunks, k);
    Steps.Walk(mem[..], head, chunks, k + 1);
    NodesAt(head, chunks, k + 1);
    var w := Load(mem, chunk);
    assert w == Tag(chunks[k]);
    used, size := w % 2 == 1, w / 2;
    prev := Load(mem, chunk + 4);
    next := Load(mem, chunk + 8);
  }

  /** chunk_head.next. */
  method ReadFirst(mem: array<Byte>, head: nat, ghost chunks: seq<Chunk>) returns (next: nat)
    requires Represents(mem[..], head, chunks)
    ensures next == if chunks != [] then chunks[0].addr + 4 else head
  {
    Steps.Walk(mem[..], head, chunks, 0);
    NodesAt(head, chunks, 0);
    next := Load(mem, head + 4);
  }

  lemma HeaderWords(m: seq<Byte>, head: nat, chunks: seq<Chunk>, k: nat)
    requires Represents(m, head, chunks) && k < |chunks|
    ensures chunks[k].addr + 12 <= |m|
    ensures Read(m, chunks[k].addr) == 2 * chunks[k].size + (if chunks[k].used then 1 else 0)
    ensures Read(m, chunks[k].addr + 4) == PrevOf(head, chunks, k)
    ensures Read(m, chunks[k].addr + 8) == NextOf(head, chunks, k)
  {
    Steps.Walk(m, head, chunks, k);
    Steps.Walk(m, head, chunks, k + 1);
    NodesAt(head, chunks, k + 1);
    assert Read(m, chunks[k].addr) == Tag(chunks[k]);
  }

  /**
    What is where in memory, in bytes, low byte first: a header is the word 2 * size plus
    the used bit, then the node of the chunk before, then that of the chunk after.
   */
  lemma HeaderBytes(m: seq<Byte>, head: nat, chunks: seq<Chunk>, k: nat)
    requires Represents(m, head, chunks) && k < |chunks|
    ensures var a := chunks[k].addr;
            && a + 12 <= |m|
            && m[a] as int % 2 == (if chunks[k].used then 1 else 0)
            && m[a] as int + 0x100 * m[a + 1] as int + 0x1_0000 * m[a + 2] as int + 0x100_0000 * m[a + 3] as int
               == 2 * chunks[k].size + (if chunks[k].used then 1 else 0)
            && m[a + 4] as int + 0x100 * m[a + 5] as int + 0x1_0000 * m[a + 6] as int + 0x100_0000 * m[a + 7] as int == PrevOf(head, chunks, k)
            && m[a + 8] as int + 0x100 * m[a + 9] as int + 0x1_0000 * m[a + 10] as int + 0x100_0000 * m[a + 11] as int == NextOf(head, chunks, k)
  {
    HeaderWords(m, head, chunks, k);
    ReadBytes(m, chunks[k].addr);
    ReadBytes(m, chunks[k].addr + 4);
    ReadBytes(m, chunks[k].addr + 8);
  }

  /** No node of a chunk is chunk_head. */
  lemma NodeIsNotHead(m: seq<Byte>, head: nat, chunks: seq<Chunk>, k: nat)
    requires Represents(m, head, chunks) && k < |chunks|
    ensures chunks[k].addr + 4 != head
  {
    Steps.Walk(m, head, chunks, k);
  }

  lemma NodesAreNotHead(m: seq<Byte>, head: nat, chunks: seq<Chunk>)
    requires Represents(m, head, chunks)
    ensures forall k :: 0 <= k < |chunks| ==> chunks[k].addr + 4 != head
  {
    forall k | 0 <= k < |chunks| ensures chunks[k].addr + 4 != head {
      NodeIsNotHead(m, head, chunks, k);
    }
  }

  /** The search loop of malloc: the first free chunk with room for total bytes of payload, walking the links. */
  method Search(mem: array<Byte>, head: nat, total: nat, ghost chunks: seq<Chunk>)
    returns (found: bool, chunk: nat, size: nat)
    requires Represents(mem[..], head, chunks)
    ensures found <==> exists k :: 0 <= k < |chunks| && !chunks[k].used && chunks[k].size >= total
    ensures found <==> FirstFit(chunks, total) < |chunks|
    ensures found ==> exists k :: 0 <= k < |chunks| && chunk == chunks[k].addr && size == chunks[k].size &&
                                  !chunks[k].used && size >= total &&
                                  forall j :: 0 <= j < k ==> chunks[j].used || chunks[j].size < total
    ensures found ==> var i := FirstFit(chunks, total); chunk == chunks[i].addr && size == chunks[i].size
  {
    ghost var i := 0;
    NodesAreNotHead(mem[..], head, chunks);
    var node := ReadFirst(mem, head, chunks);
    while node != head
      invariant i <= |chunks| && node == (if i < |chunks| then chunks[i].addr + 4 else head)
      invariant i < |chunks| ==> node != head
      invariant forall j :: 0 <= j < i ==> !Serves(chunks[j], total)
      decreases |chunks| - i
    {
      var used, chunkSize, prev, next := ReadHeader(mem, head, node - 4, chunks, i);
      if !used && chunkSize >= total {
        FirstFitIs(chunks, total, i);
        return true, node - 4, chunkSize;
      }
      node := next;
      i := i + 1;
    }
    FirstFitIs(chunks, total, |chunks|);
    return false, 0, 0;
  }

  lemma FirstFitIs(chunks: seq<Chunk>, total: nat, i: nat)
    requires i <= |chunks| && (i < |chunks| ==> Serves(chunks[i], total))
    requires forall j :: 0 <= j < i ==> !Serves(chunks[j], total)
    ensures FirstFit(chunks, total) == i
  {
  }

  /** Payload bytes of blocks in use both before and after are unchanged. */
  ghost predicate PayloadsKept(m: seq<Byte>, m': seq<Byte>, before: Heap, after: Heap) {
    && |m'| == |m|
    && forall c, x :: c in Live(before) && c in Live(after) && c.addr + HEADER <= x < End(c) <= |m| ==> m'[x] == m[x]
  }

  lemma KeepPayloads(m: seq<Byte>, m': seq<Byte>, head: nat, before: Heap, after: Heap)
    requires Heaps.Inv(before) && Heaps.Inv(after) && Steps.Placed(|m|, head, before.runs)
    requires Touches(m, m', head, Addrs(before.chunks) + Addrs(after.chunks))
    ensures PayloadsKept(m, m', before, after)
  {
    forall c, x | c in Live(before) && c in Live(after) && c.addr + HEADER <= x < End(c) <= |m|
      ensures m'[x] == m[x]
    {
      var i :| 0 <= i < |before.chunks| && before.chunks[i] == c;
      Steps.ChunksPlaced(before, |m|, head, i);
      PayloadKept(m, m', head, before.chunks, after.chunks, c, x);
    }
  }

  lemma TouchesMore(m: seq<Byte>, m': seq<Byte>, head: nat, some: set<nat>, all: set<nat>)
    requires Touches(m, m', head, some) && some <= all
    ensures Touches(m, m', head, all)
  {
    TouchesCompose(m, m, m', head, {}, some, all);
  }

  ghost predicate AllPlaced(size: nat, head: nat, chunks: seq<Chunk>) {
    forall k :: 0 <= k < |chunks| ==> Steps.ChunkPlaced(size, head, chunks[k])
  }

  /** A prefix of a list that is apart and placed is so too, and has fewer headers. */
  lemma PrefixGood(size: nat, head: nat, some: seq<Chunk>, all: seq<Chunk>)
    requires some <= all && AllApart(all) && AllPlaced(size, head, all)
    ensures AllApart(some) && AllPlaced(size, head, some) && Addrs(some) <= Addrs(all)
  {
    forall j, k | 0 <= j < k < |some| ensures ChunksApart(some[j], some[k]) {
      assert ChunksApart(all[j], all[k]);
    }
    forall k | 0 <= k < |some| ensures Steps.ChunkPlaced(size, head, some[k]) {
      assert Steps.ChunkPlaced(size, head, all[k]);
    }
    forall c | c in some ensures c in all {
      var j :| 0 <= j < |some| && some[j] == c;
      assert all[j] == c;
    }
  }

  lemma TakenGood(size: nat, head: nat, chunks: seq<Chunk>, c: Chunk, taken: seq<Chunk>, grown: seq<Chunk>)
    requires taken == chunks + [c] && taken <= grown && AllApart(grown) && AllPlaced(size, head, grown)
    ensures AllApart(taken) && AllPlaced(size, head, taken) && Addrs(taken) <= Addrs(grown)
    ensures Steps.ChunkPlaced(size, head, c)
  {
    PrefixGood(size, head, taken, grown);
    assert taken[|chunks|] == c;
  }

  /** The growth branch of malloc: the taken chunk, and one for what is left of the pages if it can hold a header. */
  method GrowHeap(mem: array<Byte>, head: nat, base: nat, total: nat, ghost chunks: seq<Chunk>)
    requires Represents(mem[..], head, chunks) && HEADER <= total
    requires AllApart(Grow(chunks, base, total)) && AllPlaced(mem.Length, head, Grow(chunks, base, total))
    modifies mem
    ensures Represents(mem[..], head, Grow(chunks, base, total))
    ensures Touches(old(mem[..]), mem[..], head, Addrs(Grow(chunks, base, total)))
  {
    ghost var m, grown := mem[..], Grow(chunks, base, total);
    ghost var taken := chunks + [Chunk(base, total - HEADER, true)];
    TakenGood(mem.Length, head, chunks, Chunk(base, total - HEADER, true), taken, grown);
    Steps.AppendChunk(mem, head, base, total - HEADER, true, chunks);
    var remain := PagesFor(total) * PAGE_SIZE - total;
    if remain > HEADER {
      AppendRest(mem, head, base + total, remain - HEADER, m, taken, grown);
    }
  }

  method AppendRest(mem: array<Byte>, head: nat, a: nat, size: nat, ghost m: seq<Byte>,
                    ghost taken: seq<Chunk>, ghost grown: seq<Chunk>)
    requires Represents(mem[..], head, taken) && Touches(m, mem[..], head, Addrs(taken))
    requires grown == taken + [Chunk(a, size, false)]
    requires AllApart(grown) && AllPlaced(mem.Length, head, grown)
    modifies mem
    ensures Represents(mem[..], head, grown) && Touches(m, mem[..], head, Addrs(grown))
  {
    ghost var m1 := mem[..];
    PrefixGood(mem.Length, head, taken, grown);
    assert grown[|taken|] == Chunk(a, size, false);
    Steps.AppendChunk(mem, head, a, size, false, taken);
    TouchesCompose(m, m1, mem[..], head, Addrs(taken), Addrs(grown), Addrs(grown));
  }

  class KernelHeap {
    const mem: array<Byte>
    const head: nat          // the address of chunk_head
    ghost var heap: Heap

    ghost predicate Valid()
      reads this, mem
    {
      Heaps.Inv(heap) && Steps.Placed(mem.Length, head, heap.runs) && Represents(mem[..], head, heap.chunks)
    }

    /** malloc_init. */
    constructor (mem: array<Byte>, head: nat)
      requires head + 8 <= mem.Length <= 0x1_0000_0000
      modifies mem
      ensures Valid() && heap == EMPTY && this.mem == mem && this.head == head
    {
      this.mem := mem;
      this.head := head;
      heap := EMPTY;
      new;
      InitRing(mem[..], head);
      ListInit(mem, head);
      assert Nodes(head, []) == [head];
    }

    /** What alloc_page must give when no chunk fits: fresh pages in memory, away from chunk_head. */
    ghost predicate PagesAt(size: nat, base: nat)
      reads this
    {
      var run := Run(base, PagesFor(HEADER + size));
      && FreshRun(heap, base, run.pages)
      && Steps.Placed(mem.Length, head, heap.runs + [run])
    }

    /**
      malloc(size), with base the pages alloc_page would return, if it gives any. Where
      the total size wraps or there are no pages the source writes through a header it
      does not have; the model stops there, with nothing changed.
     */
    method Malloc(size: Word, given: bool, base: nat) returns (ok: bool, addr: nat)
      requires Valid()
      requires given && HEADER + size < WORDS && FirstFit(heap.chunks, HEADER + size) == |heap.chunks| ==>
                 PagesAt(size, base)
      modifies this, mem
      ensures ok <==> size < 0x1_0000_0000 - 12 &&
                      (given || exists k :: 0 <= k < |old(heap.chunks)| && !old(heap.chunks)[k].used &&
                                            old(heap.chunks)[k].size >= 12 + size)
      ensures Valid()
      ensures !ok ==> heap == old(heap) && mem[..] == old(mem[..])
      ensures ok ==> heap == Heaps.Malloc(old(heap), size, base)
      ensures ok ==> addr == Given(old(heap), size, base).addr + HEADER
      ensures ok ==> PayloadsKept(old(mem[..]), mem[..], old(heap), heap)
    {
      TotalCovers(size, Chunk(0, 0, true));
      ok, addr := false, 0;
      if Total(size) == HEADER + size {
        var found, chunk, chunkSize := Search(mem, head, HEADER + size, heap.chunks);
        if found || given {
          addr := Allocate(size, base, found, chunk, chunkSize);
          ok := true;
        }
      }
    }

    /**
      malloc(size) after its search, where pages are there if they are needed: the chunk
      list becomes that of Heaps.Malloc, the result is the payload of the chunk handed
      out, and no payload byte of another block changes.
     */
    method Allocate(size: nat, base: nat, found: bool, chunk: nat, chunkSize: nat) returns (addr: nat)
      requires Valid() && HEADER + size < WORDS
      requires found <==> FirstFit(heap.chunks, HEADER + size) < |heap.chunks|
      requires found ==> var i := FirstFit(heap.chunks, HEADER + size);
                         chunk == heap.chunks[i].addr && chunkSize == heap.chunks[i].size
      requires FirstFit(heap.chunks, HEADER + size) == |heap.chunks| ==> PagesAt(size, base)
      modifies this, mem
      ensures Valid() && heap == Heaps.Malloc(old(heap), size, base)
      ensures addr == Given(old(heap), size, base).addr + HEADER
      ensures PayloadsKept(old(mem[..]), mem[..], old(heap), heap)
    {
      var total := HEADER + size;
      ghost var before, m := heap, mem[..];
      MallocKeepsInv(heap, size, base);
      heap := Heaps.Malloc(heap, size, base);
      if found {
        ghost var i := FirstFit(before.chunks, total);
        Steps.ChunksPlaced(before, mem.Length, head, i);
        Steps.PartGood(mem.Length, head, before.chunks, i, chunk, chunkSize, total);
        Steps.SplitChunk(mem, head, chunk, chunkSize, total, before.chunks, i);
        addr := chunk + HEADER;
      } else {
        GrownPlaced(before, size, base, mem.Length, head);
        GrowHeap(mem, head, base, total, before.chunks);
        addr := base + HEADER;
      }
      TouchesMore(m, mem[..], head, Addrs(heap.chunks), Addrs(before.chunks) + Addrs(heap.chunks));
      KeepPayloads(m, mem[..], head, before, heap);
    }

    /**
      free(addr), where addr is the payload of the block in use at list position i: the
      chunk list becomes that of Heaps.Free and no payload byte of another block changes.
     */
    method Free(addr: nat, ghost i: nat)
      requires Valid() && i < |heap.chunks| && heap.chunks[i].used && addr == heap.chunks[i].addr + HEADER
      modifies this, mem
      ensures Valid() && heap == Heaps.Free(old(heap), i)
      ensures PayloadsKept(old(mem[..]), mem[..], old(heap), heap)
    {
      ghost var before, m := heap, mem[..];
      FreeKeepsInv(heap, i);
      Steps.ChunksPlaced(before, mem.Length, head, i);
      heap := Heaps.Free(heap, i);
      FreeChunk(mem, head, addr - HEADER, before, i);
      TouchesMore(m, mem[..], head, Addrs(before.chunks), Addrs(before.chunks) + Addrs(heap.chunks));
      KeepPayloads(m, mem[..], head, before, heap);
    }
  }

  // ---------------------------------------------------------------------
  // free
  // ---------------------------------------------------------------------

  /** Merged chunks stay within the bytes obtained, so their size fits in 31 bits. */
  lemma MergedFits(h: Heap, size: nat, head: nat, chunks: seq<Chunk>, k: nat)
    requires Heaps.Inv(h) && Steps.Placed(size, head, h.runs)
    requires Bytes(chunks) == Bytes(h.chunks) && CanMerge(chunks, k)
    ensures chunks[k].size + HEADER + chunks[k + 1].size < 0x8000_0000
  {
    MergeKeepsBytes(chunks, k);
    MergeAt(chunks, k, k);
    Steps.SizeBounded(Merge(chunks, k), k);
  }

  lemma AddrsReleased(chunks: seq<Chunk>, i: nat)
    requires i < |chunks|
    ensures Addrs(Released(chunks, i)) == Addrs(chunks)
  {
    var freed := Released(chunks, i);
    forall c | c in chunks ensures c.addr in Addrs(freed) {
      var j :| 0 <= j < |chunks| && chunks[j] == c;
      assert freed[j] in freed && freed[j].addr == c.addr;
    }
    forall c | c in freed ensures c.addr in Addrs(chunks) {
      var j :| 0 <= j < |freed| && freed[j] == c;
      assert chunks[j] in chunks;
    }
  }

  lemma AddrsMerged(chunks: seq<Chunk>, k: nat)
    ensures Addrs(Merge(chunks, k)) <= Addrs(chunks)
  {
    forall c | c in Merge(chunks, k) ensures c.addr in Addrs(chunks) {
      if c !in chunks {
        assert chunks[k] in chunks && c.addr == chunks[k].addr;
      }
    }
  }

  /** Merges chunk k with the next one when both are free and adjacent, as the headers in memory say. */
  method MergeNext(mem: array<Byte>, head: nat, chunk: nat, next: nat, ghost chunks: seq<Chunk>, ghost k: nat)
    requires Represents(mem[..], head, chunks) && k < |chunks| && chunk == chunks[k].addr && !chunks[k].used
    requires next == NextOf(head, chunks, k)
    requires CanMerge(chunks, k) ==> chunks[k].size + HEADER + chunks[k + 1].size < 0x8000_0000
    modifies mem
    ensures Represents(mem[..], head, Merge(chunks, k))
    ensures Touches(old(mem[..]), mem[..], head, Addrs(chunks))
  {
    if k + 1 < |chunks| {
      NodeIsNotHead(mem[..], head, chunks, k + 1);
    }
    if next != head {
      var used, size, _, _ := ReadHeader(mem, head, chunk, chunks, k);
      var nextUsed, nextSize, _, _ := ReadHeader(mem, head, next - 4, chunks, k + 1);
      if !nextUsed && chunk + HEADER + size == next - 4 {
        Steps.Absorb(mem, head, chunk, next - 4, chunks, k);
      }
    }
  }

  /** Merges chunk k - 1 with chunk k when both are free and adjacent; tells whether it did. */
  method MergePrevious(mem: array<Byte>, head: nat, chunk: nat, prev: nat, ghost chunks: seq<Chunk>, ghost k: nat)
    returns (merged: bool)
    requires Represents(mem[..], head, chunks) && k < |chunks| && chunk == chunks[k].addr && !chunks[k].used
    requires prev == PrevOf(head, chunks, k)
    requires k > 0 && CanMerge(chunks, k - 1) ==> chunks[k - 1].size + HEADER + chunks[k].size < 0x8000_0000
    modifies mem
    ensures merged <==> k > 0 && CanMerge(chunks, k - 1)
    ensures Represents(mem[..], head, if merged then Merge(chunks, k - 1) else chunks)
    ensures Touches(old(mem[..]), mem[..], head, Addrs(chunks))
  {
    merged := false;
    if k > 0 {
      NodeIsNotHead(mem[..], head, chunks, k - 1);
    }
    if prev != head {
      var used, size, _, _ := ReadHeader(mem, head, prev - 4, chunks, k - 1);
      if !used && prev - 4 + HEADER + size == chunk {
        Steps.Absorb(mem, head, prev - 4, chunk, chunks, k - 1);
        merged := true;
      }
    }
  }

  /** chunk->allocated = 0. */
  method Release(mem: array<Byte>, head: nat, chunk: nat, ghost chunks: seq<Chunk>, ghost i: nat)
    requires Represents(mem[..], head, chunks) && i < |chunks| && chunk == chunks[i].addr
    requires Steps.ChunkPlaced(mem.Length, head, chunks[i])
    modifies mem
    ensures Represents(mem[..], head, Released(chunks, i))
    ensures Touches(old(mem[..]), mem[..], head, Addrs(chunks))
  {
    ghost var m := mem[..];
    var used, size, _, _ := ReadHeader(mem, head, chunk, chunks, i);
    Steps.Rewrite(mem, head, chunk, false, size, chunks, i);
    Steps.InAddrs(chunks, i);
    TouchesMore(m, mem[..], head, {chunk}, Addrs(chunks));
  }

  /** Clearing the mark moves nothing in the list. */
  lemma ReleasedSame(head: nat, chunks: seq<Chunk>, i: nat)
    requires i < |chunks|
    ensures var freed := Released(chunks, i);
            && |freed| == |chunks| && freed[i].addr == chunks[i].addr && !freed[i].used
            && PrevOf(head, freed, i) == PrevOf(head, chunks, i)
            && NextOf(head, freed, i) == NextOf(head, chunks, i)
  {
  }

  lemma ReleasedFits(h: Heap, size: nat, head: nat, i: nat)
    requires Heaps.Inv(h) && Steps.Placed(size, head, h.runs) && i < |h.chunks|
    ensures var freed := Released(h.chunks, i);
            i > 0 && CanMerge(freed, i - 1) ==> freed[i - 1].size + HEADER + freed[i].size < 0x8000_0000
  {
    var freed := Released(h.chunks, i);
    if i > 0 && CanMerge(freed, i - 1) {
      ReleasedKeeps(h.chunks, i, h.runs);
      MergedFits(h, size, head, freed, i - 1);
    }
  }

  /** The body of free. */
  method FreeChunk(mem: array<Byte>, head: nat, chunk: nat, ghost h: Heap, ghost i: nat)
    requires Represents(mem[..], head, h.chunks) && Heaps.Inv(h) && Steps.Placed(mem.Length, head, h.runs)
    requires i < |h.chunks| && h.chunks[i].used && chunk == h.chunks[i].addr
    requires Steps.ChunkPlaced(mem.Length, head, h.chunks[i])
    modifies mem
    ensures Represents(mem[..], head, FreeAt(h.chunks, i))
    ensures Touches(old(mem[..]), mem[..], head, Addrs(h.chunks))
  {
    ghost var freed, m := Released(h.chunks, i), mem[..];
    Release(mem, head, chunk, h.chunks, i);
    ReleasedSame(head, h.chunks, i);
    var used, size, prev, next := ReadHeader(mem, head, chunk, freed, i);
    FreeReleased(mem, head, chunk, prev, next, m, h, i);
  }

  /** The two merges of free, with the neighbours read off before the first. */
  method FreeReleased(mem: array<Byte>, head: nat, chunk: nat, prev: nat, next: nat, ghost m: seq<Byte>, ghost h: Heap,
                      ghost i: nat)
    requires Heaps.Inv(h) && Steps.Placed(mem.Length, head, h.runs) && i < |h.chunks| && chunk == h.chunks[i].addr
    requires Represents(mem[..], head, Released(h.chunks, i))
    requires Touches(m, mem[..], head, Addrs(h.chunks))
    requires prev == PrevOf(head, h.chunks, i) && next == NextOf(head, h.chunks, i)
    modifies mem
    ensures Represents(mem[..], head, FreeAt(h.chunks, i))
    ensures Touches(m, mem[..], head, Addrs(h.chunks))
  {
    ghost var freed, all, m1 := Released(h.chunks, i), Addrs(h.chunks), mem[..];
    ReleasedSame(head, h.chunks, i);
    AddrsReleased(h.chunks, i);
    ReleasedFits(h, mem.Length, head, i);
    var merged := MergePrevious(mem, head, chunk, prev, freed, i);
    TouchesCompose(m, m1, mem[..], head, all, all, all);
    FreeRest(mem, head, if merged then prev - 4 else chunk, next, m, h, i, merged);
  }

  /** The list after free tried to merge with the previous chunk, and where the freed chunk now is. */
  function Joined(chunks: seq<Chunk>, i: nat, merged: bool): seq<Chunk>
    requires i < |chunks|
  {
    if merged && i > 0 then Merge(Released(chunks, i), i - 1) else Released(chunks, i)
  }

  function JoinedAt(i: nat, merged: bool): nat {
    if merged && i > 0 then i - 1 else i
  }

  lemma JoinedShape(head: nat, chunks: seq<Chunk>, i: nat, merged: bool)
    requires i < |chunks| && (merged <==> i > 0 && CanMerge(Released(chunks, i), i - 1))
    ensures var k, list := JoinedAt(i, merged), Joined(chunks, i, merged);
            && k < |list| && !list[k].used && list[k].addr == chunks[k].addr
            && NextOf(head, list, k) == NextOf(head, chunks, i)
            && FreeAt(chunks, i) == Merge(list, k)
  {
    if merged {
      var freed := Released(chunks, i);
      MergeAt(freed, i - 1, i - 1);
      if i + 1 < |freed| {
        MergeAt(freed, i - 1, i);
      }
    }
  }

  lemma JoinedAddrs(chunks: seq<Chunk>, i: nat, merged: bool)
    requires i < |chunks|
    ensures Addrs(Joined(chunks, i, merged)) <= Addrs(chunks)
  {
    AddrsReleased(chunks, i);
    if merged && i > 0 {
      AddrsMerged(Released(chunks, i), i - 1);
    }
  }

  lemma JoinedBytes(chunks: seq<Chunk>, i: nat, merged: bool)
    requires i < |chunks|
    ensures Bytes(Joined(chunks, i, merged)) == Bytes(chunks)
  {
    ReleasedKeepsBytes(chunks, i);
    if merged && i > 0 {
      MergeKeepsBytes(Released(chunks, i), i - 1);
    }
  }

  lemma JoinedFits(h: Heap, size: nat, head: nat, i: nat, merged: bool)
    requires Heaps.Inv(h) && Steps.Placed(size, head, h.runs) && i < |h.chunks|
    requires CanMerge(Joined(h.chunks, i, merged), JoinedAt(i, merged))
    ensures var k, list := JoinedAt(i, merged), Joined(h.chunks, i, merged);
            list[k].size + HEADER + list[k + 1].size < 0x8000_0000
  {
    JoinedBytes(h.chunks, i, merged);
    MergedFits(h, size, head, Joined(h.chunks, i, merged), JoinedAt(i, merged));
  }

  /** The second half of free: the next chunk was read off before the first merge. */
  method FreeRest(mem: array<Byte>, head: nat, chunk: nat, next: nat, ghost m: seq<Byte>, ghost h: Heap, ghost i: nat,
                  ghost merged: bool)
    requires Heaps.Inv(h) && Steps.Placed(mem.Length, head, h.runs) && i < |h.chunks|
    requires merged <==> i > 0 && CanMerge(Released(h.chunks, i), i - 1)
    requires Represents(mem[..], head, Joined(h.chunks, i, merged))
    requires Touches(m, mem[..], head, Addrs(h.chunks))
    requires chunk == h.chunks[JoinedAt(i, merged)].addr && next == NextOf(head, h.chunks, i)
    modifies mem
    ensures Represents(mem[..], head, FreeAt(h.chunks, i))
    ensures Touches(m, mem[..], head, Addrs(h.chunks))
  {
    ghost var k, list, m1 := JoinedAt(i, merged), Joined(h.chunks, i, merged), mem[..];
    JoinedShape(head, h.chunks, i, merged);
    JoinedAddrs(h.chunks, i, merged);
    if CanMerge(list, k) {
      JoinedFits(h, mem.Length, head, i, merged);
    }
    MergeNext(mem, head, chunk, next, list, k);
    TouchesCompose(m, m1, mem[..], head, Addrs(h.chunks), Addrs(list), Addrs(h.chunks));
  }

  lemma GrownPlaced(h: Heap, size: nat, base: nat, memory: nat, head: nat)
    requires Heaps.Inv(h) && CanMalloc(h, size, base) && FirstFit(h.chunks, HEADER + size) == |h.chunks|
    requires Steps.Placed(memory, head, Heaps.Malloc(h, size, base).runs)
    ensures AllApart(Grow(h.chunks, base, HEADER + size))
    ensures AllPlaced(memory, head, Grow(h.chunks, base, HEADER + size))
  {
    var h' := Heaps.Malloc(h, size, base);
    MallocKeepsInv(h, size, base);
    forall k | 0 <= k < |h'.chunks| ensures Steps.ChunkPlaced(memory, head, h'.chunks[k]) {
      Steps.ChunksPlaced(h', memory, head, k);
    }
  }
}

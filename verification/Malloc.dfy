/** malloc and free in place (mm/malloc.c), proved against the chunk list of module Heaps. */
module Malloc {
  import opened Memory
  import opened Lists
  import opened Heaps
  import opened HeapMemory

  const MAX_PAGES: nat := 30000   // MAX_PAGE_NUM

  // ---------------------------------------------------------------------
  // Bitfields and pointers
  // ---------------------------------------------------------------------

  /** Two writes of the same word leave the last one, and touch nothing else. */
  lemma WrittenTwice(m: seq<Byte>, a: nat, v: Word, w: Word)
    requires a + 4 <= |m|
    ensures Read(Write(m, a, v), a) == v
    ensures OnlyWord(m, Write(Write(m, a, v), a, w), a) && Read(Write(Write(m, a, v), a, w), a) == w
  {
    ReadBack(m, a, v);
    ReadBack(Write(m, a, v), a, w);
  }

  /** w with its lowest bit replaced. */
  function WithBit(w: Word, used: bool): (v: Word)
    ensures v % 2 == if used then 1 else 0
    ensures v / 2 == w / 2
  {
    2 * (w / 2) + if used then 1 else 0
  }

  /** chunk->allocated = bit; chunk->size = size; */
  method SetTag(mem: array<Byte>, a: nat, used: bool, size: nat)
    requires a + 4 <= mem.Length && size < 0x8000_0000
    modifies mem
    ensures OnlyWord(old(mem[..]), mem[..], a) && Read(mem[..], a) == Tag(Chunk(a, size, used))
  {
    ghost var m := mem[..];
    var w := Load(mem, a);
    var v := WithBit(w, used);
    Store(mem, a, v);
    WrittenTwice(m, a, v, Tag(Chunk(a, size, used)));
    w := Load(mem, a);
    Store(mem, a, w % 2 + 2 * size);
  }

  /** Following the list from position i of the nodes. */
  lemma Walk(m: seq<Byte>, head: nat, chunks: seq<Chunk>, i: nat)
    requires Represents(m, head, chunks) && i <= |chunks|
    ensures |Nodes(head, chunks)| == |chunks| + 1
    ensures Fits(m, Nodes(head, chunks)[i])
    ensures Next(m, Nodes(head, chunks)[i]) == if i < |chunks| then chunks[i].addr + 4 else head
    ensures i < |chunks| ==>
              chunks[i].addr + 4 != head && Fits(m, chunks[i].addr + 4) &&
              Prev(m, chunks[i].addr + 4) == if i > 0 then chunks[i - 1].addr + 4 else head
  {
    var nodes := Nodes(head, chunks);
    NodesAt(head, chunks, i);
    assert Linked(m, nodes[i], After(nodes, i));
    if i < |chunks| {
      NodesAt(head, chunks, i + 1);
      assert HeaderFits(|m|, head, chunks[i]);
    }
  }

  // ---------------------------------------------------------------------
  // Steps on the list
  // ---------------------------------------------------------------------

  /** A chunk header away from those of the list, with its tag written: the list may take it in. */
  ghost predicate Candidate(m: seq<Byte>, head: nat, chunks: seq<Chunk>, c: Chunk) {
    && Represents(m, head, chunks)
    && HeaderFits(|m|, head, c)
    && (forall k :: 0 <= k < |chunks| ==> HeadersApart(c.addr, chunks[k].addr))
    && Read(m, c.addr) == Tag(c)
  }

  lemma CandidateApart(m: seq<Byte>, head: nat, chunks: seq<Chunk>, c: Chunk, nodes: seq<nat>)
    requires Candidate(m, head, chunks, c) && nodes == Nodes(head, chunks)
    ensures |nodes| == |chunks| + 1 && Ring(m, nodes) && Fits(m, c.addr + 4)
    ensures forall k :: 0 <= k < |nodes| ==> NodesApart(c.addr + 4, nodes[k])
  {
    NewNodeApart(|m|, head, chunks, c);
    NodesAt(head, chunks, 0);
  }

  lemma LinkedIn(m: seq<Byte>, m': seq<Byte>, head: nat, chunks: seq<Chunk>, i: nat, c: Chunk, nodes: seq<nat>,
                 left: nat)
    requires Candidate(m, head, chunks, c) && i <= |chunks|
    requires nodes == Nodes(head, chunks) && |nodes| == |chunks| + 1 && left == nodes[i]
    requires OnlyLinks(m, m', left, c.addr + 4, After(nodes, i)) && Ring(m', Inserted(nodes, i, c.addr + 4))
    ensures Represents(m', head, InsertedChunk(chunks, i, c))
    ensures Touches(m, m', head, Addrs(InsertedChunk(chunks, i, c)))
  {
    InsertedFits(m, head, chunks, i, c);
    ChunkLinked(m, m', head, chunks, i, c, nodes, InsertedChunk(chunks, i, c));
  }

  lemma LinkLastFits(m: seq<Byte>, head: nat, chunks: seq<Chunk>, c: Chunk)
    requires Candidate(m, head, chunks, c)
    ensures Fits(m, head) && Fits(m, c.addr + 4) && Fits(m, Prev(m, head)) && NodesApart(c.addr + 4, head)
  {
    var nodes := Nodes(head, chunks);
    CandidateApart(m, head, chunks, c, nodes);
    NodesAt(head, chunks, 0);
    InsertLastFits(m, nodes, head, c.addr + 4);
  }

  lemma LinkLastDone(m: seq<Byte>, m': seq<Byte>, head: nat, chunks: seq<Chunk>, c: Chunk)
    requires Candidate(m, head, chunks, c)
    requires Fits(m, head) && Fits(m, c.addr + 4) && Fits(m, Prev(m, head)) && NodesApart(c.addr + 4, head)
    requires m' == InsertBefore(m, head, c.addr + 4)
    ensures Represents(m', head, chunks + [c])
    ensures Touches(m, m', head, Addrs(chunks + [c]))
  {
    var nodes := Nodes(head, chunks);
    CandidateApart(m, head, chunks, c, nodes);
    NodesAt(head, chunks, 0);
    InsertedLast(m, m', nodes, head, c.addr + 4);
    LinkedIn(m, m', head, chunks, |chunks|, c, nodes, nodes[|chunks|]);
    AppendedIsInserted(chunks, c);
  }

  lemma AppendedIsInserted(chunks: seq<Chunk>, c: Chunk)
    ensures InsertedChunk(chunks, |chunks|, c) == chunks + [c]
  {
  }

  lemma InAddrs(chunks: seq<Chunk>, i: nat)
    requires i < |chunks|
    ensures {chunks[i].addr} <= Addrs(chunks)
  {
    assert chunks[i] in chunks;
  }

  /** Writing the tag makes the chunk a candidate. */
  method WriteCandidate(mem: array<Byte>, head: nat, a: nat, size: nat, used: bool, ghost chunks: seq<Chunk>)
    requires Represents(mem[..], head, chunks) && HeaderFits(mem.Length, head, Chunk(a, size, used))
    requires forall k :: 0 <= k < |chunks| ==> HeadersApart(a, chunks[k].addr)
    modifies mem
    ensures Candidate(mem[..], head, chunks, Chunk(a, size, used))
    ensures Touches(old(mem[..]), mem[..], head, {a})
  {
    ghost var m := mem[..];
    SetTag(mem, a, used, size);
    TagOutside(m, mem[..], head, chunks, Chunk(a, size, used));
  }

  /** list_insert_after of a candidate, after the chunk at position i. */
  method LinkAfter(mem: array<Byte>, head: nat, node: nat, added: nat, ghost chunks: seq<Chunk>, ghost i: nat,
                   ghost c: Chunk)
    requires Candidate(mem[..], head, chunks, c) && i < |chunks| && node == chunks[i].addr + 4 && added == c.addr + 4
    modifies mem
    ensures Represents(mem[..], head, InsertedChunk(chunks, i + 1, c))
    ensures Touches(old(mem[..]), mem[..], head, Addrs(InsertedChunk(chunks, i + 1, c)))
  {
    ghost var m := mem[..];
    ghost var nodes := Nodes(head, chunks);
    CandidateApart(m, head, chunks, c, nodes);
    NodesAt(head, chunks, i + 1);
    InsertInRing(mem, node, added, nodes, i + 1);
    LinkedIn(m, mem[..], head, chunks, i + 1, c, nodes, node);
  }

  /** list_insert_before of a candidate, at the end of the list. */
  method LinkLast(mem: array<Byte>, head: nat, added: nat, ghost chunks: seq<Chunk>, ghost c: Chunk)
    requires Candidate(mem[..], head, chunks, c) && added == c.addr + 4
    modifies mem
    ensures Represents(mem[..], head, chunks + [c])
    ensures Touches(old(mem[..]), mem[..], head, Addrs(chunks + [c]))
  {
    ghost var m := mem[..];
    LinkLastFits(m, head, chunks, c);
    ListInsertBefore(mem, head, added);
    LinkLastDone(m, mem[..], head, chunks, c);
  }

  /** list_delete of the chunk at position i. */
  method Unlink(mem: array<Byte>, head: nat, node: nat, ghost chunks: seq<Chunk>, ghost i: nat)
    requires Represents(mem[..], head, chunks) && i < |chunks| && node == chunks[i].addr + 4
    modifies mem
    ensures Represents(mem[..], head, RemovedChunk(chunks, i))
    ensures Touches(old(mem[..]), mem[..], head, Addrs(chunks))
  {
    ghost var m := mem[..];
    UnlinkFits(m, head, chunks, i, node);
    ListDelete(mem, node);
    ChunkUnlinked(m, mem[..], head, chunks, i, node);
  }

  /** A new used bit and size for the chunk at position i. */
  method Rewrite(mem: array<Byte>, head: nat, a: nat, used: bool, size: nat, ghost chunks: seq<Chunk>, ghost i: nat)
    requires Represents(mem[..], head, chunks) && i < |chunks| && a == chunks[i].addr && size < 0x8000_0000
    requires a + 4 <= mem.Length
    modifies mem
    ensures Represents(mem[..], head, chunks[i := Chunk(a, size, used)])
    ensures Touches(old(mem[..]), mem[..], head, {a})
  {
    ghost var m := mem[..];
    SetTag(mem, a, used, size);
    Retag(m, mem[..], head, chunks, i, Chunk(a, size, used));
  }

  // ---------------------------------------------------------------------
  // Where chunks lie
  // ---------------------------------------------------------------------

  /** Pages lie in memory, away from chunk_head, and there are no more than alloc_page has. */
  ghost predicate Placed(size: nat, head: nat, runs: seq<Run>) {
    && head + 8 <= size <= 0x1_0000_0000
    && PageCount(runs) <= MAX_PAGES
    && forall r :: 0 <= r < |runs| ==> RunEnd(runs[r]) <= size && (head + 8 <= runs[r].base || RunEnd(runs[r]) <= head)
  }

  predicate ChunkPlaced(size: nat, head: nat, c: Chunk) {
    End(c) <= size && (head + 8 <= c.addr || End(c) <= head) && c.size < 0x8000_0000
  }

  lemma {:induction false} SizeBounded(chunks: seq<Chunk>, i: nat)
    requires i < |chunks|
    ensures chunks[i].size <= Bytes(chunks)
  {
    if i < |chunks| - 1 {
      SizeBounded(chunks[..|chunks| - 1], i);
    }
  }

  /** A byte of a chunk is where the pages are. */
  lemma BytePlaced(h: Heap, size: nat, head: nat, i: nat, x: int)
    requires Heaps.Inv(h) && Placed(size, head, h.runs) && i < |h.chunks| && Covers(h.chunks[i], x)
    ensures x < size && !(head <= x < head + 8)
  {
    assert Obtained(x, h.runs);
    var r :| 0 <= r < |h.runs| && InRun(x, h.runs[r]);
  }

  lemma ChunksPlaced(h: Heap, size: nat, head: nat, i: nat)
    requires Heaps.Inv(h) && Placed(size, head, h.runs) && i < |h.chunks|
    ensures ChunkPlaced(size, head, h.chunks[i])
  {
    var c := h.chunks[i];
    SizeBounded(h.chunks, i);
    BytePlaced(h, size, head, i, End(c) - 1);
    BytePlaced(h, size, head, i, if c.addr <= head < End(c) then head else c.addr);
  }

  /** The chunks before and after a split have their headers at the same places, but for the new one. */
  lemma AddrsOfSplit(chunks: seq<Chunk>, i: nat, total: nat)
    requires i < |chunks| && HEADER <= total <= chunks[i].size
    ensures var c := chunks[i];
            var linked := InsertedChunk(chunks, i + 1, Chunk(c.addr + total, c.size - total, false));
            c.addr + total in Addrs(linked) && Addrs(linked) + {c.addr} <= Addrs(Split(chunks, i, total))
  {
    var c, split := chunks[i], Split(chunks, i, total);
    var linked := InsertedChunk(chunks, i + 1, Chunk(c.addr + total, c.size - total, false));
    assert split[i] in split && split[i + 1] in split && linked[i + 1] in linked;
    forall d | d in linked ensures d.addr in Addrs(split) {
      if d == c {
        assert split[i].addr == d.addr;
      } else {
        assert d in split;
      }
    }
  }

  lemma SplitIsInserted(chunks: seq<Chunk>, i: nat, total: nat)
    requires i < |chunks| && HEADER <= total <= chunks[i].size
    ensures var c := chunks[i];
            InsertedChunk(chunks, i + 1, Chunk(c.addr + total, c.size - total, false))
              [i := Chunk(c.addr, total - HEADER, true)]
            == Split(chunks, i, total)
  {
  }

  /** A free chunk with a fresh header, linked in after the chunk at position i. */
  method LinkFreeAfter(mem: array<Byte>, head: nat, node: nat, a: nat, size: nat, ghost chunks: seq<Chunk>,
                       ghost i: nat)
    requires Represents(mem[..], head, chunks) && HeaderFits(mem.Length, head, Chunk(a, size, false))
    requires forall k :: 0 <= k < |chunks| ==> HeadersApart(a, chunks[k].addr)
    requires i < |chunks| && node == chunks[i].addr + 4
    modifies mem
    ensures Represents(mem[..], head, InsertedChunk(chunks, i + 1, Chunk(a, size, false)))
    ensures Touches(old(mem[..]), mem[..], head, Addrs(InsertedChunk(chunks, i + 1, Chunk(a, size, false))))
  {
    ghost var m, c := mem[..], Chunk(a, size, false);
    ghost var linked := InsertedChunk(chunks, i + 1, c);
    WriteCandidate(mem, head, a, size, false, chunks);
    ghost var m1 := mem[..];
    LinkAfter(mem, head, node, a + 4, chunks, i, c);
    assert linked[i + 1] == c;
    InAddrs(linked, i + 1);
    TouchesCompose(m, m1, mem[..], head, {a}, Addrs(linked), Addrs(linked));
  }

  /** The last two statements of a split: the front part becomes the block handed out. */
  method FinishSplit(mem: array<Byte>, head: nat, chunk: nat, total: nat, ghost m: seq<Byte>,
                     ghost chunks: seq<Chunk>, ghost i: nat, ghost linked: seq<Chunk>)
    requires i < |chunks| && chunk == chunks[i].addr && HEADER <= total <= chunks[i].size
    requires linked ==
             InsertedChunk(chunks, i + 1, Chunk(chunk + total, chunks[i].size - total, false))
    requires Represents(mem[..], head, linked) && Touches(m, mem[..], head, Addrs(linked))
    modifies mem
    ensures Represents(mem[..], head, Split(chunks, i, total))
    ensures Touches(m, mem[..], head, Addrs(Split(chunks, i, total)))
  {
    ghost var m1, split := mem[..], Split(chunks, i, total);
    SplitIsInserted(chunks, i, total);
    AddrsOfSplit(chunks, i, total);
    assert linked[i] == chunks[i];
    assert chunk + 4 <= mem.Length;
    Rewrite(mem, head, chunk, true, total - HEADER, linked, i);
    assert Represents(mem[..], head, split);
    TouchesCompose(m, m1, mem[..], head, Addrs(linked), {chunk}, Addrs(split));
  }

  /** The header of the part split off is apart from all the others. */
  lemma PartApart(chunks: seq<Chunk>, i: nat, a: nat)
    requires AllApart(chunks) && i < |chunks| && chunks[i].addr + HEADER <= a && a + HEADER <= End(chunks[i])
    ensures forall k :: 0 <= k < |chunks| ==> HeadersApart(a, chunks[k].addr)
  {
    forall k | 0 <= k < |chunks| ensures HeadersApart(a, chunks[k].addr) {
      if k != i {
        assert ChunksApart(chunks[if k < i then k else i], chunks[if k < i then i else k]);
      }
    }
  }

  /** There is room at a for the header of a part split off with this size. */
  ghost predicate PartFits(mems: nat, head: nat, chunks: seq<Chunk>, a: nat, size: nat) {
    && HeaderFits(mems, head, Chunk(a, size, false))
    && forall k :: 0 <= k < |chunks| ==> HeadersApart(a, chunks[k].addr)
  }

  lemma PartGood(mems: nat, head: nat, chunks: seq<Chunk>, i: nat, chunk: nat, size: nat, total: nat)
    requires AllApart(chunks) && i < |chunks| && ChunkPlaced(mems, head, chunks[i]) && HEADER <= total <= size
    requires chunk == chunks[i].addr && size == chunks[i].size
    ensures PartFits(mems, head, chunks, chunk + total, size - total)
  {
    PartApart(chunks, i, chunk + total);
  }

  /** The splitting branch of malloc. */
  method SplitChunk(mem: array<Byte>, head: nat, chunk: nat, size: nat, total: nat, ghost chunks: seq<Chunk>,
                    ghost i: nat)
    requires Represents(mem[..], head, chunks) && i < |chunks|
    requires chunk == chunks[i].addr && size == chunks[i].size && HEADER <= total <= size
    requires PartFits(mem.Length, head, chunks, chunk + total, size - total)
    modifies mem
    ensures Represents(mem[..], head, Split(chunks, i, total))
    ensures Touches(old(mem[..]), mem[..], head, Addrs(Split(chunks, i, total)))
  {
    ghost var m := mem[..];
    ghost var linked := InsertedChunk(chunks, i + 1, Chunk(chunk + total, size - total, false));
    LinkFreeAfter(mem, head, chunk + 4, chunk + total, size - total, chunks, i);
    FinishSplit(mem, head, chunk, total, m, chunks, i, linked);
  }

  /** One chunk appended to the list. */
  method AppendChunk(mem: array<Byte>, head: nat, a: nat, size: nat, used: bool, ghost chunks: seq<Chunk>)
    requires Represents(mem[..], head, chunks) && AllApart(chunks + [Chunk(a, size, used)])
    requires ChunkPlaced(mem.Length, head, Chunk(a, size, used))
    modifies mem
    ensures Represents(mem[..], head, chunks + [Chunk(a, size, used)])
    ensures Touches(old(mem[..]), mem[..], head, Addrs(chunks + [Chunk(a, size, used)]))
  {
    ghost var m, c := mem[..], Chunk(a, size, used);
    forall k | 0 <= k < |chunks| ensures HeadersApart(a, chunks[k].addr) {
      assert ChunksApart((chunks + [c])[k], (chunks + [c])[|chunks|]);
    }
    InAddrs(chunks + [c], |chunks|);
    WriteCandidate(mem, head, a, size, used, chunks);
    ghost var m1 := mem[..];
    LinkLast(mem, head, a + 4, chunks, c);
    TouchesCompose(m, m1, mem[..], head, {a}, Addrs(chunks + [c]), Addrs(chunks + [c]));
  }

  /** chunk->size of the chunk at position k. */
  method LoadSize(mem: array<Byte>, head: nat, a: nat, ghost chunks: seq<Chunk>, ghost k: nat) returns (size: nat)
    requires Represents(mem[..], head, chunks) && k < |chunks| && a == chunks[k].addr && a + 4 <= mem.Length
    ensures size == chunks[k].size
  {
    var w := Load(mem, a);
    assert w == Tag(chunks[k]);
    size := w / 2;
  }

  /** Deletes chunk k + 1 from the list and adds its header and payload to chunk k. */
  method Absorb(mem: array<Byte>, head: nat, left: nat, right: nat, ghost chunks: seq<Chunk>, ghost k: nat)
    requires Represents(mem[..], head, chunks) && CanMerge(chunks, k)
    requires left == chunks[k].addr && right == chunks[k + 1].addr && left + 4 <= mem.Length && right + 4 <= mem.Length
    requires chunks[k].size + HEADER + chunks[k + 1].size < 0x8000_0000
    modifies mem
    ensures Represents(mem[..], head, Merge(chunks, k))
    ensures Touches(old(mem[..]), mem[..], head, Addrs(chunks))
  {
    ghost var m := mem[..];
    var size := LoadSize(mem, head, left, chunks, k);
    var added := LoadSize(mem, head, right, chunks, k + 1);
    Unlink(mem, head, right + 4, chunks, k + 1);
    ghost var m1, rest := mem[..], RemovedChunk(chunks, k + 1);
    RemovedAt(chunks, k + 1, k);
    InAddrs(chunks, k);
    Rewrite(mem, head, left, false, size + (added + HEADER), rest, k);
    AbsorbedIsMerge(chunks, k);
    TouchesCompose(m, m1, mem[..], head, Addrs(chunks), {left}, Addrs(chunks));
  }

  lemma AbsorbedIsMerge(chunks: seq<Chunk>, k: nat)
    requires CanMerge(chunks, k)
    ensures RemovedChunk(chunks, k + 1)[k := Chunk(chunks[k].addr, chunks[k].size + HEADER + chunks[k + 1].size, false)]
            == Merge(chunks, k)
  {
  }
}

/**
  The chunk list on raw memory (mm/malloc.c): chunk headers are twelve bytes in the
  heap itself, one word for the used bit and the size, two for the list node.
 */
module HeapMemory {
  import opened Memory
  import opened Lists
  import opened Heaps

  /** The bitfields allocated:1 and size:31. */
  function Tag(c: Chunk): int { (if c.used then 1 else 0) + 2 * c.size }

  /** The list as node addresses: chunk_head, then the node of every chunk. */
  function Nodes(head: nat, chunks: seq<Chunk>): seq<nat> {
    [head] + seq(|chunks|, i requires 0 <= i < |chunks| => chunks[i].addr + 4)
  }

  predicate HeadersApart(a: nat, b: nat) { a + HEADER <= b || b + HEADER <= a }

  predicate HeaderFits(size: nat, head: nat, c: Chunk) {
    && c.addr + HEADER <= size
    && (head + 8 <= c.addr || c.addr + HEADER <= head)
    && c.size < 0x8000_0000
  }

  /** Headers fit in memory and overlap neither each other nor chunk_head. */
  ghost predicate HeadersFit(size: nat, head: nat, chunks: seq<Chunk>) {
    && head + 8 <= size <= 0x1_0000_0000
    && (forall i :: 0 <= i < |chunks| ==> HeaderFits(size, head, chunks[i]))
    && forall i, j :: 0 <= i < j < |chunks| ==> HeadersApart(chunks[i].addr, chunks[j].addr)
  }

  ghost predicate Tagged(m: seq<Byte>, chunks: seq<Chunk>) {
    forall i :: 0 <= i < |chunks| ==> chunks[i].addr + 4 <= |m| && Read(m, chunks[i].addr) == Tag(chunks[i])
  }

  /** The memory holds this chunk list. */
  ghost predicate Represents(m: seq<Byte>, head: nat, chunks: seq<Chunk>) {
    HeadersFit(|m|, head, chunks) && Ring(m, Nodes(head, chunks)) && Tagged(m, chunks)
  }

  function Addrs(chunks: seq<Chunk>): set<nat> {
    set c | c in chunks :: c.addr
  }

  /** x is a byte of chunk_head or of a header at one of the addresses. */
  ghost predicate Bookkeeping(x: int, head: nat, addrs: set<nat>) {
    head <= x < head + 8 || exists a :: a in addrs && a <= x < a + HEADER
  }

  /** m' differs from m only in bookkeeping bytes. */
  ghost predicate Touches(m: seq<Byte>, m': seq<Byte>, head: nat, addrs: set<nat>) {
    |m'| == |m| && forall x :: 0 <= x < |m| && m'[x] != m[x] ==> Bookkeeping(x, head, addrs)
  }

  /** m' differs from m at most in the word at a. */
  ghost predicate OnlyWord(m: seq<Byte>, m': seq<Byte>, a: nat) {
    |m'| == |m| && forall x :: 0 <= x < |m| && !(a <= x < a + 4) ==> m'[x] == m[x]
  }

  lemma TouchesCompose(m: seq<Byte>, m1: seq<Byte>, m2: seq<Byte>, head: nat, some: set<nat>, more: set<nat>,
                       all: set<nat>)
    requires Touches(m, m1, head, some) && Touches(m1, m2, head, more) && some <= all && more <= all
    ensures Touches(m, m2, head, all)
  {
    forall x | 0 <= x < |m| && m2[x] != m[x] ensures Bookkeeping(x, head, all) {
      if m1[x] != m[x] {
        assert Bookkeeping(x, head, some);
      } else {
        assert Bookkeeping(x, head, more);
      }
    }
  }

  // ---------------------------------------------------------------------
  // Frames
  // ---------------------------------------------------------------------

  lemma NodesAt(head: nat, chunks: seq<Chunk>, i: nat)
    requires i <= |chunks|
    ensures |Nodes(head, chunks)| == |chunks| + 1
    ensures Nodes(head, chunks)[i] == if i == 0 then head else chunks[i - 1].addr + 4
  {
  }

  /** A write away from every node keeps the ring. */
  lemma RingFrame(m: seq<Byte>, m': seq<Byte>, nodes: seq<nat>)
    requires Ring(m, nodes) && |m'| == |m|
    requires forall i, x :: 0 <= i < |nodes| && nodes[i] <= x < nodes[i] + 8 ==> m'[x] == m[x]
    ensures Ring(m', nodes)
  {
    forall i | 0 <= i < |nodes| ensures Linked(m', nodes[i], After(nodes, i)) {
      var j := if i + 1 < |nodes| then i + 1 else 0;
      assert Linked(m, nodes[i], After(nodes, i));
      assert forall x :: nodes[i] <= x < nodes[i] + 8 ==> m'[x] == m[x];
      assert forall x :: nodes[j] <= x < nodes[j] + 8 ==> m'[x] == m[x];
      ReadSame(m, m', nodes[i] + 4);
      ReadSame(m, m', nodes[j]);
    }
  }

  /** The tag word of a chunk is away from every node. */
  lemma TagAwayFromNodes(size: nat, head: nat, chunks: seq<Chunk>, i: nat)
    requires HeadersFit(size, head, chunks) && i < |chunks|
    ensures forall k :: 0 <= k <= |chunks| ==>
              chunks[i].addr + 4 <= Nodes(head, chunks)[k] || Nodes(head, chunks)[k] + 8 <= chunks[i].addr
  {
    forall k | 0 <= k <= |chunks|
      ensures chunks[i].addr + 4 <= Nodes(head, chunks)[k] || Nodes(head, chunks)[k] + 8 <= chunks[i].addr
    {
      NodesAt(head, chunks, k);
      if k == 0 {
        assert HeaderFits(size, head, chunks[i]);
      } else if k - 1 < i {
        assert HeadersApart(chunks[k - 1].addr, chunks[i].addr);
      } else if i < k - 1 {
        assert HeadersApart(chunks[i].addr, chunks[k - 1].addr);
      }
    }
  }

  /** A header away from the others has its node away from their nodes. */
  lemma NewNodeApart(size: nat, head: nat, chunks: seq<Chunk>, c: Chunk)
    requires HeadersFit(size, head, chunks) && HeaderFits(size, head, c)
    requires forall k :: 0 <= k < |chunks| ==> HeadersApart(c.addr, chunks[k].addr)
    ensures forall k :: 0 <= k <= |chunks| ==> NodesApart(c.addr + 4, Nodes(head, chunks)[k])
    ensures forall k :: 0 <= k <= |chunks| ==>
              c.addr + 4 <= Nodes(head, chunks)[k] || Nodes(head, chunks)[k] + 8 <= c.addr
  {
    forall k | 0 <= k <= |chunks|
      ensures NodesApart(c.addr + 4, Nodes(head, chunks)[k])
      ensures c.addr + 4 <= Nodes(head, chunks)[k] || Nodes(head, chunks)[k] + 8 <= c.addr
    {
      NodesAt(head, chunks, k);
      assert k > 0 ==> HeadersApart(c.addr, chunks[k - 1].addr);
    }
  }

  /** Linking or unlinking touches list words only, so every tag survives. */
  lemma LinksKeepTag(m: seq<Byte>, m': seq<Byte>, head: nat, chunks: seq<Chunk>, left: nat, node: nat, right: nat,
                     k: nat)
    requires HeadersFit(|m|, head, chunks) && k < |chunks|
    requires OnlyLinks(m, m', left, node, right)
    requires left in Nodes(head, chunks) && right in Nodes(head, chunks) && node in Nodes(head, chunks)
    ensures Read(m', chunks[k].addr) == Read(m, chunks[k].addr)
  {
    TagAwayFromNodes(|m|, head, chunks, k);
    ReadSame(m, m', chunks[k].addr);
  }

  lemma NodeIsBookkeeping(head: nat, chunks: seq<Chunk>, node: nat, x: int)
    requires node in Nodes(head, chunks) && node <= x < node + 8
    ensures Bookkeeping(x, head, Addrs(chunks))
  {
    var k :| 0 <= k < |Nodes(head, chunks)| && Nodes(head, chunks)[k] == node;
    NodesAt(head, chunks, k);
    if k > 0 {
      assert chunks[k - 1] in chunks && chunks[k - 1].addr in Addrs(chunks);
    }
  }

  lemma LinksTouch(m: seq<Byte>, m': seq<Byte>, head: nat, chunks: seq<Chunk>, left: nat, node: nat, right: nat)
    requires OnlyLinks(m, m', left, node, right)
    requires left in Nodes(head, chunks) && right in Nodes(head, chunks) && node in Nodes(head, chunks)
    ensures Touches(m, m', head, Addrs(chunks))
  {
    forall x | 0 <= x < |m| && m'[x] != m[x] ensures Bookkeeping(x, head, Addrs(chunks)) {
      if node <= x < node + 8 {
        NodeIsBookkeeping(head, chunks, node, x);
      } else if left <= x < left + 8 {
        NodeIsBookkeeping(head, chunks, left, x);
      } else {
        NodeIsBookkeeping(head, chunks, right, x);
      }
    }
  }

  // ---------------------------------------------------------------------
  // The three things malloc and free do to the list
  // ---------------------------------------------------------------------

  /** Writing a new tag into chunk i. */
  lemma Retag(m: seq<Byte>, m': seq<Byte>, head: nat, chunks: seq<Chunk>, i: nat, c: Chunk)
    requires Represents(m, head, chunks) && i < |chunks| && c.addr == chunks[i].addr && c.size < 0x8000_0000
    requires OnlyWord(m, m', c.addr) && Read(m', c.addr) == Tag(c)
    ensures Represents(m', head, chunks[i := c])
    ensures Touches(m, m', head, {c.addr})
  {
    assert Nodes(head, chunks[i := c]) == Nodes(head, chunks);
    forall k | 0 <= k < |chunks| && k != i ensures Read(m', chunks[k].addr) == Tag(chunks[k]) {
    }
  }

  function InsertedChunk(chunks: seq<Chunk>, i: nat, c: Chunk): seq<Chunk>
    requires i <= |chunks|
  {
    chunks[..i] + [c] + chunks[i..]
  }

  lemma NodesInserted(head: nat, chunks: seq<Chunk>, i: nat, c: Chunk)
    requires i <= |chunks|
    ensures |Nodes(head, chunks)| == |chunks| + 1
    ensures Nodes(head, InsertedChunk(chunks, i, c)) == Inserted(Nodes(head, chunks), i, c.addr + 4)
  {
    var next := InsertedChunk(chunks, i, c);
    forall k | 0 <= k < |next| + 1
      ensures Nodes(head, next)[k] == Inserted(Nodes(head, chunks), i, c.addr + 4)[k]
    {
      if k > 0 {
        assert next[k - 1] == if k - 1 < i then chunks[k - 1] else if k - 1 == i then c else chunks[k - 2];
      }
    }
  }

  lemma HeadersFitInserted(size: nat, head: nat, chunks: seq<Chunk>, i: nat, c: Chunk)
    requires HeadersFit(size, head, chunks) && i <= |chunks| && HeaderFits(size, head, c)
    requires forall k :: 0 <= k < |chunks| ==> HeadersApart(c.addr, chunks[k].addr)
    ensures HeadersFit(size, head, InsertedChunk(chunks, i, c))
  {
    var next := InsertedChunk(chunks, i, c);
    forall k | 0 <= k < |next| ensures next[k] == if k < i then chunks[k] else if k == i then c else chunks[k - 1] {
    }
  }

  /** The tag of a new chunk is written where no header is: the list is still there. */
  lemma TagOutside(m: seq<Byte>, m': seq<Byte>, head: nat, chunks: seq<Chunk>, c: Chunk)
    requires Represents(m, head, chunks) && HeaderFits(|m|, head, c) && OnlyWord(m, m', c.addr)
    requires forall k :: 0 <= k < |chunks| ==> HeadersApart(c.addr, chunks[k].addr)
    ensures Represents(m', head, chunks) && Touches(m, m', head, {c.addr})
  {
    NewNodeApart(|m|, head, chunks, c);
    RingFrame(m, m', Nodes(head, chunks));
    forall k | 0 <= k < |chunks| ensures Read(m', chunks[k].addr) == Tag(chunks[k]) {
      assert HeadersApart(c.addr, chunks[k].addr);
      ReadSame(m, m', chunks[k].addr);
    }
  }

  lemma LinksRepresent(m: seq<Byte>, m': seq<Byte>, head: nat, chunks: seq<Chunk>, left: nat, node: nat, right: nat)
    requires HeadersFit(|m|, head, chunks) && Tagged(m, chunks) && OnlyLinks(m, m', left, node, right)
    requires left in Nodes(head, chunks) && right in Nodes(head, chunks) && node in Nodes(head, chunks)
    requires Ring(m', Nodes(head, chunks))
    ensures Represents(m', head, chunks) && Touches(m, m', head, Addrs(chunks))
  {
    LinksTouch(m, m', head, chunks, left, node, right);
    LinksKeepTags(m, m', head, chunks, left, node, right);
  }

  /** The list with c inserted, except for the ring, which is already there. */
  lemma InsertedFits(m: seq<Byte>, head: nat, chunks: seq<Chunk>, i: nat, c: Chunk)
    requires HeadersFit(|m|, head, chunks) && Tagged(m, chunks) && i <= |chunks| && HeaderFits(|m|, head, c)
    requires forall k :: 0 <= k < |chunks| ==> HeadersApart(c.addr, chunks[k].addr)
    requires Read(m, c.addr) == Tag(c)
    ensures HeadersFit(|m|, head, InsertedChunk(chunks, i, c)) && Tagged(m, InsertedChunk(chunks, i, c))
  {
    HeadersFitInserted(|m|, head, chunks, i, c);
    TagsInserted(m, chunks, i, c);
  }

  /** Its node is linked in between positions i - 1 and i. */
  lemma ChunkLinked(m: seq<Byte>, m': seq<Byte>, head: nat, chunks: seq<Chunk>, i: nat, c: Chunk,
                    nodes: seq<nat>, next: seq<Chunk>)
    requires HeadersFit(|m|, head, next) && Tagged(m, next) && i <= |chunks| && next == InsertedChunk(chunks, i, c)
    requires nodes == Nodes(head, chunks) && |nodes| == |chunks| + 1
    requires OnlyLinks(m, m', nodes[i], c.addr + 4, After(nodes, i)) && Ring(m', Inserted(nodes, i, c.addr + 4))
    ensures Represents(m', head, next)
    ensures Touches(m, m', head, Addrs(next))
  {
    NodesInserted(head, chunks, i, c);
    InsertedNeighbours(nodes, i, c.addr + 4);
    LinksRepresent(m, m', head, next, nodes[i], c.addr + 4, After(nodes, i));
  }

  lemma InsertedNeighbours(nodes: seq<nat>, i: nat, node: nat)
    requires i < |nodes|
    ensures nodes[i] in Inserted(nodes, i, node) && node in Inserted(nodes, i, node)
    ensures After(nodes, i) in Inserted(nodes, i, node)
  {
    var ring := Inserted(nodes, i, node);
    assert ring[i] == nodes[i] && ring[i + 1] == node;
    assert ring[0] == nodes[0];
    if i + 1 < |nodes| {
      assert ring[i + 2] == nodes[i + 1];
    }
  }

  lemma LinksKeepTags(m: seq<Byte>, m': seq<Byte>, head: nat, chunks: seq<Chunk>, left: nat, node: nat, right: nat)
    requires HeadersFit(|m|, head, chunks) && Tagged(m, chunks)
    requires OnlyLinks(m, m', left, node, right)
    requires left in Nodes(head, chunks) && right in Nodes(head, chunks) && node in Nodes(head, chunks)
    ensures Tagged(m', chunks)
  {
    forall k | 0 <= k < |chunks| ensures Read(m', chunks[k].addr) == Tag(chunks[k]) {
      LinksKeepTag(m, m', head, chunks, left, node, right, k);
    }
  }

  lemma TagsInserted(m: seq<Byte>, chunks: seq<Chunk>, i: nat, c: Chunk)
    requires Tagged(m, chunks) && i <= |chunks| && c.addr + 4 <= |m| && Read(m, c.addr) == Tag(c)
    ensures Tagged(m, InsertedChunk(chunks, i, c))
  {
    var next := InsertedChunk(chunks, i, c);
    forall k | 0 <= k < |next| ensures next[k].addr + 4 <= |m| && Read(m, next[k].addr) == Tag(next[k]) {
      assert next[k] == if k < i then chunks[k] else if k == i then c else chunks[k - 1];
    }
  }

  function RemovedChunk(chunks: seq<Chunk>, i: nat): seq<Chunk>
    requires i < |chunks|
  {
    chunks[..i] + chunks[i + 1..]
  }

  lemma RemovedAt(chunks: seq<Chunk>, i: nat, k: nat)
    requires i < |chunks| && k < |chunks| - 1
    ensures RemovedChunk(chunks, i)[k] == chunks[if k < i then k else k + 1]
  {
  }

  lemma NodesRemoved(head: nat, chunks: seq<Chunk>, i: nat)
    requires i < |chunks|
    ensures |Nodes(head, chunks)| == |chunks| + 1
    ensures Nodes(head, RemovedChunk(chunks, i)) == Deleted(Nodes(head, chunks), i + 1)
  {
    var next := RemovedChunk(chunks, i);
    forall k | 0 <= k < |next| + 1 ensures Nodes(head, next)[k] == Deleted(Nodes(head, chunks), i + 1)[k] {
      if k > 0 {
        RemovedAt(chunks, i, k - 1);
      }
    }
  }

  lemma HeadersFitRemoved(size: nat, head: nat, chunks: seq<Chunk>, i: nat)
    requires HeadersFit(size, head, chunks) && i < |chunks|
    ensures HeadersFit(size, head, RemovedChunk(chunks, i))
  {
    var next := RemovedChunk(chunks, i);
    forall k | 0 <= k < |next| ensures HeaderFits(size, head, next[k]) {
      RemovedAt(chunks, i, k);
    }
    forall j, k | 0 <= j < k < |next| ensures HeadersApart(next[j].addr, next[k].addr) {
      RemovedAt(chunks, i, j);
      RemovedAt(chunks, i, k);
    }
  }

  /** What list_delete needs for chunk i. */
  lemma UnlinkFits(m: seq<Byte>, head: nat, chunks: seq<Chunk>, i: nat, node: nat)
    requires Represents(m, head, chunks) && i < |chunks| && node == chunks[i].addr + 4
    ensures Fits(m, node) && Fits(m, Prev(m, node)) && Fits(m, Next(m, node))
    ensures NodesApart(node, Next(m, node)) && NodesApart(node, Prev(m, node))
  {
    NodesAt(head, chunks, i + 1);
    DeleteFits(m, Nodes(head, chunks), i + 1, node);
  }

  lemma TagsRemoved(m: seq<Byte>, chunks: seq<Chunk>, i: nat)
    requires Tagged(m, chunks) && i < |chunks|
    ensures Tagged(m, RemovedChunk(chunks, i))
  {
    var next := RemovedChunk(chunks, i);
    forall k | 0 <= k < |next| ensures next[k].addr + 4 <= |m| && Read(m, next[k].addr) == Tag(next[k]) {
      RemovedAt(chunks, i, k);
    }
  }

  lemma NeighboursIn(nodes: seq<nat>, i: nat)
    requires 1 <= i < |nodes|
    ensures nodes[i - 1] in nodes && nodes[i] in nodes && After(nodes, i) in nodes
  {
  }

  lemma ChunkUnlinkedLinks(m: seq<Byte>, m': seq<Byte>, head: nat, chunks: seq<Chunk>, i: nat, nodes: seq<nat>,
                           node: nat)
    requires HeadersFit(|m|, head, chunks) && Tagged(m, chunks) && 1 <= i <= |chunks|
    requires nodes == Nodes(head, chunks) && |nodes| == |chunks| + 1 && nodes[i] == node
    requires OnlyLinks(m, m', nodes[i - 1], node, After(nodes, i)) && Ring(m', Deleted(nodes, i))
    ensures Represents(m', head, RemovedChunk(chunks, i - 1))
    ensures Touches(m, m', head, Addrs(chunks))
  {
    NeighboursIn(nodes, i);
    NodesRemoved(head, chunks, i - 1);
    HeadersFitRemoved(|m|, head, chunks, i - 1);
    LinksTouch(m, m', head, chunks, nodes[i - 1], node, After(nodes, i));
    LinksKeepTags(m, m', head, chunks, nodes[i - 1], node, After(nodes, i));
    TagsRemoved(m', chunks, i - 1);
  }

  /** Unlinking chunk i. */
  lemma ChunkUnlinked(m: seq<Byte>, m': seq<Byte>, head: nat, chunks: seq<Chunk>, i: nat, node: nat)
    requires Represents(m, head, chunks) && i < |chunks| && node == chunks[i].addr + 4
    requires Fits(m, node) && Fits(m, Prev(m, node)) && Fits(m, Next(m, node))
    requires NodesApart(node, Next(m, node)) && NodesApart(node, Prev(m, node))
    requires m' == Delete(m, node)
    ensures Represents(m', head, RemovedChunk(chunks, i))
    ensures Touches(m, m', head, Addrs(chunks))
  {
    var nodes := Nodes(head, chunks);
    NodesAt(head, chunks, i + 1);
    DeletedRing(m, m', nodes, i + 1, node);
    ChunkUnlinkedLinks(m, m', head, chunks, i + 1, nodes, node);
  }

  // ---------------------------------------------------------------------
  // Payloads
  // ---------------------------------------------------------------------

  /** The payload of a chunk overlaps no header of any chunk of the list, nor chunk_head. */
  lemma PayloadIsNotHeader(head: nat, chunks: seq<Chunk>, c: Chunk, x: int)
    requires AllApart(chunks) && c in chunks && c.addr + HEADER <= x < End(c)
    requires head + 8 <= c.addr || End(c) <= head
    ensures !Bookkeeping(x, head, Addrs(chunks))
  {
    var i :| 0 <= i < |chunks| && chunks[i] == c;
    forall a | a in Addrs(chunks) ensures !(a <= x < a + HEADER) {
      var d :| d in chunks && d.addr == a;
      var j :| 0 <= j < |chunks| && chunks[j] == d;
      assert i == j || ChunksApart(chunks[if i < j then i else j], chunks[if i < j then j else i]);
    }
  }

  /** A chunk in use before and after an operation keeps every payload byte. */
  lemma PayloadKept(m: seq<Byte>, m': seq<Byte>, head: nat, before: seq<Chunk>, after: seq<Chunk>, c: Chunk, x: int)
    requires Touches(m, m', head, Addrs(before) + Addrs(after))
    requires AllApart(before) && AllApart(after) && c in before && c in after
    requires head + 8 <= c.addr || End(c) <= head
    requires c.addr + HEADER <= x < End(c) <= |m|
    ensures m'[x] == m[x]
  {
    PayloadIsNotHeader(head, before, c, x);
    PayloadIsNotHeader(head, after, c, x);
  }
}

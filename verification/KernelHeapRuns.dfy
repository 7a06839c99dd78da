/** Whole runs of malloc, free and stores by the owners of blocks, on raw memory. */
module KernelHeapRuns {
  import opened Memory
  import opened Lists
  import opened Heaps
  import opened HeapMemory
  import K = KernelHeap
  import Steps = Malloc

  /** base is where alloc_page would give pages; a store writes one payload byte of a block in use. */
  datatype Call = CallMalloc(size: nat, base: nat) | CallFree(addr: nat) | CallStore(x: nat, b: Byte)

  /** The block in use whose payload starts at addr, or the length of the list. */
  function BlockAt(chunks: seq<Chunk>, addr: nat): (i: nat)
    ensures i <= |chunks|
    ensures i < |chunks| ==> chunks[i].used && chunks[i].addr + HEADER == addr
    ensures i == |chunks| ==> forall k :: 0 <= k < |chunks| ==> !(chunks[k].used && chunks[k].addr + HEADER == addr)
  {
    if chunks == [] then 0
    else
      var last := |chunks| - 1;
      if chunks[last].used && chunks[last].addr + HEADER == addr then last
      else
        var i := BlockAt(chunks[..last], addr);
        if i < last then i else |chunks|
  }

  predicate InPayload(c: Chunk, x: nat) { c.addr + HEADER <= x < End(c) }

  /** What callers owe: free a block in use, store into a block in use; and alloc_page gives fresh pages. */
  ghost predicate Allowed(size: nat, head: nat, h: Heap, call: Call) {
    match call
    case CallMalloc(n, base) =>
      && HEADER + n < 0x1_0000_0000
      && (FirstFit(h.chunks, HEADER + n) == |h.chunks| ==>
            && FreshRun(h, base, PagesFor(HEADER + n))
            && Steps.Placed(size, head, h.runs + [Run(base, PagesFor(HEADER + n))]))
    case CallFree(addr) => BlockAt(h.chunks, addr) < |h.chunks|
    case CallStore(x, _) => x < size && exists c :: c in Live(h) && InPayload(c, x)
  }

  function HeapAfter(h: Heap, call: Call): Heap {
    match call
    case CallMalloc(n, base) => Heaps.Malloc(h, n, base)
    case CallFree(addr) =>
      if BlockAt(h.chunks, addr) < |h.chunks| then Heaps.Free(h, BlockAt(h.chunks, addr)) else h
    case CallStore(_, _) => h
  }

  ghost predicate AllAllowed(size: nat, head: nat, h: Heap, calls: seq<Call>)
    decreases |calls|
  {
    calls == [] || (Allowed(size, head, h, calls[0]) && AllAllowed(size, head, HeapAfter(h, calls[0]), calls[1..]))
  }

  datatype Machine = Machine(mem: seq<Byte>, heap: Heap)

  /** The effect of one call on the heap and on payload bytes. */
  ghost predicate Leads(s: Machine, call: Call, s': Machine) {
    && |s'.mem| == |s.mem| && s'.heap == HeapAfter(s.heap, call)
    && match call
       case CallStore(x, b) => x < |s.mem| && s'.mem == s.mem[x := b]
       case _ => K.PayloadsKept(s.mem, s'.mem, s.heap, s'.heap)
  }

  ghost predicate IsTrace(states: seq<Machine>, calls: seq<Call>) {
    && |states| == |calls| + 1
    && forall i {:trigger calls[i]} :: 0 <= i < |calls| ==> Leads(states[i], calls[i], states[i + 1])
  }

  /** A payload byte is in no header and not in chunk_head. */
  lemma PayloadElsewhere(h: Heap, size: nat, head: nat, i: nat, x: nat, k: nat)
    requires Heaps.Inv(h) && Steps.Placed(size, head, h.runs) && i < |h.chunks| && InPayload(h.chunks[i], x)
    requires k < |h.chunks|
    ensures !(head <= x < head + 8) && !(h.chunks[k].addr <= x < h.chunks[k].addr + HEADER)
  {
    Steps.ChunksPlaced(h, size, head, i);
    if k < i {
      assert ChunksApart(h.chunks[k], h.chunks[i]);
    } else if i < k {
      assert ChunksApart(h.chunks[i], h.chunks[k]);
    }
  }

  /** A store into a block leaves the list as it is represented. */
  lemma StoreKeepsList(m: seq<Byte>, head: nat, h: Heap, i: nat, x: nat, b: Byte)
    requires Heaps.Inv(h) && Steps.Placed(|m|, head, h.runs) && Represents(m, head, h.chunks)
    requires i < |h.chunks| && InPayload(h.chunks[i], x) && x < |m|
    ensures Represents(m[x := b], head, h.chunks)
  {
    var m', nodes := m[x := b], Nodes(head, h.chunks);
    forall k, y | 0 <= k < |nodes| && nodes[k] <= y < nodes[k] + 8 ensures m'[y] == m[y] {
      NodesAt(head, h.chunks, k);
      PayloadElsewhere(h, |m|, head, i, x, if k == 0 then i else k - 1);
    }
    RingFrame(m, m', nodes);
    forall k | 0 <= k < |h.chunks| ensures Read(m', h.chunks[k].addr) == Tag(h.chunks[k]) {
      PayloadElsewhere(h, |m|, head, i, x, k);
      ReadSame(m, m', h.chunks[k].addr);
    }
  }

  // ---------------------------------------------------------------------
  // In place
  // ---------------------------------------------------------------------

  /** The owner of a block writes one byte of it. */
  method StoreByte(k: K.KernelHeap, x: nat, b: Byte)
    requires k.Valid() && x < k.mem.Length && exists c :: c in Live(k.heap) && InPayload(c, x)
    modifies k.mem
    ensures k.Valid() && k.mem[..] == old(k.mem[..])[x := b]
  {
    ghost var m, c :| m == k.mem[..] && c in Live(k.heap) && InPayload(c, x);
    ghost var i :| 0 <= i < |k.heap.chunks| && k.heap.chunks[i] == c;
    StoreKeepsList(m, k.head, k.heap, i, x, b);
    k.mem[x] := b;
    assert k.mem[..] == m[x := b];
  }

  method Serve(k: K.KernelHeap, call: Call)
    requires k.Valid() && Allowed(k.mem.Length, k.head, k.heap, call)
    modifies k, k.mem
    ensures k.Valid()
    ensures Leads(Machine(old(k.mem[..]), old(k.heap)), call, Machine(k.mem[..], k.heap))
  {
    match call {
      case CallMalloc(n, base) =>
        var ok, addr := k.Malloc(n, true, base);
      case CallFree(addr) =>
        k.Free(addr, BlockAt(k.heap.chunks, addr));
      case CallStore(x, b) =>
        StoreByte(k, x, b);
    }
  }

  /** Any sequence of allowed calls, in place: the heap stays valid after every one, and each has its effect. */
  method RunAll(k: K.KernelHeap, calls: seq<Call>) returns (ghost states: seq<Machine>)
    requires k.Valid() && AllAllowed(k.mem.Length, k.head, k.heap, calls)
    modifies k, k.mem
    ensures k.Valid() && IsTrace(states, calls)
    ensures states[0] == Machine(old(k.mem[..]), old(k.heap)) && states[|calls|] == Machine(k.mem[..], k.heap)
  {
    states := [Machine(k.mem[..], k.heap)];
    for i := 0 to |calls|
      invariant k.Valid() && AllAllowed(k.mem.Length, k.head, k.heap, calls[i..])
      invariant IsTrace(states, calls[..i])
      invariant states[0] == Machine(old(k.mem[..]), old(k.heap)) && states[i] == Machine(k.mem[..], k.heap)
    {
      assert calls[i..][1..] == calls[i + 1..];
      ghost var before := states;
      Serve(k, calls[i]);
      states := states + [Machine(k.mem[..], k.heap)];
      Extended(before, calls, i, states[i + 1]);
    }
    assert calls[..|calls|] == calls;
  }

  lemma Extended(states: seq<Machine>, calls: seq<Call>, i: nat, next: Machine)
    requires i < |calls| && IsTrace(states, calls[..i]) && Leads(states[i], calls[i], next)
    ensures IsTrace(states + [next], calls[..i + 1])
  {
    var longer := states + [next];
    forall n {:trigger calls[..i + 1][n]} | 0 <= n <= i ensures Leads(longer[n], calls[..i + 1][n], longer[n + 1]) {
      if n < i {
        assert calls[..i][n] == calls[..i + 1][n];
      }
    }
  }

  // ---------------------------------------------------------------------
  // Blocks hold what their owners stored
  // ---------------------------------------------------------------------

  ghost predicate LiveThroughout(states: seq<Machine>, i: nat, j: nat, c: Chunk)
    requires i <= j < |states|
  {
    forall n :: i <= n <= j ==> c in Live(states[n].heap)
  }

  predicate NotStored(calls: seq<Call>, i: nat, j: nat, x: nat)
    requires i <= j <= |calls|
  {
    forall n :: i <= n < j ==> !(calls[n].CallStore? && calls[n].x == x)
  }

  /** While a block is in use its bytes change by stores only, whatever is allocated and freed around it. */
  lemma {:induction false} BlockKeepsByte(states: seq<Machine>, calls: seq<Call>, i: nat, j: nat, c: Chunk, x: nat)
    requires IsTrace(states, calls) && i <= j < |states| && LiveThroughout(states, i, j, c)
    requires InPayload(c, x) && End(c) <= |states[i].mem| && NotStored(calls, i, j, x)
    ensures |states[j].mem| == |states[i].mem| && states[j].mem[x] == states[i].mem[x]
    decreases j
  {
    if i < j {
      BlockKeepsByte(states, calls, i, j - 1, c, x);
      assert Leads(states[j - 1], calls[j - 1], states[j - 1 + 1]);
      assert c in Live(states[j - 1].heap) && c in Live(states[j].heap);
    }
  }

  /** The last byte stored into a block is there as long as the block is in use. */
  lemma LastStoreIsThere(states: seq<Machine>, calls: seq<Call>, i: nat, j: nat, c: Chunk, x: nat, b: Byte)
    requires IsTrace(states, calls) && i < j < |states| && calls[i] == CallStore(x, b)
    requires LiveThroughout(states, i, j, c) && InPayload(c, x) && End(c) <= |states[i].mem|
    requires NotStored(calls, i + 1, j, x)
    ensures x < |states[j].mem| && states[j].mem[x] == b
  {
    assert Leads(states[i], calls[i], states[i + 1]);
    BlockKeepsByte(states, calls, i + 1, j, c, x);
  }
}

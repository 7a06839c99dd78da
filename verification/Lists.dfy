/**
  The intrusive circular list of include/list.h, on raw memory: a node is two words,
  prev and then next.
 */
module Lists {
  import opened Memory

  function Prev(m: seq<Byte>, node: nat): Word
    requires node + 8 <= |m|
  {
    Read(m, node)
  }

  function Next(m: seq<Byte>, node: nat): Word
    requires node + 8 <= |m|
  {
    Read(m, node + 4)
  }

  predicate NodesApart(a: nat, b: nat) { a + 8 <= b || b + 8 <= a }

  predicate Fits(m: seq<Byte>, node: nat) { node + 8 <= |m| <= 0x1_0000_0000 }

  predicate Linked(m: seq<Byte>, a: nat, b: nat)
    requires Fits(m, a) && Fits(m, b)
  {
    Next(m, a) == b && Prev(m, b) == a
  }

  /** The node after position i. */
  function After(nodes: seq<nat>, i: nat): nat
    requires i < |nodes|
  {
    if i + 1 < |nodes| then nodes[i + 1] else nodes[0]
  }

  ghost predicate Separate(m: seq<Byte>, nodes: seq<nat>) {
    && (forall i :: 0 <= i < |nodes| ==> Fits(m, nodes[i]))
    && forall i, j :: 0 <= i < j < |nodes| ==> NodesApart(nodes[i], nodes[j])
  }

  /** nodes, in this order, form a closed ring of mutual links. */
  ghost predicate Ring(m: seq<Byte>, nodes: seq<nat>) {
    && nodes != []
    && Separate(m, nodes)
    && forall i {:trigger After(nodes, i)} :: 0 <= i < |nodes| ==> Linked(m, nodes[i], After(nodes, i))
  }

  // ---------------------------------------------------------------------
  // The four functions, write by write
  // ---------------------------------------------------------------------

  function Init(m: seq<Byte>, node: nat): seq<Byte>
    requires Fits(m, node)
  {
    Write(Write(m, node, node), node + 4, node)
  }

  function InsertBefore(m: seq<Byte>, node: nat, added: nat): seq<Byte>
    requires Fits(m, node) && Fits(m, added) && Fits(m, Prev(m, node))
    requires NodesApart(added, node)
  {
    var m1 := Write(m, added, Prev(m, node));
    ReadElsewhere(m, added, Prev(m, node), node);
    var m2 := Write(m1, Prev(m1, node) + 4, added);
    var m3 := Write(m2, added + 4, node);
    Write(m3, node, added)
  }

  function InsertAfter(m: seq<Byte>, node: nat, added: nat): seq<Byte>
    requires Fits(m, node) && Fits(m, added) && Fits(m, Next(m, node))
    requires NodesApart(added, node)
  {
    var m1 := Write(m, added + 4, Next(m, node));
    ReadElsewhere(m, added + 4, Next(m, node), node + 4);
    var m2 := Write(m1, Next(m1, node), added);
    var m3 := Write(m2, added, node);
    Write(m3, node + 4, added)
  }

  function Delete(m: seq<Byte>, node: nat): seq<Byte>
    requires Fits(m, node) && Fits(m, Prev(m, node)) && Fits(m, Next(m, node))
    requires NodesApart(node, Next(m, node)) && NodesApart(node, Prev(m, node))
  {
    var m1 := Write(m, Next(m, node), Prev(m, node));
    ReadElsewhere(m, Next(m, node), Prev(m, node), node);
    ReadElsewhere(m, Next(m, node), Prev(m, node), node + 4);
    Write(m1, Prev(m1, node) + 4, Next(m1, node))
  }

  // ---------------------------------------------------------------------
  // What they do to the ring
  // ---------------------------------------------------------------------

  /** m' differs from m at most in the words by which left, node and right are linked. */
  ghost predicate OnlyLinks(m: seq<Byte>, m': seq<Byte>, left: nat, node: nat, right: nat) {
    && |m'| == |m|
    && forall x ::
         0 <= x < |m| && !(node <= x < node + 8) && !(left + 4 <= x < left + 8) && !(right <= x < right + 4) ==>
           m'[x] == m[x]
  }

  lemma LinkedElsewhere(m: seq<Byte>, m': seq<Byte>, left: nat, node: nat, right: nat, a: nat, b: nat)
    requires OnlyLinks(m, m', left, node, right)
    requires Fits(m, a) && Fits(m, b) && Linked(m, a, b)
    requires NodesApart(node, a) && NodesApart(node, b)
    requires a != left ==> NodesApart(left, a)
    requires b != left ==> NodesApart(left, b)
    requires a != right ==> NodesApart(right, a)
    requires b != right ==> NodesApart(right, b)
    requires a != left && b != right
    ensures Linked(m', a, b)
  {
    ReadSame(m, m', a + 4);
    ReadSame(m, m', b);
  }

  function Inserted(nodes: seq<nat>, i: nat, node: nat): seq<nat>
    requires i < |nodes|
  {
    nodes[..i + 1] + [node] + nodes[i + 1..]
  }

  function Deleted(nodes: seq<nat>, i: nat): seq<nat>
    requires i < |nodes|
  {
    nodes[..i] + nodes[i + 1..]
  }

  lemma SeparateInserted(m: seq<Byte>, nodes: seq<nat>, i: nat, node: nat)
    requires Separate(m, nodes) && i < |nodes| && Fits(m, node)
    requires forall j :: 0 <= j < |nodes| ==> NodesApart(node, nodes[j])
    ensures Separate(m, Inserted(nodes, i, node))
  {
    var ring := Inserted(nodes, i, node);
    forall j | 0 <= j < |ring| ensures Fits(m, ring[j]) {
      assert j <= i ==> ring[j] == nodes[j];
      assert j > i + 1 ==> ring[j] == nodes[j - 1];
    }
    forall j, k | 0 <= j < k < |ring| ensures NodesApart(ring[j], ring[k]) {
      assert j <= i ==> ring[j] == nodes[j];
      assert j > i + 1 ==> ring[j] == nodes[j - 1];
      assert k <= i ==> ring[k] == nodes[k];
      assert k > i + 1 ==> ring[k] == nodes[k - 1];
    }
  }

  lemma ApartFromOthers(m: seq<Byte>, nodes: seq<nat>, i: nat, j: nat)
    requires Separate(m, nodes) && i < |nodes| && j < |nodes|
    ensures i != j ==> NodesApart(nodes[i], nodes[j])
    ensures nodes[i] == nodes[j] <==> i == j
  {
    if i < j {
      assert NodesApart(nodes[i], nodes[j]);
    } else if j < i {
      assert NodesApart(nodes[j], nodes[i]);
    }
  }

  /** The links of the old ring other than the one at position i survive. */
  lemma OtherLinkKept(m: seq<Byte>, m': seq<Byte>, nodes: seq<nat>, i: nat, node: nat, k: nat)
    requires Ring(m, nodes) && i < |nodes| && k < |nodes| && k != i
    requires OnlyLinks(m, m', nodes[i], node, After(nodes, i))
    requires NodesApart(node, nodes[k]) && NodesApart(node, After(nodes, k))
    ensures Linked(m', nodes[k], After(nodes, k))
  {
    var ai, ak := if i + 1 < |nodes| then i + 1 else 0, if k + 1 < |nodes| then k + 1 else 0;
    assert Linked(m, nodes[k], After(nodes, k));
    ApartFromOthers(m, nodes, i, k);
    ApartFromOthers(m, nodes, i, ak);
    ApartFromOthers(m, nodes, ai, k);
    ApartFromOthers(m, nodes, ai, ak);
    LinkedElsewhere(m, m', nodes[i], node, After(nodes, i), nodes[k], After(nodes, k));
  }

  /** A node linked in between positions i and i + 1 extends the ring there. */
  lemma Spliced(m: seq<Byte>, m': seq<Byte>, nodes: seq<nat>, i: nat, node: nat)
    requires Ring(m, nodes) && i < |nodes|
    requires Fits(m, node) && forall j :: 0 <= j < |nodes| ==> NodesApart(node, nodes[j])
    requires OnlyLinks(m, m', nodes[i], node, After(nodes, i))
    requires Linked(m', nodes[i], node) && Linked(m', node, After(nodes, i))
    ensures Ring(m', Inserted(nodes, i, node))
  {
    var ring := Inserted(nodes, i, node);
    SeparateInserted(m, nodes, i, node);
    forall j | 0 <= j < |ring| ensures Linked(m', ring[j], After(ring, j)) {
      if j != i && j != i + 1 {
        var k := if j < i then j else j - 1;
        assert ring[j] == nodes[k] && After(ring, j) == After(nodes, k);
        OtherLinkKept(m, m', nodes, i, node, k);
      } else {
        assert ring[j] == if j == i then nodes[i] else node;
        assert After(ring, j) == if j == i then node else After(nodes, i);
      }
    }
  }

  /** left and right are the same node or do not overlap, and node overlaps neither. */
  predicate Clear(m: seq<Byte>, left: nat, node: nat, right: nat) {
    && Fits(m, left) && Fits(m, node) && Fits(m, right)
    && NodesApart(node, left) && NodesApart(node, right)
    && (left == right || NodesApart(left, right))
  }

  /** The four words list_insert_before writes. */
  lemma InsertBeforeWrites(m: seq<Byte>, left: nat, node: nat, right: nat)
    requires Clear(m, left, node, right) && Linked(m, left, right)
    ensures InsertBefore(m, right, node) ==
            Write(Write(Write(Write(m, node, left), left + 4, node), node + 4, right), right, node)
  {
    ReadElsewhere(m, node, left, right);
  }

  lemma WritesLink(m: seq<Byte>, m': seq<Byte>, left: nat, node: nat, right: nat)
    requires Clear(m, left, node, right)
    requires m' == Write(Write(Write(Write(m, node, left), left + 4, node), node + 4, right), right, node)
    ensures OnlyLinks(m, m', left, node, right) && Linked(m', left, node) && Linked(m', node, right)
  {
    WriteFour(m, node, left, left + 4, node, node + 4, right, right, node);
  }

  lemma InsertBeforeLinks(m: seq<Byte>, left: nat, node: nat, right: nat)
    requires Clear(m, left, node, right) && Linked(m, left, right)
    ensures var m' := InsertBefore(m, right, node);
            OnlyLinks(m, m', left, node, right) && Linked(m', left, node) && Linked(m', node, right)
  {
    InsertBeforeWrites(m, left, node, right);
    WritesLink(m, InsertBefore(m, right, node), left, node, right);
  }

  /** The four words list_insert_after writes. */
  lemma InsertAfterWrites(m: seq<Byte>, left: nat, node: nat, right: nat)
    requires Clear(m, left, node, right) && Linked(m, left, right)
    ensures InsertAfter(m, left, node) ==
            Write(Write(Write(Write(m, node + 4, right), right, node), node, left), left + 4, node)
  {
    ReadElsewhere(m, node + 4, right, left + 4);
  }

  lemma WritesLinkAfter(m: seq<Byte>, m': seq<Byte>, left: nat, node: nat, right: nat)
    requires Clear(m, left, node, right)
    requires m' == Write(Write(Write(Write(m, node + 4, right), right, node), node, left), left + 4, node)
    ensures OnlyLinks(m, m', left, node, right) && Linked(m', left, node) && Linked(m', node, right)
  {
    WriteFour(m, node + 4, right, right, node, node, left, left + 4, node);
    assert Next(m', node) == right && Prev(m', right) == node && Prev(m', node) == left && Next(m', left) == node;
  }

  lemma InsertAfterLinks(m: seq<Byte>, left: nat, node: nat, right: nat)
    requires Clear(m, left, node, right) && Linked(m, left, right)
    ensures var m' := InsertAfter(m, left, node);
            OnlyLinks(m, m', left, node, right) && Linked(m', left, node) && Linked(m', node, right)
  {
    InsertAfterWrites(m, left, node, right);
    WritesLinkAfter(m, InsertAfter(m, left, node), left, node, right);
  }

  lemma DeleteLinks(m: seq<Byte>, left: nat, node: nat, right: nat)
    requires Clear(m, left, node, right) && Linked(m, left, node) && Linked(m, node, right)
    ensures var m' := Delete(m, node);
            OnlyLinks(m, m', left, node, right) && Linked(m', left, right)
  {
    var m1 := Write(m, right, left);
    ReadElsewhere(m, right, left, node);
    ReadElsewhere(m, right, left, node + 4);
    ReadBack(m, right, left);
    ReadElsewhere(m1, left + 4, right, right);
    ReadBack(m1, left + 4, right);
  }

  /** The neighbours at positions i and i + 1 are clear of each other and of a node clear of the ring. */
  lemma NeighboursClear(m: seq<Byte>, nodes: seq<nat>, i: nat, node: nat)
    requires Separate(m, nodes) && i < |nodes|
    requires Fits(m, node) && forall j :: 0 <= j < |nodes| ==> NodesApart(node, nodes[j])
    ensures Clear(m, nodes[i], node, After(nodes, i))
  {
    ApartFromOthers(m, nodes, i, if i + 1 < |nodes| then i + 1 else 0);
  }

  lemma InsertBeforeRing(m: seq<Byte>, nodes: seq<nat>, i: nat, node: nat)
    requires Ring(m, nodes) && i < |nodes|
    requires Fits(m, node) && forall j :: 0 <= j < |nodes| ==> NodesApart(node, nodes[j])
    ensures Prev(m, After(nodes, i)) == nodes[i]
    ensures var m' := InsertBefore(m, After(nodes, i), node);
            OnlyLinks(m, m', nodes[i], node, After(nodes, i)) && Ring(m', Inserted(nodes, i, node))
  {
    NeighboursClear(m, nodes, i, node);
    assert Linked(m, nodes[i], After(nodes, i));
    InsertBeforeLinks(m, nodes[i], node, After(nodes, i));
    Spliced(m, InsertBefore(m, After(nodes, i), node), nodes, i, node);
  }

  lemma InsertAfterRing(m: seq<Byte>, nodes: seq<nat>, i: nat, node: nat)
    requires Ring(m, nodes) && i < |nodes|
    requires Fits(m, node) && forall j :: 0 <= j < |nodes| ==> NodesApart(node, nodes[j])
    ensures Next(m, nodes[i]) == After(nodes, i)
    ensures var m' := InsertAfter(m, nodes[i], node);
            OnlyLinks(m, m', nodes[i], node, After(nodes, i)) && Ring(m', Inserted(nodes, i, node))
  {
    NeighboursClear(m, nodes, i, node);
    assert Linked(m, nodes[i], After(nodes, i));
    InsertAfterLinks(m, nodes[i], node, After(nodes, i));
    Spliced(m, InsertAfter(m, nodes[i], node), nodes, i, node);
  }

  lemma SeparateDeleted(m: seq<Byte>, nodes: seq<nat>, i: nat)
    requires Separate(m, nodes) && i < |nodes|
    ensures Separate(m, Deleted(nodes, i))
  {
    var ring := Deleted(nodes, i);
    forall j | 0 <= j < |ring| ensures Fits(m, ring[j]) {
      assert ring[j] == nodes[if j < i then j else j + 1];
    }
    forall j, k | 0 <= j < k < |ring| ensures NodesApart(ring[j], ring[k]) {
      assert ring[j] == nodes[if j < i then j else j + 1];
      assert ring[k] == nodes[if k < i then k else k + 1];
    }
  }

  lemma DeletedAfter(nodes: seq<nat>, i: nat, j: nat)
    requires 1 <= i < |nodes| && j < |nodes| - 1
    ensures var k := if j < i then j else j + 1;
            Deleted(nodes, i)[j] == nodes[k] && After(Deleted(nodes, i), j) == After(nodes, if k == i - 1 then i else k)
  {
  }

  /** With left and right linked to each other, the ring closes around position i. */
  lemma Closed(m: seq<Byte>, m': seq<Byte>, nodes: seq<nat>, i: nat)
    requires Ring(m, nodes) && 1 <= i < |nodes|
    requires OnlyLinks(m, m', nodes[i - 1], nodes[i], After(nodes, i))
    requires Linked(m', nodes[i - 1], After(nodes, i))
    ensures Ring(m', Deleted(nodes, i))
  {
    var ring := Deleted(nodes, i);
    SeparateDeleted(m, nodes, i);
    forall j | 0 <= j < |ring| ensures Linked(m', ring[j], After(ring, j)) {
      DeletedAfter(nodes, i, j);
      if j != i - 1 {
        UntouchedLink(m, m', nodes, i, if j < i then j else j + 1);
      }
    }
  }

  lemma UntouchedLink(m: seq<Byte>, m': seq<Byte>, nodes: seq<nat>, i: nat, k: nat)
    requires Ring(m, nodes) && 1 <= i < |nodes| && k < |nodes| && k != i && k != i - 1
    requires OnlyLinks(m, m', nodes[i - 1], nodes[i], After(nodes, i))
    ensures Linked(m', nodes[k], After(nodes, k))
  {
    var ai, ak := if i + 1 < |nodes| then i + 1 else 0, if k + 1 < |nodes| then k + 1 else 0;
    assert Linked(m, nodes[k], After(nodes, k));
    ApartFromOthers(m, nodes, i - 1, k);
    ApartFromOthers(m, nodes, i - 1, ak);
    ApartFromOthers(m, nodes, ai, k);
    ApartFromOthers(m, nodes, ai, ak);
    ApartFromOthers(m, nodes, i, k);
    ApartFromOthers(m, nodes, i, ak);
    LinkedElsewhere(m, m', nodes[i - 1], nodes[i], After(nodes, i), nodes[k], After(nodes, k));
  }

  /** Deleting the node at position i >= 1 closes the ring around it. */
  lemma DeleteRing(m: seq<Byte>, nodes: seq<nat>, i: nat)
    requires Ring(m, nodes) && 1 <= i < |nodes|
    ensures Prev(m, nodes[i]) == nodes[i - 1] && Next(m, nodes[i]) == After(nodes, i)
    ensures NodesApart(nodes[i], nodes[i - 1]) && NodesApart(nodes[i], After(nodes, i))
    ensures var m' := Delete(m, nodes[i]);
            && OnlyLinks(m, m', nodes[i - 1], nodes[i], After(nodes, i))
            && Ring(m', Deleted(nodes, i))
  {
    var left, node, right := nodes[i - 1], nodes[i], After(nodes, i);
    assert Linked(m, left, After(nodes, i - 1)) && Linked(m, node, right);
    ApartFromOthers(m, nodes, i, i - 1);
    ApartFromOthers(m, nodes, i, if i + 1 < |nodes| then i + 1 else 0);
    ApartFromOthers(m, nodes, i - 1, if i + 1 < |nodes| then i + 1 else 0);
    DeleteLinks(m, left, node, right);
    Closed(m, Delete(m, node), nodes, i);
  }

  /** What list_insert_after at position i needs, and what it gives. */
  lemma InsertAfterFits(m: seq<Byte>, nodes: seq<nat>, i: nat, left: nat, node: nat)
    requires Ring(m, nodes) && i < |nodes| && nodes[i] == left
    requires Fits(m, node) && forall j :: 0 <= j < |nodes| ==> NodesApart(node, nodes[j])
    ensures Fits(m, left) && Fits(m, Next(m, left)) && NodesApart(node, left)
  {
    InsertAfterRing(m, nodes, i, node);
  }

  lemma InsertedAfter(m: seq<Byte>, m': seq<Byte>, nodes: seq<nat>, i: nat, left: nat, node: nat)
    requires Ring(m, nodes) && i < |nodes| && nodes[i] == left
    requires Fits(m, node) && forall j :: 0 <= j < |nodes| ==> NodesApart(node, nodes[j])
    requires Fits(m, left) && Fits(m, Next(m, left)) && NodesApart(node, left)
    requires m' == InsertAfter(m, left, node)
    ensures OnlyLinks(m, m', left, node, After(nodes, i)) && Ring(m', Inserted(nodes, i, node))
  {
    InsertAfterRing(m, nodes, i, node);
  }

  /** The same for list_insert_before the first node, which appends at the end. */
  lemma InsertLastFits(m: seq<Byte>, nodes: seq<nat>, head: nat, node: nat)
    requires Ring(m, nodes) && nodes[0] == head
    requires Fits(m, node) && forall j :: 0 <= j < |nodes| ==> NodesApart(node, nodes[j])
    ensures Fits(m, head) && Fits(m, Prev(m, head)) && NodesApart(node, head)
  {
    InsertBeforeRing(m, nodes, |nodes| - 1, node);
  }

  lemma InsertedLast(m: seq<Byte>, m': seq<Byte>, nodes: seq<nat>, head: nat, node: nat)
    requires Ring(m, nodes) && nodes[0] == head
    requires Fits(m, node) && forall j :: 0 <= j < |nodes| ==> NodesApart(node, nodes[j])
    requires Fits(m, head) && Fits(m, Prev(m, head)) && NodesApart(node, head)
    requires m' == InsertBefore(m, head, node)
    ensures OnlyLinks(m, m', nodes[|nodes| - 1], node, After(nodes, |nodes| - 1))
    ensures Ring(m', Inserted(nodes, |nodes| - 1, node))
  {
    InsertBeforeRing(m, nodes, |nodes| - 1, node);
  }

  /** What list_delete needs. */
  lemma DeleteFits(m: seq<Byte>, nodes: seq<nat>, i: nat, node: nat)
    requires Ring(m, nodes) && 1 <= i < |nodes| && nodes[i] == node
    ensures Fits(m, node) && Fits(m, Prev(m, node)) && Fits(m, Next(m, node))
    ensures NodesApart(node, Next(m, node)) && NodesApart(node, Prev(m, node))
    ensures Prev(m, node) == nodes[i - 1] && Next(m, node) == After(nodes, i)
  {
    DeleteRing(m, nodes, i);
  }

  /** The same for a result given by name. */
  lemma DeletedRing(m: seq<Byte>, m': seq<Byte>, nodes: seq<nat>, i: nat, node: nat)
    requires Ring(m, nodes) && 1 <= i < |nodes| && nodes[i] == node
    requires Fits(m, node) && Fits(m, Prev(m, node)) && Fits(m, Next(m, node))
    requires NodesApart(node, Next(m, node)) && NodesApart(node, Prev(m, node))
    requires m' == Delete(m, node)
    ensures OnlyLinks(m, m', nodes[i - 1], node, After(nodes, i)) && Ring(m', Deleted(nodes, i))
  {
    DeleteRing(m, nodes, i);
  }

  /** list_init makes a ring of one. */
  lemma InitRing(m: seq<Byte>, node: nat)
    requires Fits(m, node)
    ensures Ring(Init(m, node), [node])
  {
    WriteTwo(m, node, node, node + 4, node);
  }

  // ---------------------------------------------------------------------
  // The same, in place
  // ---------------------------------------------------------------------

  method ListInit(mem: array<Byte>, node: nat)
    requires Fits(mem[..], node)
    modifies mem
    ensures mem[..] == Init(old(mem[..]), node)
  {
    Store(mem, node, node);
    Store(mem, node + 4, node);
  }

  method ListInsertBefore(mem: array<Byte>, node: nat, added: nat)
    requires Fits(mem[..], node) && Fits(mem[..], added) && Fits(mem[..], Prev(mem[..], node))
    requires NodesApart(added, node)
    modifies mem
    ensures mem[..] == InsertBefore(old(mem[..]), node, added)
  {
    ReadElsewhere(mem[..], added, Prev(mem[..], node), node);
    var prev := Load(mem, node);
    Store(mem, added, prev);
    prev := Load(mem, node);
    Store(mem, prev + 4, added);
    Store(mem, added + 4, node);
    Store(mem, node, added);
  }

  method ListInsertAfter(mem: array<Byte>, node: nat, added: nat)
    requires Fits(mem[..], node) && Fits(mem[..], added) && Fits(mem[..], Next(mem[..], node))
    requires NodesApart(added, node)
    modifies mem
    ensures mem[..] == InsertAfter(old(mem[..]), node, added)
  {
    ReadElsewhere(mem[..], added + 4, Next(mem[..], node), node + 4);
    var next := Load(mem, node + 4);
    Store(mem, added + 4, next);
    next := Load(mem, node + 4);
    Store(mem, next, added);
    Store(mem, added, node);
    Store(mem, node + 4, added);
  }

  method ListDelete(mem: array<Byte>, node: nat)
    requires Fits(mem[..], node) && Fits(mem[..], Prev(mem[..], node)) && Fits(mem[..], Next(mem[..], node))
    requires NodesApart(node, Next(mem[..], node)) && NodesApart(node, Prev(mem[..], node))
    modifies mem
    ensures mem[..] == Delete(old(mem[..]), node)
  {
    ReadElsewhere(mem[..], Next(mem[..], node), Prev(mem[..], node), node);
    ReadElsewhere(mem[..], Next(mem[..], node), Prev(mem[..], node), node + 4);
    var next := Load(mem, node + 4);
    var prev := Load(mem, node);
    ghost var m := mem[..];
    Store(mem, next, prev);
    ghost var m1 := mem[..];
    prev := Load(mem, node);
    next := Load(mem, node + 4);
    assert m1 == Write(m, Next(m, node), Prev(m, node)) && prev == Prev(m1, node) && next == Next(m1, node);
    Store(mem, prev + 4, next);
  }

  /** list_insert_after on a ring: the ring grows by the new node, there. */
  method InsertInRing(mem: array<Byte>, node: nat, added: nat, ghost nodes: seq<nat>, ghost i: nat)
    requires Ring(mem[..], nodes) && i < |nodes| && nodes[i] == node
    requires Fits(mem[..], added) && forall j :: 0 <= j < |nodes| ==> NodesApart(added, nodes[j])
    modifies mem
    ensures OnlyLinks(old(mem[..]), mem[..], node, added, After(nodes, i)) && Ring(mem[..], Inserted(nodes, i, added))
  {
    ghost var m := mem[..];
    InsertAfterFits(m, nodes, i, node, added);
    ListInsertAfter(mem, node, added);
    InsertedAfter(m, mem[..], nodes, i, node, added);
  }
}

/** The parent and sibling pointers of processes (schedule/process/proc.c): fork, exit and wait. */
module ProcTree {

  /** The family pointers of pcb_t: parent, youngest child, next younger and next older sibling. */
  class Pcb {
    var parent: Pcb?
    var cptr: Pcb?
    var yptr: Pcb?
    var optr: Pcb?

    /** create_pcb. */
    constructor ()
      ensures parent == null && cptr == null && yptr == null && optr == null
    {
      parent, cptr, yptr, optr := null, null, null, null;
    }
  }

  datatype Family = Family(parent: Pcb?, cptr: Pcb?, yptr: Pcb?, optr: Pcb?)

  /** The pointers of every process. */
  type Pointers = map<Pcb, Family>

  /** The children of every process, youngest first. */
  type Kids = map<Pcb, seq<Pcb>>

  ghost function Snapshot(procs: set<Pcb>): Pointers
    reads procs
  {
    map p | p in procs :: Family(p.parent, p.cptr, p.yptr, p.optr)
  }

  function At(list: seq<Pcb>, i: int): Pcb? {
    if 0 <= i < |list| then list[i] else null
  }

  ghost predicate Distinct(list: seq<Pcb>) {
    forall i, j :: 0 <= i < j < |list| ==> list[i] != list[j]
  }

  /** The pointers of the i-th child of p: optr and yptr are inverse along the list. */
  predicate Sits(m: Pointers, p: Pcb, list: seq<Pcb>, i: nat)
    requires i < |list|
  {
    list[i] in m && m[list[i]].parent == p && m[list[i]].optr == At(list, i + 1) && m[list[i]].yptr == At(list, i - 1)
  }

  ghost predicate Links(m: Pointers, p: Pcb, list: seq<Pcb>) {
    && p in m && m[p].cptr == At(list, 0) && Distinct(list)
    && forall i :: 0 <= i < |list| ==> Sits(m, p, list, i)
  }

  /** Every process is linked to exactly its children, each once, and every child is in its parent's list. */
  ghost predicate Tree(m: Pointers, kids: Kids) {
    && m.Keys == kids.Keys
    && (forall p :: p in kids ==> Links(m, p, kids[p]))
    && forall c :: c in kids && m[c].parent != null ==> m[c].parent in kids && c in kids[m[c].parent]
  }

  // ---------------------------------------------------------------------
  // What the operations do to the lists
  // ---------------------------------------------------------------------

  function Reverse(list: seq<Pcb>): seq<Pcb> {
    if list == [] then [] else Reverse(list[1..]) + [list[0]]
  }

  function Forked(kids: Kids, p: Pcb, c: Pcb): Kids
    requires p in kids
  {
    kids[p := [c] + kids[p]][c := []]
  }

  /** The youngest child of d becomes the youngest of init. */
  function MovedOne(kids: Kids, d: Pcb, init: Pcb): Kids
    requires d in kids && init in kids && kids[d] != []
  {
    kids[d := kids[d][1..]][init := [kids[d][0]] + kids[init]]
  }

  function MovedAll(kids: Kids, d: Pcb, init: Pcb): Kids
    requires d in kids && init in kids
  {
    kids[d := []][init := Reverse(kids[d]) + kids[init]]
  }

  function Without(list: seq<Pcb>, i: nat): seq<Pcb>
    requires i < |list|
  {
    list[..i] + list[i + 1..]
  }

  function Recycled(kids: Kids, p: Pcb, i: nat): Kids
    requires p in kids && i < |kids[p]|
  {
    kids[p := Without(kids[p], i)] - {kids[p][i]}
  }

  lemma MoveOneThenAll(kids: Kids, d: Pcb, init: Pcb)
    requires d in kids && init in kids && d != init && kids[d] != []
    ensures MovedAll(MovedOne(kids, d, init), d, init) == MovedAll(kids, d, init)
  {
    var one := MovedOne(kids, d, init);
    assert Reverse(one[d]) + one[init] == Reverse(kids[d]) + kids[init];
  }

  // ---------------------------------------------------------------------
  // What they do to the pointers; a store through a null pointer goes nowhere
  // ---------------------------------------------------------------------

  function SetCptr(m: Pointers, p: Pcb?, x: Pcb?): Pointers {
    if p != null && p in m then m[p := m[p].(cptr := x)] else m
  }

  function SetYptr(m: Pointers, p: Pcb?, x: Pcb?): Pointers {
    if p != null && p in m then m[p := m[p].(yptr := x)] else m
  }

  function SetOptr(m: Pointers, p: Pcb?, x: Pcb?): Pointers {
    if p != null && p in m then m[p := m[p].(optr := x)] else m
  }

  function SetParent(m: Pointers, p: Pcb?, x: Pcb?): Pointers {
    if p != null && p in m then m[p := m[p].(parent := x)] else m
  }

  function Fork(m: Pointers, current: Pcb, pcb: Pcb): Pointers
    requires current in m
  {
    var first := m[current].cptr;
    SetYptr(SetCptr(m[pcb := Family(current, null, null, first)], current, pcb), first, pcb)
  }

  /** The youngest child leaves the list of d. */
  function Detach(m: Pointers, d: Pcb, child: Pcb?, older: Pcb?): Pointers {
    SetYptr(SetYptr(SetCptr(m, d, older), child, null), older, null)
  }

  /** A process becomes the youngest child of init. */
  function Attach(m: Pointers, init: Pcb, child: Pcb?, first: Pcb?): Pointers {
    SetParent(SetCptr(SetYptr(SetOptr(m, child, first), first, child), init, child), child, init)
  }

  /** One turn of the loop in send_chld_to_init. */
  function Adopt(m: Pointers, d: Pcb, init: Pcb): Pointers
    requires d in m && init in m && m[d].cptr != null && m[d].cptr in m
  {
    var child := m[d].cptr;
    Attach(Detach(m, d, child, m[child].optr), init, child, m[init].cptr)
  }

  /** The link part of recycle_child. */
  function Recycle(m: Pointers, child: Pcb): Pointers
    requires child in m
  {
    var c := m[child];
    var m1 := if c.yptr != null then SetOptr(m, c.yptr, c.optr) else SetCptr(m, c.parent, c.optr);
    SetYptr(m1, c.optr, c.yptr) - {child}
  }

  // ---------------------------------------------------------------------
  // The tree is kept
  // ---------------------------------------------------------------------

  /** Lists do not share a child. */
  lemma ListsApart(m: Pointers, kids: Kids, p: Pcb, q: Pcb, i: nat, j: nat)
    requires Tree(m, kids) && p in kids && q in kids && i < |kids[p]| && j < |kids[q]|
    ensures kids[p][i] == kids[q][j] ==> p == q && i == j
  {
    assert Links(m, p, kids[p]) && Links(m, q, kids[q]);
    assert Sits(m, p, kids[p], i) && Sits(m, q, kids[q], j);
  }

  lemma ChildrenIn(m: Pointers, kids: Kids, p: Pcb, i: nat)
    requires Tree(m, kids) && p in kids && i < |kids[p]|
    ensures Sits(m, p, kids[p], i) && kids[p][i] in kids
  {
    assert Links(m, p, kids[p]);
  }

  /** The pointers after a fork, process by process. */
  lemma ForkFields(m: Pointers, current: Pcb, pcb: Pcb, x: Pcb)
    requires current in m && pcb !in m && x in m
    ensures var m' := Fork(m, current, pcb);
            && m'.Keys == m.Keys + {pcb} && m'[pcb] == Family(current, null, null, m[current].cptr)
            && m'[x].parent == m[x].parent && m'[x].optr == m[x].optr
            && m'[x].cptr == (if x == current then pcb else m[x].cptr)
            && m'[x].yptr == if x == m[current].cptr then pcb else m[x].yptr
    requires m[current].cptr != null ==> m[current].cptr in m
  {
  }

  lemma ForkSits(m: Pointers, kids: Kids, current: Pcb, pcb: Pcb, p: Pcb, j: nat)
    requires Tree(m, kids) && current in kids && pcb !in kids && p in kids && j < |kids[p]|
    ensures var list := Forked(kids, current, pcb)[p];
            Sits(Fork(m, current, pcb), p, list, if p == current then j + 1 else j)
  {
    ChildrenIn(m, kids, p, j);
    if kids[current] != [] {
      ChildrenIn(m, kids, current, 0);
      ListsApart(m, kids, p, current, j, 0);
    }
    assert Links(m, current, kids[current]);
    ForkFields(m, current, pcb, kids[p][j]);
  }

  lemma ForkLinks(m: Pointers, kids: Kids, current: Pcb, pcb: Pcb, p: Pcb)
    requires Tree(m, kids) && current in kids && pcb !in kids && p in kids
    ensures Links(Fork(m, current, pcb), p, Forked(kids, current, pcb)[p])
  {
    var m', list := Fork(m, current, pcb), Forked(kids, current, pcb)[p];
    assert Links(m, p, kids[p]) && Links(m, current, kids[current]);
    if kids[current] != [] {
      ChildrenIn(m, kids, current, 0);
    }
    ForkFields(m, current, pcb, p);
    forall i | 0 <= i < |list| ensures Sits(m', p, list, i) {
      if p != current || i > 0 {
        ForkSits(m, kids, current, pcb, p, if p == current then i - 1 else i);
      }
    }
    forall i, j | 0 <= i < j < |list| ensures list[i] != list[j] {
      ChildrenIn(m, kids, p, if p == current then j - 1 else j);
    }
  }

  /** Forking keeps the tree and puts the new process at the head of its parent's children. */
  lemma ForkKeeps(m: Pointers, kids: Kids, current: Pcb, pcb: Pcb)
    requires Tree(m, kids) && current in kids && pcb !in kids
    ensures Tree(Fork(m, current, pcb), Forked(kids, current, pcb))
  {
    var m', next := Fork(m, current, pcb), Forked(kids, current, pcb);
    assert Links(m, current, kids[current]);
    if kids[current] != [] {
      ChildrenIn(m, kids, current, 0);
    }
    forall p | p in next ensures Links(m', p, next[p]) {
      if p in kids {
        ForkLinks(m, kids, current, pcb, p);
      } else {
        ForkFields(m, current, pcb, current);
      }
    }
    forall c | c in next && m'[c].parent != null ensures m'[c].parent in next && c in next[m'[c].parent] {
      if c in kids {
        ForkFields(m, current, pcb, c);
      } else {
        ForkFields(m, current, pcb, current);
        assert next[current][0] == pcb;
      }
    }
  }

  lemma DetachFields(m: Pointers, d: Pcb, child: Pcb, older: Pcb?, x: Pcb)
    requires d in m && child in m && x in m && (older != null ==> older in m)
    ensures var m' := Detach(m, d, child, older);
            && m'.Keys == m.Keys && m'[x].parent == m[x].parent && m'[x].optr == m[x].optr
            && m'[x].cptr == (if x == d then older else m[x].cptr)
            && m'[x].yptr == if x == child || x == older then null else m[x].yptr
  {
  }

  lemma AttachFields(m: Pointers, init: Pcb, child: Pcb, first: Pcb?, x: Pcb)
    requires init in m && child in m && x in m && (first != null ==> first in m)
    ensures var m' := Attach(m, init, child, first);
            && m'.Keys == m.Keys
            && m'[x].parent == (if x == child then init else m[x].parent)
            && m'[x].cptr == (if x == init then child else m[x].cptr)
            && m'[x].optr == (if x == child then first else m[x].optr)
            && m'[x].yptr == if x == first then child else m[x].yptr
  {
  }

  lemma AdoptFields(m: Pointers, d: Pcb, init: Pcb, child: Pcb, older: Pcb?, first: Pcb?, x: Pcb)
    requires d in m && init in m && d != init && child in m && x in m
    requires m[d].cptr == child && m[child].optr == older && m[init].cptr == first
    requires (older != null ==> older in m) && (first != null ==> first in m)
    ensures var m' := Adopt(m, d, init);
            && m'.Keys == m.Keys
            && m'[x].parent == (if x == child then init else m[x].parent)
            && m'[x].cptr == (if x == d then older else if x == init then child else m[x].cptr)
            && m'[x].optr == (if x == child then first else m[x].optr)
            && m'[x].yptr == if x == first then child else if x == child || x == older then null else m[x].yptr
  {
    DetachFields(m, d, child, older, x);
    DetachFields(m, d, child, older, d);
    AttachFields(Detach(m, d, child, older), init, child, first, x);
  }

  /** The processes that one turn of the loop touches are different. */
  lemma AdoptApart(m: Pointers, kids: Kids, d: Pcb, init: Pcb)
    requires Tree(m, kids) && d in kids && init in kids && d != init && kids[d] != []
    ensures var child, older, first := kids[d][0], At(kids[d], 1), At(kids[init], 0);
            && child in m && m[d].cptr == child && m[child].optr == older && m[init].cptr == first
            && (older != null ==> older in m && older != child)
            && (first != null ==> first in m && first != child && first != older)
  {
    assert Links(m, init, kids[init]) && Links(m, d, kids[d]);
    ChildrenIn(m, kids, d, 0);
    if kids[init] != [] {
      ChildrenIn(m, kids, init, 0);
      ListsApart(m, kids, init, d, 0, 0);
      if |kids[d]| > 1 {
        ListsApart(m, kids, init, d, 0, 1);
      }
    }
    if |kids[d]| > 1 {
      ChildrenIn(m, kids, d, 1);
    }
  }

  /** Which of them the j-th child of p is. */
  lemma AdoptWhich(m: Pointers, kids: Kids, d: Pcb, init: Pcb, p: Pcb, j: nat)
    requires Tree(m, kids) && d in kids && init in kids && kids[d] != [] && p in kids && j < |kids[p]|
    ensures kids[p][j] == kids[d][0] <==> p == d && j == 0
    ensures kids[p][j] == At(kids[d], 1) <==> p == d && j == 1
    ensures kids[p][j] == At(kids[init], 0) <==> p == init && j == 0
  {
    ListsApart(m, kids, p, d, j, 0);
    if |kids[d]| > 1 {
      ListsApart(m, kids, p, d, j, 1);
    }
    if kids[init] != [] {
      ListsApart(m, kids, p, init, j, 0);
    }
  }

  /** The pointers of the j-th child of p after the move. */
  lemma AdoptPointers(m: Pointers, kids: Kids, d: Pcb, init: Pcb, p: Pcb, j: nat)
    requires Tree(m, kids) && d in kids && init in kids && d != init && kids[d] != []
    requires p in kids && j < |kids[p]| && kids[d][0] in m && m[d].cptr == kids[d][0]
    ensures var m', x, moved := Adopt(m, d, init), kids[p][j], p == d && j == 0;
            && x in m'
            && m'[x].parent == (if moved then init else p)
            && m'[x].optr == (if moved then At(kids[init], 0) else At(kids[p], j + 1))
            && m'[x].yptr == if moved || (p == d && j == 1) then null
                             else if p == init && j == 0 then kids[d][0] else At(kids[p], j - 1)
  {
    ChildrenIn(m, kids, p, j);
    AdoptApart(m, kids, d, init);
    AdoptWhich(m, kids, d, init, p, j);
    AdoptFields(m, d, init, kids[d][0], At(kids[d], 1), At(kids[init], 0), kids[p][j]);
  }

  lemma AdoptSits(m: Pointers, kids: Kids, d: Pcb, init: Pcb, p: Pcb, j: nat)
    requires Tree(m, kids) && d in kids && init in kids && d != init && kids[d] != []
    requires p in kids && j < |kids[p]| && kids[d][0] in m && m[d].cptr == kids[d][0]
    ensures var q := if p == d && j == 0 then init else p;
            var i := if p == init then j + 1 else if p == d && j > 0 then j - 1 else j;
            Sits(Adopt(m, d, init), q, MovedOne(kids, d, init)[q], i)
  {
    AdoptPointers(m, kids, d, init, p, j);
  }

  lemma AdoptLinks(m: Pointers, kids: Kids, d: Pcb, init: Pcb, p: Pcb)
    requires Tree(m, kids) && d in kids && init in kids && d != init && kids[d] != [] && p in kids
    requires kids[d][0] in m && m[d].cptr == kids[d][0]
    ensures Links(Adopt(m, d, init), p, MovedOne(kids, d, init)[p])
  {
    var m', list := Adopt(m, d, init), MovedOne(kids, d, init)[p];
    assert Links(m, p, kids[p]);
    AdoptApart(m, kids, d, init);
    AdoptFields(m, d, init, kids[d][0], At(kids[d], 1), At(kids[init], 0), p);
    forall i | 0 <= i < |list| ensures Sits(m', p, list, i) {
      if p == init {
        AdoptSits(m, kids, d, init, if i == 0 then d else init, if i == 0 then 0 else i - 1);
      } else {
        AdoptSits(m, kids, d, init, p, if p == d then i + 1 else i);
      }
    }
    if p == init {
      forall j | 0 < j < |list| ensures list[0] != list[j] {
        ListsApart(m, kids, d, init, 0, j - 1);
      }
    }
  }

  /** One turn of the loop keeps the tree and moves one child. */
  lemma AdoptKeeps(m: Pointers, kids: Kids, d: Pcb, init: Pcb)
    requires Tree(m, kids) && d in kids && init in kids && d != init && kids[d] != []
    requires kids[d][0] in m && m[d].cptr == kids[d][0]
    ensures Tree(Adopt(m, d, init), MovedOne(kids, d, init))
  {
    var m', next := Adopt(m, d, init), MovedOne(kids, d, init);
    forall p | p in next ensures Links(m', p, next[p]) {
      AdoptLinks(m, kids, d, init, p);
    }
    AdoptApart(m, kids, d, init);
    var child, older, first := kids[d][0], At(kids[d], 1), At(kids[init], 0);
    forall c | c in next && m'[c].parent != null ensures m'[c].parent in next && c in next[m'[c].parent] {
      AdoptFields(m, d, init, child, older, first, c);
      if c == child {
        assert next[init][0] == child;
      } else {
        var p := m[c].parent;
        var j :| 0 <= j < |kids[p]| && kids[p][j] == c;
        assert c == next[p][if p == init then j + 1 else if p == d then j - 1 else j];
      }
    }
  }

  lemma RecycleFields(m: Pointers, child: Pcb, p: Pcb, younger: Pcb?, older: Pcb?, x: Pcb)
    requires child in m && p in m && x in m && x != child
    requires m[child].parent == p && m[child].yptr == younger && m[child].optr == older
    requires (older != null ==> older in m) && (younger != null ==> younger in m)
    ensures var m' := Recycle(m, child);
            && m'.Keys == m.Keys - {child} && m'[x].parent == m[x].parent
            && m'[x].cptr == (if younger == null && x == p then older else m[x].cptr)
            && m'[x].optr == (if x == younger then older else m[x].optr)
            && m'[x].yptr == if x == older then younger else m[x].yptr
  {
  }

  /** The pointers of the k-th child of p, which has no children of its own. */
  lemma LeafPointers(m: Pointers, kids: Kids, p: Pcb, k: nat)
    requires Tree(m, kids) && p in kids && k < |kids[p]| && kids[p][k] in kids && kids[kids[p][k]] == []
    ensures var child, younger, older := kids[p][k], At(kids[p], k - 1), At(kids[p], k + 1);
            && child in m && p != child && younger != child && p in m
            && m[child].parent == p && m[child].yptr == younger && m[child].optr == older
            && (older != null ==> older in m) && (younger != null ==> younger in m)
  {
    ChildrenIn(m, kids, p, k);
    if k > 0 {
      ChildrenIn(m, kids, p, k - 1);
    }
    if k + 1 < |kids[p]| {
      ChildrenIn(m, kids, p, k + 1);
    }
  }

  lemma WithoutAt(list: seq<Pcb>, k: nat, i: nat)
    requires k < |list| && i < |list| - 1
    ensures Without(list, k)[i] == list[if i < k then i else i + 1]
  {
  }

  /** Which neighbour of the k-th child of p the j-th child of q is. */
  lemma RecycleWhich(m: Pointers, kids: Kids, p: Pcb, k: nat, q: Pcb, j: nat)
    requires Tree(m, kids) && p in kids && k < |kids[p]| && q in kids && j < |kids[q]|
    ensures kids[q][j] == kids[p][k] <==> q == p && j == k
    ensures kids[q][j] == At(kids[p], k - 1) <==> q == p && j == k - 1
    ensures kids[q][j] == At(kids[p], k + 1) <==> q == p && j == k + 1
  {
    ListsApart(m, kids, q, p, j, k);
    if k > 0 {
      ListsApart(m, kids, q, p, j, k - 1);
    }
    if k + 1 < |kids[p]| {
      ListsApart(m, kids, q, p, j, k + 1);
    }
  }

  lemma RecycleSits(m: Pointers, kids: Kids, p: Pcb, k: nat, child: Pcb, q: Pcb, j: nat, list: seq<Pcb>)
    requires Tree(m, kids) && p in kids && k < |kids[p]| && child == kids[p][k] && child in kids && kids[child] == []
    requires q in kids && j < |kids[q]| && !(q == p && j == k)
    requires list == if q == p then Without(kids[p], k) else kids[q]
    ensures Sits(Recycle(m, child), q, list, if q == p && j > k then j - 1 else j)
  {
    LeafPointers(m, kids, p, k);
    ChildrenIn(m, kids, q, j);
    RecycleWhich(m, kids, p, k, q, j);
    RecycleFields(m, child, p, At(kids[p], k - 1), At(kids[p], k + 1), kids[q][j]);
  }

  lemma WithoutDistinct(list: seq<Pcb>, k: nat)
    requires Distinct(list) && k < |list|
    ensures Distinct(Without(list, k))
  {
    forall i, j | 0 <= i < j < |list| - 1 ensures Without(list, k)[i] != Without(list, k)[j] {
      WithoutAt(list, k, i);
      WithoutAt(list, k, j);
    }
  }

  lemma RecycleHead(m: Pointers, kids: Kids, p: Pcb, k: nat, child: Pcb, q: Pcb, list: seq<Pcb>)
    requires Tree(m, kids) && p in kids && k < |kids[p]| && child == kids[p][k] && child in kids && kids[child] == []
    requires q in kids && q != child && list == if q == p then Without(kids[p], k) else kids[q]
    ensures q in Recycle(m, child) && Recycle(m, child)[q].cptr == At(list, 0) && Distinct(list)
  {
    assert Links(m, q, kids[q]);
    LeafPointers(m, kids, p, k);
    RecycleFields(m, child, p, At(kids[p], k - 1), At(kids[p], k + 1), q);
    if q == p {
      WithoutDistinct(kids[p], k);
    }
  }

  lemma RecycleLinks(m: Pointers, kids: Kids, p: Pcb, k: nat, child: Pcb, q: Pcb, list: seq<Pcb>)
    requires Tree(m, kids) && p in kids && k < |kids[p]| && child == kids[p][k] && child in kids && kids[child] == []
    requires q in kids && q != child && list == if q == p then Without(kids[p], k) else kids[q]
    ensures Links(Recycle(m, child), q, list)
  {
    RecycleHead(m, kids, p, k, child, q, list);
    forall i | 0 <= i < |list| ensures Sits(Recycle(m, child), q, list, i) {
      RecycleSits(m, kids, p, k, child, q, if q == p && i >= k then i + 1 else i, list);
    }
  }

  /** Recycling a process without children keeps the tree and takes it out of its parent's list. */
  lemma RecycleKeeps(m: Pointers, kids: Kids, p: Pcb, k: nat)
    requires Tree(m, kids) && p in kids && k < |kids[p]| && kids[p][k] in kids && kids[kids[p][k]] == []
    ensures Tree(Recycle(m, kids[p][k]), Recycled(kids, p, k))
  {
    var child := kids[p][k];
    var m', next := Recycle(m, child), Recycled(kids, p, k);
    LeafPointers(m, kids, p, k);
    RecycleFields(m, child, p, At(kids[p], k - 1), At(kids[p], k + 1), p);
    forall q | q in next ensures Links(m', q, next[q]) {
      RecycleLinks(m, kids, p, k, child, q, next[q]);
    }
    forall c | c in next && m'[c].parent != null ensures m'[c].parent in next && c in next[m'[c].parent] {
      RecycleFields(m, child, p, At(kids[p], k - 1), At(kids[p], k + 1), c);
      var q := m[c].parent;
      var j :| 0 <= j < |kids[q]| && kids[q][j] == c;
      if q == p {
        WithoutAt(kids[p], k, if j > k then j - 1 else j);
      }
    }
  }

  // ---------------------------------------------------------------------
  // In place
  // ---------------------------------------------------------------------

  /** p->cptr = x, which goes nowhere when p is null. */
  method PutCptr(procs: set<Pcb>, p: Pcb?, x: Pcb?)
    requires p != null ==> p in procs
    modifies procs
    ensures Snapshot(procs) == SetCptr(old(Snapshot(procs)), p, x)
  {
    if p != null {
      p.cptr := x;
    }
  }

  method PutYptr(procs: set<Pcb>, p: Pcb?, x: Pcb?)
    requires p != null ==> p in procs
    modifies procs
    ensures Snapshot(procs) == SetYptr(old(Snapshot(procs)), p, x)
  {
    if p != null {
      p.yptr := x;
    }
  }

  method PutOptr(procs: set<Pcb>, p: Pcb?, x: Pcb?)
    requires p != null ==> p in procs
    modifies procs
    ensures Snapshot(procs) == SetOptr(old(Snapshot(procs)), p, x)
  {
    if p != null {
      p.optr := x;
    }
  }

  method PutParent(procs: set<Pcb>, p: Pcb?, x: Pcb?)
    requires p != null ==> p in procs
    modifies procs
    ensures Snapshot(procs) == SetParent(old(Snapshot(procs)), p, x)
  {
    if p != null {
      p.parent := x;
    }
  }

  /** The link part of do_fork. */
  method ForkInPlace(current: Pcb, procs: set<Pcb>, ghost kids: Kids) returns (pcb: Pcb)
    requires Tree(Snapshot(procs), kids) && current in procs
    modifies procs
    ensures fresh(pcb)
    ensures Snapshot(procs + {pcb}) == Fork(old(Snapshot(procs)), current, pcb)
    ensures Tree(Snapshot(procs + {pcb}), Forked(kids, current, pcb))
  {
    ghost var m := Snapshot(procs);
    pcb := NewChild(current, procs);
    ForkKeeps(m, kids, current, pcb);
    HeadIn(m, kids, current);
    LinkChild(current, pcb, procs + {pcb}, m);
  }

  lemma HeadIn(m: Pointers, kids: Kids, p: Pcb)
    requires Tree(m, kids) && p in kids
    ensures m[p].cptr != null ==> m[p].cptr in m
  {
    assert Links(m, p, kids[p]);
    if kids[p] != [] {
      ChildrenIn(m, kids, p, 0);
    }
  }

  method NewChild(current: Pcb, procs: set<Pcb>) returns (pcb: Pcb)
    requires current in procs
    ensures fresh(pcb) && pcb.cptr == null && pcb.yptr == null && pcb.optr == null
    ensures pcb.parent == current && Snapshot(procs) == old(Snapshot(procs))
  {
    pcb := new Pcb();
    pcb.parent := current;
  }

  method LinkChild(current: Pcb, pcb: Pcb, procs: set<Pcb>, ghost m: Pointers)
    requires current in m && pcb !in m && procs == m.Keys + {pcb}
    requires Snapshot(procs - {pcb}) == m && (m[current].cptr != null ==> m[current].cptr in m)
    requires pcb.parent == current && pcb.cptr == null && pcb.yptr == null && pcb.optr == null
    modifies procs
    ensures Snapshot(procs) == Fork(m, current, pcb)
  {
    assert m[current] == Family(current.parent, current.cptr, current.yptr, current.optr);
    ghost var first := current.cptr;
    PutOptr(procs, pcb, pcb.parent.cptr);
    assert Snapshot(procs) == m[pcb := Family(current, null, null, first)];
    PutCptr(procs, current, pcb);
    assert Snapshot(procs)[pcb].optr == first;
    PutYptr(procs, pcb.optr, pcb);
  }

  /** x is a child neither of d nor of init. */
  predicate Aside(kids: Kids, d: Pcb, init: Pcb, x: Pcb)
    requires d in kids && init in kids
  {
    x !in kids[d] && x !in kids[init]
  }

  /** The children of d and init now are among those before. */
  predicate NoOthers(kids: Kids, now: Kids, d: Pcb, init: Pcb)
    requires d in kids && init in kids && d in now && init in now
  {
    forall x :: x in now[d] + now[init] ==> x in kids[d] || x in kids[init]
  }

  lemma NoOthersCompose(kids: Kids, now: Kids, next: Kids, d: Pcb, init: Pcb)
    requires d in kids && init in kids && d in now && init in now && d in next && init in next
    requires NoOthers(kids, now, d, init) && NoOthers(now, next, d, init)
    ensures NoOthers(kids, next, d, init)
  {
  }

  /** Sibling and parent pointers changed at children of d and init only, cptr at d and init only. */
  ghost predicate RestKept(m: Pointers, m': Pointers, kids: Kids, d: Pcb, init: Pcb)
    requires d in kids && init in kids
  {
    && m'.Keys == m.Keys
    && (forall x {:trigger m'[x]} :: x in m && Aside(kids, d, init, x) ==>
          m'[x].parent == m[x].parent && m'[x].yptr == m[x].yptr && m'[x].optr == m[x].optr)
    && forall x {:trigger m'[x]} :: x in m && x != d && x != init ==> m'[x].cptr == m[x].cptr
  }

  lemma AdoptRest(m: Pointers, kids: Kids, d: Pcb, init: Pcb)
    requires Tree(m, kids) && d in kids && init in kids && d != init && kids[d] != []
    requires kids[d][0] in m && m[d].cptr == kids[d][0]
    ensures RestKept(m, Adopt(m, d, init), kids, d, init)
    ensures NoOthers(kids, MovedOne(kids, d, init), d, init)
  {
    AdoptApart(m, kids, d, init);
    var child, older, first := kids[d][0], At(kids[d], 1), At(kids[init], 0);
    AdoptFields(m, d, init, child, older, first, d);
    forall x | x in m
      ensures Aside(kids, d, init, x) ==>
                var m' := Adopt(m, d, init);
                m'[x].parent == m[x].parent && m'[x].yptr == m[x].yptr && m'[x].optr == m[x].optr
      ensures x != d && x != init ==> Adopt(m, d, init)[x].cptr == m[x].cptr
    {
      AdoptFields(m, d, init, child, older, first, x);
    }
  }

  lemma RestCompose(m: Pointers, m1: Pointers, m': Pointers, kids: Kids, now: Kids, d: Pcb, init: Pcb)
    requires d in kids && init in kids && d in now && init in now
    requires RestKept(m, m1, kids, d, init) && RestKept(m1, m', now, d, init)
    requires NoOthers(kids, now, d, init)
    ensures RestKept(m, m', kids, d, init)
  {
  }

  /** Where the loop stands: now is what kids has become so far. */
  ghost predicate Halfway(start: Pointers, m: Pointers, kids: Kids, now: Kids, d: Pcb, init: Pcb) {
    && d in kids && init in kids && d in now && init in now && d != init
    && Tree(m, now) && (m[d].cptr == null <==> now[d] == [])
    && MovedAll(now, d, init) == MovedAll(kids, d, init)
    && RestKept(start, m, kids, d, init)
    && NoOthers(kids, now, d, init)
  }

  lemma OneTurn(start: Pointers, m: Pointers, m': Pointers, kids: Kids, now: Kids, d: Pcb, init: Pcb)
    requires Halfway(start, m, kids, now, d, init) && now[d] != []
    requires m[d].cptr != null && m[d].cptr in m && m' == Adopt(m, d, init)
    ensures Halfway(start, m', kids, MovedOne(now, d, init), d, init)
  {
    AdoptApart(m, now, d, init);
    AdoptKeeps(m, now, d, init);
    AdoptRest(m, now, d, init);
    MoveOneThenAll(now, d, init);
    RestCompose(start, m, m', kids, now, d, init);
    NoOthersCompose(kids, now, MovedOne(now, d, init), d, init);
    NoChildren(m', MovedOne(now, d, init), d);
  }

  /**
    send_chld_to_init: the children of current, in reverse order, come before those of
    init, and no other pointer changes.
   */
  method SendChildrenToInit(current: Pcb, init: Pcb, procs: set<Pcb>, ghost kids: Kids)
    requires Tree(Snapshot(procs), kids) && current in procs && init in procs && current != init
    modifies procs
    ensures Tree(Snapshot(procs), MovedAll(kids, current, init))
    ensures RestKept(old(Snapshot(procs)), Snapshot(procs), kids, current, init)
  {
    ghost var now: Kids, start: Pointers := kids, Snapshot(procs);
    NoChildren(Snapshot(procs), now, current);
    while current.cptr != null
      invariant Halfway(start, Snapshot(procs), kids, now, current, init)
      decreases |now[current]|
    {
      ghost var m := Snapshot(procs);
      assert m[current].cptr == current.cptr;
      AdoptApart(m, now, current, init);
      AdoptInPlace(current, init, procs, m);
      OneTurn(start, m, Snapshot(procs), kids, now, current, init);
      now := MovedOne(now, current, init);
    }
    assert Snapshot(procs)[current].cptr == null;
    NothingMoves(now, current, init);
  }

  lemma NoChildren(m: Pointers, kids: Kids, p: Pcb)
    requires Tree(m, kids) && p in kids
    ensures m[p].cptr == null <==> kids[p] == []
  {
    assert Links(m, p, kids[p]);
  }

  lemma NothingMoves(kids: Kids, d: Pcb, init: Pcb)
    requires d in kids && init in kids && d != init && kids[d] == []
    ensures MovedAll(kids, d, init) == kids
  {
    assert Reverse(kids[d]) + kids[init] == kids[init];
  }

  /** The body of that loop. */
  method AdoptInPlace(current: Pcb, init: Pcb, procs: set<Pcb>, ghost m: Pointers)
    requires current in procs && init in procs && current != init && Snapshot(procs) == m
    requires current.cptr != null && current.cptr in procs
    requires current.cptr.optr != null ==> current.cptr.optr in procs
    requires init.cptr != null ==> init.cptr in procs
    modifies procs
    ensures Snapshot(procs) == Adopt(m, current, init)
  {
    var child := current.cptr;
    ghost var older, first := child.optr, init.cptr;
    DetachInPlace(current, child, procs, m);
    assert Snapshot(procs)[init].cptr == first by {
      DetachFields(m, current, child, older, init);
    }
    AttachInPlace(init, child, procs, Snapshot(procs));
  }

  method DetachInPlace(current: Pcb, child: Pcb, procs: set<Pcb>, ghost m: Pointers)
    requires current in procs && child in procs && Snapshot(procs) == m
    requires child.optr != null ==> child.optr in procs
    modifies procs
    ensures Snapshot(procs) == Detach(m, current, child, old(child.optr))
  {
    ghost var older := child.optr;
    PutCptr(procs, current, child.optr);
    PutYptr(procs, child, null);
    assert Snapshot(procs)[child].optr == older;
    PutYptr(procs, child.optr, null);
  }

  method AttachInPlace(init: Pcb, child: Pcb, procs: set<Pcb>, ghost m: Pointers)
    requires init in procs && child in procs && Snapshot(procs) == m
    requires init.cptr != null ==> init.cptr in procs
    modifies procs
    ensures Snapshot(procs) == Attach(m, init, child, old(init.cptr))
  {
    ghost var first := init.cptr;
    PutOptr(procs, child, init.cptr);
    assert Snapshot(procs)[init].cptr == first;
    PutYptr(procs, init.cptr, child);
    PutCptr(procs, init, child);
    PutParent(procs, child, init);
  }

  /** The link part of recycle_child, for the k-th child of its parent. */
  method RecycleChild(child: Pcb, procs: set<Pcb>, ghost kids: Kids, ghost p: Pcb, ghost k: nat)
    requires Tree(Snapshot(procs), kids) && child in procs
    requires p in kids && k < |kids[p]| && kids[p][k] == child && kids[child] == []
    modifies procs
    ensures Snapshot(procs - {child}) == Recycle(old(Snapshot(procs)), child)
    ensures Tree(Snapshot(procs - {child}), Recycled(kids, p, k))
  {
    ghost var m := Snapshot(procs);
    LeafPointers(m, kids, p, k);
    RecycleKeeps(m, kids, p, k);
    Unlink(child, procs, m);
    assert Snapshot(procs - {child}) == Snapshot(procs) - {child};
  }

  method Unlink(child: Pcb, procs: set<Pcb>, ghost m: Pointers)
    requires child in procs && child.parent != null && child.parent in procs && Snapshot(procs) == m
    requires (child.yptr != null ==> child.yptr in procs) && (child.optr != null ==> child.optr in procs)
    requires child.yptr != child && child.parent != child
    modifies procs
    ensures Snapshot(procs) - {child} == Recycle(m, child)
  {
    ghost var c := m[child];
    if child.yptr != null {
      PutOptr(procs, child.yptr, child.optr);
    } else {
      PutCptr(procs, child.parent, child.optr);
    }
    assert Snapshot(procs)[child] == c;
    PutYptr(procs, child.optr, child.yptr);
  }
}

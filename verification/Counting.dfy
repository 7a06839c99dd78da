/** Counting the marked positions of a sequence, and how a count changes when one mark changes. */
module Counting {

  function Bit(b: bool): nat { if b then 1 else 0 }

  function Pos(v: int): nat { if v > 0 then v else 0 }

  function Marked(marks: seq<bool>): nat {
    if marks == [] then 0 else Marked(marks[..|marks| - 1]) + Bit(marks[|marks| - 1])
  }

  lemma {:induction false} MarkedUpdate(marks: seq<bool>, i: nat, b: bool)
    requires i < |marks|
    ensures Marked(marks[i := b]) == Marked(marks) - Bit(marks[i]) + Bit(b)
    ensures Marked(marks) >= Bit(marks[i])
  {
    var last := |marks| - 1;
    if i == last {
      assert marks[i := b][..last] == marks[..last];
    } else {
      assert marks[i := b][..last] == marks[..last][i := b];
      MarkedUpdate(marks[..last], i, b);
    }
  }

  lemma {:induction false} MarkedNone(marks: seq<bool>)
    requires forall i :: 0 <= i < |marks| ==> !marks[i]
    ensures Marked(marks) == 0
  {
    if marks != [] {
      MarkedNone(marks[..|marks| - 1]);
    }
  }

  lemma {:induction false} MarkedAtMost(marks: seq<bool>, bounds: seq<bool>)
    requires |marks| == |bounds|
    requires forall i :: 0 <= i < |marks| && marks[i] ==> bounds[i]
    ensures Marked(marks) <= Marked(bounds)
  {
    if marks != [] {
      MarkedAtMost(marks[..|marks| - 1], bounds[..|bounds| - 1]);
    }
  }

  lemma {:induction false} MarkedSplit(all: seq<bool>, part: seq<bool>, rest: seq<bool>)
    requires |all| == |part| == |rest|
    requires forall i :: 0 <= i < |all| ==> Bit(all[i]) == Bit(part[i]) + Bit(rest[i])
    ensures Marked(all) == Marked(part) + Marked(rest)
  {
    if all != [] {
      MarkedSplit(all[..|all| - 1], part[..|part| - 1], rest[..|rest| - 1]);
    }
  }
}

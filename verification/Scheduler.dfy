/**
  The round-robin choice of schedule (schedule/process/sched.c): from the current
  process around the circular process list to the next runnable one.
 */
module Scheduler {

  datatype ProcState = Ready | Sleeping | Runnable | Zombie

  /** Positions on the ring: 0 is the list head, 1 to n the processes; idle, not on the list, starts from 0. */
  function Succ(n: nat, pos: nat): nat {
    if pos >= n then 0 else pos + 1
  }

  /** Steps from a to b around the ring. */
  function Distance(n: nat, a: nat, b: nat): int
    requires a <= n && b <= n
  {
    if b >= a then b - a else b - a + n + 1
  }

  predicate CanRun(states: seq<ProcState>, pos: nat) {
    1 <= pos < |states| && states[pos] == Runnable
  }

  /**
    r is the process schedule switches to when `from` is running: the first runnable one
    after `from`, never `from` itself; idle (0) exactly when there is none.
   */
  ghost predicate IsChoice(states: seq<ProcState>, from: nat, r: nat)
    requires from < |states|
  {
    var n := |states| - 1;
    && r < |states|
    && (r == 0 ==> forall pos: nat :: CanRun(states, pos) ==> pos == from)
    && (r != 0 ==> CanRun(states, r) && r != from &&
                   forall pos: nat :: CanRun(states, pos) && pos != from ==>
                     Distance(n, from, r) <= Distance(n, from, pos))
  }

  /** The choice is determined. */
  lemma ChoiceUnique(states: seq<ProcState>, from: nat, r: nat, r': nat)
    requires from < |states| && IsChoice(states, from, r) && IsChoice(states, from, r')
    ensures r == r'
  {
    if r != 0 && r' != 0 {
      assert Distance(|states| - 1, from, r) <= Distance(|states| - 1, from, r');
    }
  }

  /**
    In terms of places in the list: going up from the running process and round past the
    list head, no process before the chosen one is runnable; and idle is chosen when none
    but the running process itself is.
   */
  lemma ChoiceByPosition(states: seq<ProcState>, from: nat, r: nat)
    requires from < |states| && r < |states|
    ensures IsChoice(states, from, r) <==>
            if r == 0 then forall pos :: 1 <= pos < |states| && pos != from ==> states[pos] != Runnable
            else
              && r != from && states[r] == Runnable
              && (forall pos :: from < pos < r ==> states[pos] != Runnable)
              && (r < from ==> forall pos :: 1 <= pos < r || from < pos < |states| ==> states[pos] != Runnable)
  {
    assert forall pos: nat :: 1 <= pos < |states| && states[pos] == Runnable ==> CanRun(states, pos);
  }

  /** While q waits and is runnable, every choice is q or comes strictly closer to q. */
  lemma ChoiceComesCloser(states: seq<ProcState>, from: nat, r: nat, q: nat)
    requires from < |states| && IsChoice(states, from, r)
    requires CanRun(states, q) && q != from
    ensures r == q || Distance(|states| - 1, r, q) < Distance(|states| - 1, from, q)
    ensures r != 0
  {
    assert r == 0 ==> q == from;
    assert Distance(|states| - 1, from, r) <= Distance(|states| - 1, from, q);
  }

  /** A history of schedule calls: the states may change arbitrarily between calls, the list does not. */
  ghost predicate IsHistory(n: nat, states: seq<seq<ProcState>>, currents: seq<nat>) {
    && |currents| == |states| + 1
    && currents[0] <= n
    && forall i {:trigger states[i]} :: 0 <= i < |states| ==>
         |states[i]| == n + 1 && currents[i] <= n && IsChoice(states[i], currents[i], currents[i + 1])
  }

  /** Until q is chosen, its distance from the current process falls with every call. */
  lemma {:induction false} DistanceFalls(n: nat, states: seq<seq<ProcState>>, currents: seq<nat>, q: nat, m: nat)
    requires IsHistory(n, states, currents) && 1 <= q <= n && m <= |states|
    requires forall i :: 0 <= i < |states| ==> CanRun(states[i], q)
    requires forall i :: 0 <= i <= m ==> currents[i] != q
    ensures currents[m] <= n && 1 <= Distance(n, currents[m], q) <= Distance(n, currents[0], q) - m
  {
    if m > 0 {
      DistanceFalls(n, states, currents, q, m - 1);
      assert |states[m - 1]| == n + 1;
      ChoiceComesCloser(states[m - 1], currents[m - 1], currents[m], q);
    }
  }

  /** Bounded bypass: with n processes, one that stays runnable is chosen within n calls of schedule. */
  lemma BoundedBypass(n: nat, states: seq<seq<ProcState>>, currents: seq<nat>, q: nat)
    requires IsHistory(n, states, currents) && 1 <= q <= n && |states| == n
    requires currents[0] != q
    requires forall i :: 0 <= i < |states| ==> CanRun(states[i], q)
    ensures exists i :: 1 <= i <= n && currents[i] == q
  {
    if forall i :: 1 <= i <= n ==> currents[i] != q {
      DistanceFalls(n, states, currents, q, n);
    }
  }

  /** current, idle and proc_list; the code before the first process exists sees current == NULL. */
  class Cpu {
    const ring: array<ProcState>   // ring[0] stands for the list head
    var current: nat               // 0 is idle
    var started: bool              // current != NULL
    var intr: bool                 // the interrupt flag

    predicate Valid()
      reads this
    {
      ring.Length > 0 && current < ring.Length
    }

    constructor (n: nat)
      ensures Valid() && ring.Length == n + 1 && fresh(ring) && current == 0 && started
    {
      ring := new ProcState[n + 1](_ => Ready);
      current := 0;
      started := true;
      intr := true;
    }

    /**
      schedule up to the switch.  When no process exists yet the early return skips
      atom_enable_intr, so IF is restored exactly when a process exists or IF was off.
     */
    method Schedule()
      requires Valid()
      modifies this
      ensures Valid() && started == old(started)
      ensures started ==> IsChoice(ring[..], old(current), current)
      ensures !started ==> current == old(current)
      ensures intr == old(intr) <==> started || !old(intr)
    {
      var flag := intr;
      intr := false;
      if !started {
        return;
      }
      var n := ring.Length - 1;
      var begin := current;
      var next: nat := Succ(n, begin);
      var target: nat := 0;             // target_pcb, 0 for NULL
      while next != begin
        invariant next <= n && target <= n
        invariant forall pos: nat :: CanRun(ring[..], pos) && pos != begin ==>
                    next != begin && Distance(n, begin, next) <= Distance(n, begin, pos)
        invariant target != 0 ==> !CanRun(ring[..], target)
        decreases Distance(n, next, begin)
      {
        if next != 0 {
          target := next;
          if ring[target] == Runnable {
            break;
          }
        }
        next := Succ(n, next);
      }
      if target != 0 && ring[target] == Runnable {
        current := target;
      } else {
        current := 0;
      }
      intr := flag;
    }
  }
}

/**
  What preemption can do: a timer tick can hand the processor to any other runnable
  process, and a process switched back to goes on where it was interrupted.
 */
module Switches {
  import opened Runs
  import opened Semaphores
  import opened Interrupts

  /** Acts in turn from any state that satisfies the invariant. */
  ghost predicate IsPath(acts: seq<Act>, states: seq<State>) {
    && |states| == |acts| + 1
    && Inv(states[0])
    && forall i, j {:trigger Leads(states[i], acts[i], states[j])} :: 0 <= i < |acts| && j == i + 1 ==>
         Leads(states[i], acts[i], states[j])
  }

  /** The second path goes on where the first ends, with next statements only that commit no P or V. */
  ghost predicate GoesOn(acts: seq<Act>, states: seq<State>, acts': seq<Act>, states': seq<State>) {
    && IsPath(acts', states') && Inv(Last(states')) && acts <= acts' && states <= states' && states != []
    && |Last(states').stacks| == |Last(states).stacks| && Last(states').k == Last(states).k
    && forall i :: |acts| <= i < |acts'| ==>
         acts'[i].Go? && CanAct(states'[i], acts'[i]) && Commits(states'[i], acts'[i]) == None
  }

  lemma Advance(acts: seq<Act>, states: seq<State>, a: Act) returns (acts': seq<Act>, states': seq<State>)
    requires IsPath(acts, states) && Inv(Last(states)) && CanAct(Last(states), a)
    ensures acts' == acts + [a] && states' == states + [Interrupts.Do(Last(states), a)]
    ensures IsPath(acts', states') && Inv(Last(states'))
  {
    acts', states' := acts + [a], states + [Interrupts.Do(Last(states), a)];
    forall i, j {:trigger Leads(states'[i], acts'[i], states'[j])} | 0 <= i < |acts'| && j == i + 1
      ensures Leads(states'[i], acts'[i], states'[j])
    {
      assert i < |acts| ==> Leads(states[i], acts[i], states[j]);
    }
    ActKeepsInv(Last(states), a);
  }

  /** One more statement that commits nothing and leaves the semaphores alone. */
  lemma GoOn(acts0: seq<Act>, states0: seq<State>, acts: seq<Act>, states: seq<State>, q: nat)
    returns (acts': seq<Act>, states': seq<State>)
    requires GoesOn(acts0, states0, acts, states) && CanAct(Last(states), Go(q))
    requires Commits(Last(states), Go(q)) == None && Interrupts.Do(Last(states), Go(q)).k == Last(states).k
    ensures GoesOn(acts0, states0, acts', states') && Last(states') == Interrupts.Do(Last(states), Go(q))
  {
    acts', states' := Advance(acts, states, Go(q));
    ActKeepsShape(Last(states), Go(q));
  }

  // ---------------------------------------------------------------------
  // Away from a process
  // ---------------------------------------------------------------------

  /** p is held with at least its stack of before; q runs, from its first statement or where it was held itself. */
  ghost predicate Switched(f: State, f': State, p: nat, q: nat) {
    && |f'.stacks| == |f.stacks| && p < |f.stacks| && q < |f.stacks|
    && f'.current == q && f'.k == f.k
    && f.stacks[p] < f'.stacks[p] && SuspendedInSched(Top(f'.stacks[p]))
    && (if f.stacks[q] == [FStart] then f'.stacks[q] == [] && f'.intr
        else f'.stacks[q] == f.stacks[q] && !f'.intr)
    && forall r :: 0 <= r < |f.stacks| && r != p && r != q ==> f'.stacks[r] == f.stacks[r]
  }

  predicate CanRun(f: State, q: nat) {
    q < |f.stacks| == |f.k.tasks| && q != f.current && f.k.tasks[q] == Runnable
  }

  /** schedule, once entered, can switch to any other runnable process. */
  lemma ScheduleSwitches(acts0: seq<Act>, states0: seq<State>, acts: seq<Act>, states: seq<State>, q: nat)
    returns (acts': seq<Act>, states': seq<State>)
    requires GoesOn(acts0, states0, acts, states) && CanRun(Last(states), q)
    requires Running(Last(states)) != [] && Top(Running(Last(states))).FSched? && Top(Running(Last(states))).c == SDisable
    ensures GoesOn(acts0, states0, acts', states')
    ensures var f, f' := Last(states), Last(states');
            && f'.current == q
            && f'.stacks[f.current] == Rest(Running(f)) + [FSched(Top(Running(f)).flag, SEnable)]
            && (if f.stacks[q] == [FStart] then f'.stacks[q] == [] && f'.intr
                else f'.stacks[q] == f.stacks[q] && !f'.intr)
            && forall r :: 0 <= r < |f.stacks| && r != f.current && r != q ==> f'.stacks[r] == f.stacks[r]
  {
    acts', states' := GoOn(acts0, states0, acts, states, 0);
    acts', states' := GoOn(acts0, states0, acts', states', q);
  }

  lemma YieldPath(acts: seq<Act>, states: seq<State>, q: nat)
    returns (acts': seq<Act>, states': seq<State>)
    requires IsPath(acts, states) && Inv(Last(states)) && CanAct(Last(states), CallSched) && CanRun(Last(states), q)
    ensures GoesOn(acts + [CallSched], states + [Interrupts.Do(Last(states), CallSched)], acts', states')
    ensures Switched(Last(states), Last(states'), Last(states).current, q)
    ensures |Last(states').stacks[Last(states).current]| == 1
  {
    acts', states' := Advance(acts, states, CallSched);
    acts', states' := ScheduleSwitches(acts', states', acts', states', q);
  }

  lemma TickPath(acts: seq<Act>, states: seq<State>, q: nat)
    returns (acts': seq<Act>, states': seq<State>)
    requires IsPath(acts, states) && Inv(Last(states)) && CanAct(Last(states), Tick) && CanRun(Last(states), q)
    ensures GoesOn(acts + [Tick], states + [Interrupts.Do(Last(states), Tick)], acts', states')
    ensures Switched(Last(states), Last(states'), Last(states).current, q)
    ensures var st, st' := Running(Last(states)), Last(states').stacks[Last(states).current];
            |st'| == |st| + 2 && st'[|st|].FTimer?
  {
    var acts1, states1 := Advance(acts, states, Tick);
    acts', states' := GoOn(acts1, states1, acts1, states1, 0);
    acts', states' := ScheduleSwitches(acts1, states1, acts', states', q);
  }

  // ---------------------------------------------------------------------
  // Back to a process
  // ---------------------------------------------------------------------

  lemma ResumePath(acts0: seq<Act>, states0: seq<State>, acts: seq<Act>, states: seq<State>)
    returns (acts': seq<Act>, states': seq<State>)
    requires GoesOn(acts0, states0, acts, states)
    requires Running(Last(states)) != [] && SuspendedInSched(Top(Running(Last(states))))
    ensures GoesOn(acts0, states0, acts', states')
    ensures var f, f', st := Last(states), Last(states'), Running(Last(states));
            var n := if |st| >= 2 then |st| - 2 else 0;
            && f'.current == f.current
            && f'.stacks[f.current] == st[..n] && f'.intr == EntryIntr(st[n])
            && forall r :: 0 <= r < |f.stacks| && r != f.current ==> f'.stacks[r] == f.stacks[r]
  {
    var st := Running(Last(states));
    ChainRest(st);
    acts', states' := GoOn(acts0, states0, acts, states, 0);
    if |st| >= 2 {
      assert Stands(st[|st| - 2], st[|st| - 1]);
      assert Rest(st) == st[..|st| - 1] && Rest(Rest(st)) == st[..|st| - 2];
      acts', states' := GoOn(acts0, states0, acts', states', 0);
    }
  }

  // ---------------------------------------------------------------------
  // In runs
  // ---------------------------------------------------------------------

  /** The second run goes on where the first ends. */
  ghost predicate Continues(acts: seq<Act>, states: seq<State>, acts': seq<Act>, states': seq<State>) {
    Interrupts.IsRun(acts', states') && acts <= acts' && states <= states'
  }

  /** From step n on the running activation just takes its next statements. */
  predicate OnlyGoes(acts: seq<Act>, n: nat) {
    forall i :: n <= i < |acts| ==> acts[i].Go?
  }

  lemma RunIsPath(acts: seq<Act>, states: seq<State>)
    requires Interrupts.IsRun(acts, states)
    ensures IsPath(acts, states) && Inv(Last(states))
  {
    InitInv(states[0]);
    InvInEveryRun(acts, states, |acts|);
  }

  /**
    Preemption: wherever IF is on, and for every other runnable process q, there is
    a way on from a tick, of nothing but next statements, to a state in which q runs and the
    interrupted process is held with the interrupt on top of its stack.
   */
  lemma TickSwitches(acts: seq<Act>, states: seq<State>, q: nat)
    returns (acts': seq<Act>, states': seq<State>)
    requires Interrupts.IsRun(acts, states) && Last(states).intr
    requires q < |Last(states).k.tasks| && q != Last(states).current && Last(states).k.tasks[q] == Runnable
    ensures Continues(acts, states, acts', states') && acts + [Tick] <= acts' && OnlyGoes(acts', |acts| + 1)
    ensures Switched(Last(states), Last(states'), Last(states).current, q)
    ensures var st, st' := Running(Last(states)), Last(states').stacks[Last(states).current];
            |st'| == |st| + 2 && st'[..|st|] == st && st'[|st|].FTimer?
  {
    RunIsPath(acts, states);
    acts', states' := TickPath(acts, states, q);
  }

  /** A process that calls schedule in its own code can be followed by any other runnable one. */
  lemma YieldSwitches(acts: seq<Act>, states: seq<State>, q: nat)
    returns (acts': seq<Act>, states': seq<State>)
    requires Interrupts.IsRun(acts, states) && Last(states).current < |Last(states).stacks|
    requires Running(Last(states)) == []
    requires q < |Last(states).k.tasks| && q != Last(states).current && Last(states).k.tasks[q] == Runnable
    ensures Continues(acts, states, acts', states') && acts + [CallSched] <= acts' && OnlyGoes(acts', |acts| + 1)
    ensures Switched(Last(states), Last(states'), Last(states).current, q)
  {
    RunIsPath(acts, states);
    acts', states' := YieldPath(acts, states, q);
  }

  /**
    And the way back: a process that runs again after it was held comes out of schedule,
    and out of the interrupt or the P that called it, with IF as it was when that began.
   */
  lemma Resumes(acts: seq<Act>, states: seq<State>)
    returns (acts': seq<Act>, states': seq<State>)
    requires Interrupts.IsRun(acts, states) && Inv(Last(states))
    requires Running(Last(states)) != [] && SuspendedInSched(Top(Running(Last(states))))
    ensures Continues(acts, states, acts', states') && OnlyGoes(acts', |acts|)
    ensures var f, f', st := Last(states), Last(states'), Running(Last(states));
            var n := if |st| >= 2 then |st| - 2 else 0;
            && f'.current == f.current && f'.k == f.k && |f'.stacks| == |f.stacks|
            && f'.stacks[f.current] == st[..n] && f'.intr == EntryIntr(st[n])
            && forall r :: 0 <= r < |f.stacks| && r != f.current ==> f'.stacks[r] == f.stacks[r]
  {
    RunIsPath(acts, states);
    acts', states' := ResumePath(acts, states, acts, states);
  }

  /** Outside of any call with IF off, or inside a V called so. */
  predicate Masked(f: State, p: nat) {
    && f.current == p && p < |f.stacks| && !f.intr
    && (f.stacks[p] == [] || (|f.stacks[p]| == 1 && f.stacks[p][0].FV? && !f.stacks[p][0].flag))
  }

  /**
    cli in a process's own code keeps the timer and every other process away until it
    executes sti, or calls something that may switch: P or schedule. V may be called.
   */
  lemma {:induction false} CliMasks(acts: seq<Act>, states: seq<State>, i: nat, j: nat)
    requires Interrupts.IsRun(acts, states) && i < j <= |acts| && acts[i] == Cli
    requires forall k :: i < k < j ==> acts[k] != Sti && acts[k] != CallSched && !acts[k].CallP?
    ensures states[j].current == states[i].current && !CanAct(states[j], Tick)
    ensures Masked(states[j], states[i].current)
  {
    assert Leads(states[j - 1], acts[j - 1], states[j]);
    if i < j - 1 {
      CliMasks(acts, states, i, j - 1);
    }
  }

  /** After sti a tick can come at once, and with it any other runnable process. */
  lemma StiLetsSwitch(acts: seq<Act>, states: seq<State>, q: nat)
    returns (acts': seq<Act>, states': seq<State>)
    requires Interrupts.IsRun(acts, states) && acts != [] && acts[|acts| - 1] == Sti
    requires q < |Last(states).k.tasks| && q != Last(states).current && Last(states).k.tasks[q] == Runnable
    ensures Continues(acts, states, acts', states') && acts + [Tick] <= acts' && OnlyGoes(acts', |acts| + 1)
    ensures Switched(Last(states), Last(states'), Last(states).current, q)
  {
    var i, j := |acts| - 1, |acts|;
    assert Leads(states[i], acts[i], states[j]);
    acts', states' := TickSwitches(acts, states, q);
  }

  /** A process in its own code can turn IF off and on again, and then be preempted. */
  lemma MaskAndUnmask(acts: seq<Act>, states: seq<State>, q: nat)
    returns (acts': seq<Act>, states': seq<State>)
    requires Interrupts.IsRun(acts, states)
    requires Last(states).current < |Last(states).stacks| && Running(Last(states)) == []
    requires q < |Last(states).k.tasks| && q != Last(states).current && Last(states).k.tasks[q] == Runnable
    ensures Continues(acts, states, acts', states') && acts + [Cli, Sti, Tick] <= acts'
    ensures Switched(Last(states), Last(states'), Last(states).current, q)
  {
    RunIsPath(acts, states);
    acts', states' := Advance(acts, states, Cli);
    acts', states' := Advance(acts', states', Sti);
    acts', states' := StiLetsSwitch(acts', states', q);
  }
}

/**
  The other half of refinement: what processes do when P and V are single steps they also
  do in some preemptible run, statement by statement, with the switches between them.
 */
module Realization {
  import opened Runs
  import opened Semaphores
  import opened Switches
  import I = Interrupts
  import Pre = Preemption

  /** Held by schedule, called from its own code, from P or from an interrupt of its own code; or not started. */
  predicate Held(st: I.Stack) {
    || st == [I.FStart]
    || (|st| == 1 && I.SuspendedInSched(st[0]))
    || (|st| == 2 && I.SuspendedInSched(st[1]) && (st[0].FP? || st[0].FTimer?))
  }

  /** No call is half done, but for a process asleep that has not been switched away from. */
  ghost predicate Settled(f: I.State) {
    && I.Inv(f)
    && (forall r :: 0 <= r < |f.stacks| && r != f.current ==> Held(f.stacks[r]))
    && (I.Running(f) == [] || AtSwitch(f))
  }

  predicate AtSwitch(f: I.State)
    requires f.current < |f.stacks| == |f.k.tasks|
  {
    var st := I.Running(f);
    && f.k.tasks[f.current] == Sleeping
    && |st| == 2 && st[0].FP? && st[1].FSched? && st[1].c == I.SSwitch
  }

  /** Acts that call no P or V and commit none. */
  ghost predicate Quiet(acts: seq<I.Act>, states: seq<I.State>) {
    && IsPath(acts, states) && I.Inv(Last(states))
    && forall i :: 0 <= i < |acts| ==>
         I.CanAct(states[i], acts[i]) && !acts[i].CallP? && !acts[i].CallV? && I.Commits(states[i], acts[i]) == None
  }

  lemma QuietAct(acts: seq<I.Act>, states: seq<I.State>, a: I.Act) returns (acts': seq<I.Act>, states': seq<I.State>)
    requires Quiet(acts, states) && I.CanAct(Last(states), a)
    requires !a.CallP? && !a.CallV? && I.Commits(Last(states), a) == None
    ensures Quiet(acts', states') && states'[0] == states[0] && Last(states') == I.Do(Last(states), a)
  {
    acts', states' := Advance(acts, states, a);
  }

  lemma YieldIsQuiet(f: I.State, p: nat) returns (acts: seq<I.Act>, states: seq<I.State>)
    requires Settled(f) && I.Running(f) == [] && CanRun(f, p)
    ensures Quiet(acts, states) && states[0] == f && Last(states).k == f.k
    ensures Switched(f, Last(states), f.current, p) && |Last(states).stacks[f.current]| == 1
  {
    acts, states := YieldPath([], [f], p);
    assert [f] + [I.Do(f, I.CallSched)] <= states;
  }

  lemma ResumeIsQuiet(acts: seq<I.Act>, states: seq<I.State>) returns (acts': seq<I.Act>, states': seq<I.State>)
    requires Quiet(acts, states) && Held(I.Running(Last(states))) && I.Running(Last(states)) != [I.FStart]
    ensures Quiet(acts', states') && states'[0] == states[0] && Last(states').k == Last(states).k
    ensures var f, f' := Last(states), Last(states');
            && f'.current == f.current && |f'.stacks| == |f.stacks| && f'.stacks[f.current] == []
            && forall r :: 0 <= r < |f.stacks| && r != f.current ==> f'.stacks[r] == f.stacks[r]
  {
    acts', states' := ResumePath(acts, states, acts, states);
  }

  /** From the choice in schedule to a process that can run. */
  lemma LeaveIsQuiet(f: I.State, p: nat) returns (acts: seq<I.Act>, states: seq<I.State>)
    requires Settled(f) && AtSwitch(f) && CanRun(f, p)
    ensures Quiet(acts, states) && states[0] == f && Last(states).k == f.k
    ensures Last(states).current == p && |Last(states).stacks| == |f.stacks|
    ensures Last(states).stacks[p] == if f.stacks[p] == [I.FStart] then [] else f.stacks[p]
    ensures Held(Last(states).stacks[f.current])
    ensures forall r :: 0 <= r < |f.stacks| && r != f.current && r != p ==> Last(states).stacks[r] == f.stacks[r]
  {
    acts, states := QuietAct([], [f], I.Go(p));
  }

  /** Any process awake can be brought to where it makes its next call, nobody having done anything that counts. */
  lemma ToOwnCode(f: I.State, p: nat) returns (acts: seq<I.Act>, states: seq<I.State>)
    requires Settled(f) && p < |f.stacks| && f.k.tasks[p] == Runnable
    ensures Quiet(acts, states) && states[0] == f && Last(states).k == f.k
    ensures Settled(Last(states)) && Last(states).current == p && I.Running(Last(states)) == []
  {
    if f.current == p {
      acts, states := [], [f];
    } else {
      if I.Running(f) == [] {
        acts, states := YieldIsQuiet(f, p);
      } else {
        acts, states := LeaveIsQuiet(f, p);
      }
      if I.Running(Last(states)) != [] {
        acts, states := ResumeIsQuiet(acts, states);
      }
    }
  }

  // ---------------------------------------------------------------------
  // The rest of a body
  // ---------------------------------------------------------------------

  /** Statements left in the body of P or V after its commit. */
  function Left(fr: I.Frame): nat {
    match fr
    case FP(_, _, at) =>
      (match at case PDisable => 6 case PDec => 5 case PBranch => 4 case PInsert => 3 case PSleep => 2
       case PSched => 1 case PEnable => 0)
    case FV(_, _, at) =>
      (match at case VDisable => 5 case VInc => 4 case VBranch => 3 case VWake => 2 case VUnlink => 1
       case VEnable => 0)
    case _ => 0
  }

  /** The running process is in the body of P or V, called from its own code, and nobody else is in a call. */
  ghost predicate InOneBody(f: I.State) {
    && I.Inv(f)
    && |I.Running(f)| == 1
    && (I.Running(f)[0].FP? || I.Running(f)[0].FV?) && !I.AtDisable(I.Running(f)[0])
    && forall r :: 0 <= r < |f.stacks| && r != f.current ==> Held(f.stacks[r])
  }

  /** P that has put itself to sleep goes as far as the switch. */
  lemma FallAsleep(acts: seq<I.Act>, states: seq<I.State>) returns (acts': seq<I.Act>, states': seq<I.State>)
    requires Quiet(acts, states) && InOneBody(Last(states))
    requires I.Running(Last(states))[0].FP? && I.Running(Last(states))[0].p == I.PSched
    requires Last(states).k.tasks[Last(states).current] == Sleeping
    ensures Quiet(acts', states') && states'[0] == states[0] && Settled(Last(states'))
  {
    acts', states' := QuietAct(acts, states, I.Go(0));
    acts', states' := QuietAct(acts', states', I.Go(0));
  }

  lemma BodyGo(f: I.State)
    requires InOneBody(f) && !(I.Running(f)[0].FP? && I.Running(f)[0].p == I.PSched)
    ensures I.CanAct(f, I.Go(0)) && I.Commits(f, I.Go(0)) == None
    ensures var f' := I.Do(f, I.Go(0));
            && I.Inv(f')
            && if I.Running(f') == [] then Settled(f')
               else
                 && InOneBody(f') && Left(I.Running(f')[0]) < Left(I.Running(f)[0])
                 && (I.Running(f')[0].FP? && I.Running(f')[0].p == I.PSched ==> f'.k.tasks[f'.current] == Sleeping)
  {
    I.ActKeepsInv(f, I.Go(0));
  }

  /** The body goes on to its end, or to the switch away from a process that it puts to sleep. */
  lemma {:induction false} FinishBody(acts: seq<I.Act>, states: seq<I.State>)
    returns (acts': seq<I.Act>, states': seq<I.State>)
    requires Quiet(acts, states) && InOneBody(Last(states))
    requires I.Running(Last(states))[0].FP? && I.Running(Last(states))[0].p == I.PSched ==>
               Last(states).k.tasks[Last(states).current] == Sleeping
    ensures Quiet(acts', states') && states'[0] == states[0] && Settled(Last(states'))
    decreases Left(I.Running(Last(states))[0])
  {
    if I.Running(Last(states))[0].FP? && I.Running(Last(states))[0].p == I.PSched {
      acts', states' := FallAsleep(acts, states);
    } else {
      BodyGo(Last(states));
      acts', states' := QuietAct(acts, states, I.Go(0));
      if I.Running(Last(states')) != [] {
        acts', states' := FinishBody(acts', states');
      }
    }
  }

  // ---------------------------------------------------------------------
  // With client code
  // ---------------------------------------------------------------------

  /** What the model sees of the run is this, once repetitions are left out. */
  ghost predicate Shows<C, X, S>(lift: (Sys, C) -> S, states: seq<Pre.Fine<C, X>>, seen: seq<S>) {
    && states != []
    && (forall i :: 0 <= i < |states| ==> I.Shape(states[i].f))
    && Moves(Pre.Views(lift, states)) == seen
  }

  /** The part of seen that one more view makes. */
  function SeenAfter<S(==)>(seen: seq<S>, v: S): seq<S>
    requires seen != []
  {
    if v == seen[|seen| - 1] then seen else seen + [v]
  }

  lemma OneMoreView<C, X, S>(lift: (Sys, C) -> S, states: seq<Pre.Fine<C, X>>, seen: seq<S>, s: Pre.Fine<C, X>)
    requires Shows(lift, states, seen) && I.Shape(s.f)
    ensures seen != [] && seen[|seen| - 1] == lift(I.Atomic(Last(states).f), Last(states).c)
    ensures Shows(lift, states + [s], SeenAfter(seen, lift(I.Atomic(s.f), s.c)))
  {
    var longer := states + [s];
    assert longer[..|states|] == states;
    var views := Pre.Views(lift, longer);
    assert views == Pre.Views(lift, states) + [lift(I.Atomic(s.f), s.c)];
    assert views[..|states|] == Pre.Views(lift, states);
  }

  lemma OneMoreMove<C(!new), X(!new)>(prog: Pre.Program<C, X>, states: seq<Pre.Fine<C, X>>, moves: seq<Pre.Move<X>>,
                                      mv: Pre.Move<X>)
    requires Pre.IsRun(prog, states, moves) && Pre.CanMove(prog, Last(states), mv)
    ensures Pre.IsRun(prog, states + [Pre.Do(prog, Last(states), mv)], moves + [mv])
  {
    var states', moves' := states + [Pre.Do(prog, Last(states), mv)], moves + [mv];
    forall i, j {:trigger Pre.Leads(prog, states'[i], moves'[i], states'[j])} | 0 <= i < |moves'| && j == i + 1
      ensures Pre.Leads(prog, states'[i], moves'[i], states'[j])
    {
      assert i < |moves| ==> Pre.Leads(prog, states[i], moves[i], states[j]);
    }
  }

  /** A run of the program, ending in a state with its invariant, and what the model sees of it. */
  ghost predicate RunShows<C(!new), X(!new), S>(prog: Pre.Program<C, X>, lift: (Sys, C) -> S,
                                                    states: seq<Pre.Fine<C, X>>, moves: seq<Pre.Move<X>>, seen: seq<S>) {
    && Pre.Independent(prog) && Pre.IsRun(prog, states, moves)
    && Pre.Inv(prog, Last(states)) && Shows(lift, states, seen)
  }

  lemma Move<C(!new), X(!new), S>(prog: Pre.Program<C, X>, lift: (Sys, C) -> S,
                                  states: seq<Pre.Fine<C, X>>, moves: seq<Pre.Move<X>>, seen: seq<S>, mv: Pre.Move<X>)
    returns (states': seq<Pre.Fine<C, X>>, moves': seq<Pre.Move<X>>)
    requires RunShows(prog, lift, states, moves, seen) && Pre.CanMove(prog, Last(states), mv)
    ensures states' == states + [Pre.Do(prog, Last(states), mv)] && moves' == moves + [mv] && seen != []
    ensures I.Shape(Last(states').f)
    ensures RunShows(prog, lift, states', moves', SeenAfter(seen, lift(I.Atomic(Last(states').f), Last(states').c)))
  {
    var s := Pre.Do(prog, Last(states), mv);
    Pre.MoveKeepsInv(prog, Last(states), mv);
    OneMoreMove(prog, states, moves, mv);
    OneMoreView(lift, states, seen, s);
    states', moves' := states + [s], moves + [mv];
  }

  function Machines<X>(acts: seq<I.Act>): (r: seq<Pre.Move<X>>) {
    seq(|acts|, i requires 0 <= i < |acts| => Pre.Machine(acts[i]))
  }

  lemma OneMoreMachine<X>(moves: seq<Pre.Move<X>>, acts: seq<I.Act>, n: nat)
    requires n + 1 == |acts|
    ensures moves + Machines(acts[..n]) + [Pre.Machine(acts[n])] == moves + Machines(acts)
  {
  }

  lemma QuietMove<C(!new), X(!new), S>(
      prog: Pre.Program<C, X>, lift: (Sys, C) -> S, states: seq<Pre.Fine<C, X>>, moves: seq<Pre.Move<X>>, seen: seq<S>,
      a: I.Act)
    returns (states': seq<Pre.Fine<C, X>>, moves': seq<Pre.Move<X>>)
    requires RunShows(prog, lift, states, moves, seen) && I.CanAct(Last(states).f, a)
    requires !a.CallP? && !a.CallV? && I.Commits(Last(states).f, a) == None
    ensures RunShows(prog, lift, states', moves', seen) && states <= states' && moves' == moves + [Pre.Machine(a)]
    ensures Last(states') == Pre.Fine(I.Do(Last(states).f, a), Last(states).c, Last(states).pending)
    ensures I.Atomic(Last(states').f) == I.Atomic(Last(states).f)
  {
    var s := Last(states);
    I.StatementRefines(s.f, a);
    OneMoreView(lift, states, seen, Pre.Fine(I.Do(s.f, a), s.c, s.pending));
    states', moves' := Move(prog, lift, states, moves, seen, Pre.Machine(a));
  }

  /** Quiet acts as moves of the program: the model sees nothing of them. */
  lemma {:induction false} QuietMoves<C(!new), X(!new), S>(
      prog: Pre.Program<C, X>, lift: (Sys, C) -> S, states: seq<Pre.Fine<C, X>>, moves: seq<Pre.Move<X>>, seen: seq<S>,
      acts: seq<I.Act>, fs: seq<I.State>)
    returns (states': seq<Pre.Fine<C, X>>, moves': seq<Pre.Move<X>>)
    requires RunShows(prog, lift, states, moves, seen) && Quiet(acts, fs) && fs[0] == Last(states).f
    ensures RunShows(prog, lift, states', moves', seen) && states <= states' && moves' == moves + Machines(acts)
    ensures Last(states') == Pre.Fine(Last(fs), Last(states).c, Last(states).pending)
    ensures I.Shape(Last(fs)) && I.Atomic(Last(fs)) == I.Atomic(fs[0])
    decreases |acts|
  {
    if acts == [] {
      states', moves' := states, moves;
    } else {
      var n := |acts| - 1;
      QuietPrefix(acts, fs, n);
      states', moves' := QuietMoves(prog, lift, states, moves, seen, acts[..n], fs[..n + 1]);
      OneMoreMachine(moves, acts, n);
      states', moves' := QuietMove(prog, lift, states', moves', seen, acts[n]);
    }
  }

  lemma QuietPrefix(acts: seq<I.Act>, fs: seq<I.State>, n: nat)
    requires Quiet(acts, fs) && n + 1 == |acts|
    ensures Quiet(acts[..n], fs[..n + 1]) && fs[..n + 1][0] == fs[0] && Last(fs[..n + 1]) == fs[n]
    ensures I.CanAct(fs[n], acts[n]) && Last(fs) == I.Do(fs[n], acts[n])
  {
    PathInv(acts, fs, n);
    assert I.Leads(fs[n], acts[n], fs[n + 1]);
    assert forall i, j {:trigger I.Leads(fs[i], acts[i], fs[j])} :: 0 <= i < n && j == i + 1 ==> I.Leads(fs[i], acts[i], fs[j]);
  }

  lemma {:induction false} PathInv(acts: seq<I.Act>, fs: seq<I.State>, n: nat)
    requires IsPath(acts, fs) && n < |fs|
    ensures I.Inv(fs[n])
  {
    if n > 0 {
      PathInv(acts, fs, n - 1);
      var i, j := n - 1, n;
      assert I.Leads(fs[i], acts[i], fs[j]);
      I.ActKeepsInv(fs[i], acts[i]);
    }
  }

  lemma TickIsQuiet(f: I.State, q: nat) returns (acts: seq<I.Act>, states: seq<I.State>)
    requires I.Inv(f) && I.CanAct(f, I.Tick) && CanRun(f, q)
    ensures Quiet(acts, states) && states[0] == f && Switched(f, Last(states), f.current, q)
    ensures acts != [] && acts[0] == I.Tick && OnlyGoes(acts, 1)
  {
    acts, states := TickPath([], [f], q);
    assert [f] + [I.Do(f, I.Tick)] <= states;
  }

  lemma RunIsShown<C(!new), X(!new), S>(prog: Pre.Program<C, X>, lift: (Sys, C) -> S,
                                        states: seq<Pre.Fine<C, X>>, moves: seq<Pre.Move<X>>)
    returns (seen: seq<S>)
    requires Pre.Independent(prog) && Pre.IsRun(prog, states, moves)
    ensures RunShows(prog, lift, states, moves, seen)
  {
    Pre.InvInEveryRun(prog, states, moves, |moves|);
    Pre.ShapeInEveryRun(prog, states, moves);
    seen := Moves(Pre.Views(lift, states));
  }

  /**
    Preemption of client code: wherever IF is on, between two client statements
    included, and for every other runnable process q, there is a way on from it, of
    nothing but next statements of schedule and the handler, to a state in which q runs,
    the interrupted process is held, and no client state has changed.
   */
  lemma TickSwitches<C(!new), X(!new)>(prog: Pre.Program<C, X>, states: seq<Pre.Fine<C, X>>, moves: seq<Pre.Move<X>>,
                                       q: nat)
    returns (states': seq<Pre.Fine<C, X>>, moves': seq<Pre.Move<X>>)
    requires Pre.Independent(prog) && Pre.IsRun(prog, states, moves)
    requires Last(states).f.intr
    requires var f := Last(states).f; q < |f.k.tasks| && q != f.current && f.k.tasks[q] == Runnable
    ensures Pre.IsRun(prog, states', moves') && states <= states' && moves + [Pre.Machine(I.Tick)] <= moves'
    ensures forall i :: |moves| < i < |moves'| ==> moves'[i].Machine? && moves'[i].a.Go?
    ensures Switched(Last(states).f, Last(states').f, Last(states).f.current, q)
    ensures Last(states').c == Last(states).c && Last(states').pending == Last(states).pending
  {
    var lift := (k: Sys, c: C) => 0;
    var seen := RunIsShown(prog, lift, states, moves);
    var acts, fs := TickIsQuiet(Last(states).f, q);
    states', moves' := QuietMoves(prog, lift, states, moves, seen, acts, fs);
  }

  // ---------------------------------------------------------------------
  // Steps and runs
  // ---------------------------------------------------------------------

  /** A process awake, brought to its own code; the model sees nothing of it. */
  lemma BringHere<C(!new), X(!new), S>(
      prog: Pre.Program<C, X>, lift: (Sys, C) -> S, states: seq<Pre.Fine<C, X>>, moves: seq<Pre.Move<X>>, seen: seq<S>,
      p: nat)
    returns (states': seq<Pre.Fine<C, X>>, moves': seq<Pre.Move<X>>)
    requires RunShows(prog, lift, states, moves, seen) && Settled(Last(states).f)
    requires p < |Last(states).f.k.tasks| && Last(states).f.k.tasks[p] == Runnable
    ensures RunShows(prog, lift, states', moves', seen) && states <= states'
    ensures Settled(Last(states').f) && Last(states').f.current == p && I.Running(Last(states').f) == []
    ensures Last(states').f.k == Last(states).f.k && Last(states').c == Last(states).c
  {
    var acts, fs := ToOwnCode(Last(states).f, p);
    states', moves' := QuietMoves(prog, lift, states, moves, seen, acts, fs);
  }

  /** From the commit of a call to the end of its body, or to the switch. */
  lemma FinishCall<C(!new), X(!new), S>(
      prog: Pre.Program<C, X>, lift: (Sys, C) -> S, states: seq<Pre.Fine<C, X>>, moves: seq<Pre.Move<X>>, seen: seq<S>)
    returns (states': seq<Pre.Fine<C, X>>, moves': seq<Pre.Move<X>>)
    requires RunShows(prog, lift, states, moves, seen) && InOneBody(Last(states).f)
    requires Left(I.Running(Last(states).f)[0]) > 3
    ensures RunShows(prog, lift, states', moves', seen) && states <= states' && Settled(Last(states').f)
    ensures I.Atomic(Last(states').f) == I.Atomic(Last(states).f) && Last(states').c == Last(states).c
  {
    var acts, fs := FinishBody([], [Last(states).f]);
    states', moves' := QuietMoves(prog, lift, states, moves, seen, acts, fs);
  }

  /** The call and its commit, in the machine. */
  lemma Commit(f: I.State, op: Op)
    requires Settled(f) && I.Running(f) == [] && op.p == f.current && op.s < |f.k.sems|
    ensures I.CanAct(f, Pre.CallOf(op))
    ensures var f1 := I.Do(f, Pre.CallOf(op));
            && I.Inv(f1) && I.Atomic(f1) == f.k && I.CanAct(f1, I.Go(0)) && I.Commits(f1, I.Go(0)) == Some(op)
            && var f2 := I.Do(f1, I.Go(0));
               && InOneBody(f2) && Left(I.Running(f2)[0]) > 3
               && CanDo(f.k, op) && I.Atomic(f2) == Semaphores.Do(f.k, op)
  {
    var f1 := I.Do(f, Pre.CallOf(op));
    I.ActKeepsInv(f, Pre.CallOf(op));
    I.ActKeepsInv(f1, I.Go(0));
    I.StatementRefines(f1, I.Go(0));
  }

  /** The call and its commit. */
  lemma CallAndCommit<C(!new), X(!new), S>(
      prog: Pre.Program<C, X>, lift: (Sys, C) -> S, states: seq<Pre.Fine<C, X>>, moves: seq<Pre.Move<X>>, seen: seq<S>,
      x: X)
    returns (states': seq<Pre.Fine<C, X>>, moves': seq<Pre.Move<X>>)
    requires RunShows(prog, lift, states, moves, seen) && Settled(Last(states).f)
    requires Pre.CanMove(prog, Last(states), Pre.Call(x))
    ensures states <= states' && InOneBody(Last(states').f) && Left(I.Running(Last(states').f)[0]) > 3
    ensures var s, s' := Last(states), Last(states');
            var op := prog.wants(s.c, s.f.current, x).value;
            && s'.c == prog.after(s.c, s.f.current, x)
            && CanDo(s.f.k, op) && I.Atomic(s'.f) == Semaphores.Do(s.f.k, op)
            && seen != []
            && RunShows(prog, lift, states', moves', SeenAfter(seen, lift(I.Atomic(s'.f), s'.c)))
  {
    var s := Last(states);
    Commit(s.f, prog.wants(s.c, s.f.current, x).value);
    OneMoreView(lift, states, seen, Pre.Do(prog, s, Pre.Call(x)));
    states', moves' := Move(prog, lift, states, moves, seen, Pre.Call(x));
    states', moves' := Move(prog, lift, states', moves', seen, Pre.Machine(I.Go(0)));
  }

  /** A whole call, from a process's own code. */
  lemma CallRealized<C(!new), X(!new), S>(
      prog: Pre.Program<C, X>, lift: (Sys, C) -> S, states: seq<Pre.Fine<C, X>>, moves: seq<Pre.Move<X>>, seen: seq<S>,
      x: X, k': Sys, c': C)
    returns (states': seq<Pre.Fine<C, X>>, moves': seq<Pre.Move<X>>)
    requires RunShows(prog, lift, states, moves, seen) && Settled(Last(states).f) && seen != []
    requires Pre.CanMove(prog, Last(states), Pre.Call(x))
    requires Pre.AtomicStep(prog, Last(states).f.k, Last(states).c, Last(states).f.current, x, k', c')
    ensures RunShows(prog, lift, states', moves', SeenAfter(seen, lift(k', c'))) && states <= states'
    ensures Settled(Last(states').f) && Last(states').f.k == k' && Last(states').c == c'
  {
    states', moves' := CallAndCommit(prog, lift, states, moves, seen, x);
    states', moves' := FinishCall(prog, lift, states', moves', SeenAfter(seen, lift(k', c')));
  }

  /** An atomic step of a process awake, done statement by statement. */
  lemma StepRealized<C(!new), X(!new), S>(
      prog: Pre.Program<C, X>, lift: (Sys, C) -> S, states: seq<Pre.Fine<C, X>>, moves: seq<Pre.Move<X>>, seen: seq<S>,
      p: nat, x: X, k': Sys, c': C)
    returns (states': seq<Pre.Fine<C, X>>, moves': seq<Pre.Move<X>>)
    requires RunShows(prog, lift, states, moves, seen) && Settled(Last(states).f) && seen != []
    requires Pre.AtomicStep(prog, Last(states).f.k, Last(states).c, p, x, k', c')
    ensures RunShows(prog, lift, states', moves', SeenAfter(seen, lift(k', c'))) && states <= states'
    ensures Settled(Last(states').f) && Last(states').f.k == k' && Last(states').c == c'
  {
    states', moves' := BringHere(prog, lift, states, moves, seen, p);
    if prog.wants(Last(states').c, p, x) == None {
      states', moves' := Move(prog, lift, states', moves', seen, Pre.Plain(x));
    } else {
      states', moves' := CallRealized(prog, lift, states', moves', seen, x, k', c');
    }
  }

  ghost predicate AtomicNext<C(!new), X(!new)>(prog: Pre.Program<C, X>, k: Sys, c: C, k': Sys, c': C) {
    exists p: nat, x :: Pre.AtomicStep(prog, k, c, p, x, k', c')
  }

  lemma NextRealized<C(!new), X(!new), S>(
      prog: Pre.Program<C, X>, lift: (Sys, C) -> S, states: seq<Pre.Fine<C, X>>, moves: seq<Pre.Move<X>>, seen: seq<S>,
      k': Sys, c': C)
    returns (states': seq<Pre.Fine<C, X>>, moves': seq<Pre.Move<X>>)
    requires RunShows(prog, lift, states, moves, seen) && Settled(Last(states).f) && seen != []
    requires AtomicNext(prog, Last(states).f.k, Last(states).c, k', c')
    ensures RunShows(prog, lift, states', moves', SeenAfter(seen, lift(k', c'))) && states <= states'
    ensures Settled(Last(states').f) && Last(states').f.k == k' && Last(states').c == c'
  {
    var p: nat, x :| Pre.AtomicStep(prog, Last(states).f.k, Last(states).c, p, x, k', c');
    states', moves' := StepRealized(prog, lift, states, moves, seen, p, x, k', c');
  }

  /** A run in which P and V are single steps, as semaphores and client states. */
  ghost predicate IsAtomicRun<C(!new), X(!new)>(prog: Pre.Program<C, X>, ks: seq<Sys>, cs: seq<C>) {
    && |ks| == |cs| >= 1
    && Fresh(ks[0]) && |ks[0].tasks| > 0
    && forall i, j {:trigger AtomicNext(prog, ks[i], cs[i], ks[j], cs[j])} :: 0 <= i < |ks| - 1 && j == i + 1 ==>
         AtomicNext(prog, ks[i], cs[i], ks[j], cs[j])
  }

  function Lifted<C, S>(lift: (Sys, C) -> S, ks: seq<Sys>, cs: seq<C>): (r: seq<S>)
    requires |ks| == |cs|
    ensures |r| == |ks| && forall i :: 0 <= i < |r| ==> r[i] == lift(ks[i], cs[i])
  {
    seq(|ks|, i requires 0 <= i < |ks| => lift(ks[i], cs[i]))
  }

  lemma SeenOneMore<C, S>(lift: (Sys, C) -> S, ks: seq<Sys>, cs: seq<C>)
    requires |ks| == |cs| > 1
    ensures var n := |ks| - 1;
            var seen := Moves(Lifted(lift, ks[..n], cs[..n]));
            seen != [] && Moves(Lifted(lift, ks, cs)) == SeenAfter(seen, lift(ks[n], cs[n]))
  {
    var n := |ks| - 1;
    assert Lifted(lift, ks, cs)[..n] == Lifted(lift, ks[..n], cs[..n]);
  }

  /** Process 0 in its own code, the others forked and not started. */
  function Start<C, X>(k: Sys, c: C, x: X): Pre.Fine<C, X>
    requires |k.tasks| > 0
  {
    Pre.Fine(I.State(k, 0, true, seq(|k.tasks|, p => if p == 0 then [] else [I.FStart])), c, seq(|k.tasks|, p => x))
  }

  lemma StartShows<C(!new), X(!new), S>(prog: Pre.Program<C, X>, lift: (Sys, C) -> S, k: Sys, c: C, x: X)
    requires Pre.Independent(prog) && Fresh(k) && |k.tasks| > 0
    ensures RunShows(prog, lift, [Start(k, c, x)], [], [lift(k, c)]) && Settled(Start(k, c, x).f)
  {
    Pre.InitInv(prog, Start(k, c, x));
  }

  lemma PrefixIsRun<C(!new), X(!new)>(prog: Pre.Program<C, X>, ks: seq<Sys>, cs: seq<C>)
    requires IsAtomicRun(prog, ks, cs) && |ks| > 1
    ensures IsAtomicRun(prog, ks[..|ks| - 1], cs[..|ks| - 1])
    ensures AtomicNext(prog, ks[|ks| - 2], cs[|ks| - 2], ks[|ks| - 1], cs[|ks| - 1])
  {
    var l, m := |ks| - 2, |ks| - 1;
    assert AtomicNext(prog, ks[l], cs[l], ks[m], cs[m]);
    var ks', cs' := ks[..|ks| - 1], cs[..|ks| - 1];
    forall i, j {:trigger AtomicNext(prog, ks'[i], cs'[i], ks'[j], cs'[j])} | 0 <= i < |ks'| - 1 && j == i + 1
      ensures AtomicNext(prog, ks'[i], cs'[i], ks'[j], cs'[j])
    {
      assert AtomicNext(prog, ks[i], cs[i], ks[j], cs[j]);
    }
  }

  /** A preemptible run from the start that shows just this run of atomic steps and ends settled where it ends. */
  ghost predicate Realizes<C(!new), X(!new), S>(prog: Pre.Program<C, X>, lift: (Sys, C) -> S, ks: seq<Sys>, cs: seq<C>,
                                                x0: X, states: seq<Pre.Fine<C, X>>, moves: seq<Pre.Move<X>>)
    requires |ks| == |cs| > 0 && |ks[0].tasks| > 0
  {
    && RunShows(prog, lift, states, moves, Moves(Lifted(lift, ks, cs)))
    && states[0] == Start(ks[0], cs[0], x0)
    && Settled(Last(states).f) && Last(states).f.k == ks[|ks| - 1] && Last(states).c == cs[|cs| - 1]
  }

  lemma RunOneMore<C(!new), X(!new), S>(prog: Pre.Program<C, X>, lift: (Sys, C) -> S, ks: seq<Sys>, cs: seq<C>,
                                        x0: X, states: seq<Pre.Fine<C, X>>, moves: seq<Pre.Move<X>>)
    returns (states': seq<Pre.Fine<C, X>>, moves': seq<Pre.Move<X>>)
    requires |ks| == |cs| > 1 && |ks[0].tasks| > 0
    requires Realizes(prog, lift, ks[..|ks| - 1], cs[..|ks| - 1], x0, states, moves)
    requires AtomicNext(prog, ks[|ks| - 2], cs[|ks| - 2], ks[|ks| - 1], cs[|ks| - 1])
    ensures Realizes(prog, lift, ks, cs, x0, states', moves')
  {
    var n := |ks| - 1;
    var seen := Moves(Lifted(lift, ks[..n], cs[..n]));
    SeenOneMore(lift, ks, cs);
    assert ks[..n][n - 1] == ks[n - 1] && cs[..n][n - 1] == cs[n - 1];
    states', moves' := NextRealized(prog, lift, states, moves, seen, ks[n], cs[n]);
  }

  /**
    Every run in which P and V are single steps is what the atomic view shows of some
    preemptible run, but for steps that change nothing. With RunSimulates: the two have
    the same behaviours.
   */
  lemma {:induction false} RunRealized<C(!new), X(!new), S>(prog: Pre.Program<C, X>, lift: (Sys, C) -> S,
                                                            ks: seq<Sys>, cs: seq<C>, x0: X)
    returns (states: seq<Pre.Fine<C, X>>, moves: seq<Pre.Move<X>>)
    requires Pre.Independent(prog) && IsAtomicRun(prog, ks, cs)
    ensures Realizes(prog, lift, ks, cs, x0, states, moves)
  {
    var n := |ks| - 1;
    if n == 0 {
      StartShows(prog, lift, ks[0], cs[0], x0);
      states, moves := [Start(ks[0], cs[0], x0)], [];
      assert Lifted(lift, ks, cs) == [lift(ks[0], cs[0])];
    } else {
      PrefixIsRun(prog, ks, cs);
      states, moves := RunRealized(prog, lift, ks[..n], cs[..n], x0);
      states, moves := RunOneMore(prog, lift, ks, cs, x0, states, moves);
    }
  }
}

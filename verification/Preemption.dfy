/**
  Programs of processes that call P and V, preempted at every statement: each run, seen
  through the commits of P and V, is a run in which those calls are single steps.
 */
module Preemption {
  import opened Runs
  import opened Semaphores
  import I = Interrupts

  /**
    What processes do between and with their calls, on client state of type C: whether
    choice x fits where process p stands, the P or V its next statement makes, if any,
    and the client state after that statement.
   */
  datatype Program<!C, !X> = Program(
    fits: (C, nat, X) -> bool,
    wants: (C, nat, X) -> Option<Op>,
    after: (C, nat, X) -> C)

  /** pending[p] is the choice with which p made its current call. */
  datatype Fine<C, X> = Fine(f: I.State, c: C, pending: seq<X>)

  /** A statement of client code, the call of P or V, or a statement of a body, of schedule or of the handler. */
  datatype Move<X> = Plain(x: X) | Call(x: X) | Machine(a: I.Act)

  ghost predicate Shape<C, X>(s: Fine<C, X>) {
    I.Shape(s.f) && |s.pending| == |s.f.stacks|
  }

  ghost predicate CanMove<C(!new), X(!new)>(prog: Program<C, X>, s: Fine<C, X>, mv: Move<X>) {
    && Shape(s)
    && match mv
       case Plain(x) =>
         I.Running(s.f) == [] && prog.fits(s.c, s.f.current, x) && prog.wants(s.c, s.f.current, x) == None
       case Call(x) =>
         && I.Running(s.f) == [] && prog.fits(s.c, s.f.current, x)
         && prog.wants(s.c, s.f.current, x).Some?
         && prog.wants(s.c, s.f.current, x).value.p == s.f.current
         && prog.wants(s.c, s.f.current, x).value.s < |s.f.k.sems|
       case Machine(a) => I.CanAct(s.f, a) && !a.CallP? && !a.CallV?
  }

  function CallOf(op: Op): I.Act {
    match op
    case DoP(_, s) => I.CallP(s)
    case DoV(_, s) => I.CallV(s)
  }

  /** The client code moves on at the commit of its call. */
  ghost function Do<C(!new), X(!new)>(prog: Program<C, X>, s: Fine<C, X>, mv: Move<X>): Fine<C, X>
    requires CanMove(prog, s, mv)
  {
    match mv
    case Plain(x) => Fine(s.f, prog.after(s.c, s.f.current, x), s.pending)
    case Call(x) =>
      Fine(I.Do(s.f, CallOf(prog.wants(s.c, s.f.current, x).value)), s.c, s.pending[s.f.current := x])
    case Machine(a) =>
      Fine(I.Do(s.f, a),
           if I.Commits(s.f, a).Some? then prog.after(s.c, s.f.current, s.pending[s.f.current]) else s.c,
           s.pending)
  }

  /** The same statement when P and V are single steps. */
  ghost predicate AtomicStep<C(!new), X(!new)>(prog: Program<C, X>, k: Sys, c: C, p: nat, x: X, k': Sys, c': C) {
    && p < |k.tasks| && k.tasks[p] == Runnable && prog.fits(c, p, x) && c' == prog.after(c, p, x)
    && match prog.wants(c, p, x)
       case None => k' == k
       case Some(op) => op.p == p && CanDo(k, op) && k' == Semaphores.Do(k, op)
  }

  /** What a process is about to do does not depend on what others do. */
  ghost predicate Independent<C(!new), X(!new)>(prog: Program<C, X>) {
    forall c, p: nat, x, q: nat, y {:trigger prog.fits(c, p, x), prog.fits(c, q, y)} ::
      p != q && prog.fits(c, p, x) && prog.fits(c, q, y) ==>
        prog.fits(prog.after(c, q, y), p, x) && prog.wants(prog.after(c, q, y), p, x) == prog.wants(c, p, x)
  }

  // ---------------------------------------------------------------------
  // Calls in flight
  // ---------------------------------------------------------------------

  /** The operation of a call whose body has not begun. */
  function Uncommitted(st: I.Stack, p: nat): Option<Op> {
    if st == [] then None
    else
      match st[0]
      case FP(s, _, at) => if at == I.PDisable then Some(DoP(p, s)) else None
      case FV(s, _, at) => if at == I.VDisable then Some(DoV(p, s)) else None
      case _ => None
  }

  /** Such a call is still what the client code of p wants, with the choice it was made with. */
  ghost predicate Meant<C(!new), X(!new)>(prog: Program<C, X>, s: Fine<C, X>, p: nat)
    requires Shape(s) && p < |s.f.stacks|
  {
    Uncommitted(s.f.stacks[p], p).Some? ==>
      prog.fits(s.c, p, s.pending[p]) && prog.wants(s.c, p, s.pending[p]) == Uncommitted(s.f.stacks[p], p)
  }

  ghost predicate Inv<C(!new), X(!new)>(prog: Program<C, X>, s: Fine<C, X>) {
    Shape(s) && I.Inv(s.f) && forall p :: 0 <= p < |s.f.stacks| ==> Meant(prog, s, p)
  }

  /** Statements of bodies, schedule and handler start no call. */
  lemma NoNewCall(f: I.State, a: I.Act, p: nat)
    requires I.Inv(f) && I.CanAct(f, a) && !a.CallP? && !a.CallV? && p < |f.stacks|
    ensures |I.Do(f, a).stacks| == |f.stacks|
    ensures Uncommitted(I.Do(f, a).stacks[p], p).Some? ==>
              Uncommitted(f.stacks[p], p) == Uncommitted(I.Do(f, a).stacks[p], p)
  {
    if p != f.current {
      I.ActLeavesOthers(f, a, p);
    } else if a.Go? {
      var st := I.Running(f);
      I.ChainRest(st);
      if |st| > 1 {
        assert I.Rest(st)[0] == st[0];
      } else {
        assert I.Rest(st) == [];
      }
    }
  }

  /** What commits is the running process's call, and it is uncommitted no longer. */
  lemma CommitsTheCall(f: I.State, a: I.Act)
    requires I.Inv(f) && I.CanAct(f, a) && I.Commits(f, a).Some?
    ensures f.current < |I.Do(f, a).stacks|
    ensures Uncommitted(f.stacks[f.current], f.current) == I.Commits(f, a)
    ensures Uncommitted(I.Do(f, a).stacks[f.current], f.current) == None
  {
    var st := I.Running(f);
    I.ChainRest(st);
    assert |st| == 1 && I.Rest(st) == [];
  }

  // ---------------------------------------------------------------------
  // One move
  // ---------------------------------------------------------------------

  /** The running process, outside any call, is awake, and no body is half done. */
  lemma OutsideIsAwake(f: I.State)
    requires I.Inv(f) && I.Running(f) == []
    ensures I.Atomic(f) == f.k && f.current < |f.k.tasks| && f.k.tasks[f.current] == Runnable
  {
  }

  /** Client state moved on by the running process; what the others mean to do stays. */
  lemma AfterKeepsMeant<C(!new), X(!new)>(prog: Program<C, X>, s: Fine<C, X>, x: X, s': Fine<C, X>, p: nat)
    requires Independent(prog) && Shape(s) && Shape(s') && p < |s.f.stacks| == |s'.f.stacks|
    requires p != s.f.current && prog.fits(s.c, s.f.current, x)
    requires s'.c == prog.after(s.c, s.f.current, x) && s'.pending == s.pending
    requires Uncommitted(s'.f.stacks[p], p).Some? ==> Uncommitted(s.f.stacks[p], p) == Uncommitted(s'.f.stacks[p], p)
    requires Meant(prog, s, p)
    ensures Meant(prog, s', p)
  {
  }

  lemma MachineKeepsMeant<C(!new), X(!new)>(prog: Program<C, X>, s: Fine<C, X>, a: I.Act, p: nat)
    requires Independent(prog) && Inv(prog, s) && CanMove(prog, s, Machine(a)) && p < |s.f.stacks|
    ensures Shape(Do(prog, s, Machine(a))) && |Do(prog, s, Machine(a)).f.stacks| == |s.f.stacks|
    ensures Meant(prog, Do(prog, s, Machine(a)), p)
  {
    var s' := Do(prog, s, Machine(a));
    I.ActKeepsShape(s.f, a);
    NoNewCall(s.f, a, p);
    assert Meant(prog, s, p) && Meant(prog, s, s.f.current);
    if I.Commits(s.f, a).Some? {
      CommitsTheCall(s.f, a);
      if p != s.f.current {
        AfterKeepsMeant(prog, s, s.pending[s.f.current], s', p);
      }
    }
  }

  lemma CallKeepsMeant<C(!new), X(!new)>(prog: Program<C, X>, s: Fine<C, X>, x: X, p: nat)
    requires Inv(prog, s) && CanMove(prog, s, Call(x)) && p < |s.f.stacks|
    ensures Shape(Do(prog, s, Call(x))) && |Do(prog, s, Call(x)).f.stacks| == |s.f.stacks|
    ensures Meant(prog, Do(prog, s, Call(x)), p)
  {
    I.ActKeepsShape(s.f, CallOf(prog.wants(s.c, s.f.current, x).value));
    assert Meant(prog, s, p);
  }

  lemma MoveKeepsInv<C(!new), X(!new)>(prog: Program<C, X>, s: Fine<C, X>, mv: Move<X>)
    requires Independent(prog) && Inv(prog, s) && CanMove(prog, s, mv)
    ensures Inv(prog, Do(prog, s, mv))
  {
    var s' := Do(prog, s, mv);
    match mv
    case Plain(x) =>
      forall p | 0 <= p < |s'.f.stacks| ensures Meant(prog, s', p) {
        assert Meant(prog, s, p);
        if p != s.f.current {
          AfterKeepsMeant(prog, s, x, s', p);
        }
      }
    case Call(x) =>
      I.ActKeepsInv(s.f, CallOf(prog.wants(s.c, s.f.current, x).value));
      CallKeepsMeant(prog, s, x, s.f.current);
      forall p | 0 <= p < |s'.f.stacks| ensures Meant(prog, s', p) {
        CallKeepsMeant(prog, s, x, p);
      }
    case Machine(a) =>
      I.ActKeepsInv(s.f, a);
      MachineKeepsMeant(prog, s, a, s.f.current);
      forall p | 0 <= p < |s'.f.stacks| ensures Meant(prog, s', p) {
        MachineKeepsMeant(prog, s, a, p);
      }
  }

  /** The choice with which the running process moves its client code on. */
  function ChoiceOf<C, X>(s: Fine<C, X>, mv: Move<X>): X
    requires s.f.current < |s.pending|
  {
    match mv
    case Plain(x) => x
    case _ => s.pending[s.f.current]
  }

  ghost predicate Advances<C(!new), X(!new)>(prog: Program<C, X>, s: Fine<C, X>, mv: Move<X>)
    requires CanMove(prog, s, mv)
  {
    mv.Plain? || (mv.Machine? && I.Commits(s.f, mv.a).Some?)
  }

  /** Each move is a step of the running process in which its call is atomic, or changes nothing. */
  lemma MoveRefines<C(!new), X(!new)>(prog: Program<C, X>, s: Fine<C, X>, mv: Move<X>)
    requires Independent(prog) && Inv(prog, s) && CanMove(prog, s, mv)
    ensures var s' := Do(prog, s, mv);
            && Inv(prog, s')
            && if Advances(prog, s, mv) then
                 AtomicStep(prog, I.Atomic(s.f), s.c, s.f.current, ChoiceOf(s, mv), I.Atomic(s'.f), s'.c)
               else
                 I.Atomic(s'.f) == I.Atomic(s.f) && s'.c == s.c
  {
    MoveKeepsInv(prog, s, mv);
    match mv
    case Plain(x) => OutsideIsAwake(s.f);
    case Call(x) => I.StatementRefines(s.f, CallOf(prog.wants(s.c, s.f.current, x).value));
    case Machine(a) =>
      I.StatementRefines(s.f, a);
      if I.Commits(s.f, a).Some? {
        CommitsTheCall(s.f, a);
        assert Meant(prog, s, s.f.current);
      }
  }

  // ---------------------------------------------------------------------
  // Runs
  // ---------------------------------------------------------------------

  ghost predicate Leads<C(!new), X(!new)>(prog: Program<C, X>, s: Fine<C, X>, mv: Move<X>, s': Fine<C, X>) {
    CanMove(prog, s, mv) && s' == Do(prog, s, mv)
  }

  /** Any preemptible run: everyone is outside any call at the start. */
  ghost predicate IsRun<C(!new), X(!new)>(prog: Program<C, X>, states: seq<Fine<C, X>>, moves: seq<Move<X>>) {
    && |states| == |moves| + 1
    && Shape(states[0]) && I.Init(states[0].f)
    && forall i, j {:trigger Leads(prog, states[i], moves[i], states[j])} :: 0 <= i < |moves| && j == i + 1 ==>
         Leads(prog, states[i], moves[i], states[j])
  }

  lemma InitInv<C(!new), X(!new)>(prog: Program<C, X>, s: Fine<C, X>)
    requires Shape(s) && I.Init(s.f)
    ensures Inv(prog, s) && I.Atomic(s.f) == s.f.k
  {
    I.InitInv(s.f);
  }

  lemma {:induction false} InvInEveryRun<C(!new), X(!new)>(prog: Program<C, X>, states: seq<Fine<C, X>>,
                                                           moves: seq<Move<X>>, i: nat)
    requires Independent(prog) && IsRun(prog, states, moves) && i < |states|
    ensures Inv(prog, states[i])
  {
    if i == 0 {
      InitInv(prog, states[0]);
    } else {
      InvInEveryRun(prog, states, moves, i - 1);
      assert Leads(prog, states[i - 1], moves[i - 1], states[i]);
      MoveKeepsInv(prog, states[i - 1], moves[i - 1]);
    }
  }

  /** The i-th move of a run is an atomic step, or changes nothing that the atomic view sees. */
  lemma RunRefines<C(!new), X(!new)>(prog: Program<C, X>, states: seq<Fine<C, X>>, moves: seq<Move<X>>, i: nat)
    requires Independent(prog) && IsRun(prog, states, moves) && i < |moves|
    ensures Inv(prog, states[i]) && Inv(prog, states[i + 1])
    ensures var s, s' := states[i], states[i + 1];
            || (exists x :: AtomicStep(prog, I.Atomic(s.f), s.c, s.f.current, x, I.Atomic(s'.f), s'.c))
            || (I.Atomic(s'.f) == I.Atomic(s.f) && s'.c == s.c)
  {
    InvInEveryRun(prog, states, moves, i);
    var j := i + 1;
    assert Leads(prog, states[i], moves[i], states[j]);
    MoveRefines(prog, states[i], moves[i]);
  }

  // ---------------------------------------------------------------------
  // Against a model with atomic P and V
  // ---------------------------------------------------------------------

  /** Read by lift, the program's atomic steps are steps of next, and they keep good. */
  ghost predicate Simulates<C(!new), X(!new), S(!new)>(prog: Program<C, X>, lift: (Sys, C) -> S,
                                                       good: S -> bool, next: (S, S) -> bool) {
    && Independent(prog)
    && forall k, c, p: nat, x, k', c' {:trigger AtomicStep(prog, k, c, p, x, k', c')} ::
         good(lift(k, c)) && AtomicStep(prog, k, c, p, x, k', c') ==>
           good(lift(k', c')) && next(lift(k, c), lift(k', c'))
  }

  /** What holds at the start and is kept by atomic steps holds, in the atomic view, in every preemptible run. */
  lemma {:induction false} KeptInEveryRun<C(!new), X(!new), S(!new)>(
      prog: Program<C, X>, lift: (Sys, C) -> S, good: S -> bool, next: (S, S) -> bool,
      states: seq<Fine<C, X>>, moves: seq<Move<X>>, i: nat)
    requires Simulates(prog, lift, good, next) && IsRun(prog, states, moves) && i < |states|
    requires good(lift(states[0].f.k, states[0].c))
    ensures Inv(prog, states[i]) && good(lift(I.Atomic(states[i].f), states[i].c))
  {
    if i == 0 {
      InitInv(prog, states[0]);
    } else {
      KeptInEveryRun(prog, lift, good, next, states, moves, i - 1);
      RunRefines(prog, states, moves, i - 1);
    }
  }

  /** The run as the model sees it: the atomic view of each state. */
  ghost function Views<C, X, S>(lift: (Sys, C) -> S, states: seq<Fine<C, X>>): (r: seq<S>)
    requires forall i :: 0 <= i < |states| ==> I.Shape(states[i].f)
    ensures |r| == |states|
    ensures forall i :: 0 <= i < |states| ==> r[i] == lift(I.Atomic(states[i].f), states[i].c)
  {
    var last := |states| - 1;
    if states == [] then []
    else Views(lift, states[..last]) + [lift(I.Atomic(states[last].f), states[last].c)]
  }

  lemma ShapeInEveryRun<C(!new), X(!new)>(prog: Program<C, X>, states: seq<Fine<C, X>>, moves: seq<Move<X>>)
    requires Independent(prog) && IsRun(prog, states, moves)
    ensures forall i :: 0 <= i < |states| ==> I.Shape(states[i].f)
    ensures I.Atomic(states[0].f) == states[0].f.k
  {
    forall i | 0 <= i < |states| ensures I.Shape(states[i].f) {
      InvInEveryRun(prog, states, moves, i);
    }
    InitInv(prog, states[0]);
  }

  /** The model takes a step here, or sees nothing. */
  ghost predicate Seen<C(!new), X(!new), S(!new)>(lift: (Sys, C) -> S, next: (S, S) -> bool,
                                                  s: Fine<C, X>, s': Fine<C, X>) {
    && I.Shape(s.f) && I.Shape(s'.f)
    && var v, v' := lift(I.Atomic(s.f), s.c), lift(I.Atomic(s'.f), s'.c);
       next(v, v') || v' == v
  }

  ghost predicate AllSeen<C(!new), X(!new), S(!new)>(lift: (Sys, C) -> S, next: (S, S) -> bool,
                                                     states: seq<Fine<C, X>>) {
    forall i, j {:trigger Seen(lift, next, states[i], states[j])} :: 0 <= i < |states| - 1 && j == i + 1 ==>
      Seen(lift, next, states[i], states[j])
  }

  lemma StepSeen<C(!new), X(!new), S(!new)>(
      prog: Program<C, X>, lift: (Sys, C) -> S, good: S -> bool, next: (S, S) -> bool,
      states: seq<Fine<C, X>>, moves: seq<Move<X>>, i: nat)
    requires Simulates(prog, lift, good, next) && IsRun(prog, states, moves) && i < |moves|
    requires good(lift(states[0].f.k, states[0].c))
    ensures Seen(lift, next, states[i], states[i + 1])
  {
    KeptInEveryRun(prog, lift, good, next, states, moves, i);
    RunRefines(prog, states, moves, i);
  }

  lemma ViewsWalk<C(!new), X(!new), S(!new)>(lift: (Sys, C) -> S, next: (S, S) -> bool, states: seq<Fine<C, X>>)
    requires forall i :: 0 <= i < |states| ==> I.Shape(states[i].f)
    requires AllSeen(lift, next, states)
    ensures Walks(Views(lift, states), next)
  {
    var views := Views(lift, states);
    forall i, j {:trigger next(views[i], views[j])} | 0 <= i < |views| - 1 && j == i + 1
      ensures next(views[i], views[j]) || views[j] == views[i]
    {
      assert Seen(lift, next, states[i], states[j]);
    }
  }

  lemma RunSeen<C(!new), X(!new), S(!new)>(
      prog: Program<C, X>, lift: (Sys, C) -> S, good: S -> bool, next: (S, S) -> bool,
      states: seq<Fine<C, X>>, moves: seq<Move<X>>)
    requires Simulates(prog, lift, good, next) && IsRun(prog, states, moves)
    requires good(lift(states[0].f.k, states[0].c))
    ensures AllSeen(lift, next, states)
  {
    forall i, j {:trigger Seen(lift, next, states[i], states[j])} | 0 <= i < |states| - 1 && j == i + 1
      ensures Seen(lift, next, states[i], states[j])
    {
      StepSeen(prog, lift, good, next, states, moves, i);
    }
  }

  /** Every preemptible run is, in the atomic view and but for the moves that it does not see, a run of the model. */
  lemma RunSimulates<C(!new), X(!new), S(!new)>(
      prog: Program<C, X>, lift: (Sys, C) -> S, good: S -> bool, next: (S, S) -> bool,
      states: seq<Fine<C, X>>, moves: seq<Move<X>>)
    requires Simulates(prog, lift, good, next) && IsRun(prog, states, moves)
    requires good(lift(states[0].f.k, states[0].c))
    ensures forall i :: 0 <= i < |states| ==> I.Shape(states[i].f)
    ensures Views(lift, states)[0] == lift(states[0].f.k, states[0].c)
    ensures Walks(Views(lift, states), next) && Steps(Moves(Views(lift, states)), next)
  {
    ShapeInEveryRun(prog, states, moves);
    RunSeen(prog, lift, good, next, states, moves);
    ViewsWalk(lift, next, states);
    MovesStep(Views(lift, states), next);
  }
}

/**
  The Hoare monitor of schedule/synchronize/monitor.c: one entry semaphore, one
  urgent semaphore `next`, one semaphore per condition, and the plain counters
  next_count and x_count.

  Any number of processes and conditions.  A process's program counter says which
  statement of enter, wait, signal or leave it executes next; one step is one
  statement, so a process may be preempted between any two of them.
 */
module Monitor {
  import opened Counting
  import opened Runs
  import opened Semaphores

  const MUTEX: nat := 0
  const NEXT: nat := 1

  function XSem(c: nat): nat { 2 + c }

  datatype Pc =
    | Outside                 // not in the monitor; enter: P(mutex)
    | Inside                  // owns the monitor, running client code
    | WaitInc(c: nat)         // wait: x_count ++
    | WaitTest(c: nat)        //       if next_count > 0
    | WaitVNext(c: nat)       //         V(next)
    | WaitVMutex(c: nat)      //       else V(mutex)
    | WaitP(c: nat)           //       P(x_sem)       (monitor already given away)
    | WaitDec(c: nat)         //       x_count --
    | SigTest(c: nat)         // signal: if x_count > 0
    | SigInc(c: nat)          //         next_count ++
    | SigV(c: nat)            //         V(x_sem)
    | SigP                    //         P(next)      (monitor already given away)
    | SigDec                  //         next_count --
    | LeaveTest               // leave: if next_count > 0
    | LeaveVNext              //          V(next)
    | LeaveVMutex             //        else V(mutex)

  /** What client code asks for next; it matters at Outside and Inside only. */
  datatype Call = Enter | Wait(c: nat) | Signal(c: nat) | Leave

  datatype State = State(k: Sys, pcs: seq<Pc>, nextCount: int, xCount: seq<int>)

  predicate PcOk(pc: Pc, conds: nat) {
    match pc
    case WaitInc(c) => c < conds
    case WaitTest(c) => c < conds
    case WaitVNext(c) => c < conds
    case WaitVMutex(c) => c < conds
    case WaitP(c) => c < conds
    case WaitDec(c) => c < conds
    case SigTest(c) => c < conds
    case SigInc(c) => c < conds
    case SigV(c) => c < conds
    case _ => true
  }

  predicate Shape(s: State) {
    && |s.k.sems| == 2 + |s.xCount|
    && |s.k.tasks| == |s.pcs|
    && forall p :: 0 <= p < |s.pcs| ==> PcOk(s.pcs[p], |s.xCount|)
  }

  /** monitor_init, and every process still outside. */
  ghost predicate Init(s: State) {
    && Shape(s)
    && Fresh(s.k)
    && s.k.sems[MUTEX].value == 1
    && s.k.sems[NEXT].value == 0
    && (forall c :: 0 <= c < |s.xCount| ==> s.k.sems[XSem(c)].value == 0)
    && s.nextCount == 0
    && (forall c :: 0 <= c < |s.xCount| ==> s.xCount[c] == 0)
    && forall p :: 0 <= p < |s.pcs| ==> s.pcs[p] == Outside
  }

  predicate CanStep(s: State, p: nat, call: Call) {
    && Shape(s)
    && p < |s.pcs|
    && s.k.tasks[p] == Runnable
    && (s.pcs[p] == Outside ==> call == Enter)
    && (s.pcs[p] == Inside ==> call != Enter)
    && (call.Wait? ==> call.c < |s.xCount|)
    && (call.Signal? ==> call.c < |s.xCount|)
  }

  /** The semaphore on which the statement at pc calls P. */
  function Takes(pc: Pc): Option<nat> {
    match pc
    case Outside => Some(MUTEX)
    case WaitP(c) => Some(XSem(c))
    case SigP => Some(NEXT)
    case _ => None
  }

  /** The semaphore on which the statement at pc calls V. */
  function Posts(pc: Pc): Option<nat> {
    match pc
    case WaitVNext(_) => Some(NEXT)
    case WaitVMutex(_) => Some(MUTEX)
    case SigV(c) => Some(XSem(c))
    case LeaveVNext => Some(NEXT)
    case LeaveVMutex => Some(MUTEX)
    case _ => None
  }

  /** The statement after the one at pc: the branches test the plain counters. */
  function PcAfter(pc: Pc, call: Call, nextCount: int, xCount: seq<int>): Pc
    requires PcOk(pc, |xCount|)
  {
    match pc
    case Outside => Inside
    case Inside => (match call case Wait(c) => WaitInc(c) case Signal(c) => SigTest(c) case _ => LeaveTest)
    case WaitInc(c) => WaitTest(c)
    case WaitTest(c) => if nextCount > 0 then WaitVNext(c) else WaitVMutex(c)
    case WaitVNext(c) => WaitP(c)
    case WaitVMutex(c) => WaitP(c)
    case WaitP(c) => WaitDec(c)
    case WaitDec(c) => Inside
    case SigTest(c) => if xCount[c] > 0 then SigInc(c) else Inside
    case SigInc(c) => SigV(c)
    case SigV(c) => SigP
    case SigP => SigDec
    case SigDec => Inside
    case LeaveTest => if nextCount > 0 then LeaveVNext else LeaveVMutex
    case LeaveVNext => Outside
    case LeaveVMutex => Outside
  }

  function SysAfter(k: Sys, pc: Pc, p: nat): Sys
    requires |k.sems| >= 2 && PcOk(pc, |k.sems| - 2) && p < |k.tasks|
  {
    if Takes(pc).Some? then P(k, Takes(pc).value, p)
    else if Posts(pc).Some? then V(k, Posts(pc).value)
    else k
  }

  function NextCountAfter(nextCount: int, pc: Pc): int {
    if pc.SigInc? then nextCount + 1 else if pc == SigDec then nextCount - 1 else nextCount
  }

  function XCountAfter(xCount: seq<int>, pc: Pc): seq<int>
    requires PcOk(pc, |xCount|)
  {
    match pc
    case WaitInc(c) => xCount[c := xCount[c] + 1]
    case WaitDec(c) => xCount[c := xCount[c] - 1]
    case _ => xCount
  }

  /** One statement of process p. */
  function Step(s: State, p: nat, call: Call): State
    requires CanStep(s, p, call)
  {
    var pc := s.pcs[p];
    State(SysAfter(s.k, pc, p),
          s.pcs[p := PcAfter(pc, call, s.nextCount, s.xCount)],
          NextCountAfter(s.nextCount, pc),
          XCountAfter(s.xCount, pc))
  }

  ghost predicate Next(s: State, s': State) {
    exists p: nat, call :: CanStep(s, p, call) && s' == Step(s, p, call)
  }

  /** A run: any interleaving of steps of awake processes from the initial state. */
  ghost predicate IsRun(states: seq<State>) {
    && states != []
    && Init(states[0])
    && forall i :: 0 <= i < |states| - 1 ==> Next(states[i], states[i + 1])
  }

  /** A step always changes the state: the process moves on. */
  lemma StepChanges(s: State, p: nat, call: Call)
    requires CanStep(s, p, call)
    ensures Step(s, p, call) != s && Step(s, p, call).pcs[p] != s.pcs[p]
  {
    assert PcOk(s.pcs[p], |s.xCount|);
  }

  ghost predicate StepsOrStays(s: State, s': State) {
    Next(s, s') || s' == s
  }

  ghost predicate Walks(states: seq<State>) {
    forall i, j {:trigger StepsOrStays(states[i], states[j])} :: 0 <= i < |states| - 1 && j == i + 1 ==>
      StepsOrStays(states[i], states[j])
  }

  /**
    A sequence of states that takes steps and stands still is, but for the standing
    still, a run. As a step changes the state, just the steps remain.
   */
  lemma MovesAreRun(states: seq<State>)
    requires states != [] && Init(states[0]) && Walks(states)
    ensures IsRun(Moves(states))
  {
    var next := (s: State, s': State) => Next(s, s');
    forall i, j {:trigger next(states[i], states[j])} | 0 <= i < |states| - 1 && j == i + 1
      ensures next(states[i], states[j]) || states[j] == states[i]
    {
      assert StepsOrStays(states[i], states[j]);
    }
    MovesStep(states, next);
    forall i | 0 <= i < |Moves(states)| - 1 ensures Next(Moves(states)[i], Moves(states)[i + 1]) {
      assert next(Moves(states)[i], Moves(states)[i + 1]);
    }
  }

  /** What one scheduling choice does: a step of p with this call, or nothing if p cannot take it. */
  function Try(s: State, p: nat, call: Call): State {
    if CanStep(s, p, call) then Step(s, p, call) else s
  }

  /** Every choice in turn has its effect. */
  ghost predicate Follows(states: seq<State>, choices: seq<(nat, Call)>) {
    && |states| == |choices| + 1
    && forall i {:trigger choices[i]} :: 0 <= i < |choices| ==>
         states[i + 1] == Try(states[i], choices[i].0, choices[i].1)
  }

  /** Following any choices from the initial state is a run, but for the choices that could not be taken. */
  lemma FollowsRuns(states: seq<State>, choices: seq<(nat, Call)>)
    requires Follows(states, choices) && Init(states[0])
    ensures IsRun(Moves(states)) && Moves(states)[|Moves(states)| - 1] == states[|choices|]
  {
    forall i, j {:trigger StepsOrStays(states[i], states[j])} | 0 <= i < |states| - 1 && j == i + 1
      ensures StepsOrStays(states[i], states[j])
    {
      assert states[i + 1] == Try(states[i], choices[i].0, choices[i].1);
    }
    MovesAreRun(states);
  }

  // ---------------------------------------------------------------------
  // Counting processes
  // ---------------------------------------------------------------------

  /** The semaphore whose P comes just before pc: where a process asleep at pc is parked. */
  function ParksAt(pc: Pc): Option<nat> {
    match pc
    case Inside => Some(MUTEX)
    case SigDec => Some(NEXT)
    case WaitDec(c) => Some(XSem(c))
    case _ => None
  }

  datatype Kind =
    | KOwner                  // has the monitor
    | KSignallers             // counted in next_count
    | KSignalWindow           // about to call P(next)
    | KWaiters(c: nat)        // counted in x_count of c
    | KWaitWindow(c: nat)     // about to call P(x_sem) of c
    | KParked(sem: nat)       // asleep on that semaphore

  predicate Owns(pc: Pc, t: TaskState) {
    t == Runnable && pc != Outside && !pc.WaitP? && pc != SigP
  }

  predicate Is(kind: Kind, pc: Pc, t: TaskState) {
    match kind
    case KOwner => Owns(pc, t)
    case KSignallers => pc.SigV? || pc == SigP || pc == SigDec
    case KSignalWindow => pc == SigP
    case KWaiters(c) =>
      pc == WaitTest(c) || pc == WaitVNext(c) || pc == WaitVMutex(c) || pc == WaitP(c) || pc == WaitDec(c)
    case KWaitWindow(c) => pc == WaitP(c)
    case KParked(sem) => t == Sleeping && ParksAt(pc) == Some(sem)
  }

  function CountIn(kind: Kind, pcs: seq<Pc>, tasks: seq<TaskState>): nat
    requires |pcs| == |tasks|
  {
    if pcs == [] then 0
    else
      var last := |pcs| - 1;
      CountIn(kind, pcs[..last], tasks[..last]) + Bit(Is(kind, pcs[last], tasks[last]))
  }

  function Count(kind: Kind, s: State): nat
    requires |s.pcs| == |s.k.tasks|
  {
    CountIn(kind, s.pcs, s.k.tasks)
  }

  function Marks(kind: Kind, pcs: seq<Pc>, tasks: seq<TaskState>): seq<bool>
    requires |pcs| == |tasks|
  {
    seq(|pcs|, i requires 0 <= i < |pcs| => Is(kind, pcs[i], tasks[i]))
  }

  lemma {:induction false} CountsMarks(kind: Kind, pcs: seq<Pc>, tasks: seq<TaskState>)
    requires |pcs| == |tasks|
    ensures CountIn(kind, pcs, tasks) == Marked(Marks(kind, pcs, tasks))
  {
    if pcs != [] {
      var last := |pcs| - 1;
      CountsMarks(kind, pcs[..last], tasks[..last]);
      assert Marks(kind, pcs, tasks)[..last] == Marks(kind, pcs[..last], tasks[..last]);
    }
  }

  lemma CountUpdate(kind: Kind, pcs: seq<Pc>, tasks: seq<TaskState>, p: nat, pc: Pc, t: TaskState)
    requires |pcs| == |tasks| && p < |pcs|
    ensures CountIn(kind, pcs[p := pc], tasks[p := t])
            == CountIn(kind, pcs, tasks) - Bit(Is(kind, pcs[p], tasks[p])) + Bit(Is(kind, pc, t))
    ensures CountIn(kind, pcs, tasks) >= Bit(Is(kind, pcs[p], tasks[p]))
  {
    var marks := Marks(kind, pcs, tasks);
    CountsMarks(kind, pcs, tasks);
    CountsMarks(kind, pcs[p := pc], tasks[p := t]);
    MarkedUpdate(marks, p, Is(kind, pc, t));
    assert Marks(kind, pcs[p := pc], tasks[p := t]) == marks[p := Is(kind, pc, t)];
  }

  lemma CountNone(kind: Kind, pcs: seq<Pc>, tasks: seq<TaskState>)
    requires |pcs| == |tasks|
    requires forall p :: 0 <= p < |pcs| ==> !Is(kind, pcs[p], tasks[p])
    ensures CountIn(kind, pcs, tasks) == 0
  {
    CountsMarks(kind, pcs, tasks);
    MarkedNone(Marks(kind, pcs, tasks));
  }

  lemma CountWitness(kind: Kind, s: State) returns (p: nat)
    requires |s.pcs| == |s.k.tasks| && Count(kind, s) > 0
    ensures p < |s.pcs| && Is(kind, s.pcs[p], s.k.tasks[p])
  {
    if forall q :: 0 <= q < |s.pcs| ==> !Is(kind, s.pcs[q], s.k.tasks[q]) {
      CountNone(kind, s.pcs, s.k.tasks);
    }
    p :| p < |s.pcs| && Is(kind, s.pcs[p], s.k.tasks[p]);
  }

  lemma CountMember(kind: Kind, s: State, p: nat)
    requires |s.pcs| == |s.k.tasks| && p < |s.pcs| && Is(kind, s.pcs[p], s.k.tasks[p])
    ensures Count(kind, s) >= 1
  {
    CountUpdate(kind, s.pcs, s.k.tasks, p, s.pcs[p], s.k.tasks[p]);
  }

  /** A second member makes two; replacing p by something outside the kind removes one. */
  lemma CountTwo(kind: Kind, s: State, p: nat, q: nat)
    requires |s.pcs| == |s.k.tasks| && p < |s.pcs| && q < |s.pcs| && p != q
    requires Is(kind, s.pcs[p], s.k.tasks[p]) && Is(kind, s.pcs[q], s.k.tasks[q])
    ensures Count(kind, s) >= 2
  {
    CountUpdate(kind, s.pcs, s.k.tasks, p, Outside, Runnable);
    CountUpdate(kind, s.pcs[p := Outside], s.k.tasks[p := Runnable], q, Outside, Runnable);
  }

  lemma CountSplit(all: Kind, part: Kind, rest: Kind, pcs: seq<Pc>, tasks: seq<TaskState>)
    requires |pcs| == |tasks|
    requires forall p :: 0 <= p < |pcs| ==>
               Bit(Is(all, pcs[p], tasks[p])) == Bit(Is(part, pcs[p], tasks[p])) + Bit(Is(rest, pcs[p], tasks[p]))
    ensures CountIn(all, pcs, tasks) == CountIn(part, pcs, tasks) + CountIn(rest, pcs, tasks)
  {
    CountsMarks(all, pcs, tasks);
    CountsMarks(part, pcs, tasks);
    CountsMarks(rest, pcs, tasks);
    MarkedSplit(Marks(all, pcs, tasks), Marks(part, pcs, tasks), Marks(rest, pcs, tasks));
  }

  /** Sum of max(value, 0) over the semaphores: the monitor tokens lying free. */
  function Tokens(sems: seq<Sem>): nat {
    if sems == [] then 0
    else
      var v := sems[|sems| - 1].value;
      Tokens(sems[..|sems| - 1]) + if v > 0 then v else 0
  }

  lemma {:induction false} TokensUpdate(sems: seq<Sem>, i: nat, sem: Sem)
    requires i < |sems|
    ensures Tokens(sems[i := sem]) == Tokens(sems) - Pos(sems[i].value) + Pos(sem.value)
    ensures Tokens(sems) >= Pos(sems[i].value)
  {
    var last := |sems| - 1;
    if i == last {
      assert sems[i := sem][..last] == sems[..last];
    } else {
      assert sems[i := sem][..last] == sems[..last][i := sem];
      TokensUpdate(sems[..last], i, sem);
    }
  }

  lemma {:induction false} TokensZero(sems: seq<Sem>)
    requires forall i :: 0 <= i < |sems| ==> sems[i].value <= 0
    ensures Tokens(sems) == 0
  {
    if sems != [] {
      TokensZero(sems[..|sems| - 1]);
    }
  }

  // ---------------------------------------------------------------------
  // The invariant
  // ---------------------------------------------------------------------

  /** Exactly one monitor token: one process owns the monitor, or one semaphore holds it. */
  predicate OneToken(s: State)
    requires Shape(s)
  {
    Count(KOwner, s) + Tokens(s.k.sems) == 1
  }

  ghost predicate CountersExact(s: State)
    requires Shape(s)
  {
    && s.nextCount == Count(KSignallers, s)
    && forall c :: 0 <= c < |s.xCount| ==> s.xCount[c] == Count(KWaiters(c), s)
  }

  /** A token in `next` or in an x_sem is on its way to a process about to call P there. */
  ghost predicate TokensClaimed(s: State)
    requires Shape(s)
  {
    && s.k.sems[NEXT].value <= Count(KSignalWindow, s)
    && forall c :: 0 <= c < |s.xCount| ==> s.k.sems[XSem(c)].value <= Count(KWaitWindow(c), s)
  }

  ghost predicate ParkedRight(s: State)
    requires Shape(s)
  {
    && (forall m, q: nat {:trigger q in s.k.sems[m].queue} ::
          0 <= m < |s.k.sems| && q in s.k.sems[m].queue ==> q < |s.pcs| && ParksAt(s.pcs[q]) == Some(m))
    && (forall m :: 0 <= m < |s.k.sems| ==> |s.k.sems[m].queue| == Count(KParked(m), s))
  }

  /** What a process knows from the test it has just made. */
  predicate Knows(s: State, pc: Pc)
    requires PcOk(pc, |s.xCount|)
  {
    match pc
    case WaitVNext(_) => s.nextCount > 0
    case LeaveVNext => s.nextCount > 0
    case WaitVMutex(_) => s.nextCount <= 0
    case LeaveVMutex => s.nextCount <= 0
    case SigInc(c) => s.xCount[c] > 0
    case SigV(c) => s.xCount[c] > 0
    case _ => true
  }

  ghost predicate TestsStillTrue(s: State)
    requires Shape(s)
  {
    && (forall p :: 0 <= p < |s.pcs| ==> Knows(s, s.pcs[p]))
    && (forall p :: 0 <= p < |s.pcs| && s.k.tasks[p] == Sleeping ==> ParksAt(s.pcs[p]).Some?)
    && (s.k.sems[MUTEX].value > 0 ==> s.nextCount <= 0)
  }

  /** The part about queues alone. */
  ghost predicate QueuesRight(s: State) {
    Shape(s) && WellFormed(s.k) && ParkedRight(s)
  }

  ghost predicate Inv(s: State) {
    && QueuesRight(s)
    && OneToken(s)
    && CountersExact(s)
    && TokensClaimed(s)
    && TestsStillTrue(s)
  }

  lemma InitInv(s: State)
    requires Init(s)
    ensures Inv(s)
  {
    var k := s.k;
    assert forall m :: 0 <= m < |k.sems| ==> LengthMatches(k.sems[m]);
    forall kind ensures Count(kind, s) == 0 {
      CountNone(kind, s.pcs, k.tasks);
    }
    forall m | 1 <= m < |k.sems| ensures k.sems[m].value == 0 {
      if m > 1 {
        assert k.sems[XSem(m - 2)].value == 0;
      }
    }
    TokensUpdate(k.sems, MUTEX, Sem(0, []));
    TokensZero(k.sems[MUTEX := Sem(0, [])]);
  }
}

/**
  The monitor as the objects monitor.c updates in place, proved against the
  transition function of module Monitor.
 */
module MonitorObject {
  import opened Semaphores
  import opened Monitor
  import opened MonitorSafety
  import opened Runs

  /** struct condition_t. */
  class Condition {
    const xSem: Semaphore
    var xCount: int

    constructor ()
      ensures fresh(xSem) && xSem.View() == Sem(0, []) && xCount == 0
    {
      xSem := new Semaphore(0);
      xCount := 0;
    }
  }

  /** The array of cond_num conditions monitor_init allocates. */
  method MakeConditions(n: nat) returns (made: seq<Condition>)
    ensures |made| == n
    ensures forall c :: 0 <= c < n ==>
              fresh(made[c]) && fresh(made[c].xSem) && made[c].xSem.View() == Sem(0, []) && made[c].xCount == 0
    ensures forall c, d :: 0 <= c < d < n ==> made[c] != made[d] && made[c].xSem != made[d].xSem
  {
    made := [];
    for i := 0 to n
      invariant |made| == i
      invariant forall c :: 0 <= c < i ==>
                  fresh(made[c]) && fresh(made[c].xSem) && made[c].xSem.View() == Sem(0, []) && made[c].xCount == 0
      invariant forall c, d :: 0 <= c < d < i ==> made[c] != made[d] && made[c].xSem != made[d].xSem
    {
      var cv := new Condition();
      made := made + [cv];
    }
  }

  /** struct monitor_t, with the state field of every pcb and the statement each process executes next. */
  class MonitorT {
    const mutex: Semaphore
    const next: Semaphore
    var nextCount: int
    const cvs: seq<Condition>
    const tasks: array<TaskState>
    const pcs: array<Pc>

    /** The semaphores, numbered as in module Monitor. */
    function SemAt(m: nat): Semaphore
      requires m < 2 + |cvs|
    {
      if m == MUTEX then mutex else if m == NEXT then next else cvs[m - 2].xSem
    }

    ghost function Repr(): set<object> {
      {this, tasks, pcs} + (set c | 0 <= c < |cvs| :: cvs[c]) + (set m | 0 <= m < 2 + |cvs| :: SemAt(m))
    }

    /** All the parts are separate objects. */
    ghost predicate Valid() {
      && (forall m, n :: 0 <= m < n < 2 + |cvs| ==> SemAt(m) != SemAt(n))
      && (forall c, d :: 0 <= c < d < |cvs| ==> cvs[c] != cvs[d])
    }

    ghost function View(): State
      reads Repr()
    {
      State(Sys(seq(2 + |cvs|, m requires 0 <= m < 2 + |cvs| reads Repr() => SemAt(m).View()), tasks[..]),
            pcs[..],
            nextCount,
            seq(|cvs|, c requires 0 <= c < |cvs| reads Repr() => cvs[c].xCount))
    }

    /** monitor_init with condNum conditions, for procs processes that are all outside. */
    constructor (condNum: nat, procs: nat)
      ensures Valid() && fresh(Repr())
      ensures |cvs| == condNum && pcs.Length == procs
      ensures Init(View())
    {
      var made := MakeConditions(condNum);
      cvs := made;
      mutex := new Semaphore(1);
      next := new Semaphore(0);
      nextCount := 0;
      tasks := new TaskState[procs](_ => Runnable);
      pcs := new Pc[procs](_ => Outside);
      new;
      forall m | 0 <= m < 2 + |cvs| ensures SemAt(m).View() == Sem(if m == MUTEX then 1 else 0, []) {
      }
      Initial();
    }

    /** Fields with their start values make an initial state. */
    lemma Initial()
      requires forall m :: 0 <= m < 2 + |cvs| ==> SemAt(m).View() == Sem(if m == MUTEX then 1 else 0, [])
      requires nextCount == 0 && tasks.Length == pcs.Length
      requires forall c :: 0 <= c < |cvs| ==> cvs[c].xCount == 0
      requires forall p :: 0 <= p < pcs.Length ==> tasks[p] == Runnable && pcs[p] == Outside
      ensures Init(View())
    {
    }

    method Down(m: nat, p: nat)
      requires Valid() && m < 2 + |cvs| && p < tasks.Length
      modifies SemAt(m), tasks
      ensures View() == old(View()).(k := P(old(View()).k, m, p))
    {
      ghost var s := View();
      SemAt(m).P(tasks, p);
      assert View().k.sems == s.k.sems[m := Semaphores.Down(s.k.sems[m], p)];
      assert View().xCount == s.xCount;
    }

    method Up(m: nat)
      requires Valid() && m < 2 + |cvs| && WellFormed(View().k)
      modifies SemAt(m), tasks
      ensures View() == old(View()).(k := V(old(View()).k, m))
    {
      ghost var s := View();
      assert s.k.sems[m] == SemAt(m).View();
      forall i | 0 <= i < |SemAt(m).queue| ensures SemAt(m).queue[i] < tasks.Length {
        assert SemAt(m).queue[i] in s.k.sems[m].queue;
        assert Asleep(s.k, SemAt(m).queue[i]);
      }
      SemAt(m).V(tasks);
      assert View().k.sems == s.k.sems[m := Semaphores.Up(s.k.sems[m])];
      assert View().xCount == s.xCount;
    }

    method SetXCount(c: nat, v: int)
      requires Valid() && c < |cvs|
      modifies cvs[c]
      ensures View() == old(View()).(xCount := old(View()).xCount[c := v])
    {
      ghost var s := View();
      cvs[c].xCount := v;
      assert View().k == s.k;
      assert View().xCount == s.xCount[c := v];
    }

    method Goto(p: nat, pc: Pc)
      requires p < pcs.Length
      modifies pcs
      ensures View() == old(View()).(pcs := old(View()).pcs[p := pc])
    {
      ghost var s := View();
      pcs[p] := pc;
      assert View().k == s.k && View().xCount == s.xCount;
    }

    method SetNextCount(v: int)
      modifies this
      ensures View() == old(View()).(nextCount := v)
    {
      ghost var s := View();
      nextCount := v;
      assert View().k == s.k && View().xCount == s.xCount;
    }

    /** The statements of wait. */
    method StepInWait(p: nat, call: Call)
      requires Valid() && WellFormed(View().k) && CanStep(View(), p, call)
      requires pcs[p].WaitInc? || pcs[p].WaitTest? || pcs[p].WaitVNext?
               || pcs[p].WaitVMutex? || pcs[p].WaitP? || pcs[p].WaitDec?
      modifies Repr()
      ensures View() == Monitor.Step(old(View()), p, call)
    {
      if pcs[p].WaitVNext? || pcs[p].WaitVMutex? || pcs[p].WaitP? {
        PassOn(p, call);
      } else {
        CountSelf(p, call);
      }
    }

    /** x_count ++, the test of next_count, and x_count -- of wait. */
    method CountSelf(p: nat, call: Call)
      requires Valid() && CanStep(View(), p, call)
      requires pcs[p].WaitInc? || pcs[p].WaitTest? || pcs[p].WaitDec?
      modifies Repr()
      ensures View() == Monitor.Step(old(View()), p, call)
    {
      match pcs[p] {
        case WaitInc(c) =>
          SetXCount(c, cvs[c].xCount + 1);
          Goto(p, WaitTest(c));
        case WaitTest(c) =>
          if nextCount > 0 { Goto(p, WaitVNext(c)); } else { Goto(p, WaitVMutex(c)); }
        case WaitDec(c) =>
          SetXCount(c, cvs[c].xCount - 1);
          Goto(p, Inside);
      }
    }

    /** V(next) or V(mutex), and P(x_sem), of wait. */
    method PassOn(p: nat, call: Call)
      requires Valid() && WellFormed(View().k) && CanStep(View(), p, call)
      requires pcs[p].WaitVNext? || pcs[p].WaitVMutex? || pcs[p].WaitP?
      modifies Repr()
      ensures View() == Monitor.Step(old(View()), p, call)
    {
      match pcs[p] {
        case WaitVNext(c) =>
          Up(NEXT);
          Goto(p, WaitP(c));
        case WaitVMutex(c) =>
          Up(MUTEX);
          Goto(p, WaitP(c));
        case WaitP(c) =>
          Down(XSem(c), p);
          Goto(p, WaitDec(c));
      }
    }

    /** The statements of signal. */
    method StepInSignal(p: nat, call: Call)
      requires Valid() && WellFormed(View().k) && CanStep(View(), p, call)
      requires pcs[p].SigTest? || pcs[p].SigInc? || pcs[p].SigV? || pcs[p].SigP? || pcs[p].SigDec?
      modifies Repr()
      ensures View() == Monitor.Step(old(View()), p, call)
    {
      match pcs[p] {
        case SigTest(c) =>
          if cvs[c].xCount > 0 { Goto(p, SigInc(c)); } else { Goto(p, Inside); }
        case SigInc(c) =>
          SetNextCount(nextCount + 1);
          Goto(p, SigV(c));
        case SigV(c) =>
          Up(XSem(c));
          Goto(p, SigP);
        case SigP =>
          Down(NEXT, p);
          Goto(p, SigDec);
        case SigDec =>
          SetNextCount(nextCount - 1);
          Goto(p, Inside);
      }
    }

    /** The statements of leave. */
    method StepInLeave(p: nat, call: Call)
      requires Valid() && WellFormed(View().k) && CanStep(View(), p, call)
      requires pcs[p].LeaveTest? || pcs[p].LeaveVNext? || pcs[p].LeaveVMutex?
      modifies Repr()
      ensures View() == Monitor.Step(old(View()), p, call)
    {
      match pcs[p] {
        case LeaveTest =>
          if nextCount > 0 { Goto(p, LeaveVNext); } else { Goto(p, LeaveVMutex); }
        case LeaveVNext =>
          Up(NEXT);
          Goto(p, Outside);
        case LeaveVMutex =>
          Up(MUTEX);
          Goto(p, Outside);
      }
    }

    /** enter, and the calls client code makes while it owns the monitor. */
    method StepInClient(p: nat, call: Call)
      requires Valid() && WellFormed(View().k) && CanStep(View(), p, call)
      requires pcs[p].Outside? || pcs[p].Inside?
      modifies Repr()
      ensures View() == Monitor.Step(old(View()), p, call)
    {
      if pcs[p] == Outside {
        Down(MUTEX, p);
        Goto(p, Inside);
      } else {
        if call.Wait? {
          Goto(p, WaitInc(call.c));
        } else if call.Signal? {
          Goto(p, SigTest(call.c));
        } else {
          Goto(p, LeaveTest);
        }
      }
    }

    /** Executes the statement process p stands at. */
    method Step(p: nat, call: Call)
      requires Valid() && Inv(View()) && CanStep(View(), p, call)
      modifies Repr()
      ensures View() == Monitor.Step(old(View()), p, call)
      ensures Inv(View())
    {
      StepKeepsInv(View(), p, call);
      match pcs[p] {
        case Outside => StepInClient(p, call);
        case Inside => StepInClient(p, call);
        case WaitInc(_) => StepInWait(p, call);
        case WaitTest(_) => StepInWait(p, call);
        case WaitVNext(_) => StepInWait(p, call);
        case WaitVMutex(_) => StepInWait(p, call);
        case WaitP(_) => StepInWait(p, call);
        case WaitDec(_) => StepInWait(p, call);
        case LeaveTest => StepInLeave(p, call);
        case LeaveVNext => StepInLeave(p, call);
        case LeaveVMutex => StepInLeave(p, call);
        case _ => StepInSignal(p, call);
      }
    }

    /**
      Any interleaving: each choice names the process to run and what its client code
      wants. Every choice has its effect, in turn, and the whole is a run.
     */
    method RunAll(choices: seq<(nat, Call)>) returns (ghost states: seq<State>)
      requires Valid() && Init(View())
      modifies Repr()
      ensures Follows(states, choices) && states[0] == old(View()) && states[|choices|] == View()
      ensures Monitor.IsRun(Moves(states)) && Inv(View())
    {
      states := [View()];
      InitInv(View());
      for i := 0 to |choices|
        invariant Inv(View()) && Follows(states, choices[..i])
        invariant states[0] == old(View()) && states[i] == View()
      {
        StepIfAble(choices[i].0, choices[i].1);
        FollowsOneMore(states, choices, i, View());
        states := states + [View()];
      }
      assert choices[..|choices|] == choices;
      FollowsRuns(states, choices);
    }

    method StepIfAble(p: nat, call: Call)
      requires Valid() && Inv(View())
      modifies Repr()
      ensures View() == Try(old(View()), p, call) && Inv(View())
    {
      if CanStepNow(p, call) {
        Step(p, call);
      }
    }

    /** Whether p is awake and the call fits where it stands. */
    predicate CanStepNow(p: nat, call: Call)
      requires Valid() && Inv(View())
      reads Repr()
      ensures CanStepNow(p, call) <==> CanStep(View(), p, call)
    {
      && p < pcs.Length
      && tasks[p] == Runnable
      && (pcs[p] == Outside ==> call == Enter)
      && (pcs[p] == Inside ==> call != Enter)
      && (call.Wait? ==> call.c < |cvs|)
      && (call.Signal? ==> call.c < |cvs|)
    }
  }

  lemma FollowsOneMore(states: seq<State>, choices: seq<(nat, Call)>, i: nat, next: State)
    requires i < |choices| && Follows(states, choices[..i])
    requires next == Try(states[i], choices[i].0, choices[i].1)
    ensures Follows(states + [next], choices[..i + 1])
  {
    var longer := states + [next];
    forall n {:trigger choices[..i + 1][n]} | 0 <= n <= i
      ensures longer[n + 1] == Try(longer[n], choices[..i + 1][n].0, choices[..i + 1][n].1)
    {
      if n < i {
        assert choices[..i][n] == choices[..i + 1][n];
      }
    }
  }
}

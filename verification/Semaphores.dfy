/**
  Counting semaphores with a FIFO sleep queue (schedule/synchronize/semaphore.c).

  P and V run with interrupts off, so each is one atomic step here; module
  Interrupts justifies that.  Processes are the non-idle ones, numbered from 0.
 */
module Semaphores {

  /** pcb->state, as far as P and V look at it. */
  datatype TaskState = Runnable | Sleeping

  datatype Option<+T> = None | Some(value: T) {
    function GetOr(default: T): T {
      if Some? then value else default
    }
  }

  /** One semaphore: its value and the processes in its queue, oldest first. */
  datatype Sem = Sem(value: int, queue: seq<nat>)

  /** All semaphores and the state of every process. */
  datatype Sys = Sys(sems: seq<Sem>, tasks: seq<TaskState>)

  // ---------------------------------------------------------------------
  // What P and V do
  // ---------------------------------------------------------------------

  function Down(sem: Sem, p: nat): Sem {
    if sem.value - 1 < 0 then Sem(sem.value - 1, sem.queue + [p]) else sem.(value := sem.value - 1)
  }

  /** The process V takes out of the queue, if it looks there and finds one. */
  function Wakes(sem: Sem): Option<nat> {
    if sem.value + 1 <= 0 && sem.queue != [] then Some(sem.queue[0]) else None
  }

  function Up(sem: Sem): Sem {
    if Wakes(sem).Some? then Sem(sem.value + 1, sem.queue[1..]) else sem.(value := sem.value + 1)
  }

  function P(k: Sys, s: nat, p: nat): Sys
    requires s < |k.sems| && p < |k.tasks|
  {
    Sys(k.sems[s := Down(k.sems[s], p)],
        if k.sems[s].value - 1 < 0 then k.tasks[p := Sleeping] else k.tasks)
  }

  function V(k: Sys, s: nat): Sys
    requires s < |k.sems|
  {
    Sys(k.sems[s := Up(k.sems[s])],
        match Wakes(k.sems[s])
        case Some(w) => if w < |k.tasks| then k.tasks[w := Runnable] else k.tasks
        case None => k.tasks)
  }

  // ---------------------------------------------------------------------
  // The semaphore invariant
  // ---------------------------------------------------------------------

  predicate LengthMatches(sem: Sem) {
    |sem.queue| == if sem.value < 0 then -sem.value else 0
  }

  predicate Asleep(k: Sys, q: nat) {
    q < |k.tasks| && k.tasks[q] == Sleeping
  }

  /** Queues hold sleeping processes. */
  ghost predicate QueuedSleep(k: Sys) {
    forall s, q: nat {:trigger q in k.sems[s].queue} :: 0 <= s < |k.sems| && q in k.sems[s].queue ==> Asleep(k, q)
  }

  ghost predicate NoRepeats(queue: seq<nat>) {
    forall i, j :: 0 <= i < j < |queue| ==> queue[i] != queue[j]
  }

  /** No process is queued twice, neither in one queue nor in two. */
  ghost predicate QueuedOnce(k: Sys) {
    && (forall s :: 0 <= s < |k.sems| ==> NoRepeats(k.sems[s].queue))
    && (forall s, t, q: nat {:trigger q in k.sems[s].queue, q in k.sems[t].queue} ::
          0 <= s < |k.sems| && 0 <= t < |k.sems| && s != t && q in k.sems[s].queue ==> q !in k.sems[t].queue)
  }

  ghost predicate Queued(k: Sys, p: nat) {
    exists s :: 0 <= s < |k.sems| && p in k.sems[s].queue
  }

  ghost predicate SleepersQueued(k: Sys) {
    forall p :: 0 <= p < |k.tasks| && k.tasks[p] == Sleeping ==> Queued(k, p)
  }

  ghost predicate WellFormed(k: Sys) {
    && (forall s :: 0 <= s < |k.sems| ==> LengthMatches(k.sems[s]))
    && QueuedSleep(k)
    && QueuedOnce(k)
    && SleepersQueued(k)
  }

  /** semaphore_init on every semaphore, with non-negative start values and everyone awake. */
  ghost predicate Fresh(k: Sys) {
    && (forall s :: 0 <= s < |k.sems| ==> k.sems[s].value >= 0 && k.sems[s].queue == [])
    && (forall p :: 0 <= p < |k.tasks| ==> k.tasks[p] == Runnable)
  }

  lemma PKeepsWellFormed(k: Sys, s: nat, p: nat)
    requires s < |k.sems| && p < |k.tasks|
    requires WellFormed(k) && k.tasks[p] == Runnable
    ensures WellFormed(P(k, s, p))
  {
    var k' := P(k, s, p);
    assert LengthMatches(k.sems[s]);
    forall t, q: nat | 0 <= t < |k.sems|
      ensures q in k'.sems[t].queue <==> q in k.sems[t].queue || (t == s && q == p && k.sems[s].value <= 0)
    {
    }
    assert p !in k.sems[s].queue;
    forall t, q: nat | 0 <= t < |k'.sems| && q in k'.sems[t].queue
      ensures Asleep(k', q)
    {
      assert q in k.sems[t].queue || q == p;
    }
    forall q | 0 <= q < |k'.tasks| && k'.tasks[q] == Sleeping ensures Queued(k', q) {
      if k.tasks[q] == Sleeping {
        var t :| 0 <= t < |k.sems| && q in k.sems[t].queue;
        assert q in k'.sems[t].queue;
      } else {
        assert q in k'.sems[s].queue;
      }
    }
  }

  /** V on a well-formed system finds the queue non-empty whenever it looks into it. */
  lemma VNeverDequeuesEmpty(k: Sys, s: nat)
    requires s < |k.sems| && WellFormed(k)
    ensures k.sems[s].value + 1 <= 0 <==> Wakes(k.sems[s]).Some?
    ensures Wakes(k.sems[s]).Some? ==>
              var w := Wakes(k.sems[s]).value;
              w < |k.tasks| && k.tasks[w] == Sleeping && V(k, s).tasks == k.tasks[w := Runnable]
  {
    assert LengthMatches(k.sems[s]);
    if k.sems[s].queue != [] {
      assert k.sems[s].queue[0] in k.sems[s].queue;
    }
  }

  lemma VKeepsWellFormed(k: Sys, s: nat)
    requires s < |k.sems| && WellFormed(k)
    ensures WellFormed(V(k, s))
  {
    var k' := V(k, s);
    VNeverDequeuesEmpty(k, s);
    assert LengthMatches(k.sems[s]);
    assert NoRepeats(k.sems[s].queue);
    forall t, q: nat | 0 <= t < |k.sems|
      ensures q in k'.sems[t].queue <==>
              q in k.sems[t].queue && !(t == s && Wakes(k.sems[s]) == Some(q))
    {
      if t == s && Wakes(k.sems[s]).Some? {
        assert k.sems[s].queue == [k.sems[s].queue[0]] + k'.sems[s].queue;
      }
    }
    assert NoRepeats(k'.sems[s].queue);
    forall t, u, q: nat | 0 <= t < |k'.sems| && 0 <= u < |k'.sems| && t != u && q in k'.sems[t].queue
      ensures q !in k'.sems[u].queue
    {
      assert q in k.sems[t].queue;
      assert q !in k.sems[u].queue;
    }
    forall t, q: nat | 0 <= t < |k'.sems| && q in k'.sems[t].queue
      ensures Asleep(k', q)
    {
      assert q in k.sems[t].queue;
      if Wakes(k.sems[s]).Some? {
        assert Wakes(k.sems[s]).value in k.sems[s].queue;
      }
    }
    forall q | 0 <= q < |k'.tasks| && k'.tasks[q] == Sleeping ensures Queued(k', q) {
      var t :| 0 <= t < |k.sems| && q in k.sems[t].queue;
      assert q in k'.sems[t].queue;
    }
  }

  // ---------------------------------------------------------------------
  // Whole runs: any interleaving of P and V by awake processes
  // ---------------------------------------------------------------------

  datatype Op = DoP(p: nat, s: nat) | DoV(p: nat, s: nat)

  predicate CanDo(k: Sys, op: Op) {
    op.p < |k.tasks| && op.s < |k.sems| && k.tasks[op.p] == Runnable
  }

  function Do(k: Sys, op: Op): Sys
    requires CanDo(k, op)
  {
    match op
    case DoP(p, s) => P(k, s, p)
    case DoV(p, s) => V(k, s)
  }

  ghost predicate IsRun(ops: seq<Op>, states: seq<Sys>) {
    && |states| == |ops| + 1
    && Fresh(states[0])
    && forall i :: 0 <= i < |ops| ==> CanDo(states[i], ops[i]) && states[i + 1] == Do(states[i], ops[i])
  }

  /** Adding one operation to a run gives a run. */
  ghost function Extended(ops: seq<Op>, states: seq<Sys>, op: Op): (r: (seq<Op>, seq<Sys>))
    requires IsRun(ops, states) && CanDo(states[|ops|], op)
    ensures IsRun(r.0, r.1) && r.1[|r.0|] == Do(states[|ops|], op)
  {
    (ops + [op], states + [Do(states[|ops|], op)])
  }

  function CountP(ops: seq<Op>, s: nat): nat {
    if ops == [] then 0
    else CountP(ops[..|ops| - 1], s) + if ops[|ops| - 1].DoP? && ops[|ops| - 1].s == s then 1 else 0
  }

  function CountV(ops: seq<Op>, s: nat): nat {
    if ops == [] then 0
    else CountV(ops[..|ops| - 1], s) + if ops[|ops| - 1].DoV? && ops[|ops| - 1].s == s then 1 else 0
  }

  /** The processes put to sleep on s, in the order in which it happened. */
  function Slept(ops: seq<Op>, states: seq<Sys>, s: nat): seq<nat>
    requires |states| == |ops| + 1
  {
    if ops == [] then []
    else
      var last := |ops| - 1;
      var before := Slept(ops[..last], states[..|ops|], s);
      if ops[last].DoP? && ops[last].s == s && s < |states[last].sems| && states[last].sems[s].value <= 0
      then before + [ops[last].p] else before
  }

  /** The processes woken from s, in the order in which it happened. */
  function Woken(ops: seq<Op>, states: seq<Sys>, s: nat): seq<nat>
    requires |states| == |ops| + 1
  {
    if ops == [] then []
    else
      var last := |ops| - 1;
      var before := Woken(ops[..last], states[..|ops|], s);
      if ops[last].DoV? && ops[last].s == s && s < |states[last].sems| && Wakes(states[last].sems[s]).Some?
      then before + [Wakes(states[last].sems[s]).value] else before
  }

  lemma {:induction false} RunShape(ops: seq<Op>, states: seq<Sys>, i: nat)
    requires IsRun(ops, states) && i < |states|
    ensures |states[i].sems| == |states[0].sems| && |states[i].tasks| == |states[0].tasks|
  {
    if i > 0 {
      RunShape(ops, states, i - 1);
      assert states[i] == Do(states[i - 1], ops[i - 1]);
    }
  }

  lemma RunPrefix(ops: seq<Op>, states: seq<Sys>)
    requires IsRun(ops, states) && ops != []
    ensures IsRun(ops[..|ops| - 1], states[..|ops|])
  {
  }

  lemma {:induction false} WellFormedInEveryRun(ops: seq<Op>, states: seq<Sys>)
    requires IsRun(ops, states)
    ensures WellFormed(states[|ops|])
  {
    if ops == [] {
      var k := states[0];
      assert forall s :: 0 <= s < |k.sems| ==> LengthMatches(k.sems[s]);
    } else {
      var last := |ops| - 1;
      RunPrefix(ops, states);
      WellFormedInEveryRun(ops[..last], states[..|ops|]);
      assert CanDo(states[last], ops[last]) && states[last + 1] == Do(states[last], ops[last]);
      match ops[last]
      case DoP(p, s) => PKeepsWellFormed(states[last], s, p);
      case DoV(p, s) => VKeepsWellFormed(states[last], s);
    }
  }

  /** value == initial value + completed V steps - started P steps. */
  lemma {:induction false} ValueAccounting(ops: seq<Op>, states: seq<Sys>, s: nat)
    requires IsRun(ops, states) && s < |states[0].sems|
    ensures |states[|ops|].sems| == |states[0].sems|
    ensures states[|ops|].sems[s].value == states[0].sems[s].value + CountV(ops, s) - CountP(ops, s)
  {
    RunShape(ops, states, |ops|);
    if ops != [] {
      var last := |ops| - 1;
      RunPrefix(ops, states);
      ValueAccounting(ops[..last], states[..|ops|], s);
      assert CanDo(states[last], ops[last]) && states[last + 1] == Do(states[last], ops[last]);
    }
  }

  /** Wake-ups are first-in first-out: those who slept are those woken, in the same order, then those still queued. */
  lemma {:induction false} WakeupsAreFifo(ops: seq<Op>, states: seq<Sys>, s: nat)
    requires IsRun(ops, states) && s < |states[0].sems|
    ensures |states[|ops|].sems| == |states[0].sems|
    ensures Slept(ops, states, s) == Woken(ops, states, s) + states[|ops|].sems[s].queue
  {
    RunShape(ops, states, |ops|);
    if ops != [] {
      var last := |ops| - 1;
      RunPrefix(ops, states);
      RunShape(ops, states, last);
      WakeupsAreFifo(ops[..last], states[..|ops|], s);
      var before, after := states[last], states[last + 1];
      assert CanDo(before, ops[last]) && after == Do(before, ops[last]);
      if ops[last].s == s {
        if ops[last].DoV? && Wakes(before.sems[s]).Some? {
          assert before.sems[s].queue == [before.sems[s].queue[0]] + after.sems[s].queue;
        }
      } else {
        assert after.sems[s] == before.sems[s];
      }
    }
  }

  // ---------------------------------------------------------------------
  // The same operations in place
  // ---------------------------------------------------------------------

  /** struct semaphore_t; the table `tasks` stands for the state field of every pcb. */
  class Semaphore {
    var value: int
    var queue: seq<nat>

    function View(): Sem
      reads this
    {
      Sem(value, queue)
    }

    constructor (v: int)
      ensures View() == Sem(v, [])
    {
      value := v;
      queue := [];
    }

    method P(tasks: array<TaskState>, current: nat)
      requires current < tasks.Length
      modifies this, tasks
      ensures View() == Down(old(View()), current)
      ensures tasks[..] == if old(value) <= 0 then old(tasks[..])[current := Sleeping] else old(tasks[..])
    {
      value := value - 1;
      if value < 0 {
        queue := queue + [current];
        tasks[current] := Sleeping;
      }
    }

    method V(tasks: array<TaskState>)
      requires forall i :: 0 <= i < |queue| ==> queue[i] < tasks.Length
      modifies this, tasks
      ensures View() == Up(old(View()))
      ensures tasks[..] == match Wakes(old(View()))
                           case Some(w) => old(tasks[..])[w := Runnable]
                           case None => old(tasks[..])
    {
      value := value + 1;
      if value <= 0 {
        if queue != [] {
          tasks[queue[0]] := Runnable;
          queue := queue[1..];
        }
      }
    }
  }
}

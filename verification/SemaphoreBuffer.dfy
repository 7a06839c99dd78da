/**
  The bounded buffer over plain semaphores (schedule/synchronize/productor_consumer.c):
  any number of producer_semaphore and consumer_semaphore processes.  Producers test
  buffer_s < 5 before they take the lock.
 */
module SemaphoreBuffer {
  import opened Counting
  import opened Runs
  import opened Semaphores

  const FULL: nat := 0
  const LOCK: nat := 1

  datatype Pc =
    | PTest     // if(buffer_s < 5)
    | PLock     //   P(&mutex)
    | PAdd      //   buffer_s += 1
    | PUnlock   //   V(&mutex)
    | PPost     //   V(&full_s)
    | CTake     // P(&full_s)
    | CLock     // P(&mutex)
    | CSub      // buffer_s -= 1
    | CUnlock   // V(&mutex)

  datatype State = State(k: Sys, pcs: seq<Pc>, buffer: int)

  predicate Shape(b: State) {
    |b.k.sems| == 2 && |b.k.tasks| == |b.pcs|
  }

  predicate CanStep(b: State, p: nat) {
    Shape(b) && p < |b.pcs| && b.k.tasks[p] == Runnable
  }

  function Takes(pc: Pc): Option<nat> {
    match pc
    case PLock => Some(LOCK)
    case CTake => Some(FULL)
    case CLock => Some(LOCK)
    case _ => None
  }

  function Posts(pc: Pc): Option<nat> {
    match pc
    case PUnlock => Some(LOCK)
    case PPost => Some(FULL)
    case CUnlock => Some(LOCK)
    case _ => None
  }

  function PcAfter(pc: Pc, buffer: int): Pc {
    match pc
    case PTest => if buffer < 5 then PLock else PTest
    case PLock => PAdd
    case PAdd => PUnlock
    case PUnlock => PPost
    case PPost => PTest
    case CTake => CLock
    case CLock => CSub
    case CSub => CUnlock
    case CUnlock => CTake
  }

  function Step(b: State, p: nat): State
    requires CanStep(b, p)
  {
    var pc := b.pcs[p];
    State(if Takes(pc).Some? then P(b.k, Takes(pc).value, p)
          else if Posts(pc).Some? then V(b.k, Posts(pc).value)
          else b.k,
          b.pcs[p := PcAfter(pc, b.buffer)],
          if pc == PAdd then b.buffer + 1 else if pc == CSub then b.buffer - 1 else b.buffer)
  }

  /** test_semaphore: full_s at 0, mutex at 1, the buffer empty, every process at the top of its loop. */
  ghost predicate Init(b: State) {
    && Shape(b)
    && Fresh(b.k)
    && b.k.sems[FULL].value == 0
    && b.k.sems[LOCK].value == 1
    && b.buffer == 0
    && forall p :: 0 <= p < |b.pcs| ==> b.pcs[p] == PTest || b.pcs[p] == CTake
  }

  ghost predicate Next(b: State, b': State) {
    exists p: nat :: CanStep(b, p) && b' == Step(b, p)
  }

  ghost predicate IsRun(states: seq<State>) {
    && states != []
    && Init(states[0])
    && forall i :: 0 <= i < |states| - 1 ==> Next(states[i], states[i + 1])
  }

  // ---------------------------------------------------------------------
  // Counting processes
  // ---------------------------------------------------------------------

  function ParksAt(pc: Pc): Option<nat> {
    match pc
    case PAdd => Some(LOCK)
    case CSub => Some(LOCK)
    case CLock => Some(FULL)
    case _ => None
  }

  datatype Kind =
    | KProducer   // a producer
    | KPending    // a producer past its test whose item is not in the buffer yet
    | KHolder     // holds the lock
    | KStored     // accounts for one item of the buffer that full_s does not show

  predicate Is(kind: Kind, pc: Pc, t: TaskState) {
    match kind
    case KProducer => pc.PTest? || pc.PLock? || pc.PAdd? || pc.PUnlock? || pc.PPost?
    case KPending => pc.PLock? || pc.PAdd?
    case KHolder => (t == Runnable && (pc.PAdd? || pc.CSub?)) || pc.PUnlock? || pc.CUnlock?
    case KStored => pc.PUnlock? || pc.PPost? || (t == Runnable && pc.CLock?) || pc.CSub?
  }

  function Marks(kind: Kind, pcs: seq<Pc>, tasks: seq<TaskState>): seq<bool>
    requires |pcs| == |tasks|
  {
    seq(|pcs|, i requires 0 <= i < |pcs| => Is(kind, pcs[i], tasks[i]))
  }

  function Count(kind: Kind, b: State): nat
    requires |b.pcs| == |b.k.tasks|
  {
    Marked(Marks(kind, b.pcs, b.k.tasks))
  }

  lemma CountUpdate(kind: Kind, pcs: seq<Pc>, tasks: seq<TaskState>, p: nat, pc: Pc, t: TaskState)
    requires |pcs| == |tasks| && p < |pcs|
    ensures Marked(Marks(kind, pcs[p := pc], tasks[p := t]))
            == Marked(Marks(kind, pcs, tasks)) - Bit(Is(kind, pcs[p], tasks[p])) + Bit(Is(kind, pc, t))
    ensures Marked(Marks(kind, pcs, tasks)) >= Bit(Is(kind, pcs[p], tasks[p]))
  {
    var marks := Marks(kind, pcs, tasks);
    MarkedUpdate(marks, p, Is(kind, pc, t));
    assert Marks(kind, pcs[p := pc], tasks[p := t]) == marks[p := Is(kind, pc, t)];
  }

  // ---------------------------------------------------------------------
  // The invariant
  // ---------------------------------------------------------------------

  ghost predicate QueuesRight(b: State) {
    && Shape(b)
    && WellFormed(b.k)
    && (forall m, q: nat {:trigger q in b.k.sems[m].queue} ::
          0 <= m < 2 && q in b.k.sems[m].queue ==> q < |b.pcs| && ParksAt(b.pcs[q]) == Some(m))
  }

  ghost predicate Inv(b: State) {
    && QueuesRight(b)
    && Count(KHolder, b) + Pos(b.k.sems[LOCK].value) == 1
    && Count(KStored, b) + Pos(b.k.sems[FULL].value) == b.buffer
    && b.buffer + Count(KPending, b) <= 4 + Count(KProducer, b)
  }

  function Waking(b: State, p: nat): Option<nat>
    requires Shape(b) && p < |b.pcs|
  {
    match Posts(b.pcs[p])
    case Some(m) => Wakes(b.k.sems[m])
    case None => None
  }

  lemma WakingFacts(b: State, p: nat)
    requires QueuesRight(b) && CanStep(b, p)
    ensures var w := Waking(b, p);
            var tasks := b.k.tasks[p := Step(b, p).k.tasks[p]];
            && |Step(b, p).k.tasks| == |b.pcs|
            && if w.Some? then
                 && w.value < |b.pcs| && w.value != p && b.k.tasks[w.value] == Sleeping
                 && ParksAt(b.pcs[w.value]) == Posts(b.pcs[p])
                 && b.k.sems[Posts(b.pcs[p]).value].value < 0
                 && Step(b, p).k.tasks == tasks[w.value := Runnable]
               else
                 && Step(b, p).k.tasks == tasks
                 && (Posts(b.pcs[p]).Some? ==> b.k.sems[Posts(b.pcs[p]).value].value >= 0)
  {
    if Posts(b.pcs[p]).Some? {
      var m := Posts(b.pcs[p]).value;
      VNeverDequeuesEmpty(b.k, m);
      if Wakes(b.k.sems[m]).Some? {
        assert Wakes(b.k.sems[m]).value in b.k.sems[m].queue;
      }
    }
  }

  lemma StepCounts(b: State, p: nat, kind: Kind)
    requires QueuesRight(b) && CanStep(b, p)
    ensures var b' := Step(b, p);
            && |b'.pcs| == |b'.k.tasks| == |b.pcs|
            && Count(kind, b') == Count(kind, b) - Bit(Is(kind, b.pcs[p], Runnable))
                                  + Bit(Is(kind, b'.pcs[p], b'.k.tasks[p]))
                                  + (if Waking(b, p).Some? && Waking(b, p).value < |b.pcs|
                                     then Bit(Is(kind, b.pcs[Waking(b, p).value], Runnable))
                                          - Bit(Is(kind, b.pcs[Waking(b, p).value], Sleeping)) else 0)
  {
    var b' := Step(b, p);
    WakingFacts(b, p);
    CountUpdate(kind, b.pcs, b.k.tasks, p, b'.pcs[p], b'.k.tasks[p]);
    if Waking(b, p).Some? {
      var w := Waking(b, p).value;
      CountUpdate(kind, b'.pcs, b.k.tasks[p := b'.k.tasks[p]], w, b.pcs[w], Runnable);
      assert b'.pcs == b'.pcs[w := b.pcs[w]];
    }
  }

  lemma QueuesKept(b: State, p: nat)
    requires QueuesRight(b) && CanStep(b, p)
    ensures QueuesRight(Step(b, p))
  {
    var b' := Step(b, p);
    var pc := b.pcs[p];
    if Takes(pc).Some? {
      PKeepsWellFormed(b.k, Takes(pc).value, p);
    } else if Posts(pc).Some? {
      VKeepsWellFormed(b.k, Posts(pc).value);
    }
    forall m, q: nat | 0 <= m < 2 && q in b'.k.sems[m].queue
      ensures q < |b'.pcs| && ParksAt(b'.pcs[q]) == Some(m)
    {
      if q in b.k.sems[m].queue {
        assert Asleep(b.k, q);
      } else {
        assert q == p;
      }
    }
  }

  lemma HolderKept(b: State, p: nat)
    requires Inv(b) && CanStep(b, p) && Shape(Step(b, p))
    ensures Count(KHolder, Step(b, p)) + Pos(Step(b, p).k.sems[LOCK].value) == 1
  {
    WakingFacts(b, p);
    StepCounts(b, p, KHolder);
  }

  lemma StoredKept(b: State, p: nat)
    requires Inv(b) && CanStep(b, p) && Shape(Step(b, p))
    ensures Count(KStored, Step(b, p)) + Pos(Step(b, p).k.sems[FULL].value) == Step(b, p).buffer
  {
    WakingFacts(b, p);
    StepCounts(b, p, KStored);
  }

  /** A producer past its test had fewer than five items in front of it, and is itself one of the producers. */
  lemma PendingKept(b: State, p: nat)
    requires Inv(b) && CanStep(b, p) && Shape(Step(b, p))
    ensures Step(b, p).buffer + Count(KPending, Step(b, p)) <= 4 + Count(KProducer, Step(b, p))
    ensures Count(KProducer, Step(b, p)) == Count(KProducer, b)
  {
    WakingFacts(b, p);
    StepCounts(b, p, KProducer);
    StepCounts(b, p, KPending);
    MarkedAtMost(Marks(KPending, Step(b, p).pcs, Step(b, p).k.tasks),
                 Marks(KProducer, Step(b, p).pcs, Step(b, p).k.tasks));
  }

  lemma StepKeepsInv(b: State, p: nat)
    requires Inv(b) && CanStep(b, p)
    ensures Inv(Step(b, p)) && Count(KProducer, Step(b, p)) == Count(KProducer, b)
  {
    QueuesKept(b, p);
    HolderKept(b, p);
    StoredKept(b, p);
    PendingKept(b, p);
  }

  lemma InitInv(b: State)
    requires Init(b)
    ensures Inv(b)
  {
    assert forall m :: 0 <= m < 2 ==> LengthMatches(b.k.sems[m]);
    MarkedNone(Marks(KHolder, b.pcs, b.k.tasks));
    MarkedNone(Marks(KStored, b.pcs, b.k.tasks));
    MarkedNone(Marks(KPending, b.pcs, b.k.tasks));
  }

  lemma {:induction false} InvInEveryRun(states: seq<State>, i: nat)
    requires IsRun(states) && i < |states|
    ensures Inv(states[i]) && Shape(states[0])
    ensures Count(KProducer, states[i]) == Count(KProducer, states[0])
  {
    if i == 0 {
      InitInv(states[0]);
    } else {
      InvInEveryRun(states, i - 1);
      assert Next(states[i - 1], states[i - 1 + 1]);
      var p: nat :| CanStep(states[i - 1], p) && states[i] == Step(states[i - 1], p);
      StepKeepsInv(states[i - 1], p);
    }
  }

  /** With k producers the buffer stays between 0 and 4 + k; no two processes are between P(&mutex) and V(&mutex). */
  lemma BufferBounded(states: seq<State>, i: nat)
    requires IsRun(states) && i < |states|
    ensures Shape(states[0]) && Shape(states[i])
    ensures 0 <= states[i].buffer <= 4 + Count(KProducer, states[0])
    ensures Count(KHolder, states[i]) <= 1
  {
    InvInEveryRun(states, i);
  }

  // ---------------------------------------------------------------------
  // The bound is reached, so 5 is the true limit only for one producer
  // ---------------------------------------------------------------------

  /** Everyone is awake, and the lock has this value. */
  ghost predicate Quiet(b: State, lock: int) {
    && Inv(b)
    && b.k.sems[LOCK].value == lock
    && b.k.sems[FULL].value >= 0
    && forall q :: 0 <= q < |b.pcs| ==> b.k.tasks[q] == Runnable
  }

  /** Everyone is awake and nobody holds the lock. */
  ghost predicate Calm(b: State) {
    Quiet(b, 1)
  }

  lemma Advance(states: seq<State>, p: nat) returns (longer: seq<State>)
    requires IsRun(states) && Inv(Last(states)) && CanStep(Last(states), p)
    ensures IsRun(longer) && longer == states + [Step(Last(states), p)] && Inv(Last(longer))
  {
    StepKeepsInv(Last(states), p);
    longer := states + [Step(Last(states), p)];
    assert Next(Last(states), Step(Last(states), p));
  }

  lemma ProduceLock(states: seq<State>, p: nat) returns (longer: seq<State>)
    requires IsRun(states) && Quiet(Last(states), 1) && p < |Last(states).pcs| && Last(states).pcs[p] == PLock
    ensures IsRun(longer) && longer[0] == states[0] && Quiet(Last(longer), 0)
    ensures Last(longer).buffer == Last(states).buffer && Last(longer).pcs == Last(states).pcs[p := PAdd]
  {
    longer := Advance(states, p);
  }

  lemma ProduceAdd(states: seq<State>, p: nat) returns (longer: seq<State>)
    requires IsRun(states) && Quiet(Last(states), 0) && p < |Last(states).pcs| && Last(states).pcs[p] == PAdd
    ensures IsRun(longer) && longer[0] == states[0] && Quiet(Last(longer), 0)
    ensures Last(longer).buffer == Last(states).buffer + 1 && Last(longer).pcs == Last(states).pcs[p := PUnlock]
  {
    longer := Advance(states, p);
  }

  lemma ProduceUnlock(states: seq<State>, p: nat) returns (longer: seq<State>)
    requires IsRun(states) && Quiet(Last(states), 0) && p < |Last(states).pcs| && Last(states).pcs[p] == PUnlock
    ensures IsRun(longer) && longer[0] == states[0] && Quiet(Last(longer), 1)
    ensures Last(longer).buffer == Last(states).buffer && Last(longer).pcs == Last(states).pcs[p := PPost]
  {
    longer := Advance(states, p);
  }

  lemma ProducePost(states: seq<State>, p: nat) returns (longer: seq<State>)
    requires IsRun(states) && Quiet(Last(states), 1) && p < |Last(states).pcs| && Last(states).pcs[p] == PPost
    ensures IsRun(longer) && longer[0] == states[0] && Quiet(Last(longer), 1)
    ensures Last(longer).buffer == Last(states).buffer && Last(longer).pcs == Last(states).pcs[p := PTest]
  {
    longer := Advance(states, p);
  }

  /** From PLock to PTest without interruption: one more item. */
  lemma Produce(states: seq<State>, p: nat) returns (longer: seq<State>)
    requires IsRun(states) && Calm(Last(states)) && p < |Last(states).pcs| && Last(states).pcs[p] == PLock
    ensures IsRun(longer) && longer[0] == states[0] && Calm(Last(longer))
    ensures Last(longer).buffer == Last(states).buffer + 1
    ensures Last(longer).pcs == Last(states).pcs[p := PTest]
  {
    longer := ProduceLock(states, p);
    longer := ProduceAdd(longer, p);
    longer := ProduceUnlock(longer, p);
    longer := ProducePost(longer, p);
  }

  /** The producers among the first n processes. */
  function Producers(b: State, n: nat): nat
    requires Shape(b) && n <= |b.pcs|
  {
    Marked(Marks(KProducer, b.pcs, b.k.tasks)[..n])
  }

  lemma ProducersStep(b: State, n: nat)
    requires Shape(b) && n < |b.pcs|
    ensures Producers(b, n + 1) == Producers(b, n) + Bit(Is(KProducer, b.pcs[n], b.k.tasks[n]))
    ensures Producers(b, |b.pcs|) == Count(KProducer, b)
  {
    var marks := Marks(KProducer, b.pcs, b.k.tasks);
    assert marks[..n + 1][..n] == marks[..n];
    assert marks[..|b.pcs|] == marks;
  }

  /** Four items produced one after the other by one producer. */
  lemma FillToFour(start: State, p: nat) returns (states: seq<State>)
    requires Init(start) && p < |start.pcs| && start.pcs[p] == PTest
    ensures IsRun(states) && states[0] == start && Calm(Last(states))
    ensures Last(states).buffer == 4 && Last(states).pcs == start.pcs
  {
    InitInv(start);
    states := [start];
    for i := 0 to 4
      invariant IsRun(states) && states[0] == start && Calm(Last(states))
      invariant Last(states).buffer == i && Last(states).pcs == start.pcs
    {
      states := Advance(states, p);
      states := Produce(states, p);
      assert Last(states).pcs == start.pcs;
    }
  }

  /** A producer passes its test while four items are in the buffer. */
  lemma PassTest(states: seq<State>, p: nat) returns (longer: seq<State>)
    requires IsRun(states) && Calm(Last(states)) && Last(states).buffer == 4
    requires p < |Last(states).pcs| && Last(states).pcs[p] == PTest
    ensures IsRun(longer) && longer[0] == states[0] && Calm(Last(longer))
    ensures Last(longer).buffer == 4 && Last(longer).pcs == Last(states).pcs[p := PLock]
  {
    longer := Advance(states, p);
  }

  /** Then every producer passes its test before any of them takes the lock. */
  lemma AllPassTheTest(before: seq<State>) returns (states: seq<State>)
    requires IsRun(before) && Calm(Last(before)) && Last(before).buffer == 4
    requires Last(before).pcs == before[0].pcs
    ensures IsRun(states) && states[0] == before[0] && Calm(Last(states)) && Last(states).buffer == 4
    ensures |Last(states).pcs| == |before[0].pcs|
    ensures forall q :: 0 <= q < |before[0].pcs| ==>
              Last(states).pcs[q] == if before[0].pcs[q] == PTest then PLock else before[0].pcs[q]
  {
    states := before;
    var pcs := before[0].pcs;
    for i := 0 to |pcs|
      invariant IsRun(states) && states[0] == before[0] && Calm(Last(states)) && Last(states).buffer == 4
      invariant |Last(states).pcs| == |pcs|
      invariant forall q :: 0 <= q < |pcs| ==>
                  Last(states).pcs[q] == if q < i && pcs[q] == PTest then PLock else pcs[q]
    {
      if pcs[i] == PTest {
        states := PassTest(states, i);
      }
    }
  }

  /** Process i puts its item in if it is a producer past the test, and stays put otherwise. */
  lemma ProduceIfProducer(states: seq<State>, start: State, i: nat) returns (longer: seq<State>)
    requires IsRun(states) && Calm(Last(states)) && i < |Last(states).pcs| && Shape(start) && i < |start.pcs|
    requires Last(states).pcs[i] == if start.pcs[i] == PTest then PLock else start.pcs[i]
    requires Is(KProducer, start.pcs[i], start.k.tasks[i]) <==> start.pcs[i] == PTest
    requires Last(states).buffer == 4 + Producers(start, i)
    ensures IsRun(longer) && longer[0] == states[0] && Calm(Last(longer))
    ensures Last(longer).buffer == 4 + Producers(start, i + 1)
    ensures |Last(longer).pcs| == |Last(states).pcs|
    ensures forall q :: 0 <= q < |Last(states).pcs| && q != i ==> Last(longer).pcs[q] == Last(states).pcs[q]
  {
    longer := states;
    ProducersStep(start, i);
    if start.pcs[i] == PTest {
      longer := Produce(states, i);
    }
  }

  /** Then each of them puts its item in. */
  lemma EveryoneProduces(before: seq<State>) returns (states: seq<State>)
    requires IsRun(before) && Calm(Last(before)) && Last(before).buffer == 4
    requires |Last(before).pcs| == |before[0].pcs| > 0
    requires forall q :: 0 <= q < |before[0].pcs| ==>
               Last(before).pcs[q] == if before[0].pcs[q] == PTest then PLock else before[0].pcs[q]
    ensures IsRun(states) && states[0] == before[0]
    ensures Last(states).buffer == 4 + Count(KProducer, before[0])
  {
    var start := before[0];
    states := before;
    for i := 0 to |start.pcs|
      invariant IsRun(states) && states[0] == start && Calm(Last(states))
      invariant |Last(states).pcs| == |start.pcs|
      invariant Last(states).buffer == 4 + Producers(start, i)
      invariant forall q :: i <= q < |start.pcs| ==> Last(states).pcs[q] == Last(before).pcs[q]
    {
      states := ProduceIfProducer(states, start, i);
    }
    ProducersStep(start, |start.pcs| - 1);
  }

  /** The bound 4 + k is attained, for every k >= 1 and any number of consumers. */
  lemma BoundAttained(start: State) returns (states: seq<State>)
    requires Init(start) && Count(KProducer, start) >= 1
    ensures IsRun(states) && states[0] == start
    ensures Last(states).buffer == 4 + Count(KProducer, start)
  {
    if forall q :: 0 <= q < |start.pcs| ==> !Is(KProducer, start.pcs[q], start.k.tasks[q]) {
      MarkedNone(Marks(KProducer, start.pcs, start.k.tasks));
    }
    var p :| 0 <= p < |start.pcs| && Is(KProducer, start.pcs[p], start.k.tasks[p]);
    states := FillToFour(start, p);
    states := AllPassTheTest(states);
    states := EveryoneProduces(states);
  }

  /** The intended limit of 5 items holds in every run exactly when there is at most one producer. */
  lemma LimitOfFiveIffOneProducer(start: State)
    requires Init(start)
    ensures (forall states: seq<State> :: IsRun(states) && states[0] == start ==> Last(states).buffer <= 5)
            <==> Count(KProducer, start) <= 1
  {
    if Count(KProducer, start) <= 1 {
      forall states: seq<State> | IsRun(states) && states[0] == start ensures Last(states).buffer <= 5 {
        BufferBounded(states, |states| - 1);
      }
    } else {
      var states := BoundAttained(start);
      assert IsRun(states) && states[0] == start;
    }
  }

  // ---------------------------------------------------------------------
  // The loops in place
  // ---------------------------------------------------------------------

  /** The globals full_s, mutex and buffer_s, and where each process stands in its loop. */
  class Program {
    const full: Semaphore
    const lock: Semaphore
    const tasks: array<TaskState>
    const pcs: array<Pc>
    var buffer: int

    ghost predicate Valid() { full != lock && tasks.Length == pcs.Length }

    ghost function View(): State
      reads this, full, lock, tasks, pcs
    {
      State(Sys([full.View(), lock.View()], tasks[..]), pcs[..], buffer)
    }

    /** test_semaphore, for the given producers and consumers. */
    constructor (producers: nat, consumers: nat)
      ensures Valid() && fresh(full) && fresh(lock) && fresh(tasks) && fresh(pcs)
      ensures Init(View()) && pcs.Length == producers + consumers
      ensures forall p :: 0 <= p < pcs.Length ==> pcs[p] == if p < producers then PTest else CTake
    {
      full := new Semaphore(0);
      lock := new Semaphore(1);
      tasks := new TaskState[producers + consumers](_ => Runnable);
      pcs := new Pc[producers + consumers](i => if i < producers then PTest else CTake);
      buffer := 0;
    }

    method StepProducer(p: nat)
      requires Valid() && QueuesRight(View()) && p < tasks.Length && tasks[p] == Runnable
      requires Is(KProducer, pcs[p], Runnable)
      modifies this, full, lock, tasks, pcs
      ensures View() == Step(old(View()), p)
    {
      QueueBounds();
      match pcs[p] {
        case PTest =>
          if buffer < 5 { pcs[p] := PLock; }
        case PLock =>
          lock.P(tasks, p);
          pcs[p] := PAdd;
        case PAdd =>
          buffer := buffer + 1;
          pcs[p] := PUnlock;
        case PUnlock =>
          lock.V(tasks);
          pcs[p] := PPost;
        case PPost =>
          full.V(tasks);
          pcs[p] := PTest;
      }
      assert View().k.sems == Step(old(View()), p).k.sems;
    }

    method StepConsumer(p: nat)
      requires Valid() && QueuesRight(View()) && p < tasks.Length && tasks[p] == Runnable
      requires !Is(KProducer, pcs[p], Runnable)
      modifies this, full, lock, tasks, pcs
      ensures View() == Step(old(View()), p)
    {
      QueueBounds();
      match pcs[p] {
        case CTake =>
          full.P(tasks, p);
          pcs[p] := CLock;
        case CLock =>
          lock.P(tasks, p);
          pcs[p] := CSub;
        case CSub =>
          buffer := buffer - 1;
          pcs[p] := CUnlock;
        case CUnlock =>
          lock.V(tasks);
          pcs[p] := CTake;
      }
      assert View().k.sems == Step(old(View()), p).k.sems;
    }

    lemma QueueBounds()
      requires Valid() && QueuesRight(View())
      ensures forall i :: 0 <= i < |full.queue| ==> full.queue[i] < tasks.Length
      ensures forall i :: 0 <= i < |lock.queue| ==> lock.queue[i] < tasks.Length
    {
      assert View().k.sems[FULL] == full.View() && View().k.sems[LOCK] == lock.View();
      assert forall i :: 0 <= i < |full.queue| ==> full.queue[i] in View().k.sems[FULL].queue;
      assert forall i :: 0 <= i < |lock.queue| ==> lock.queue[i] in View().k.sems[LOCK].queue;
    }
  }
}

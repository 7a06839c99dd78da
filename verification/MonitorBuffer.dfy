/**
  The bounded buffer over the monitor (schedule/synchronize/productor_consumer.c):
  any number of producer_monitor and consumer_monitor processes and the shared
  counter buffer_m.
 */
module MonitorBuffer {
  import opened Semaphores
  import M = Monitor
  import MS = MonitorSafety
  import Runs

  const SIZE := 5

  datatype Role = Producer | Consumer

  /** Where a process is in its own loop; the statement runs when the monitor code returns to it. */
  datatype Stage =
    | AtEnter    // enter(&monitor)
    | AtTest     // if(buffer_m == 5 or 0) wait(...)
    | AtUpdate   // buffer_m += 1 or -= 1
    | AtNotify   // if(buffer_m == 1 or 4) signal(...)
    | AtLeave    // leave(&monitor)

  datatype State = State(mon: M.State, roles: seq<Role>, stages: seq<Stage>, buffer: int)

  /** cvs[0] is PRODUCER, cvs[1] is CONSUMER. */
  function Own(r: Role): nat { if r == Producer then 0 else 1 }

  function Partner(r: Role): Role { if r == Producer then Consumer else Producer }

  function BlockedAt(r: Role): int { if r == Producer then SIZE else 0 }

  function NotifyAt(r: Role): int { if r == Producer then 1 else SIZE - 1 }

  function Delta(r: Role): int { if r == Producer then 1 else -1 }

  predicate Shape(b: State) {
    && M.Shape(b.mon)
    && |b.mon.xCount| == 2
    && |b.roles| == |b.stages| == |b.mon.pcs|
  }

  predicate CanStep(b: State, p: nat) {
    && Shape(b)
    && p < |b.roles|
    && b.mon.k.tasks[p] == Runnable
  }

  /** The monitor statement p executes now, if any; at Inside the client code decides. */
  function MonitorCall(b: State, p: nat): Option<M.Call>
    requires CanStep(b, p)
  {
    if b.mon.pcs[p] == M.Outside then Some(M.Enter)
    else if b.mon.pcs[p] == M.Inside then
      match b.stages[p]
      case AtTest => if b.buffer == BlockedAt(b.roles[p]) then Some(M.Wait(Own(b.roles[p]))) else None
      case AtNotify =>
        if b.buffer == NotifyAt(b.roles[p]) then Some(M.Signal(Own(Partner(b.roles[p])))) else None
      case AtUpdate => None
      case _ => Some(M.Leave)
    else Some(M.Leave)
  }

  function StageAfter(pc: M.Pc, stage: Stage): Stage {
    if pc == M.Outside then AtTest
    else if pc == M.Inside then
      match stage
      case AtEnter => AtEnter
      case AtTest => AtUpdate
      case AtUpdate => AtNotify
      case AtNotify => AtLeave
      case AtLeave => AtEnter
    else stage
  }

  function Step(b: State, p: nat): State
    requires CanStep(b, p)
  {
    var pc, stage := b.mon.pcs[p], b.stages[p];
    State(match MonitorCall(b, p)
          case Some(call) => M.Step(b.mon, p, call)
          case None => b.mon,
          b.roles,
          b.stages[p := StageAfter(pc, stage)],
          if pc == M.Inside && stage == AtUpdate then b.buffer + Delta(b.roles[p]) else b.buffer)
  }

  /** test_monitor: a fresh monitor with two conditions and an empty buffer. */
  ghost predicate Init(b: State) {
    && Shape(b)
    && M.Init(b.mon)
    && b.buffer == 0
    && forall p :: 0 <= p < |b.stages| ==> b.stages[p] == AtEnter
  }

  ghost predicate Next(b: State, b': State) {
    exists p: nat :: CanStep(b, p) && b' == Step(b, p)
  }

  ghost predicate IsRun(states: seq<State>) {
    && states != []
    && Init(states[0])
    && forall i :: 0 <= i < |states| - 1 ==> Next(states[i], states[i + 1])
  }

  // ---------------------------------------------------------------------
  // The invariant
  // ---------------------------------------------------------------------

  /** Which client statement a process can be at, given where it is in the monitor code. */
  predicate PlaceOk(pc: M.Pc, t: TaskState, stage: Stage, r: Role) {
    match pc
    case Outside => stage == AtEnter
    case Inside => stage != AtEnter && (t == Sleeping ==> stage == AtTest)
    case WaitInc(c) => stage == AtUpdate && c == Own(r)
    case WaitTest(c) => stage == AtUpdate && c == Own(r)
    case WaitVNext(c) => stage == AtUpdate && c == Own(r)
    case WaitVMutex(c) => stage == AtUpdate && c == Own(r)
    case WaitP(c) => stage == AtUpdate && c == Own(r)
    case WaitDec(c) => stage == AtUpdate && c == Own(r)
    case SigTest(c) => stage == AtLeave && c == Own(Partner(r))
    case SigInc(c) => stage == AtLeave && c == Own(Partner(r))
    case SigV(c) => stage == AtLeave && c == Own(Partner(r))
    case SigP => stage == AtLeave
    case SigDec => stage == AtLeave
    case _ => stage == AtEnter
  }

  ghost predicate PlacesOk(b: State)
    requires Shape(b)
  {
    forall p :: 0 <= p < |b.roles| ==> PlaceOk(b.mon.pcs[p], b.mon.k.tasks[p], b.stages[p], b.roles[p])
  }

  /** No lost wakeup: with nothing being handed over, a waiter implies that its resource is missing. */
  predicate AtRest(buffer: int, xCount: seq<int>)
    requires |xCount| == 2
  {
    && 0 <= buffer <= SIZE
    && (xCount[Own(Producer)] > 0 ==> buffer == SIZE)
    && (xCount[Own(Consumer)] > 0 ==> buffer == 0)
  }

  /** The monitor is being handed to a waiter of role r, which will find exactly this buffer. */
  predicate HandedTo(r: Role, buffer: int, xCount: seq<int>)
    requires |xCount| == 2
  {
    && buffer == BlockedAt(r) - Delta(r)
    && xCount[Own(Partner(r))] <= 0
  }

  predicate BeforeUpdate(r: Role, buffer: int, xCount: seq<int>)
    requires |xCount| == 2
  {
    && 0 <= buffer <= SIZE && buffer != BlockedAt(r)
    && (xCount[Own(Partner(r))] > 0 ==> buffer == BlockedAt(Partner(r)))
    && (xCount[Own(r)] > 0 ==> buffer == BlockedAt(r) - Delta(r))
  }

  predicate AfterUpdate(r: Role, buffer: int, xCount: seq<int>)
    requires |xCount| == 2
  {
    BeforeUpdate(r, buffer - Delta(r), xCount)
  }

  /** What the owner of the monitor can rely on at each point of its code. */
  predicate OwnerKnows(r: Role, stage: Stage, pc: M.Pc, buffer: int, xCount: seq<int>)
    requires |xCount| == 2
  {
    match pc
    case Inside =>
      (match stage
       case AtUpdate => BeforeUpdate(r, buffer, xCount)
       case AtNotify => AfterUpdate(r, buffer, xCount)
       case _ => AtRest(buffer, xCount))
    case WaitInc(_) => AtRest(buffer, xCount) && buffer == BlockedAt(r)
    case WaitDec(_) => HandedTo(r, buffer, xCount)
    case SigTest(_) => HandedTo(Partner(r), buffer, xCount)
    case SigInc(_) => HandedTo(Partner(r), buffer, xCount)
    case SigV(_) => HandedTo(Partner(r), buffer, xCount)
    case _ => AtRest(buffer, xCount)
  }

  ghost predicate OwnersKnow(b: State)
    requires Shape(b)
  {
    forall p :: 0 <= p < |b.roles| && M.Owns(b.mon.pcs[p], b.mon.k.tasks[p]) ==>
      OwnerKnows(b.roles[p], b.stages[p], b.mon.pcs[p], b.buffer, b.mon.xCount)
  }

  /** What holds while the token lies in a semaphore. */
  predicate FreeTokenKnows(b: State)
    requires Shape(b)
  {
    && (b.mon.k.sems[M.MUTEX].value > 0 ==> AtRest(b.buffer, b.mon.xCount))
    && (b.mon.k.sems[M.NEXT].value > 0 ==> AtRest(b.buffer, b.mon.xCount))
    && (b.mon.k.sems[M.XSem(0)].value > 0 ==> HandedTo(Producer, b.buffer, b.mon.xCount))
    && (b.mon.k.sems[M.XSem(1)].value > 0 ==> HandedTo(Consumer, b.buffer, b.mon.xCount))
  }

  ghost predicate Inv(b: State) {
    && Shape(b)
    && M.Inv(b.mon)
    && PlacesOk(b)
    && OwnersKnow(b)
    && FreeTokenKnows(b)
  }

  lemma InitInv(b: State)
    requires Init(b)
    ensures Inv(b)
  {
    M.InitInv(b.mon);
  }

  /** Every step of a process is a step of the monitor or leaves the monitor alone. */
  lemma StepIsMonitorStep(b: State, p: nat)
    requires Inv(b) && CanStep(b, p)
    ensures match MonitorCall(b, p)
            case Some(call) => M.CanStep(b.mon, p, call) && Step(b, p).mon == M.Step(b.mon, p, call)
            case None => Step(b, p).mon == b.mon
    ensures M.Inv(Step(b, p).mon) && Shape(Step(b, p))
  {
    assert PlaceOk(b.mon.pcs[p], b.mon.k.tasks[p], b.stages[p], b.roles[p]);
    if MonitorCall(b, p).Some? {
      MS.StepKeepsInv(b.mon, p, MonitorCall(b, p).value);
    }
  }

  /** p itself goes to a place that fits its stage. */
  lemma PlaceOfStepper(b: State, p: nat)
    requires Inv(b) && CanStep(b, p) && Shape(Step(b, p))
    ensures PlaceOk(Step(b, p).mon.pcs[p], Step(b, p).mon.k.tasks[p], Step(b, p).stages[p], b.roles[p])
  {
    assert PlaceOk(b.mon.pcs[p], b.mon.k.tasks[p], b.stages[p], b.roles[p]);
    if MonitorCall(b, p).Some? {
      MS.StepTasks(b.mon, p, MonitorCall(b, p).value);
    }
  }

  /** The others stay where they are; one of them may wake up. */
  lemma PlacesKept(b: State, p: nat)
    requires Inv(b) && CanStep(b, p) && Shape(Step(b, p))
    ensures PlacesOk(Step(b, p))
  {
    StepIsMonitorStep(b, p);
    PlaceOfStepper(b, p);
    var b' := Step(b, p);
    if MonitorCall(b, p).Some? {
      MS.StepTasks(b.mon, p, MonitorCall(b, p).value);
    }
    forall q | 0 <= q < |b.roles| && q != p
      ensures PlaceOk(b'.mon.pcs[q], b'.mon.k.tasks[q], b'.stages[q], b'.roles[q])
    {
      assert PlaceOk(b.mon.pcs[q], b.mon.k.tasks[q], b.stages[q], b.roles[q]);
      assert b'.mon.pcs[q] == b.mon.pcs[q];
    }
  }

  /** A step of a process that does not own the monitor: it may take the free token. */
  lemma NonOwnerKeepsKnowledge(b: State, p: nat)
    requires Inv(b) && CanStep(b, p) && Shape(Step(b, p)) && !M.Owns(b.mon.pcs[p], Runnable)
    ensures OwnersKnow(Step(b, p)) && FreeTokenKnows(Step(b, p))
  {
    var b' := Step(b, p);
    assert PlaceOk(b.mon.pcs[p], b.mon.k.tasks[p], b.stages[p], b.roles[p]);
    assert b'.buffer == b.buffer && b'.mon.xCount == b.mon.xCount;
  }

  predicate KnowsAt(b: State, p: nat)
    requires Shape(b) && p < |b.roles|
  {
    && PlaceOk(b.mon.pcs[p], b.mon.k.tasks[p], b.stages[p], b.roles[p])
    && OwnerKnows(b.roles[p], b.stages[p], b.mon.pcs[p], b.buffer, b.mon.xCount)
  }

  /** A client statement of the owner leaves it knowing what the next statement needs. */
  lemma OwnerLearnsInClient(b: State, p: nat)
    requires CanStep(b, p) && Shape(Step(b, p)) && KnowsAt(b, p) && b.mon.pcs[p] == M.Inside
    requires MonitorCall(b, p).None?
    ensures KnowsAt(Step(b, p), p) && Step(b, p).mon.k == b.mon.k
  {
  }

  /** So does a client statement that calls wait, signal or leave. */
  lemma OwnerLearnsInCall(b: State, p: nat)
    requires CanStep(b, p) && Shape(Step(b, p)) && KnowsAt(b, p) && b.mon.pcs[p] == M.Inside
    requires MonitorCall(b, p).Some?
    ensures KnowsAt(Step(b, p), p) && Step(b, p).mon.k == b.mon.k
  {
    var b' := Step(b, p);
    assert b'.mon.xCount == b.mon.xCount && b'.buffer == b.buffer;
  }

  lemma OwnerLearnsInMonitor(b: State, p: nat)
    requires CanStep(b, p) && Shape(Step(b, p)) && KnowsAt(b, p) && M.Owns(b.mon.pcs[p], Runnable)
    requires b.mon.pcs[p] != M.Inside && M.Posts(b.mon.pcs[p]).None?
    ensures KnowsAt(Step(b, p), p) && Step(b, p).mon.k == b.mon.k
  {
    var r := b.roles[p];
    assert Own(Partner(r)) == 1 - Own(r);
  }

  /** A step of the owner that keeps the monitor. */
  lemma OwnerKeepsKnowledge(b: State, p: nat)
    requires Inv(b) && CanStep(b, p) && Shape(Step(b, p)) && M.Owns(b.mon.pcs[p], Runnable)
    requires M.Posts(b.mon.pcs[p]).None?
    ensures OwnersKnow(Step(b, p)) && FreeTokenKnows(Step(b, p))
  {
    MS.OwnerAlone(b.mon, p);
    assert PlaceOk(b.mon.pcs[p], b.mon.k.tasks[p], b.stages[p], b.roles[p]);
    if b.mon.pcs[p] == M.Inside {
      if MonitorCall(b, p).None? {
        OwnerLearnsInClient(b, p);
      } else {
        OwnerLearnsInCall(b, p);
      }
    } else {
      OwnerLearnsInMonitor(b, p);
    }
    var b' := Step(b, p);
    forall q | 0 <= q < |b.roles| && q != p ensures !M.Owns(b'.mon.pcs[q], b'.mon.k.tasks[q]) {
      assert b'.mon.pcs[q] == b.mon.pcs[q];
    }
  }

  /** A step of the owner that gives the monitor away into a semaphore. */
  lemma GiverFillsSemaphore(b: State, p: nat)
    requires Inv(b) && CanStep(b, p) && Shape(Step(b, p)) && M.Owns(b.mon.pcs[p], Runnable)
    requires M.Posts(b.mon.pcs[p]).Some?
    ensures FreeTokenKnows(Step(b, p))
  {
    assert PlaceOk(b.mon.pcs[p], b.mon.k.tasks[p], b.stages[p], b.roles[p]);
    MS.OwnerAlone(b.mon, p);
    assert OwnerKnows(b.roles[p], b.stages[p], b.mon.pcs[p], b.buffer, b.mon.xCount);
  }

  /** A step of the owner that gives the monitor away to the process it wakes. */
  lemma GiverKeepsKnowledge(b: State, p: nat)
    requires Inv(b) && CanStep(b, p) && Shape(Step(b, p)) && M.Owns(b.mon.pcs[p], Runnable)
    requires M.Posts(b.mon.pcs[p]).Some?
    ensures OwnersKnow(Step(b, p)) && FreeTokenKnows(Step(b, p))
  {
    GiverFillsSemaphore(b, p);
    assert PlaceOk(b.mon.pcs[p], b.mon.k.tasks[p], b.stages[p], b.roles[p]);
    MS.OwnerAlone(b.mon, p);
    assert OwnerKnows(b.roles[p], b.stages[p], b.mon.pcs[p], b.buffer, b.mon.xCount);
    MS.WakingFacts(b.mon, p);
    MS.StepTasks(b.mon, p, M.Leave);
    if MS.Waking(b.mon, p).Some? {
      var w := MS.Waking(b.mon, p).value;
      assert PlaceOk(b.mon.pcs[w], b.mon.k.tasks[w], b.stages[w], b.roles[w]);
    }
  }

  lemma StepKeepsInv(b: State, p: nat)
    requires Inv(b) && CanStep(b, p)
    ensures Inv(Step(b, p))
  {
    StepIsMonitorStep(b, p);
    PlacesKept(b, p);
    if !M.Owns(b.mon.pcs[p], Runnable) {
      NonOwnerKeepsKnowledge(b, p);
    } else if M.Posts(b.mon.pcs[p]).None? {
      OwnerKeepsKnowledge(b, p);
    } else {
      GiverKeepsKnowledge(b, p);
    }
  }

  lemma {:induction false} InvInEveryRun(states: seq<State>, i: nat)
    requires IsRun(states) && i < |states|
    ensures Inv(states[i]) && states[i].roles == states[0].roles
  {
    if i == 0 {
      InitInv(states[0]);
    } else {
      InvInEveryRun(states, i - 1);
      assert Next(states[i - 1], states[i - 1 + 1]);
      var p: nat :| CanStep(states[i - 1], p) && states[i] == Step(states[i - 1], p);
      StepKeepsInv(states[i - 1], p);
    }
  }

  // ---------------------------------------------------------------------
  // What every run guarantees
  // ---------------------------------------------------------------------

  lemma BoundedByInv(b: State)
    requires Inv(b)
    ensures 0 <= b.buffer <= SIZE
  {
    if M.Count(M.KOwner, b.mon) > 0 {
      var p := M.CountWitness(M.KOwner, b.mon);
      assert OwnerKnows(b.roles[p], b.stages[p], b.mon.pcs[p], b.buffer, b.mon.xCount);
    } else {
      if forall m :: 0 <= m < |b.mon.k.sems| ==> b.mon.k.sems[m].value <= 0 {
        M.TokensZero(b.mon.k.sems);
      }
      var m :| 0 <= m < |b.mon.k.sems| && b.mon.k.sems[m].value > 0;
      assert m == M.MUTEX || m == M.NEXT || m == M.XSem(0) || m == M.XSem(1);
    }
  }

  /** The buffer never overflows and never goes below empty, for any number of producers and consumers. */
  lemma BufferBounded(states: seq<State>, i: nat)
    requires IsRun(states) && i < |states|
    ensures 0 <= states[i].buffer <= SIZE
  {
    InvInEveryRun(states, i);
    BoundedByInv(states[i]);
  }

  /**
    Hand-off exactness: a consumer coming back from wait finds exactly one item and a
    producer exactly one free slot, so the `if` before wait need not be a `while`.
    The same holds when the process reaches its update without having waited: the
    buffer is not at the value that would have blocked it.
   */
  lemma HandOffExact(states: seq<State>, i: nat, p: nat)
    requires IsRun(states) && i < |states| && Shape(states[i]) && p < |states[i].roles|
    requires states[i].mon.k.tasks[p] == Runnable
    ensures var b := states[i];
            && (b.mon.pcs[p].WaitDec? ==> b.buffer == if b.roles[p] == Consumer then 1 else 4)
            && (b.mon.pcs[p] == M.Inside && b.stages[p] == AtUpdate ==>
                  if b.roles[p] == Consumer then b.buffer > 0 else b.buffer < SIZE)
  {
    var b := states[i];
    InvInEveryRun(states, i);
    if b.mon.pcs[p].WaitDec? || b.mon.pcs[p] == M.Inside {
      assert OwnerKnows(b.roles[p], b.stages[p], b.mon.pcs[p], b.buffer, b.mon.xCount);
    }
  }

  /** Only the owner of the monitor is ever at a statement that reads or writes buffer_m. */
  lemma BufferTouchedByOwnerOnly(states: seq<State>, i: nat, p: nat, q: nat)
    requires IsRun(states) && i < |states| && Shape(states[i]) && p < |states[i].roles| && q < |states[i].roles|
    requires states[i].mon.k.tasks[p] == Runnable && states[i].mon.k.tasks[q] == Runnable
    requires states[i].stages[p] in {AtTest, AtUpdate, AtNotify} && states[i].mon.pcs[p] == M.Inside
    requires M.Owns(states[i].mon.pcs[q], Runnable)
    ensures p == q
  {
    InvInEveryRun(states, i);
    MS.OwnerAlone(states[i].mon, p);
  }

  /** A process asleep in the queue of its condition is counted in that x_count. */
  lemma ParkedIsCounted(b: State, p: nat)
    requires Inv(b) && p < |b.roles| && b.mon.pcs[p] == M.WaitDec(Own(b.roles[p]))
    ensures b.mon.xCount[Own(b.roles[p])] > 0
  {
    M.CountMember(M.KWaiters(Own(b.roles[p])), b.mon, p);
  }

  /**
    No lost wakeup: when the monitor is free to enter, a consumer parked on CONSUMER
    implies an empty buffer and a producer parked on PRODUCER a full one.
   */
  lemma NoLostWakeup(states: seq<State>, i: nat, p: nat)
    requires IsRun(states) && i < |states| && Shape(states[i]) && p < |states[i].roles|
    requires states[i].mon.k.sems[M.MUTEX].value > 0
    requires states[i].mon.pcs[p].WaitDec? && states[i].mon.k.tasks[p] == Sleeping
    ensures states[i].mon.pcs[p].c == if states[i].roles[p] == Producer then 0 else 1
    ensures states[i].buffer == if states[i].roles[p] == Producer then 5 else 0
  {
    var b := states[i];
    InvInEveryRun(states, i);
    assert PlaceOk(b.mon.pcs[p], b.mon.k.tasks[p], b.stages[p], b.roles[p]);
    ParkedIsCounted(b, p);
  }

  /** When nobody awake is inside, the monitor is free and whoever sleeps is parked on its own condition. */
  lemma SleepersParked(b: State, p: nat)
    requires Inv(b) && p < |b.roles| && b.mon.k.tasks[p] == Sleeping
    requires forall q :: 0 <= q < |b.roles| && b.mon.k.tasks[q] == Runnable ==> b.mon.pcs[q] == M.Outside
    ensures b.mon.k.sems[M.MUTEX].value == 1
    ensures b.mon.pcs[p] == M.WaitDec(Own(b.roles[p]))
  {
    MS.NeverLost(b.mon);
    assert LengthMatches(b.mon.k.sems[M.MUTEX]);
    assert PlaceOk(b.mon.pcs[p], b.mon.k.tasks[p], b.stages[p], b.roles[p]);
    assert M.ParksAt(b.mon.pcs[p]).Some?;
    if b.mon.pcs[p] == M.Inside {
      M.CountMember(M.KParked(M.MUTEX), b.mon, p);
    } else if b.mon.pcs[p] == M.SigDec {
      M.CountMember(M.KSignallers, b.mon, p);
    }
  }

  /** Deadlock freedom: with a producer and a consumer, in every state of every run some process can step. */
  lemma NeverDeadlocked(states: seq<State>, i: nat, producer: nat, consumer: nat)
    requires IsRun(states) && i < |states|
    requires producer < |states[0].roles| && states[0].roles[producer] == Producer
    requires consumer < |states[0].roles| && states[0].roles[consumer] == Consumer
    ensures exists p: nat :: CanStep(states[i], p)
  {
    var b := states[i];
    InvInEveryRun(states, i);
    if forall q :: 0 <= q < |b.roles| ==> b.mon.k.tasks[q] == Sleeping {
      SleepersParked(b, producer);
      SleepersParked(b, consumer);
      ParkedIsCounted(b, producer);
      ParkedIsCounted(b, consumer);
      assert false;
    }
    var q :| 0 <= q < |b.roles| && b.mon.k.tasks[q] != Sleeping;
    assert CanStep(b, q);
  }

  /** The monitor in every state. */
  function Monitors(states: seq<State>): (mons: seq<M.State>)
    ensures |mons| == |states| && forall i :: 0 <= i < |states| ==> mons[i] == states[i].mon
  {
    seq(|states|, i requires 0 <= i < |states| => states[i].mon)
  }

  /** What a run of the buffer does to the monitor, but for the steps that leave it alone, is a run of the monitor. */
  lemma RefinesMonitor(states: seq<State>)
    requires IsRun(states)
    ensures M.IsRun(Runs.Moves(Monitors(states)))
  {
    var mons := Monitors(states);
    forall i, j {:trigger M.StepsOrStays(mons[i], mons[j])} | 0 <= i < |mons| - 1 && j == i + 1
      ensures M.StepsOrStays(mons[i], mons[j])
    {
      InvInEveryRun(states, i);
      assert Next(states[i], states[i + 1]);
      var p: nat :| CanStep(states[i], p) && states[i + 1] == Step(states[i], p);
      StepIsMonitorStep(states[i], p);
    }
    M.MovesAreRun(mons);
  }
}

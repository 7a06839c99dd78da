/**
  What the monitor guarantees: every statement keeps the invariant of module Monitor, so
  every run has one token, exact counters, and hand-overs that reach someone.
 */
module MonitorSafety {
  import opened Counting
  import opened Semaphores
  import opened Monitor

  // ---------------------------------------------------------------------
  // Every step keeps it
  // ---------------------------------------------------------------------

  /** The process the step of p wakes, if any. */
  function Waking(s: State, p: nat): Option<nat>
    requires Shape(s) && p < |s.pcs|
  {
    match Posts(s.pcs[p])
    case Some(m) => Wakes(s.k.sems[m])
    case None => None
  }

  lemma WakingFacts(s: State, p: nat)
    requires QueuesRight(s) && p < |s.pcs| && s.k.tasks[p] == Runnable
    ensures Waking(s, p).Some? ==>
              var w := Waking(s, p).value;
              && w < |s.pcs| && w != p && s.k.tasks[w] == Sleeping
              && ParksAt(s.pcs[w]) == Posts(s.pcs[p])
              && s.k.sems[Posts(s.pcs[p]).value].value < 0
    ensures Posts(s.pcs[p]).Some? && Waking(s, p).None? ==> s.k.sems[Posts(s.pcs[p]).value].value >= 0
  {
    if Posts(s.pcs[p]).Some? {
      var m := Posts(s.pcs[p]).value;
      VNeverDequeuesEmpty(s.k, m);
      if Wakes(s.k.sems[m]).Some? {
        assert Wakes(s.k.sems[m]).value in s.k.sems[m].queue;
      }
    }
  }

  function WakeDelta(kind: Kind, s: State, w: Option<nat>): int {
    if w.Some? && w.value < |s.pcs|
    then Bit(Is(kind, s.pcs[w.value], Runnable)) - Bit(Is(kind, s.pcs[w.value], Sleeping))
    else 0
  }

  /** What a step does to the task states: p may fall asleep, or the woken process wakes. */
  lemma StepTasks(s: State, p: nat, call: Call)
    requires QueuesRight(s) && CanStep(s, p, call)
    ensures var s' := Step(s, p, call);
            var w := Waking(s, p);
            && |s'.pcs| == |s'.k.tasks| == |s.pcs|
            && var tasks := s.k.tasks[p := s'.k.tasks[p]];
               if w.Some? then w.value < |s.pcs| && w.value != p && s'.k.tasks == tasks[w.value := Runnable]
               else s'.k.tasks == tasks
  {
    WakingFacts(s, p);
  }

  /** How a step changes each count: p moves, and the woken process, if any, wakes up. */
  lemma StepCounts(s: State, p: nat, call: Call, kind: Kind)
    requires QueuesRight(s) && CanStep(s, p, call)
    ensures var s' := Step(s, p, call);
            && |s'.pcs| == |s'.k.tasks| == |s.pcs|
            && Count(kind, s') == Count(kind, s)
                                  - Bit(Is(kind, s.pcs[p], Runnable)) + Bit(Is(kind, s'.pcs[p], s'.k.tasks[p]))
                                  + WakeDelta(kind, s, Waking(s, p))
  {
    StepTasks(s, p, call);
    WakingFacts(s, p);
    var s' := Step(s, p, call);
    CountUpdate(kind, s.pcs, s.k.tasks, p, s'.pcs[p], s'.k.tasks[p]);
    if Waking(s, p).Some? {
      var w := Waking(s, p).value;
      CountUpdate(kind, s'.pcs, s.k.tasks[p := s'.k.tasks[p]], w, s.pcs[w], Runnable);
      assert s'.pcs == s'.pcs[w := s.pcs[w]];
    }
  }

  /** The owner is alone, and no semaphore holds a token. */
  lemma OwnerAlone(s: State, p: nat)
    requires Shape(s) && OneToken(s) && p < |s.pcs| && Owns(s.pcs[p], s.k.tasks[p])
    ensures Tokens(s.k.sems) == 0 && Count(KOwner, s) == 1
    ensures forall m :: 0 <= m < |s.k.sems| ==> s.k.sems[m].value <= 0
    ensures forall q :: 0 <= q < |s.pcs| && q != p ==> !Owns(s.pcs[q], s.k.tasks[q])
  {
    CountMember(KOwner, s, p);
    forall m | 0 <= m < |s.k.sems| ensures s.k.sems[m].value <= 0 {
      TokensUpdate(s.k.sems, m, s.k.sems[m]);
    }
    forall q | 0 <= q < |s.pcs| && q != p ensures !Owns(s.pcs[q], s.k.tasks[q]) {
      if Owns(s.pcs[q], s.k.tasks[q]) {
        CountTwo(KOwner, s, p, q);
      }
    }
  }

  lemma ShapeKept(s: State, p: nat, call: Call)
    requires QueuesRight(s) && CanStep(s, p, call)
    ensures Shape(Step(s, p, call)) && WellFormed(Step(s, p, call).k)
  {
    var pc := s.pcs[p];
    if Takes(pc).Some? {
      PKeepsWellFormed(s.k, Takes(pc).value, p);
    } else if Posts(pc).Some? {
      VKeepsWellFormed(s.k, Posts(pc).value);
    }
  }

  /** The semaphore that the statement at pc works on, if any. */
  function Used(pc: Pc): nat {
    if Takes(pc).Some? then Takes(pc).value else Posts(pc).GetOr(MUTEX)
  }

  /** A step changes the tokens by what it does to the one semaphore it uses. */
  lemma TokensStep(s: State, p: nat, call: Call)
    requires QueuesRight(s) && CanStep(s, p, call)
    ensures var s' := Step(s, p, call);
            var m := Used(s.pcs[p]);
            && m < |s.k.sems| == |s'.k.sems|
            && Tokens(s'.k.sems) == Tokens(s.k.sems) - Pos(s.k.sems[m].value) + Pos(s'.k.sems[m].value)
            && Tokens(s.k.sems) >= Pos(s.k.sems[m].value)
  {
    var s', m := Step(s, p, call), Used(s.pcs[p]);
    assert PcOk(s.pcs[p], |s.xCount|);
    TokensUpdate(s.k.sems, m, s'.k.sems[m]);
    assert s'.k.sems == s.k.sems[m := s'.k.sems[m]];
  }

  lemma TokenKept(s: State, p: nat, call: Call)
    requires QueuesRight(s) && OneToken(s) && CanStep(s, p, call) && Shape(Step(s, p, call))
    ensures OneToken(Step(s, p, call))
  {
    StepCounts(s, p, call, KOwner);
    WakingFacts(s, p);
    if Owns(s.pcs[p], Runnable) {
      OwnerAlone(s, p);
    }
    TokensStep(s, p, call);
  }

  lemma CountersKept(s: State, p: nat, call: Call)
    requires QueuesRight(s) && CountersExact(s) && CanStep(s, p, call) && Shape(Step(s, p, call))
    ensures CountersExact(Step(s, p, call))
  {
    StepCounts(s, p, call, KSignallers);
    forall c | 0 <= c < |s.xCount| ensures Step(s, p, call).xCount[c] == Count(KWaiters(c), Step(s, p, call)) {
      StepCounts(s, p, call, KWaiters(c));
    }
  }

  /** Away from the owner, everyone of kind `all` sleeps on semaphore m or is in its window. */
  lemma SplitOthers(s: State, p: nat, all: Kind, window: Kind, m: nat)
    requires QueuesRight(s) && p < |s.pcs| && m < |s.k.sems|
    requires forall q :: 0 <= q < |s.pcs| && q != p ==> !Owns(s.pcs[q], s.k.tasks[q])
    requires (all == KSignallers && window == KSignalWindow && m == NEXT)
             || (all.KWaiters? && window == KWaitWindow(all.c) && m == XSem(all.c))
    ensures var pcs := s.pcs[p := Outside];
            var tasks := s.k.tasks[p := Runnable];
            CountIn(all, pcs, tasks) == CountIn(window, pcs, tasks) + CountIn(KParked(m), pcs, tasks)
  {
    CountSplit(all, window, KParked(m), s.pcs[p := Outside], s.k.tasks[p := Runnable]);
  }

  lemma SplitAroundOwner(s: State, p: nat, all: Kind, window: Kind, m: nat)
    requires QueuesRight(s) && OneToken(s) && m < |s.k.sems|
    requires p < |s.pcs| && Owns(s.pcs[p], s.k.tasks[p])
    requires (all == KSignallers && window == KSignalWindow && m == NEXT)
             || (all.KWaiters? && window == KWaitWindow(all.c) && m == XSem(all.c))
    ensures Count(all, s) == |s.k.sems[m].queue| + Count(window, s) + Bit(Is(all, s.pcs[p], Runnable))
  {
    OwnerAlone(s, p);
    CountUpdate(all, s.pcs, s.k.tasks, p, Outside, Runnable);
    CountUpdate(window, s.pcs, s.k.tasks, p, Outside, Runnable);
    CountUpdate(KParked(m), s.pcs, s.k.tasks, p, Outside, Runnable);
    SplitOthers(s, p, all, window, m);
  }

  /** For the owner, next_count counts those asleep on `next` or about to call P(next), and itself if it is one. */
  lemma SignallersSplit(s: State, p: nat)
    requires QueuesRight(s) && OneToken(s) && CountersExact(s)
    requires p < |s.pcs| && Owns(s.pcs[p], s.k.tasks[p])
    ensures s.nextCount == |s.k.sems[NEXT].queue| + Count(KSignalWindow, s) + Bit(Is(KSignallers, s.pcs[p], Runnable))
  {
    SplitAroundOwner(s, p, KSignallers, KSignalWindow, NEXT);
  }

  lemma WaitersSplit(s: State, p: nat, c: nat)
    requires QueuesRight(s) && OneToken(s) && CountersExact(s)
    requires p < |s.pcs| && Owns(s.pcs[p], s.k.tasks[p]) && c < |s.xCount|
    ensures s.xCount[c] == |s.k.sems[XSem(c)].queue| + Count(KWaitWindow(c), s)
                            + Bit(Is(KWaiters(c), s.pcs[p], Runnable))
  {
    SplitAroundOwner(s, p, KWaiters(c), KWaitWindow(c), XSem(c));
  }

  lemma NextClaimKept(s: State, p: nat, call: Call)
    requires QueuesRight(s) && OneToken(s) && CountersExact(s) && TokensClaimed(s) && TestsStillTrue(s)
    requires CanStep(s, p, call) && Shape(Step(s, p, call))
    ensures Step(s, p, call).k.sems[NEXT].value <= Count(KSignalWindow, Step(s, p, call))
  {
    StepCounts(s, p, call, KSignalWindow);
    WakingFacts(s, p);
    assert Knows(s, s.pcs[p]);
    if s.pcs[p].WaitVNext? || s.pcs[p].LeaveVNext? {
      OwnerAlone(s, p);
      SignallersSplit(s, p);
      assert LengthMatches(s.k.sems[NEXT]);
    }
  }

  lemma XClaimKept(s: State, p: nat, call: Call, c: nat)
    requires QueuesRight(s) && OneToken(s) && CountersExact(s) && TokensClaimed(s) && TestsStillTrue(s)
    requires CanStep(s, p, call) && Shape(Step(s, p, call)) && c < |s.xCount|
    ensures Step(s, p, call).k.sems[XSem(c)].value <= Count(KWaitWindow(c), Step(s, p, call))
  {
    StepCounts(s, p, call, KWaitWindow(c));
    WakingFacts(s, p);
    assert Knows(s, s.pcs[p]);
    if s.pcs[p] == SigV(c) {
      OwnerAlone(s, p);
      WaitersSplit(s, p, c);
      assert LengthMatches(s.k.sems[XSem(c)]);
    }
  }

  lemma ClaimsKept(s: State, p: nat, call: Call)
    requires QueuesRight(s) && OneToken(s) && CountersExact(s) && TokensClaimed(s) && TestsStillTrue(s)
    requires CanStep(s, p, call) && Shape(Step(s, p, call))
    ensures TokensClaimed(Step(s, p, call))
  {
    NextClaimKept(s, p, call);
    forall c | 0 <= c < |s.xCount|
      ensures Step(s, p, call).k.sems[XSem(c)].value <= Count(KWaitWindow(c), Step(s, p, call))
    {
      XClaimKept(s, p, call, c);
    }
  }

  lemma ParkedWhereKept(s: State, p: nat, call: Call, m: nat, q: nat)
    requires QueuesRight(s) && CanStep(s, p, call) && Shape(Step(s, p, call))
    requires m < |s.k.sems| && q in Step(s, p, call).k.sems[m].queue
    ensures q < |s.pcs| && ParksAt(Step(s, p, call).pcs[q]) == Some(m)
  {
    if q in s.k.sems[m].queue {
      assert Asleep(s.k, q);
      assert q != p;
    } else {
      assert q == p;
    }
  }

  lemma ParkedCountKept(s: State, p: nat, call: Call, m: nat)
    requires QueuesRight(s) && CanStep(s, p, call) && Shape(Step(s, p, call)) && m < |s.k.sems|
    ensures |Step(s, p, call).k.sems| == |s.k.sems|
    ensures |Step(s, p, call).k.sems[m].queue| == Count(KParked(m), Step(s, p, call))
  {
    WakingFacts(s, p);
    StepCounts(s, p, call, KParked(m));
    assert LengthMatches(s.k.sems[m]);
  }

  lemma ParkedKept(s: State, p: nat, call: Call)
    requires QueuesRight(s) && CanStep(s, p, call) && Shape(Step(s, p, call))
    ensures ParkedRight(Step(s, p, call))
  {
    var s' := Step(s, p, call);
    assert |s'.k.sems| == |s.k.sems| && |s'.pcs| == |s.pcs|;
    forall m, q: nat {:trigger q in s'.k.sems[m].queue} | 0 <= m < |s'.k.sems| && q in s'.k.sems[m].queue
      ensures q < |s'.pcs| && ParksAt(s'.pcs[q]) == Some(m)
    {
      ParkedWhereKept(s, p, call, m, q);
    }
    forall m | 0 <= m < |s'.k.sems| ensures |s'.k.sems[m].queue| == Count(KParked(m), s') {
      ParkedCountKept(s, p, call, m);
    }
  }

  lemma KnowsKept(s: State, p: nat, call: Call, q: nat)
    requires QueuesRight(s) && OneToken(s) && TestsStillTrue(s) && CanStep(s, p, call) && Shape(Step(s, p, call))
    requires q < |s.pcs|
    ensures Knows(Step(s, p, call), Step(s, p, call).pcs[q])
  {
    assert Knows(s, s.pcs[p]) && Knows(s, s.pcs[q]);
    if Owns(s.pcs[p], Runnable) {
      OwnerAlone(s, p);
    }
    if q != p && s.k.tasks[q] == Sleeping {
      assert ParksAt(s.pcs[q]).Some?;
    }
  }

  lemma TestsKept(s: State, p: nat, call: Call)
    requires QueuesRight(s) && OneToken(s) && TestsStillTrue(s) && CanStep(s, p, call) && Shape(Step(s, p, call))
    ensures TestsStillTrue(Step(s, p, call))
  {
    var s' := Step(s, p, call);
    WakingFacts(s, p);
    assert Knows(s, s.pcs[p]);
    if Owns(s.pcs[p], Runnable) {
      OwnerAlone(s, p);
    }
    forall q | 0 <= q < |s'.pcs| ensures Knows(s', s'.pcs[q]) {
      KnowsKept(s, p, call, q);
    }
  }

  lemma StepKeepsInv(s: State, p: nat, call: Call)
    requires Inv(s) && CanStep(s, p, call)
    ensures Inv(Step(s, p, call))
  {
    ShapeKept(s, p, call);
    TokenKept(s, p, call);
    CountersKept(s, p, call);
    ClaimsKept(s, p, call);
    ParkedKept(s, p, call);
    TestsKept(s, p, call);
  }

  lemma {:induction false} InvInEveryRun(states: seq<State>, i: nat)
    requires Monitor.IsRun(states) && i < |states|
    ensures Inv(states[i])
  {
    if i == 0 {
      InitInv(states[0]);
    } else {
      InvInEveryRun(states, i - 1);
      assert Next(states[i - 1], states[i - 1 + 1]);
      var p: nat, call :| CanStep(states[i - 1], p, call) && states[i] == Step(states[i - 1], p, call);
      StepKeepsInv(states[i - 1], p, call);
    }
  }

  // ---------------------------------------------------------------------
  // What every run of the monitor guarantees
  // ---------------------------------------------------------------------

  /** Exclusion by token conservation: owners plus free tokens are exactly one, in every state of every run. */
  lemma TokenConserved(states: seq<State>, i: nat)
    requires Monitor.IsRun(states) && i < |states|
    ensures Shape(states[i])
    ensures Count(KOwner, states[i]) + Tokens(states[i].k.sems) == 1
  {
    InvInEveryRun(states, i);
  }

  /** No two awake processes are between enter and leave, outside the two hand-over windows. */
  lemma MutualExclusion(states: seq<State>, i: nat, p: nat, q: nat)
    requires Monitor.IsRun(states) && i < |states|
    requires Shape(states[i]) && p < |states[i].pcs| && q < |states[i].pcs|
    requires Owns(states[i].pcs[p], states[i].k.tasks[p]) && Owns(states[i].pcs[q], states[i].k.tasks[q])
    ensures p == q
  {
    InvInEveryRun(states, i);
    OwnerAlone(states[i], p);
  }

  /**
    The counters read at a branch are exact: next_count is the number of processes
    asleep on `next` or about to call P(next), x_count the number asleep on x_sem or
    about to call P(x_sem), plus the reader itself when it is inside wait.
   */
  lemma CounterMeaning(states: seq<State>, i: nat, p: nat)
    requires Monitor.IsRun(states) && i < |states|
    requires Shape(states[i]) && p < |states[i].pcs| && states[i].k.tasks[p] == Runnable
    ensures var s := states[i];
            match s.pcs[p]
            case WaitTest(c) =>
              && s.nextCount == |s.k.sems[NEXT].queue| + Count(KSignalWindow, s)
              && s.xCount[c] == |s.k.sems[XSem(c)].queue| + Count(KWaitWindow(c), s) + 1
            case LeaveTest => s.nextCount == |s.k.sems[NEXT].queue| + Count(KSignalWindow, s)
            case SigTest(c) => s.xCount[c] == |s.k.sems[XSem(c)].queue| + Count(KWaitWindow(c), s)
            case _ => true
  {
    var s := states[i];
    InvInEveryRun(states, i);
    if Owns(s.pcs[p], Runnable) {
      SignallersSplit(s, p);
      match s.pcs[p]
      case WaitTest(c) => WaitersSplit(s, p, c);
      case SigTest(c) => WaitersSplit(s, p, c);
      case _ =>
    }
  }

  /** q is about to call P on semaphore m, in one of the hand-over windows. */
  predicate InWindow(s: State, q: nat, m: nat)
    requires Shape(s)
  {
    q < |s.pcs| && s.k.tasks[q] == Runnable && s.pcs[q] != Outside && Takes(s.pcs[q]) == Some(m)
  }

  lemma HandOverWakes(s: State, p: nat, call: Call, m: nat)
    requires Inv(s) && CanStep(s, p, call) && Posts(s.pcs[p]) == Some(m) && s.k.sems[m].queue != []
    ensures var s', w := Step(s, p, call), s.k.sems[m].queue[0];
            w < |s'.pcs| && w < |s'.k.tasks| && Owns(s'.pcs[w], s'.k.tasks[w])
  {
    assert LengthMatches(s.k.sems[m]);
    WakingFacts(s, p);
    StepTasks(s, p, call);
  }

  /** A token in a semaphore other than the entry is awaited: someone awake is just about to take it. */
  lemma TokenAwaited(s: State, m: nat)
    requires Shape(s) && TokensClaimed(s) && TestsStillTrue(s)
    requires m < |s.k.sems| && m != MUTEX && s.k.sems[m].value > 0
    ensures exists q :: InWindow(s, q, m)
  {
    var kind := if m == NEXT then KSignalWindow else KWaitWindow(m - 2);
    assert m != NEXT ==> m == XSem(m - 2);
    var q := CountWitness(kind, s);
    assert s.k.tasks[q] == Sleeping ==> ParksAt(s.pcs[q]).Some?;
    assert InWindow(s, q, m);
  }

  lemma HandOverClaimed(s: State, p: nat, call: Call, m: nat)
    requires Inv(s) && CanStep(s, p, call) && Posts(s.pcs[p]) == Some(m) && m != MUTEX && s.k.sems[m].queue == []
    ensures Shape(Step(s, p, call))
    ensures Step(s, p, call).k.sems[m].value == 1 && exists q :: InWindow(Step(s, p, call), q, m)
  {
    OwnerAlone(s, p);
    assert LengthMatches(s.k.sems[m]);
    StepKeepsInv(s, p, call);
    TokenAwaited(Step(s, p, call), m);
  }

  /**
    A V on `next` or on an x_sem always passes the monitor on: the oldest sleeper there
    becomes the owner, or, when nobody sleeps, the token waits in the semaphore and
    some awake process is just about to take it.
   */
  lemma HandOverReachesSomeone(states: seq<State>, i: nat, p: nat, call: Call, m: nat)
    requires Monitor.IsRun(states) && i < |states| && CanStep(states[i], p, call)
    requires Posts(states[i].pcs[p]) == Some(m) && m != MUTEX
    ensures var s, s' := states[i], Step(states[i], p, call);
            && Shape(s') && !Owns(s'.pcs[p], s'.k.tasks[p])
            && if s.k.sems[m].queue != [] then
                 s.k.sems[m].queue[0] < |s'.pcs| && Owns(s'.pcs[s.k.sems[m].queue[0]], s'.k.tasks[s.k.sems[m].queue[0]])
               else
                 s'.k.sems[m].value == 1 && exists q :: InWindow(s', q, m)
  {
    InvInEveryRun(states, i);
    StepKeepsInv(states[i], p, call);
    if states[i].k.sems[m].queue != [] {
      HandOverWakes(states[i], p, call, m);
    } else {
      HandOverClaimed(states[i], p, call, m);
    }
  }

  /** A process about to call P where a token lies becomes the owner, in one step. */
  lemma ClaimSucceeds(states: seq<State>, i: nat, q: nat, m: nat, call: Call)
    requires Monitor.IsRun(states) && i < |states| && CanStep(states[i], q, call)
    requires m < |states[i].k.sems| && InWindow(states[i], q, m) && states[i].k.sems[m].value > 0
    ensures var s' := Step(states[i], q, call);
            Shape(s') && Owns(s'.pcs[q], s'.k.tasks[q]) && Tokens(s'.k.sems) == 0
  {
    InvInEveryRun(states, i);
    StepKeepsInv(states[i], q, call);
    OwnerAlone(Step(states[i], q, call), q);
  }

  /** A parked signaller goes first: the entry semaphore is released only when nobody is counted in next_count. */
  lemma SignallersGoFirst(states: seq<State>, i: nat, p: nat)
    requires Monitor.IsRun(states) && i < |states|
    requires Shape(states[i]) && p < |states[i].pcs| && states[i].k.tasks[p] == Runnable
    requires Posts(states[i].pcs[p]) == Some(MUTEX) || states[i].k.sems[MUTEX].value > 0
    ensures Count(KSignallers, states[i]) == 0
    ensures states[i].k.sems[NEXT].queue == []
    ensures forall q :: 0 <= q < |states[i].pcs| ==> states[i].pcs[q] != SigP && states[i].pcs[q] != SigDec
  {
    var s := states[i];
    InvInEveryRun(states, i);
    assert Knows(s, s.pcs[p]);
    assert s.nextCount == Count(KSignallers, s) == 0;
    forall q | 0 <= q < |s.pcs| ensures !Is(KSignallers, s.pcs[q], s.k.tasks[q]) {
      if Is(KSignallers, s.pcs[q], s.k.tasks[q]) {
        CountMember(KSignallers, s, q);
      }
    }
    CountNone(KParked(NEXT), s.pcs, s.k.tasks);
  }

  /** The monitor is never lost: it is free to enter, or some awake process holds it or is about to take it. */
  lemma MonitorNeverLost(states: seq<State>, i: nat)
    requires Monitor.IsRun(states) && i < |states|
    ensures Shape(states[i])
    ensures states[i].k.sems[MUTEX].value == 1 ||
            exists p :: 0 <= p < |states[i].pcs| && states[i].k.tasks[p] == Runnable && states[i].pcs[p] != Outside
  {
    var s := states[i];
    InvInEveryRun(states, i);
    NeverLost(s);
  }

  lemma NeverLost(s: State)
    requires Inv(s)
    ensures s.k.sems[MUTEX].value == 1 ||
            exists p :: 0 <= p < |s.pcs| && s.k.tasks[p] == Runnable && s.pcs[p] != Outside
  {
    if Count(KOwner, s) > 0 {
      var p := CountWitness(KOwner, s);
    } else {
      if forall m :: 0 <= m < |s.k.sems| ==> s.k.sems[m].value <= 0 {
        TokensZero(s.k.sems);
      }
      var m :| 0 <= m < |s.k.sems| && s.k.sems[m].value > 0;
      TokensUpdate(s.k.sems, m, s.k.sems[m]);
      if m != MUTEX {
        TokenAwaited(s, m);
        var p: nat :| InWindow(s, p, m);
      }
    }
  }
}

/**
  Nobody is ever stuck for good in the semaphore version of the buffer: from every state of
  every run the buffer can be emptied, and every process can complete another pass.
 */
module SemaphoreProgress {
  import opened Counting
  import opened Loops
  import opened Runs
  import opened Semaphores
  import opened SemaphoreBuffer
  import opened SemaphoreItems

  /** At rest whoever is not at the top sleeps on full_s, which means an empty buffer. */
  lemma RestFacts(b: State)
    requires Inv(b) && AtRest(b)
    ensures Adding(b) == 0 && Taking(b) == 0 && b.buffer >= 0
    ensures forall q :: 0 <= q < |b.pcs| && !AtTop(b.pcs[q]) ==> b.pcs[q] == CLock && b.buffer == 0
    ensures forall q :: 0 <= q < |b.pcs| && AtTop(b.pcs[q]) ==> b.k.tasks[q] == Runnable
  {
    forall q | 0 <= q < |b.pcs| && b.k.tasks[q] == Sleeping
      ensures b.pcs[q] == PAdd || b.pcs[q] == CSub || b.pcs[q] == CLock
    {
      assert Queued(b.k, q);
      var m :| 0 <= m < 2 && q in b.k.sems[m].queue;
      assert ParksAt(b.pcs[q]) == Some(m);
    }
    MarkedNone(Marks(KHolder, b.pcs, b.k.tasks));
    assert LengthMatches(b.k.sems[LOCK]);
    forall q | 0 <= q < |b.pcs| && !AtTop(b.pcs[q])
      ensures b.pcs[q] == CLock && b.k.sems[FULL].value < 0
    {
      assert Queued(b.k, q);
      var m :| 0 <= m < 2 && q in b.k.sems[m].queue;
      assert ParksAt(b.pcs[q]) == Some(m);
      assert LengthMatches(b.k.sems[m]);
    }
    MarkedNone(Marks(KStored, b.pcs, b.k.tasks));
    MarkedNone(AddedMarks(b));
    MarkedNone(TakenMarks(b));
  }

  // ---------------------------------------------------------------------
  // Everyone under way finishes
  // ---------------------------------------------------------------------

  lemma StepIsOnward(b: State, p: nat)
    requires Inv(b) && CanStep(b, p) && !AtTop(b.pcs[p])
    ensures Onward(TheLoop(), b, Step(b, p))
  {
    StepKeepsInv(b, p);
    StepTops(b, p);
    TotalUpdate(LeftOfAll(b), p, Left(Step(b, p).pcs[p]));
    assert LeftOfAll(Step(b, p)) == LeftOfAll(b)[p := Left(Step(b, p).pcs[p])];
    assert SemaphoreBuffer.Next(b, Step(b, p));
  }

  lemma TheyFinish()
    ensures CanFinish(TheLoop())
  {
    forall b | Inv(b) && !AtRest(b) ensures exists b' :: Onward(TheLoop(), b, b') {
      var p :| 0 <= p < |b.pcs| && b.k.tasks[p] == Runnable && !AtTop(b.pcs[p]);
      StepIsOnward(b, p);
    }
  }

  lemma RunSteps(states: seq<State>)
    requires SemaphoreBuffer.IsRun(states)
    ensures Steps(states, TheLoop().next) && Inv(Last(states))
  {
    InvInEveryRun(states, |states| - 1);
    var next := TheLoop().next;
    forall i, j {:trigger next(states[i], states[j])} | 0 <= i < |states| - 1 && j == i + 1
      ensures next(states[i], states[j])
    {
      assert SemaphoreBuffer.Next(states[i], states[i + 1]);
    }
  }

  lemma StepsRun(states: seq<State>)
    requires states != [] && SemaphoreBuffer.Init(states[0]) && Steps(states, TheLoop().next)
    ensures SemaphoreBuffer.IsRun(states)
  {
    forall i | 0 <= i < |states| - 1 ensures SemaphoreBuffer.Next(states[i], states[i + 1]) {
      assert TheLoop().next(states[i], states[i + 1]);
    }
  }

  /** A run that has come to rest, with these producers and consumers. */
  ghost predicate Resting(states: seq<State>, adders: set<nat>, takers: set<nat>) {
    SemaphoreBuffer.IsRun(states) && Cast(Last(states), adders, takers) && AtRest(Last(states))
  }

  /** What rest means for who is where: producers are at the top, and if not everyone is, the buffer is empty. */
  ghost predicate Quiet(b: State, adders: set<nat>, takers: set<nat>) {
    && b.buffer >= 0 && adders !! takers
    && (forall q :: q in adders || q in takers ==> q < |b.pcs|)
    && (forall q :: 0 <= q < |b.pcs| ==> q in adders || q in takers)
    && (forall q :: q in adders ==> Tops(b)[q] && b.pcs[q] == PTest)
    && (forall q :: q in takers && AtTop(b.pcs[q]) ==> b.pcs[q] == CTake)
    && (forall q :: 0 <= q < |b.pcs| && !Tops(b)[q] ==> b.buffer == 0)
  }

  lemma RestIsQuiet(b: State, adders: set<nat>, takers: set<nat>)
    requires Cast(b, adders, takers) && AtRest(b)
    ensures Quiet(b, adders, takers)
  {
    RestFacts(b);
    forall q | q in adders ensures q < |b.pcs| && Tops(b)[q] && b.pcs[q] == PTest {
      assert q in ProducersOf(b);
    }
    forall q | q in takers ensures q < |b.pcs| {
      assert q in ConsumersOf(b);
    }
    forall q | 0 <= q < |b.pcs| ensures q in adders || q in takers {
      assert q in ProducersOf(b) || q in ConsumersOf(b);
    }
  }

  /** Who is not at the top once q has started, and is there in the end. */
  ghost function Back(b: State, q: nat, b': State): set<nat>
    requires q < |b.pcs|
  {
    Returns(Tops(b)[q := false], Tops(b'))
  }

  /** Every run goes on to rest. */
  lemma ComeToRest(states: seq<State>) returns (longer: seq<State>)
    requires SemaphoreBuffer.IsRun(states)
    ensures states <= longer && Resting(longer, ProducersOf(states[0]), ConsumersOf(states[0]))
  {
    TheyFinish();
    RunSteps(states);
    longer := ToRest(TheLoop(), states);
    StepsRun(longer);
    ItemsConserved(longer);
  }

  lemma TurnStarts(b: State, q: nat)
    requires Inv(b) && AtRest(b) && q < |b.pcs| && AtTop(b.pcs[q]) && (b.pcs[q] == PTest ==> b.buffer < 5)
    ensures CanStep(b, q) && SemaphoreBuffer.Next(b, Step(b, q)) && Inv(Step(b, q))
    ensures Tops(Step(b, q)) == Tops(b)[q := false]
  {
    RestFacts(b);
    StepKeepsInv(b, q);
    StepTops(b, q);
  }

  lemma TurnRun(states: seq<State>, q: nat) returns (longer: seq<State>)
    requires SemaphoreBuffer.IsRun(states) && AtRest(Last(states))
    requires q < |Last(states).pcs| && AtTop(Last(states).pcs[q])
    requires Last(states).pcs[q] == PTest ==> Last(states).buffer < 5
    ensures GoesOn(TheLoop(), states, Tops(Last(states))[q := false], longer)
    ensures SemaphoreBuffer.IsRun(longer) && AtRest(Last(longer))
  {
    RunSteps(states);
    TurnStarts(Last(states), q);
    TheyFinish();
    longer := Start(TheLoop(), states, q, Step(Last(states), q));
    StepsRun(longer);
  }

  lemma TurnItems(states: seq<State>, q: nat, adders: set<nat>, takers: set<nat>, longer: seq<State>)
    requires Resting(states, adders, takers) && q < |Last(states).pcs|
    requires GoesOn(TheLoop(), states, Tops(Last(states))[q := false], longer) && AtRest(Last(longer))
    ensures Cast(Last(longer), adders, takers)
    ensures var back := Back(Last(states), q, Last(longer));
            Last(longer).buffer == Last(states).buffer + |back * adders| - |back * takers|
  {
    RunSteps(states);
    ItemsConserved(states);
    HasAccounts(adders, takers);
    InitItems(states[0]);
    StretchItems(TheLoop(), Settled, b => Cast(b, adders, takers), adders, takers,
                 states, Tops(Last(states))[q := false], longer);
    RestFacts(Last(states));
    RestFacts(Last(longer));
  }

  /** A process at the top of its loop takes its turn, and everyone goes on to rest. */
  lemma TakeTurn(states: seq<State>, q: nat, adders: set<nat>, takers: set<nat>) returns (longer: seq<State>)
    requires Resting(states, adders, takers)
    requires q < |Last(states).pcs| && AtTop(Last(states).pcs[q])
    requires Last(states).pcs[q] == PTest ==> Last(states).buffer < 5
    ensures states <= longer && Resting(longer, adders, takers)
    ensures NobodyStarts(Tops(Last(states))[q := false], Tops(Last(longer)))
    ensures var back := Back(Last(states), q, Last(longer));
            && PassesIn(TheLoop(), longer, {q}) == PassesIn(TheLoop(), states, {q}) + |back * {q}|
            && Last(longer).buffer == Last(states).buffer + |back * adders| - |back * takers|
  {
    longer := TurnRun(states, q);
    TurnItems(states, q, adders, takers, longer);
  }

  // ---------------------------------------------------------------------
  // Consumers empty the buffer
  // ---------------------------------------------------------------------

  lemma ConsumerIsBack(b: State, q: nat, b': State, adders: set<nat>, takers: set<nat>)
    requires Quiet(b, adders, takers) && Quiet(b', adders, takers)
    requires b.buffer > 0 && q in takers && NobodyStarts(Tops(b)[q := false], Tops(b'))
    requires b'.buffer == b.buffer + |Back(b, q, b') * adders| - |Back(b, q, b') * takers|
    ensures |Back(b, q, b') * {q}| == 1 && b'.buffer == b.buffer - 1
  {
    var back := Back(b, q, b');
    assert back <= {q};
    assert back * adders == {} && back * takers == back;
    assert back == {q} || back == {};
    assert {q} * {q} == {q};
  }

  lemma TakeConsumerTurn(states: seq<State>, q: nat, adders: set<nat>, takers: set<nat>) returns (longer: seq<State>)
    requires Resting(states, adders, takers) && q in takers && Last(states).buffer > 0
    ensures states <= longer && Resting(longer, adders, takers)
    ensures Quiet(Last(states), adders, takers) && Quiet(Last(longer), adders, takers)
    ensures NobodyStarts(Tops(Last(states))[q := false], Tops(Last(longer)))
    ensures var back := Back(Last(states), q, Last(longer));
            && PassesIn(TheLoop(), longer, {q}) == PassesIn(TheLoop(), states, {q}) + |back * {q}|
            && Last(longer).buffer == Last(states).buffer + |back * adders| - |back * takers|
  {
    RestIsQuiet(Last(states), adders, takers);
    assert Tops(Last(states))[q];
    longer := TakeTurn(states, q, adders, takers);
    RestIsQuiet(Last(longer), adders, takers);
  }

  /** A consumer that finds an item takes it and is back at the top. */
  lemma ConsumeOne(states: seq<State>, q: nat, adders: set<nat>, takers: set<nat>) returns (longer: seq<State>)
    requires Resting(states, adders, takers) && q in takers && Last(states).buffer > 0
    ensures states <= longer && Resting(longer, adders, takers)
    ensures Last(longer).buffer == Last(states).buffer - 1
    ensures PassesIn(TheLoop(), longer, {q}) == PassesIn(TheLoop(), states, {q}) + 1
  {
    longer := TakeConsumerTurn(states, q, adders, takers);
    ConsumerIsBack(Last(states), q, Last(longer), adders, takers);
  }

  lemma {:induction false} ConsumeDownTo(states: seq<State>, q: nat, n: nat, adders: set<nat>, takers: set<nat>)
    returns (longer: seq<State>)
    requires Resting(states, adders, takers) && q in takers && Last(states).buffer >= n
    ensures states <= longer && Resting(longer, adders, takers) && Last(longer).buffer == n
    decreases Last(states).buffer
  {
    longer := states;
    if Last(states).buffer > n {
      longer := ConsumeOne(states, q, adders, takers);
      longer := ConsumeDownTo(longer, q, n, adders, takers);
    }
  }

  /** From every state of every run with a consumer, the buffer can be emptied. */
  lemma CanBeEmptied(states: seq<State>, q: nat) returns (longer: seq<State>)
    requires SemaphoreBuffer.IsRun(states) && q in ConsumersOf(states[0])
    ensures SemaphoreBuffer.IsRun(longer) && states <= longer && AtRest(Last(longer)) && Last(longer).buffer == 0
  {
    longer := ComeToRest(states);
    RestFacts(Last(longer));
    longer := ConsumeDownTo(longer, q, 0, ProducersOf(states[0]), ConsumersOf(states[0]));
  }

  // ---------------------------------------------------------------------
  // Everyone can complete another pass
  // ---------------------------------------------------------------------

  ghost predicate PassesMore(states: seq<State>, q: nat, longer: seq<State>) {
    && SemaphoreBuffer.IsRun(longer) && states <= longer
    && PassesIn(TheLoop(), longer, {q}) > PassesIn(TheLoop(), states, {q})
  }

  lemma PassesMoreLater(states: seq<State>, some: seq<State>, q: nat, longer: seq<State>)
    requires states != [] && states <= some && PassesMore(some, q, longer)
    ensures PassesMore(states, q, longer)
  {
    PassesGrow(TheLoop(), states, some, {q});
  }

  ghost function Away(b: State): set<nat> {
    set q | 0 <= q < |b.pcs| && !AtTop(b.pcs[q])
  }

  /** At rest producers are at the top; so one that took its turn is back, and is the only producer that is. */
  lemma ProducerIsBack(b: State, p: nat, b': State, adders: set<nat>, takers: set<nat>)
    requires Quiet(b, adders, takers) && Quiet(b', adders, takers)
    requires p in adders && NobodyStarts(Tops(b)[p := false], Tops(b'))
    ensures Back(b, p, b') * adders == {p} && Back(b, p, b') * {p} == {p}
  {
    assert forall q :: q in Back(b, p, b') * adders <==> q == p;
  }

  /** When a producer's item is gone again, a consumer that was asleep has taken it. */
  lemma SleeperTookIt(b: State, p: nat, b': State, adders: set<nat>, takers: set<nat>)
    requires Quiet(b, adders, takers) && Quiet(b', adders, takers)
    requires p in adders && NobodyStarts(Tops(b)[p := false], Tops(b'))
    requires b.buffer == 0 == b'.buffer == 0 + |Back(b, p, b') * adders| - |Back(b, p, b') * takers|
    ensures Away(b') < Away(b)
  {
    ProducerIsBack(b, p, b', adders, takers);
    assert |{p}| == 1;
    assert Back(b, p, b') * takers != {};
    var r :| r in Back(b, p, b') * takers;
    assert r in Away(b) && r !in Away(b');
    forall s | s in Away(b') ensures s in Away(b) {
      assert s != p;
      assert !Tops(b)[p := false][s];
    }
  }

  lemma {:induction false} ConsumerPasses(states: seq<State>, q: nat, p: nat, adders: set<nat>, takers: set<nat>)
    returns (longer: seq<State>)
    requires Resting(states, adders, takers) && q in takers && p in adders
    ensures PassesMore(states, q, longer)
    decreases Away(Last(states))
  {
    RestIsQuiet(Last(states), adders, takers);
    if Last(states).buffer > 0 {
      longer := ConsumeOne(states, q, adders, takers);
    } else {
      var some := TakeTurn(states, p, adders, takers);
      RestIsQuiet(Last(some), adders, takers);
      if Last(some).buffer > 0 {
        longer := ConsumeOne(some, q, adders, takers);
      } else {
        SleeperTookIt(Last(states), p, Last(some), adders, takers);
        longer := ConsumerPasses(some, q, p, adders, takers);
      }
      PassesMoreLater(states, some, q, longer);
    }
  }

  lemma ProduceOne(states: seq<State>, p: nat, adders: set<nat>, takers: set<nat>) returns (longer: seq<State>)
    requires Resting(states, adders, takers) && p in adders && Last(states).buffer < 5
    ensures PassesMore(states, p, longer)
  {
    RestIsQuiet(Last(states), adders, takers);
    longer := TakeTurn(states, p, adders, takers);
    RestIsQuiet(Last(longer), adders, takers);
    ProducerIsBack(Last(states), p, Last(longer), adders, takers);
  }

  lemma ProducerPasses(states: seq<State>, p: nat, q: nat, adders: set<nat>, takers: set<nat>)
    returns (longer: seq<State>)
    requires Resting(states, adders, takers) && q in takers && p in adders
    ensures PassesMore(states, p, longer)
  {
    if Last(states).buffer < 5 {
      longer := ProduceOne(states, p, adders, takers);
    } else {
      var some := ConsumeDownTo(states, q, 4, adders, takers);
      longer := ProduceOne(some, p, adders, takers);
      PassesMoreLater(states, some, p, longer);
    }
  }

  /**
    Nobody is stuck: with a producer and a consumer, every run goes on to one in which any
    given process has completed one more pass.
   */
  lemma EveryoneCanPass(states: seq<State>, who: nat, p: nat, q: nat) returns (longer: seq<State>)
    requires SemaphoreBuffer.IsRun(states) && who < |states[0].pcs|
    requires p in ProducersOf(states[0]) && q in ConsumersOf(states[0])
    ensures PassesMore(states, who, longer)
  {
    var adders, takers := ProducersOf(states[0]), ConsumersOf(states[0]);
    var some := ComeToRest(states);
    if who in adders {
      longer := ProducerPasses(some, who, q, adders, takers);
    } else {
      longer := ConsumerPasses(some, who, p, adders, takers);
    }
    PassesMoreLater(states, some, who, longer);
  }
}

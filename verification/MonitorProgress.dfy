/**
  Nobody is ever stuck for good in the monitor version of the buffer: from every state of
  every run the buffer can be filled and emptied, and every process can complete another
  pass, those parked in wait included.
 */
module MonitorProgress {
  import opened Counting
  import opened Loops
  import opened Runs
  import opened Semaphores
  import opened MonitorBuffer
  import opened MonitorItems
  import M = Monitor

  /** Whoever is not outside at rest sleeps in wait, producers on a buffer of 5 and consumers on an empty one. */
  lemma IdleFacts(b: State, q: nat)
    requires Inv(b) && Idle(b) && q < |b.roles|
    ensures b.mon.pcs[q] == M.Outside ==> b.mon.k.tasks[q] == Runnable
    ensures b.mon.pcs[q] != M.Outside ==>
              && b.mon.k.tasks[q] == Sleeping && b.mon.pcs[q].WaitDec? && b.stages[q] == AtUpdate
              && b.buffer == if b.roles[q] == Producer then 5 else 0
  {
    assert PlaceOk(b.mon.pcs[q], b.mon.k.tasks[q], b.stages[q], b.roles[q]);
    if b.mon.k.tasks[q] == Sleeping {
      assert M.ParksAt(b.mon.pcs[q]).Some?;
    }
    if b.mon.pcs[q] != M.Outside {
      SleepersParked(b, q);
      ParkedIsCounted(b, q);
    }
  }

  lemma IdleCounts(b: State)
    requires Inv(b) && Idle(b)
    ensures Updating(b, Producer) == 0 == Updating(b, Consumer)
  {
    forall q | 0 <= q < |b.roles| ensures !Updated(b.mon.pcs[q], b.stages[q]) {
      IdleFacts(b, q);
    }
    MarkedNone(UpdatedMarks(b, Producer));
    MarkedNone(UpdatedMarks(b, Consumer));
  }

  // ---------------------------------------------------------------------
  // Everyone under way finishes
  // ---------------------------------------------------------------------

  lemma LeftFallsInClient(b: State, p: nat)
    requires Inv(b) && CanStep(b, p) && b.mon.pcs[p] == M.Inside && Moved(b, p, Step(b, p))
    ensures Left(Step(b, p).mon.pcs[p], Step(b, p).stages[p]) < Left(b.mon.pcs[p], b.stages[p])
  {
    assert PlaceOk(b.mon.pcs[p], b.mon.k.tasks[p], b.stages[p], b.roles[p]);
  }

  lemma LeftFallsInMonitor(b: State, p: nat)
    requires Inv(b) && CanStep(b, p) && b.mon.pcs[p] != M.Outside && b.mon.pcs[p] != M.Inside && Moved(b, p, Step(b, p))
    ensures Left(Step(b, p).mon.pcs[p], Step(b, p).stages[p]) < Left(b.mon.pcs[p], b.stages[p])
  {
    assert PlaceOk(b.mon.pcs[p], b.mon.k.tasks[p], b.stages[p], b.roles[p]);
    assert Step(b, p).stages[p] == b.stages[p];
    assert Step(b, p).mon.pcs[p] == M.PcAfter(b.mon.pcs[p], M.Leave, b.mon.nextCount, b.mon.xCount);
  }

  lemma LeftFalls(b: State, p: nat)
    requires Inv(b) && CanStep(b, p) && b.mon.pcs[p] != M.Outside && Moved(b, p, Step(b, p))
    ensures Left(Step(b, p).mon.pcs[p], Step(b, p).stages[p]) < Left(b.mon.pcs[p], b.stages[p])
  {
    if b.mon.pcs[p] == M.Inside {
      LeftFallsInClient(b, p);
    } else {
      LeftFallsInMonitor(b, p);
    }
  }

  lemma TotalFalls(b: State, p: nat, b': State)
    requires Moved(b, p, b') && Left(b'.mon.pcs[p], b'.stages[p]) < Left(b.mon.pcs[p], b.stages[p])
    ensures LeftIn(b') < LeftIn(b)
  {
    TotalUpdate(LeftOfAll(b), p, Left(b'.mon.pcs[p], b'.stages[p]));
    assert LeftOfAll(b') == LeftOfAll(b)[p := Left(b'.mon.pcs[p], b'.stages[p])];
  }

  lemma StepIsOnward(b: State, p: nat)
    requires Inv(b) && CanStep(b, p) && b.mon.pcs[p] != M.Outside
    ensures Onward(TheLoop(), b, Step(b, p))
  {
    StepKeepsInv(b, p);
    StepMoves(b, p);
    MovedTops(b, p, Step(b, p));
    LeftFalls(b, p);
    TotalFalls(b, p, Step(b, p));
    assert MonitorBuffer.Next(b, Step(b, p));
  }

  lemma TheyFinish()
    ensures CanFinish(TheLoop())
  {
    forall b | Inv(b) && !Idle(b) ensures exists b' :: Onward(TheLoop(), b, b') {
      var p :| 0 <= p < |b.roles| && b.mon.k.tasks[p] == Runnable && b.mon.pcs[p] != M.Outside;
      StepIsOnward(b, p);
    }
  }

  lemma RunSteps(states: seq<State>)
    requires MonitorBuffer.IsRun(states)
    ensures Steps(states, TheLoop().next) && Inv(Last(states))
  {
    InvInEveryRun(states, |states| - 1);
    var next := TheLoop().next;
    forall i, j {:trigger next(states[i], states[j])} | 0 <= i < |states| - 1 && j == i + 1
      ensures next(states[i], states[j])
    {
      assert MonitorBuffer.Next(states[i], states[i + 1]);
    }
  }

  lemma StepsRun(states: seq<State>)
    requires states != [] && MonitorBuffer.Init(states[0]) && Steps(states, TheLoop().next)
    ensures MonitorBuffer.IsRun(states)
  {
    forall i | 0 <= i < |states| - 1 ensures MonitorBuffer.Next(states[i], states[i + 1]) {
      assert TheLoop().next(states[i], states[i + 1]);
    }
  }

  /** A run that has come to rest, with these producers and consumers. */
  ghost predicate Resting(states: seq<State>, adders: set<nat>, takers: set<nat>) {
    MonitorBuffer.IsRun(states) && Cast(Last(states), adders, takers) && Idle(Last(states))
  }

  /** What rest means for who is where. */
  ghost predicate Quiet(b: State, adders: set<nat>, takers: set<nat>) {
    && 0 <= b.buffer <= 5 && adders !! takers
    && (forall q :: q in adders || q in takers <==> 0 <= q < |Tops(b)|)
    && (forall q :: q in adders && !Tops(b)[q] ==> b.buffer == 5)
    && (forall q :: q in takers && !Tops(b)[q] ==> b.buffer == 0)
  }

  lemma RestIsQuiet(b: State, adders: set<nat>, takers: set<nat>)
    requires Cast(b, adders, takers) && Idle(b)
    ensures Quiet(b, adders, takers)
  {
    BoundedByInv(b);
    forall q | 0 <= q < |b.roles| && !Tops(b)[q] ensures b.buffer == if b.roles[q] == Producer then 5 else 0 {
      IdleFacts(b, q);
    }
    assert forall q :: q in Of(b, Producer) || q in Of(b, Consumer) <==> 0 <= q < |b.roles|;
  }

  /** Who is not outside once q has entered, and is there in the end. */
  ghost function Back(b: State, q: nat, b': State): set<nat>
    requires q < |b.mon.pcs|
  {
    Returns(Tops(b)[q := false], Tops(b'))
  }

  /** Every run goes on to rest. */
  lemma ComeToRest(states: seq<State>) returns (longer: seq<State>)
    requires MonitorBuffer.IsRun(states)
    ensures states <= longer && Resting(longer, Of(states[0], Producer), Of(states[0], Consumer))
  {
    TheyFinish();
    RunSteps(states);
    longer := ToRest(TheLoop(), states);
    StepsRun(longer);
    ItemsConserved(longer);
  }

  lemma TurnStarts(b: State, q: nat)
    requires Inv(b) && Idle(b) && q < |b.roles| && b.mon.pcs[q] == M.Outside
    ensures CanStep(b, q) && MonitorBuffer.Next(b, Step(b, q)) && Inv(Step(b, q))
    ensures Tops(Step(b, q)) == Tops(b)[q := false]
  {
    IdleFacts(b, q);
    StepKeepsInv(b, q);
    StepMoves(b, q);
    MovedTops(b, q, Step(b, q));
  }

  lemma TurnRun(states: seq<State>, q: nat) returns (longer: seq<State>)
    requires MonitorBuffer.IsRun(states) && Idle(Last(states))
    requires q < |Last(states).roles| && Last(states).mon.pcs[q] == M.Outside
    ensures GoesOn(TheLoop(), states, Tops(Last(states))[q := false], longer)
    ensures MonitorBuffer.IsRun(longer) && Idle(Last(longer))
  {
    RunSteps(states);
    TurnStarts(Last(states), q);
    TheyFinish();
    longer := Start(TheLoop(), states, q, Step(Last(states), q));
    StepsRun(longer);
  }

  lemma TurnItems(states: seq<State>, q: nat, adders: set<nat>, takers: set<nat>, longer: seq<State>)
    requires Resting(states, adders, takers) && q < |Last(states).mon.pcs|
    requires GoesOn(TheLoop(), states, Tops(Last(states))[q := false], longer) && Idle(Last(longer))
    ensures Cast(Last(longer), adders, takers)
    ensures var back := Back(Last(states), q, Last(longer));
            Last(longer).buffer == Last(states).buffer + |back * adders| - |back * takers|
  {
    RunSteps(states);
    ItemsConserved(states);
    HasAccounts(adders, takers);
    InitItems(states[0]);
    StretchItems(TheLoop(), Settled, b => Cast(b, adders, takers), adders, takers,
                 states, Tops(Last(states))[q := false], longer);
    IdleCounts(Last(states));
    IdleCounts(Last(longer));
  }

  /** What a turn of q leaves: who is back, and what that means for the buffer. */
  ghost predicate Turned(b: State, q: nat, b': State, adders: set<nat>, takers: set<nat>) {
    && q < |b.mon.pcs| && Quiet(b, adders, takers) && Quiet(b', adders, takers)
    && NobodyStarts(Tops(b)[q := false], Tops(b'))
    && b'.buffer == b.buffer + |Back(b, q, b') * adders| - |Back(b, q, b') * takers|
  }

  ghost predicate PassesMore(states: seq<State>, q: nat, longer: seq<State>) {
    && MonitorBuffer.IsRun(longer) && states <= longer
    && PassesIn(TheLoop(), longer, {q}) > PassesIn(TheLoop(), states, {q})
  }

  lemma BackHasPassed(states: seq<State>, x: nat, who: nat, longer: seq<State>)
    requires states != [] && x < |Last(states).mon.pcs| && MonitorBuffer.IsRun(longer)
    requires GoesOn(TheLoop(), states, Tops(Last(states))[x := false], longer)
    requires who in Back(Last(states), x, Last(longer))
    ensures PassesMore(states, who, longer)
  {
    assert Back(Last(states), x, Last(longer)) * {who} == {who};
    assert PassesIn(TheLoop(), longer, {who})
        == PassesIn(TheLoop(), states, {who}) + |Back(Last(states), x, Last(longer)) * {who}|;
  }

  lemma RunIsTurned(states: seq<State>, q: nat, adders: set<nat>, takers: set<nat>, longer: seq<State>)
    requires Resting(states, adders, takers) && q < |Last(states).mon.pcs|
    requires GoesOn(TheLoop(), states, Tops(Last(states))[q := false], longer) && Idle(Last(longer))
    ensures Cast(Last(longer), adders, takers) && Turned(Last(states), q, Last(longer), adders, takers)
  {
    TurnItems(states, q, adders, takers, longer);
    RestIsQuiet(Last(states), adders, takers);
    RestIsQuiet(Last(longer), adders, takers);
  }

  /** A process outside the monitor takes its turn, and everyone goes on to rest; `who`, if it comes back, has passed. */
  lemma TakeTurn(states: seq<State>, q: nat, adders: set<nat>, takers: set<nat>, who: nat)
    returns (longer: seq<State>)
    requires Resting(states, adders, takers) && q < |Tops(Last(states))| && Tops(Last(states))[q]
    ensures states <= longer && Resting(longer, adders, takers)
    ensures Turned(Last(states), q, Last(longer), adders, takers)
    ensures who in Back(Last(states), q, Last(longer)) ==> PassesMore(states, who, longer)
  {
    longer := TurnRun(states, q);
    RunIsTurned(states, q, adders, takers, longer);
    if who in Back(Last(states), q, Last(longer)) {
      BackHasPassed(states, q, who, longer);
    }
  }

  // ---------------------------------------------------------------------
  // Everyone can complete another pass
  // ---------------------------------------------------------------------

  ghost function Away(b: State): set<nat> {
    set q | 0 <= q < |Tops(b)| && !Tops(b)[q]
  }

  lemma PassesMoreLater(states: seq<State>, some: seq<State>, q: nat, longer: seq<State>)
    requires states != [] && states <= some && PassesMore(some, q, longer)
    ensures PassesMore(states, q, longer)
  {
    PassesGrow(TheLoop(), states, some, {q});
  }

  /** After a turn nobody new is away but perhaps the one whose turn it was; someone else who came back no longer is. */
  lemma AwayAfterTurn(b: State, q: nat, b': State, adders: set<nat>, takers: set<nat>)
    requires Turned(b, q, b', adders, takers) && Tops(b)[q] && Tops(b')[q]
    ensures Away(b') <= Away(b)
    ensures forall r :: r != q && r in Back(b, q, b') ==> Away(b') < Away(b)
  {
    forall s | s in Away(b') ensures s in Away(b) {
      assert !Tops(b)[q := false][s];
    }
    forall r | r != q && r in Back(b, q, b') ensures Away(b') < Away(b) {
      assert r in Away(b) && r !in Away(b');
    }
  }

  /** If one parked process is still parked after a turn of the other kind, another of its kind has come back. */
  lemma AnotherCameBack(b: State, x: nat, b': State, adders: set<nat>, takers: set<nat>, who: nat)
    requires Turned(b, x, b', adders, takers) && Tops(b)[x] && who < |Tops(b)| && !Tops(b)[who] && !Tops(b')[who]
    requires (who in takers && x in adders) || (who in adders && x in takers)
    ensures Tops(b')[x] && Away(b') < Away(b)
  {
    var back, kind := Back(b, x, b'), if who in takers then takers else adders;
    assert Tops(b')[x];
    AwayAfterTurn(b, x, b', adders, takers);
    assert x in back * if who in takers then adders else takers;
    assert back * kind != {};
    var r :| r in back * kind;
  }

  lemma BackOrAnother(b: State, x: nat, b': State, adders: set<nat>, takers: set<nat>, who: nat)
    requires Turned(b, x, b', adders, takers) && Tops(b)[x] && who < |Tops(b)| && !Tops(b)[who]
    requires (who in takers && x in adders) || (who in adders && x in takers)
    ensures who in Back(b, x, b') ||
            (who < |Tops(b')| && !Tops(b')[who] && Away(b') < Away(b))
  {
    if !Tops(b')[who] {
      AnotherCameBack(b, x, b', adders, takers, who);
    }
  }

  /** Producers and consumers are never parked at the same time. */
  lemma OtherKindIsOutside(b: State, who: nat, x: nat, adders: set<nat>, takers: set<nat>)
    requires Cast(b, adders, takers) && Idle(b) && who < |Tops(b)| && !Tops(b)[who]
    requires (who in takers && x in adders) || (who in adders && x in takers)
    ensures x < |Tops(b)| && Tops(b)[x]
  {
    RestIsQuiet(b, adders, takers);
  }

  lemma ParkedTurn(states: seq<State>, who: nat, x: nat, adders: set<nat>, takers: set<nat>) returns (longer: seq<State>)
    requires Resting(states, adders, takers)
    requires (who in takers && x in adders) || (who in adders && x in takers)
    requires who < |Tops(Last(states))| && !Tops(Last(states))[who]
    ensures states <= longer && Resting(longer, adders, takers)
    ensures PassesMore(states, who, longer) ||
            (who < |Tops(Last(longer))| && !Tops(Last(longer))[who] && Away(Last(longer)) < Away(Last(states)))
  {
    OtherKindIsOutside(Last(states), who, x, adders, takers);
    longer := TakeTurn(states, x, adders, takers, who);
    BackOrAnother(Last(states), x, Last(longer), adders, takers, who);
  }

  /** A parked process comes back when enough of the other kind have had their turn. */
  lemma {:induction false} ParkedPasses(states: seq<State>, who: nat, x: nat, adders: set<nat>, takers: set<nat>)
    returns (longer: seq<State>)
    requires Resting(states, adders, takers)
    requires (who in takers && x in adders) || (who in adders && x in takers)
    requires who < |Tops(Last(states))| && !Tops(Last(states))[who]
    ensures PassesMore(states, who, longer)
    decreases Away(Last(states))
  {
    longer := ParkedTurn(states, who, x, adders, takers);
    if !PassesMore(states, who, longer) {
      var some := longer;
      longer := ParkedPasses(some, who, x, adders, takers);
      PassesMoreLater(states, some, who, longer);
    }
  }

  lemma RestingPasses(states: seq<State>, who: nat, x: nat, adders: set<nat>, takers: set<nat>)
    returns (longer: seq<State>)
    requires Resting(states, adders, takers)
    requires (who in takers && x in adders) || (who in adders && x in takers)
    ensures PassesMore(states, who, longer)
  {
    RestIsQuiet(Last(states), adders, takers);
    if Tops(Last(states))[who] {
      longer := TakeTurn(states, who, adders, takers, who);
      if who !in Back(Last(states), who, Last(longer)) {
        var some := longer;
        longer := ParkedPasses(some, who, x, adders, takers);
        PassesMoreLater(states, some, who, longer);
      }
    } else {
      longer := ParkedPasses(states, who, x, adders, takers);
    }
  }

  /**
    Nobody is stuck: with a producer and a consumer, every run goes on to one in which any
    given process, parked or not, has completed one more pass.
   */
  lemma EveryoneCanPass(states: seq<State>, who: nat, p: nat, q: nat) returns (longer: seq<State>)
    requires MonitorBuffer.IsRun(states) && who < |states[0].roles|
    requires p in Of(states[0], Producer) && q in Of(states[0], Consumer)
    ensures PassesMore(states, who, longer)
  {
    var adders, takers := Of(states[0], Producer), Of(states[0], Consumer);
    var some := ComeToRest(states);
    longer := RestingPasses(some, who, if who in adders then q else p, adders, takers);
    PassesMoreLater(states, some, who, longer);
  }

  // ---------------------------------------------------------------------
  // The buffer can be filled and emptied
  // ---------------------------------------------------------------------

  /** How far the buffer is from full, for producers, or from empty, for consumers. */
  function Room(b: State, fill: bool): int { if fill then 5 - b.buffer else b.buffer }

  lemma RoomAfterTurn(b: State, x: nat, b': State, adders: set<nat>, takers: set<nat>, fill: bool)
    requires Turned(b, x, b', adders, takers) && Tops(b)[x] && x in if fill then adders else takers
    requires Room(b, fill) > 0 && Room(b', fill) > 0
    ensures Tops(b')[x] && (Away(b') < Away(b) || (Away(b') == Away(b) && Room(b', fill) < Room(b, fill)))
  {
    var back, kind, other := Back(b, x, b'), if fill then adders else takers, if fill then takers else adders;
    assert Tops(b')[x];
    AwayAfterTurn(b, x, b', adders, takers);
    assert x in back * kind;
    if back * other != {} {
      var r :| r in back * other;
    }
  }

  lemma {:induction false} TurnsFill(states: seq<State>, x: nat, adders: set<nat>, takers: set<nat>, fill: bool)
    returns (longer: seq<State>)
    requires Resting(states, adders, takers) && x in if fill then adders else takers
    ensures states <= longer && Resting(longer, adders, takers) && Room(Last(longer), fill) == 0
    decreases Away(Last(states)), Room(Last(states), fill)
  {
    RestIsQuiet(Last(states), adders, takers);
    longer := states;
    if Room(Last(states), fill) > 0 {
      longer := TakeTurn(states, x, adders, takers, x);
      if Room(Last(longer), fill) > 0 {
        RoomAfterTurn(Last(states), x, Last(longer), adders, takers, fill);
        longer := TurnsFill(longer, x, adders, takers, fill);
      }
    }
  }

  /** From every state of every run a producer can bring buffer_m to 5, and a consumer to 0. */
  lemma CanBeFilledOrEmptied(states: seq<State>, x: nat) returns (longer: seq<State>)
    requires MonitorBuffer.IsRun(states) && x < |states[0].roles|
    ensures MonitorBuffer.IsRun(longer) && states <= longer && Idle(Last(longer))
    ensures Last(longer).buffer == if states[0].roles[x] == Producer then 5 else 0
  {
    longer := ComeToRest(states);
    longer := TurnsFill(longer, x, Of(states[0], Producer), Of(states[0], Consumer), states[0].roles[x] == Producer);
  }
}

/**
  What the monitor version of the buffer is for: every item counted in buffer_m was put in
  by a pass of a producer and not yet taken by one of a consumer.
 */
module MonitorItems {
  import opened Counting
  import opened Loops
  import opened Runs
  import opened Semaphores
  import opened MonitorBuffer
  import M = Monitor
  import MS = MonitorSafety

  /** Outside the monitor, where each pass of a loop begins and ends. */
  function Tops(b: State): (r: seq<bool>)
    ensures |r| == |b.mon.pcs|
  {
    seq(|b.mon.pcs|, q requires 0 <= q < |b.mon.pcs| => b.mon.pcs[q] == M.Outside)
  }

  ghost function Of(b: State, r: Role): set<nat> {
    set q | 0 <= q < |b.roles| && b.roles[q] == r
  }

  /** In the monitor and past the change of buffer_m. */
  predicate Updated(pc: M.Pc, stage: Stage) {
    pc != M.Outside && (stage == AtNotify || stage == AtLeave || stage == AtEnter)
  }

  function UpdatedMarks(b: State, r: Role): seq<bool>
    requires Shape(b)
  {
    seq(|b.roles|, q requires 0 <= q < |b.roles| => b.roles[q] == r && Updated(b.mon.pcs[q], b.stages[q]))
  }

  /** How many of role r have changed buffer_m in a pass that they have not completed. */
  function Updating(b: State, r: Role): nat
    requires Shape(b)
  {
    Marked(UpdatedMarks(b, r))
  }

  // ---------------------------------------------------------------------
  // The loops
  // ---------------------------------------------------------------------

  /** Everyone awake is outside the monitor. */
  predicate Idle(b: State) {
    Shape(b) && forall q :: 0 <= q < |b.roles| && b.mon.k.tasks[q] == Runnable ==> b.mon.pcs[q] == M.Outside
  }

  /** At most so many statements until the process is outside again. */
  function Left(pc: M.Pc, stage: Stage): nat {
    match pc
    case Outside => 0
    case LeaveVNext => 1
    case LeaveVMutex => 1
    case LeaveTest => 2
    case SigDec => 4
    case SigP => 5
    case SigV(_) => 6
    case SigInc(_) => 7
    case SigTest(_) => 8
    case WaitDec(_) => 11
    case WaitP(_) => 12
    case WaitVMutex(_) => 13
    case WaitVNext(_) => 13
    case WaitTest(_) => 14
    case WaitInc(_) => 15
    case Inside => if stage == AtTest then 16 else if stage == AtUpdate then 10 else if stage == AtNotify then 9 else 3
  }

  function LeftOfAll(b: State): seq<nat>
    requires |b.stages| == |b.mon.pcs|
  {
    seq(|b.stages|, q requires 0 <= q < |b.stages| => Left(b.mon.pcs[q], b.stages[q]))
  }

  function LeftIn(b: State): nat {
    if |b.stages| == |b.mon.pcs| then Total(LeftOfAll(b)) else 0
  }

  ghost function TheLoop(): Loop<State> {
    Loop(MonitorBuffer.Next, Inv, Tops, Idle, LeftIn)
  }

  // ---------------------------------------------------------------------
  // Conservation
  // ---------------------------------------------------------------------

  /** p alone moves. */
  predicate Moved(b: State, p: nat, b': State) {
    && Shape(b) && Shape(b') && p < |b.roles| == |b'.roles| && b'.roles == b.roles
    && b'.mon.pcs == b.mon.pcs[p := b'.mon.pcs[p]] && b'.stages == b.stages[p := b'.stages[p]]
  }

  lemma StepMoves(b: State, p: nat)
    requires Inv(b) && CanStep(b, p)
    ensures Moved(b, p, Step(b, p))
  {
    StepIsMonitorStep(b, p);
  }

  lemma MovedMarks(b: State, p: nat, b': State, r: Role)
    requires Moved(b, p, b')
    ensures Updating(b', r) == Updating(b, r) - Bit(b.roles[p] == r && Updated(b.mon.pcs[p], b.stages[p]))
                                              + Bit(b.roles[p] == r && Updated(b'.mon.pcs[p], b'.stages[p]))
  {
    var mark := b.roles[p] == r && Updated(b'.mon.pcs[p], b'.stages[p]);
    MarkedUpdate(UpdatedMarks(b, r), p, mark);
    assert UpdatedMarks(b', r) == UpdatedMarks(b, r)[p := mark];
  }

  lemma MovedTops(b: State, p: nat, b': State)
    requires Moved(b, p, b')
    ensures Tops(b') == Tops(b)[p := b'.mon.pcs[p] == M.Outside]
    ensures Of(b', Producer) == Of(b, Producer) && Of(b', Consumer) == Of(b, Consumer)
  {
  }

  /** Where a step takes the process, and what it does to buffer_m. */
  lemma StepInPass(b: State, p: nat)
    requires Inv(b) && CanStep(b, p) && Shape(Step(b, p))
    ensures var pc, pc', b' := b.mon.pcs[p], Step(b, p).mon.pcs[p], Step(b, p);
            && (pc != M.Outside && pc' == M.Outside ==> Updated(pc, b.stages[p]))
            && b'.buffer - b.buffer ==
                 (Bit(Updated(pc', b'.stages[p])) - Bit(Updated(pc, b.stages[p])) + Bit(pc != M.Outside && pc' == M.Outside))
                 * (if b.roles[p] == Producer then 1 else -1)
  {
    assert PlaceOk(b.mon.pcs[p], b.mon.k.tasks[p], b.stages[p], b.roles[p]);
  }

  /** Items in the buffer or taken in a pass not completed, less those put in by a pass not completed. */
  function Settled(b: State): int {
    if Shape(b) then b.buffer - Updating(b, Producer) + Updating(b, Consumer) else 0
  }

  lemma StepItems(b: State, p: nat)
    requires Inv(b) && CanStep(b, p)
    ensures Settled(Step(b, p)) == Settled(b) + |Returns(Tops(b), Tops(Step(b, p))) * Of(b, Producer)|
                                              - |Returns(Tops(b), Tops(Step(b, p))) * Of(b, Consumer)|
  {
    StepMoves(b, p);
    MovedMarks(b, p, Step(b, p), Producer);
    MovedMarks(b, p, Step(b, p), Consumer);
    MovedTops(b, p, Step(b, p));
    StepInPass(b, p);
    OneMoves(Tops(b), p, Step(b, p).mon.pcs[p] == M.Outside, Of(b, Producer));
    OneMoves(Tops(b), p, Step(b, p).mon.pcs[p] == M.Outside, Of(b, Consumer));
  }

  /** The invariant, with these producers and consumers. */
  ghost predicate Cast(b: State, adders: set<nat>, takers: set<nat>) {
    Inv(b) && Of(b, Producer) == adders && Of(b, Consumer) == takers
  }

  lemma HasAccounts(adders: set<nat>, takers: set<nat>)
    ensures Accounts(TheLoop(), Settled, b => Cast(b, adders, takers), adders, takers)
  {
    forall b, b' {:trigger MonitorBuffer.Next(b, b')} | Cast(b, adders, takers) && MonitorBuffer.Next(b, b')
      ensures Cast(b', adders, takers)
      ensures Settled(b') == Settled(b) + |Returns(Tops(b), Tops(b')) * adders| - |Returns(Tops(b), Tops(b')) * takers|
    {
      var p: nat :| CanStep(b, p) && b' == Step(b, p);
      StepKeepsInv(b, p);
      StepMoves(b, p);
      MovedTops(b, p, b');
      StepItems(b, p);
    }
  }

  lemma InitItems(b: State)
    requires MonitorBuffer.Init(b)
    ensures Inv(b) && b.buffer == Updating(b, Producer) == Updating(b, Consumer) == 0
  {
    InitInv(b);
    MarkedNone(UpdatedMarks(b, Producer));
    MarkedNone(UpdatedMarks(b, Consumer));
  }

  /**
    In every run, repetitions of states allowed, buffer_m is the number of passes through
    the monitor that producers have completed less the number that consumers have, but for
    those who have changed it and are still inside. No item is lost and none is made up.
   */
  lemma ItemsConserved(states: seq<State>)
    requires states != [] && MonitorBuffer.Init(states[0]) && Walks(states, MonitorBuffer.Next)
    ensures var b := Last(states);
            && Inv(b) && Of(b, Producer) == Of(states[0], Producer) && Of(b, Consumer) == Of(states[0], Consumer)
            && b.buffer == PassesIn(TheLoop(), states, Of(b, Producer)) + Updating(b, Producer)
                           - PassesIn(TheLoop(), states, Of(b, Consumer)) - Updating(b, Consumer)
  {
    var adders, takers := Of(states[0], Producer), Of(states[0], Consumer);
    InitItems(states[0]);
    HasAccounts(adders, takers);
    Conserved(TheLoop(), Settled, b => Cast(b, adders, takers), adders, takers, states);
  }
}

/**
  What the semaphore version of the buffer is for: every item counted in buffer_s was put
  in by a completed pass of a producer and not yet taken by one of a consumer, and every
  process can always get through another pass.
 */
module SemaphoreItems {
  import opened Counting
  import opened Loops
  import opened Runs
  import opened Semaphores
  import opened SemaphoreBuffer

  predicate AtTop(pc: Pc) { pc == PTest || pc == CTake }

  function Tops(b: State): (r: seq<bool>)
    ensures |r| == |b.pcs|
  {
    seq(|b.pcs|, q requires 0 <= q < |b.pcs| => AtTop(b.pcs[q]))
  }

  predicate IsProducer(pc: Pc) { pc.PTest? || pc.PLock? || pc.PAdd? || pc.PUnlock? || pc.PPost? }

  ghost function ProducersOf(b: State): set<nat> {
    set q | 0 <= q < |b.pcs| && IsProducer(b.pcs[q])
  }

  ghost function ConsumersOf(b: State): set<nat> {
    set q | 0 <= q < |b.pcs| && !IsProducer(b.pcs[q])
  }

  /** Producers that have put their item in, and consumers that have taken theirs, and are not back at the top. */
  function AddedMarks(b: State): seq<bool> {
    seq(|b.pcs|, q requires 0 <= q < |b.pcs| => b.pcs[q] == PUnlock || b.pcs[q] == PPost)
  }

  function TakenMarks(b: State): seq<bool> {
    seq(|b.pcs|, q requires 0 <= q < |b.pcs| => b.pcs[q] == CUnlock)
  }

  function Adding(b: State): nat { Marked(AddedMarks(b)) }

  function Taking(b: State): nat { Marked(TakenMarks(b)) }

  // ---------------------------------------------------------------------
  // Conservation
  // ---------------------------------------------------------------------

  lemma StepMarks(b: State, p: nat)
    requires CanStep(b, p)
    ensures var pc, pc' := b.pcs[p], Step(b, p).pcs[p];
            && Adding(Step(b, p)) == Adding(b) - Bit(pc == PUnlock || pc == PPost) + Bit(pc' == PUnlock || pc' == PPost)
            && Taking(Step(b, p)) == Taking(b) - Bit(pc == CUnlock) + Bit(pc' == CUnlock)
  {
    var b' := Step(b, p);
    var pc' := b'.pcs[p];
    MarkedUpdate(AddedMarks(b), p, pc' == PUnlock || pc' == PPost);
    MarkedUpdate(TakenMarks(b), p, pc' == CUnlock);
    assert AddedMarks(b') == AddedMarks(b)[p := pc' == PUnlock || pc' == PPost];
    assert TakenMarks(b') == TakenMarks(b)[p := pc' == CUnlock];
  }

  lemma StepTops(b: State, p: nat)
    requires CanStep(b, p)
    ensures Tops(Step(b, p)) == Tops(b)[p := AtTop(Step(b, p).pcs[p])]
    ensures ProducersOf(Step(b, p)) == ProducersOf(b) && ConsumersOf(Step(b, p)) == ConsumersOf(b)
  {
    assert IsProducer(Step(b, p).pcs[p]) <==> IsProducer(b.pcs[p]);
  }

  // ---------------------------------------------------------------------
  // The loops
  // ---------------------------------------------------------------------

  /** Everyone awake is at the top of its loop. */
  predicate AtRest(b: State) {
    Shape(b) && forall q :: 0 <= q < |b.pcs| && b.k.tasks[q] == Runnable ==> AtTop(b.pcs[q])
  }

  /** Statements left to the top of the loop. */
  function Left(pc: Pc): nat {
    match pc
    case PTest => 0
    case PLock => 4
    case PAdd => 3
    case PUnlock => 2
    case PPost => 1
    case CTake => 0
    case CLock => 3
    case CSub => 2
    case CUnlock => 1
  }

  function LeftOfAll(b: State): seq<nat> {
    seq(|b.pcs|, q requires 0 <= q < |b.pcs| => Left(b.pcs[q]))
  }

  function LeftIn(b: State): nat { Total(LeftOfAll(b)) }

  ghost function TheLoop(): Loop<State> {
    Loop(SemaphoreBuffer.Next, Inv, Tops, AtRest, LeftIn)
  }

  /** Items in the buffer or taken by someone not back yet, less those put in by someone not back yet. */
  function Settled(b: State): int { b.buffer - Adding(b) + Taking(b) }

  lemma StepItems(b: State, p: nat)
    requires CanStep(b, p)
    ensures Settled(Step(b, p)) == Settled(b) + |Returns(Tops(b), Tops(Step(b, p))) * ProducersOf(b)|
                                              - |Returns(Tops(b), Tops(Step(b, p))) * ConsumersOf(b)|
  {
    StepMarks(b, p);
    StepTops(b, p);
    OneMoves(Tops(b), p, AtTop(Step(b, p).pcs[p]), ProducersOf(b));
    OneMoves(Tops(b), p, AtTop(Step(b, p).pcs[p]), ConsumersOf(b));
  }

  /** The invariant, with these producers and consumers. */
  ghost predicate Cast(b: State, adders: set<nat>, takers: set<nat>) {
    Inv(b) && ProducersOf(b) == adders && ConsumersOf(b) == takers
  }

  lemma HasAccounts(adders: set<nat>, takers: set<nat>)
    ensures Accounts(TheLoop(), Settled, b => Cast(b, adders, takers), adders, takers)
  {
    forall b, b' {:trigger SemaphoreBuffer.Next(b, b')} | Cast(b, adders, takers) && SemaphoreBuffer.Next(b, b')
      ensures Cast(b', adders, takers)
      ensures Settled(b') == Settled(b) + |Returns(Tops(b), Tops(b')) * adders| - |Returns(Tops(b), Tops(b')) * takers|
    {
      var p: nat :| CanStep(b, p) && b' == Step(b, p);
      StepKeepsInv(b, p);
      StepTops(b, p);
      StepItems(b, p);
    }
  }

  lemma InitItems(b: State)
    requires SemaphoreBuffer.Init(b)
    ensures Inv(b) && b.buffer == Adding(b) == Taking(b) == 0
  {
    InitInv(b);
    MarkedNone(AddedMarks(b));
    MarkedNone(TakenMarks(b));
  }

  /**
    In every run, repetitions of states allowed, buffer_s is the number of passes that
    producers have completed less the number that consumers have, but for those between
    their change of buffer_s and the top of the loop.
   */
  lemma ItemsConserved(states: seq<State>)
    requires states != [] && SemaphoreBuffer.Init(states[0]) && Walks(states, SemaphoreBuffer.Next)
    ensures var b := Last(states);
            && Inv(b) && ProducersOf(b) == ProducersOf(states[0]) && ConsumersOf(b) == ConsumersOf(states[0])
            && b.buffer == PassesIn(TheLoop(), states, ProducersOf(b)) + Adding(b)
                           - PassesIn(TheLoop(), states, ConsumersOf(b)) - Taking(b)
  {
    var adders, takers := ProducersOf(states[0]), ConsumersOf(states[0]);
    InitItems(states[0]);
    HasAccounts(adders, takers);
    Conserved(TheLoop(), Settled, b => Cast(b, adders, takers), adders, takers, states);
  }
}

/** The semaphore version of the buffer, preempted at every statement: each run is a run of module SemaphoreBuffer. */
module PreemptibleSemaphoreBuffer {
  import opened Counting
  import opened Loops
  import opened Runs
  import opened Semaphores
  import I = Interrupts
  import B = SemaphoreBuffer
  import Items = SemaphoreItems
  import Pre = Preemption
  import Real = Realization

  datatype Client = Client(pcs: seq<B.Pc>, buffer: int)

  /** The loops make no choices. */
  datatype Choice = Next

  function Lift(k: Sys, c: Client): B.State {
    B.State(k, c.pcs, c.buffer)
  }

  predicate Fits(c: Client, p: nat, x: Choice) { p < |c.pcs| }

  function Wants(c: Client, p: nat, x: Choice): Option<Op> {
    if p >= |c.pcs| then None
    else if B.Takes(c.pcs[p]).Some? then Some(DoP(p, B.Takes(c.pcs[p]).value))
    else if B.Posts(c.pcs[p]).Some? then Some(DoV(p, B.Posts(c.pcs[p]).value))
    else None
  }

  function After(c: Client, p: nat, x: Choice): Client {
    if p >= |c.pcs| then c
    else Client(c.pcs[p := B.PcAfter(c.pcs[p], c.buffer)],
                if c.pcs[p] == B.PAdd then c.buffer + 1 else if c.pcs[p] == B.CSub then c.buffer - 1 else c.buffer)
  }

  type Fine = Pre.Fine<Client, Choice>

  function Code(): Pre.Program<Client, Choice> {
    Pre.Program(Fits, Wants, After)
  }

  lemma IsIndependent()
    ensures Pre.Independent(Code())
  {
  }

  /** With P and V atomic, what the code does is the step of the buffer. */
  lemma IsBufferStep(k: Sys, c: Client, p: nat, x: Choice, k': Sys, c': Client)
    requires Pre.AtomicStep(Code(), k, c, p, x, k', c') && B.Shape(Lift(k, c))
    ensures B.CanStep(Lift(k, c), p) && Lift(k', c') == B.Step(Lift(k, c), p)
  {
  }

  function View(s: Fine): B.State
    requires I.Shape(s.f)
  {
    Lift(I.Atomic(s.f), s.c)
  }

  lemma IsSimulated()
    ensures Pre.Simulates(Code(), Lift, B.Inv, B.Next)
  {
    IsIndependent();
    forall k, c, p: nat, x, k', c' {:trigger Pre.AtomicStep(Code(), k, c, p, x, k', c')}
      | B.Inv(Lift(k, c)) && Pre.AtomicStep(Code(), k, c, p, x, k', c')
      ensures B.Inv(Lift(k', c')) && B.Next(Lift(k, c), Lift(k', c'))
    {
      IsBufferStep(k, c, p, x, k', c');
      B.StepKeepsInv(Lift(k, c), p);
    }
  }

  ghost predicate IsRun(states: seq<Fine>, moves: seq<Pre.Move<Choice>>) {
    Pre.IsRun(Code(), states, moves) && B.Init(Lift(states[0].f.k, states[0].c))
  }

  /** Every preemptible run is, in the atomic view and but for the moves that it does not see, a run of the buffer. */
  lemma RefinesBuffer(states: seq<Fine>, moves: seq<Pre.Move<Choice>>)
    requires IsRun(states, moves)
    ensures forall i :: 0 <= i < |states| ==> I.Shape(states[i].f)
    ensures B.IsRun(Moves(Pre.Views(Lift, states)))
  {
    IsSimulated();
    B.InitInv(Lift(states[0].f.k, states[0].c));
    var next := B.Next;
    Pre.RunSimulates(Code(), Lift, B.Inv, next, states, moves);
    var run := Moves(Pre.Views(Lift, states));
    forall i | 0 <= i < |run| - 1 ensures B.Next(run[i], run[i + 1]) {
      assert next(run[i], run[i + 1]);
    }
  }

  /** The invariant of the atomic model, in the atomic view of every preemptible run. */
  lemma InvInEveryRun(states: seq<Fine>, moves: seq<Pre.Move<Choice>>, i: nat)
    requires IsRun(states, moves) && i < |states|
    ensures I.Shape(states[i].f) && B.Inv(View(states[i]))
  {
    IsSimulated();
    B.InitInv(Lift(states[0].f.k, states[0].c));
    Pre.KeptInEveryRun(Code(), Lift, B.Inv, B.Next, states, moves, i);
  }

  /** So the bound 4 + k holds at every statement of every preemptible run. */
  lemma BufferBounded(states: seq<Fine>, moves: seq<Pre.Move<Choice>>, i: nat)
    requires IsRun(states, moves) && i < |states|
    ensures I.Shape(states[i].f) && B.Shape(View(states[i]))
    ensures 0 <= states[i].c.buffer <= 4 + B.Count(B.KProducer, View(states[i]))
  {
    InvInEveryRun(states, moves, i);
  }

  function ClientOf(b: B.State): Client {
    Client(b.pcs, b.buffer)
  }

  /** What a process can do when P and V are single steps, the code does. */
  lemma StepIsCode(b: B.State, p: nat)
    requires B.Inv(b) && B.CanStep(b, p)
    ensures Pre.AtomicStep(Code(), b.k, ClientOf(b), p, Next, B.Step(b, p).k, ClientOf(B.Step(b, p)))
  {
  }

  lemma CodeNext(b: B.State, b': B.State)
    requires B.Inv(b) && B.Next(b, b')
    ensures Real.AtomicNext(Code(), b.k, ClientOf(b), b'.k, ClientOf(b'))
  {
    var p: nat :| B.CanStep(b, p) && b' == B.Step(b, p);
    StepIsCode(b, p);
  }

  function SysOf(run: seq<B.State>): (ks: seq<Sys>)
    ensures |ks| == |run| && forall i :: 0 <= i < |run| ==> ks[i] == run[i].k
  {
    seq(|run|, i requires 0 <= i < |run| => run[i].k)
  }

  function ClientsOf(run: seq<B.State>): (cs: seq<Client>)
    ensures |cs| == |run| && forall i :: 0 <= i < |run| ==> cs[i] == ClientOf(run[i])
  {
    seq(|run|, i requires 0 <= i < |run| => ClientOf(run[i]))
  }

  lemma RunIsAtomic(run: seq<B.State>)
    requires B.IsRun(run) && |run[0].pcs| > 0
    ensures Real.IsAtomicRun(Code(), SysOf(run), ClientsOf(run))
  {
    var ks, cs := SysOf(run), ClientsOf(run);
    forall i, j {:trigger Real.AtomicNext(Code(), ks[i], cs[i], ks[j], cs[j])} | 0 <= i < |ks| - 1 && j == i + 1
      ensures Real.AtomicNext(Code(), ks[i], cs[i], ks[j], cs[j])
    {
      B.InvInEveryRun(run, i);
      assert B.Next(run[i], run[i + 1]);
      CodeNext(run[i], run[j]);
    }
  }

  /** And every run of it with P and V atomic is, but for steps that change nothing, what some preemptible run shows. */
  lemma RealizesEveryRun(run: seq<B.State>) returns (states: seq<Fine>, moves: seq<Pre.Move<Choice>>)
    requires B.IsRun(run) && |run[0].pcs| > 0
    ensures IsRun(states, moves)
    ensures forall i :: 0 <= i < |states| ==> I.Shape(states[i].f)
    ensures Moves(Pre.Views(Lift, states)) == Moves(run)
  {
    IsIndependent();
    RunIsAtomic(run);
    states, moves := Real.RunRealized(Code(), Lift, SysOf(run), ClientsOf(run), Next);
    assert Lift(states[0].f.k, states[0].c) == run[0];
    assert Real.Lifted(Lift, SysOf(run), ClientsOf(run)) == run;
  }

  /** No item is lost or made up at any statement of any preemptible run. */
  lemma ItemsConserved(states: seq<Fine>, moves: seq<Pre.Move<Choice>>)
    requires IsRun(states, moves)
    ensures forall i :: 0 <= i < |states| ==> I.Shape(states[i].f)
    ensures var views, b := Pre.Views(Lift, states), View(Last(states));
            Last(states).c.buffer == PassesIn(Items.TheLoop(), views, Items.ProducersOf(b)) + Items.Adding(b)
                                     - PassesIn(Items.TheLoop(), views, Items.ConsumersOf(b)) - Items.Taking(b)
  {
    IsSimulated();
    B.InitInv(Lift(states[0].f.k, states[0].c));
    Pre.RunSimulates(Code(), Lift, B.Inv, B.Next, states, moves);
    Items.ItemsConserved(Pre.Views(Lift, states));
  }
}

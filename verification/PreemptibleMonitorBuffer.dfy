/** The monitor version of the buffer, preempted at every statement: each run is a run of module MonitorBuffer. */
module PreemptibleMonitorBuffer {
  import opened Loops
  import opened Runs
  import opened Semaphores
  import I = Interrupts
  import B = MonitorBuffer
  import Items = MonitorItems
  import M = Monitor
  import PM = PreemptibleMonitor
  import Pre = Preemption
  import Real = Realization

  /** Everything but the semaphores: the places in the monitor code and in the loops, the counters, the buffer. */
  datatype Client = Client(mon: PM.Client, roles: seq<B.Role>, stages: seq<B.Stage>, buffer: int)

  /** The loops make no choices. */
  datatype Choice = Next

  function Lift(k: Sys, c: Client): B.State {
    B.State(PM.Lift(k, c.mon), c.roles, c.stages, c.buffer)
  }

  /** Semaphores for a state in which everyone is awake: what the code does next does not depend on them. */
  function AnySys(c: Client): Sys {
    Sys(seq(2 + |c.mon.xCount|, i => Sem(0, [])), seq(|c.mon.pcs|, i => Runnable))
  }

  predicate Fits(c: Client, p: nat, x: Choice) {
    B.CanStep(Lift(AnySys(c), c), p)
  }

  function Wants(c: Client, p: nat, x: Choice): Option<Op> {
    PM.Wants(c.mon, p, M.Leave)
  }

  function After(c: Client, p: nat, x: Choice): Client {
    if Fits(c, p, x) then Rest(B.Step(Lift(AnySys(c), c), p)) else c
  }

  function Rest(b: B.State): Client {
    Client(PM.Client(b.mon.pcs, b.mon.nextCount, b.mon.xCount), b.roles, b.stages, b.buffer)
  }

  type Fine = Pre.Fine<Client, Choice>

  function Code(): Pre.Program<Client, Choice> {
    Pre.Program(Fits, Wants, After)
  }

  lemma OthersKeep(c: Client, p: nat, x: Choice, q: nat, y: Choice)
    requires p != q && Fits(c, p, x) && Fits(c, q, y)
    ensures Fits(After(c, q, y), p, x) && Wants(After(c, q, y), p, x) == Wants(c, p, x)
  {
    assert M.PcOk(c.mon.pcs[q], |c.mon.xCount|);
  }

  lemma IsIndependent()
    ensures Pre.Independent(Code())
  {
    var code := Code();
    forall c, p: nat, x, q: nat, y {:trigger code.fits(c, p, x), code.fits(c, q, y)}
      | p != q && code.fits(c, p, x) && code.fits(c, q, y)
      ensures code.fits(code.after(c, q, y), p, x) && code.wants(code.after(c, q, y), p, x) == code.wants(c, p, x)
    {
      OthersKeep(c, p, x, q, y);
    }
  }

  /** With P and V atomic, what the code does is the step of the buffer. */
  lemma IsBufferStep(k: Sys, c: Client, p: nat, x: Choice, k': Sys, c': Client)
    requires Pre.AtomicStep(Code(), k, c, p, x, k', c') && B.Shape(Lift(k, c))
    ensures B.CanStep(Lift(k, c), p) && Lift(k', c') == B.Step(Lift(k, c), p)
  {
    assert M.PcOk(c.mon.pcs[p], |c.mon.xCount|);
  }

  function View(s: Fine): B.State
    requires I.Shape(s.f)
  {
    Lift(I.Atomic(s.f), s.c)
  }

  lemma IsSimulated()
    ensures Pre.Simulates(Code(), Lift, B.Inv, B.Next)
  {
    IsIndependent();
    forall k, c, p: nat, x, k', c' {:trigger Pre.AtomicStep(Code(), k, c, p, x, k', c')}
      | B.Inv(Lift(k, c)) && Pre.AtomicStep(Code(), k, c, p, x, k', c')
      ensures B.Inv(Lift(k', c')) && B.Next(Lift(k, c), Lift(k', c'))
    {
      IsBufferStep(k, c, p, x, k', c');
      B.StepKeepsInv(Lift(k, c), p);
    }
  }

  ghost predicate IsRun(states: seq<Fine>, moves: seq<Pre.Move<Choice>>) {
    Pre.IsRun(Code(), states, moves) && B.Init(Lift(states[0].f.k, states[0].c))
  }

  /** Every preemptible run is, in the atomic view and but for the moves that it does not see, a run of the buffer. */
  lemma RefinesBuffer(states: seq<Fine>, moves: seq<Pre.Move<Choice>>)
    requires IsRun(states, moves)
    ensures forall i :: 0 <= i < |states| ==> I.Shape(states[i].f)
    ensures B.IsRun(Moves(Pre.Views(Lift, states)))
  {
    IsSimulated();
    B.InitInv(Lift(states[0].f.k, states[0].c));
    var next := B.Next;
    Pre.RunSimulates(Code(), Lift, B.Inv, next, states, moves);
    var run := Moves(Pre.Views(Lift, states));
    forall i | 0 <= i < |run| - 1 ensures B.Next(run[i], run[i + 1]) {
      assert next(run[i], run[i + 1]);
    }
  }

  /** The invariant of the atomic model, in the atomic view of every preemptible run. */
  lemma InvInEveryRun(states: seq<Fine>, moves: seq<Pre.Move<Choice>>, i: nat)
    requires IsRun(states, moves) && i < |states|
    ensures I.Shape(states[i].f) && B.Inv(View(states[i]))
  {
    IsSimulated();
    B.InitInv(Lift(states[0].f.k, states[0].c));
    Pre.KeptInEveryRun(Code(), Lift, B.Inv, B.Next, states, moves, i);
  }

  /** So the buffer never overflows, at every statement of every preemptible run. */
  lemma BufferBounded(states: seq<Fine>, moves: seq<Pre.Move<Choice>>, i: nat)
    requires IsRun(states, moves) && i < |states|
    ensures 0 <= states[i].c.buffer <= B.SIZE
  {
    InvInEveryRun(states, moves, i);
    B.BoundedByInv(View(states[i]));
  }

  lemma ClientIsCode(b: B.State, p: nat)
    requires B.Inv(b) && B.CanStep(b, p) && b.mon.pcs[p] == M.Inside
    ensures Pre.AtomicStep(Code(), b.mon.k, Rest(b), p, Next, B.Step(b, p).mon.k, Rest(B.Step(b, p)))
  {
  }

  lemma MonitorIsCode(b: B.State, p: nat)
    requires B.Inv(b) && B.CanStep(b, p) && b.mon.pcs[p] != M.Inside
    ensures Pre.AtomicStep(Code(), b.mon.k, Rest(b), p, Next, B.Step(b, p).mon.k, Rest(B.Step(b, p)))
  {
    assert M.PcOk(b.mon.pcs[p], |b.mon.xCount|);
  }

  /** What a process can do when P and V are single steps, the code does. */
  lemma StepIsCode(b: B.State, p: nat)
    requires B.Inv(b) && B.CanStep(b, p)
    ensures Pre.AtomicStep(Code(), b.mon.k, Rest(b), p, Next, B.Step(b, p).mon.k, Rest(B.Step(b, p)))
  {
    if b.mon.pcs[p] == M.Inside {
      ClientIsCode(b, p);
    } else {
      MonitorIsCode(b, p);
    }
  }

  lemma CodeNext(b: B.State, b': B.State)
    requires B.Inv(b) && B.Next(b, b')
    ensures Real.AtomicNext(Code(), b.mon.k, Rest(b), b'.mon.k, Rest(b'))
  {
    var p: nat :| B.CanStep(b, p) && b' == B.Step(b, p);
    StepIsCode(b, p);
  }

  function SysOf(run: seq<B.State>): (ks: seq<Sys>)
    ensures |ks| == |run| && forall i :: 0 <= i < |run| ==> ks[i] == run[i].mon.k
  {
    seq(|run|, i requires 0 <= i < |run| => run[i].mon.k)
  }

  function ClientsOf(run: seq<B.State>): (cs: seq<Client>)
    ensures |cs| == |run| && forall i :: 0 <= i < |run| ==> cs[i] == Rest(run[i])
  {
    seq(|run|, i requires 0 <= i < |run| => Rest(run[i]))
  }

  lemma RunIsAtomic(run: seq<B.State>)
    requires B.IsRun(run) && |run[0].roles| > 0
    ensures Real.IsAtomicRun(Code(), SysOf(run), ClientsOf(run))
  {
    var ks, cs := SysOf(run), ClientsOf(run);
    forall i, j {:trigger Real.AtomicNext(Code(), ks[i], cs[i], ks[j], cs[j])} | 0 <= i < |ks| - 1 && j == i + 1
      ensures Real.AtomicNext(Code(), ks[i], cs[i], ks[j], cs[j])
    {
      B.InvInEveryRun(run, i);
      assert B.Next(run[i], run[i + 1]);
      CodeNext(run[i], run[j]);
    }
  }

  /** And every run of it with P and V atomic is, but for steps that change nothing, what some preemptible run shows. */
  lemma RealizesEveryRun(run: seq<B.State>) returns (states: seq<Fine>, moves: seq<Pre.Move<Choice>>)
    requires B.IsRun(run) && |run[0].roles| > 0
    ensures IsRun(states, moves)
    ensures forall i :: 0 <= i < |states| ==> I.Shape(states[i].f)
    ensures Moves(Pre.Views(Lift, states)) == Moves(run)
  {
    IsIndependent();
    RunIsAtomic(run);
    states, moves := Real.RunRealized(Code(), Lift, SysOf(run), ClientsOf(run), Next);
    assert Lift(states[0].f.k, states[0].c) == run[0];
    assert Real.Lifted(Lift, SysOf(run), ClientsOf(run)) == run;
  }

  /**
    No item is lost or made up at any statement of any preemptible run: buffer_m is the
    passes producers have completed less those of consumers, but for those still inside
    who have changed it. (The beginning of a run is a run.)
   */
  lemma ItemsConserved(states: seq<Fine>, moves: seq<Pre.Move<Choice>>)
    requires IsRun(states, moves)
    ensures forall i :: 0 <= i < |states| ==> I.Shape(states[i].f)
    ensures var views, b := Pre.Views(Lift, states), View(Last(states));
            && B.Shape(b)
            && Last(states).c.buffer == PassesIn(Items.TheLoop(), views, Items.Of(b, B.Producer)) + Items.Updating(b, B.Producer)
                                        - PassesIn(Items.TheLoop(), views, Items.Of(b, B.Consumer)) - Items.Updating(b, B.Consumer)
  {
    IsSimulated();
    B.InitInv(Lift(states[0].f.k, states[0].c));
    Pre.RunSimulates(Code(), Lift, B.Inv, B.Next, states, moves);
    Items.ItemsConserved(Pre.Views(Lift, states));
  }
}

/** The monitor with P and V preempted at every statement: each run is a run of module Monitor. */
module PreemptibleMonitor {
  import opened Runs
  import opened Semaphores
  import I = Interrupts
  import M = Monitor
  import MS = MonitorSafety
  import Pre = Preemption
  import Real = Realization

  /** Where every process stands in the monitor code, and the plain counters. */
  datatype Client = Client(pcs: seq<M.Pc>, nextCount: int, xCount: seq<int>)

  function Lift(k: Sys, c: Client): M.State {
    M.State(k, c.pcs, c.nextCount, c.xCount)
  }

  predicate Fits(c: Client, p: nat, call: M.Call) {
    && p < |c.pcs|
    && (forall q :: 0 <= q < |c.pcs| ==> M.PcOk(c.pcs[q], |c.xCount|))
    && (c.pcs[p] == M.Outside ==> call == M.Enter)
    && (c.pcs[p] == M.Inside ==> call != M.Enter)
    && (call.Wait? ==> call.c < |c.xCount|)
    && (call.Signal? ==> call.c < |c.xCount|)
  }

  function Wants(c: Client, p: nat, call: M.Call): Option<Op> {
    if p >= |c.pcs| then None
    else if M.Takes(c.pcs[p]).Some? then Some(DoP(p, M.Takes(c.pcs[p]).value))
    else if M.Posts(c.pcs[p]).Some? then Some(DoV(p, M.Posts(c.pcs[p]).value))
    else None
  }

  function After(c: Client, p: nat, call: M.Call): Client {
    if !Fits(c, p, call) then c
    else Client(c.pcs[p := M.PcAfter(c.pcs[p], call, c.nextCount, c.xCount)],
                M.NextCountAfter(c.nextCount, c.pcs[p]),
                M.XCountAfter(c.xCount, c.pcs[p]))
  }

  type Fine = Pre.Fine<Client, M.Call>

  function Code(): Pre.Program<Client, M.Call> {
    Pre.Program(Fits, Wants, After)
  }

  lemma OthersKeep(c: Client, p: nat, x: M.Call, q: nat, y: M.Call)
    requires p != q && Fits(c, p, x) && Fits(c, q, y)
    ensures Fits(After(c, q, y), p, x) && Wants(After(c, q, y), p, x) == Wants(c, p, x)
  {
    assert M.PcOk(c.pcs[q], |c.xCount|);
  }

  lemma IsIndependent()
    ensures Pre.Independent(Code())
  {
    var code := Code();
    forall c, p: nat, x, q: nat, y {:trigger code.fits(c, p, x), code.fits(c, q, y)}
      | p != q && code.fits(c, p, x) && code.fits(c, q, y)
      ensures code.fits(code.after(c, q, y), p, x) && code.wants(code.after(c, q, y), p, x) == code.wants(c, p, x)
    {
      OthersKeep(c, p, x, q, y);
    }
  }

  /** With P and V atomic, what the code does is the step of the monitor. */
  lemma IsMonitorStep(k: Sys, c: Client, p: nat, call: M.Call, k': Sys, c': Client)
    requires Pre.AtomicStep(Code(), k, c, p, call, k', c') && M.Shape(Lift(k, c))
    ensures M.CanStep(Lift(k, c), p, call) && Lift(k', c') == M.Step(Lift(k, c), p, call)
  {
  }

  /** The monitor as the atomic view has it. */
  function View(s: Fine): M.State
    requires I.Shape(s.f)
  {
    Lift(I.Atomic(s.f), s.c)
  }

  lemma IsSimulated()
    ensures Pre.Simulates(Code(), Lift, M.Inv, M.Next)
  {
    IsIndependent();
    forall k, c, p: nat, x, k', c' {:trigger Pre.AtomicStep(Code(), k, c, p, x, k', c')}
      | M.Inv(Lift(k, c)) && Pre.AtomicStep(Code(), k, c, p, x, k', c')
      ensures M.Inv(Lift(k', c')) && M.Next(Lift(k, c), Lift(k', c'))
    {
      IsMonitorStep(k, c, p, x, k', c');
      MS.StepKeepsInv(Lift(k, c), p, x);
    }
  }

  ghost predicate IsRun(states: seq<Fine>, moves: seq<Pre.Move<M.Call>>) {
    Pre.IsRun(Code(), states, moves) && M.Init(Lift(states[0].f.k, states[0].c))
  }

  /** Every preemptible run is, in the atomic view and but for the moves that it does not see, a run of the monitor. */
  lemma RefinesMonitor(states: seq<Fine>, moves: seq<Pre.Move<M.Call>>)
    requires IsRun(states, moves)
    ensures forall i :: 0 <= i < |states| ==> I.Shape(states[i].f)
    ensures M.IsRun(Moves(Pre.Views(Lift, states)))
  {
    IsSimulated();
    M.InitInv(Lift(states[0].f.k, states[0].c));
    var next := M.Next;
    Pre.RunSimulates(Code(), Lift, M.Inv, next, states, moves);
    var run := Moves(Pre.Views(Lift, states));
    forall i | 0 <= i < |run| - 1 ensures M.Next(run[i], run[i + 1]) {
      assert next(run[i], run[i + 1]);
    }
  }

  /** The invariant of the atomic model, in the atomic view of every preemptible run. */
  lemma InvInEveryRun(states: seq<Fine>, moves: seq<Pre.Move<M.Call>>, i: nat)
    requires IsRun(states, moves) && i < |states|
    ensures I.Shape(states[i].f) && M.Inv(View(states[i]))
  {
    IsSimulated();
    M.InitInv(Lift(states[0].f.k, states[0].c));
    Pre.KeptInEveryRun(Code(), Lift, M.Inv, M.Next, states, moves, i);
  }

  /** So one process owns the monitor or one token lies free, at every statement of every preemptible run. */
  lemma TokenConserved(states: seq<Fine>, moves: seq<Pre.Move<M.Call>>, i: nat)
    requires IsRun(states, moves) && i < |states|
    ensures I.Shape(states[i].f) && M.Shape(View(states[i]))
    ensures M.Count(M.KOwner, View(states[i])) + M.Tokens(View(states[i]).k.sems) == 1
  {
    InvInEveryRun(states, moves, i);
  }

  function ClientOf(b: M.State): Client {
    Client(b.pcs, b.nextCount, b.xCount)
  }

  /** What a process can do when P and V are single steps, the code does. */
  lemma StepIsCode(b: M.State, p: nat, call: M.Call)
    requires M.Inv(b) && M.CanStep(b, p, call)
    ensures Pre.AtomicStep(Code(), b.k, ClientOf(b), p, call, M.Step(b, p, call).k, ClientOf(M.Step(b, p, call)))
  {
    assert M.PcOk(b.pcs[p], |b.xCount|);
  }

  lemma CodeNext(b: M.State, b': M.State)
    requires M.Inv(b) && M.Next(b, b')
    ensures Real.AtomicNext(Code(), b.k, ClientOf(b), b'.k, ClientOf(b'))
  {
    var p: nat, call :| M.CanStep(b, p, call) && b' == M.Step(b, p, call);
    StepIsCode(b, p, call);
  }

  function SysOf(run: seq<M.State>): (ks: seq<Sys>)
    ensures |ks| == |run| && forall i :: 0 <= i < |run| ==> ks[i] == run[i].k
  {
    seq(|run|, i requires 0 <= i < |run| => run[i].k)
  }

  function ClientsOf(run: seq<M.State>): (cs: seq<Client>)
    ensures |cs| == |run| && forall i :: 0 <= i < |run| ==> cs[i] == ClientOf(run[i])
  {
    seq(|run|, i requires 0 <= i < |run| => ClientOf(run[i]))
  }

  lemma RunIsAtomic(run: seq<M.State>)
    requires M.IsRun(run) && |run[0].pcs| > 0
    ensures Real.IsAtomicRun(Code(), SysOf(run), ClientsOf(run))
  {
    var ks, cs := SysOf(run), ClientsOf(run);
    forall i, j {:trigger Real.AtomicNext(Code(), ks[i], cs[i], ks[j], cs[j])} | 0 <= i < |ks| - 1 && j == i + 1
      ensures Real.AtomicNext(Code(), ks[i], cs[i], ks[j], cs[j])
    {
      MS.InvInEveryRun(run, i);
      assert M.Next(run[i], run[i + 1]);
      CodeNext(run[i], run[j]);
    }
  }

  /** And every run of it with P and V atomic is, but for steps that change nothing, what some preemptible run shows. */
  lemma RealizesEveryRun(run: seq<M.State>) returns (states: seq<Fine>, moves: seq<Pre.Move<M.Call>>)
    requires M.IsRun(run) && |run[0].pcs| > 0
    ensures IsRun(states, moves)
    ensures forall i :: 0 <= i < |states| ==> I.Shape(states[i].f)
    ensures Moves(Pre.Views(Lift, states)) == Moves(run)
  {
    IsIndependent();
    RunIsAtomic(run);
    states, moves := Real.RunRealized(Code(), Lift, SysOf(run), ClientsOf(run), M.Leave);
    assert Lift(states[0].f.k, states[0].c) == run[0];
    assert Real.Lifted(Lift, SysOf(run), ClientsOf(run)) == run;
  }
}

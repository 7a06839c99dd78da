/**
  The loops of producer_monitor and consumer_monitor, in place: the globals
  monitor and buffer_m, proved against module MonitorBuffer.
 */
module MonitorProgram {
  import opened Semaphores
  import opened MonitorObject
  import M = Monitor
  import B = MonitorBuffer

  /** The globals monitor and buffer_m, and where each process stands in its loop. */
  class Program {
    const monitor: MonitorT
    const roles: seq<B.Role>
    const stages: array<B.Stage>
    var buffer: int

    ghost function Repr(): set<object> { {this, stages} + monitor.Repr() }

    ghost predicate Valid() {
      monitor.Valid() && this !in monitor.Repr() && stages !in monitor.Repr()
    }

    ghost function View(): B.State
      reads Repr()
    {
      B.State(monitor.View(), roles, stages[..], buffer)
    }

    /** test_monitor, with one process for each role given. */
    constructor (roles: seq<B.Role>)
      ensures Valid() && fresh(Repr())
      ensures B.Init(View()) && this.roles == roles
    {
      this.roles := roles;
      buffer := 0;
      monitor := new MonitorT(2, |roles|);
      stages := new B.Stage[|roles|](_ => B.AtEnter);
    }

    /** The monitor statement p is at, when it is one. */
    method StepMonitor(p: nat, call: M.Call)
      requires Valid() && M.Inv(monitor.View()) && M.CanStep(monitor.View(), p, call)
      modifies monitor.Repr()
      ensures View() == old(View()).(mon := M.Step(old(View()).mon, p, call))
    {
      monitor.Step(p, call);
    }

    method SetStage(p: nat, stage: B.Stage)
      requires Valid() && p < stages.Length
      modifies stages
      ensures View() == old(View()).(stages := old(View()).stages[p := stage])
    {
      ghost var mon := monitor.View();
      stages[p] := stage;
      assert monitor.View() == mon;
    }

    method SetBuffer(v: int)
      requires Valid()
      modifies this
      ensures View() == old(View()).(buffer := v)
    {
      ghost var mon := monitor.View();
      buffer := v;
      assert monitor.View() == mon;
    }

    /** The client statement p stands at while it owns the monitor. */
    method StepClient(p: nat)
      requires Valid() && M.Inv(View().mon) && B.CanStep(View(), p) && monitor.pcs[p] == M.Inside
      modifies Repr()
      ensures View() == B.Step(old(View()), p)
    {
      var r := roles[p];
      match stages[p] {
        case AtEnter =>
          StepMonitor(p, M.Leave);
        case AtTest =>
          if buffer == B.BlockedAt(r) {
            StepMonitor(p, M.Wait(B.Own(r)));
          }
          SetStage(p, B.AtUpdate);
        case AtUpdate =>
          SetBuffer(buffer + B.Delta(r));
          SetStage(p, B.AtNotify);
        case AtNotify =>
          if buffer == B.NotifyAt(r) {
            StepMonitor(p, M.Signal(B.Own(B.Partner(r))));
          }
          SetStage(p, B.AtLeave);
        case AtLeave =>
          StepMonitor(p, M.Leave);
          SetStage(p, B.AtEnter);
      }
    }

    /** One statement of process p, in its own loop or in the monitor code it called. */
    method Step(p: nat)
      requires Valid() && B.Inv(View()) && B.CanStep(View(), p)
      modifies Repr()
      ensures View() == B.Step(old(View()), p)
      ensures B.Inv(View())
    {
      B.StepKeepsInv(View(), p);
      B.StepIsMonitorStep(View(), p);
      if monitor.pcs[p] == M.Inside {
        StepClient(p);
      } else if monitor.pcs[p] == M.Outside {
        StepMonitor(p, M.Enter);
        SetStage(p, B.AtTest);
      } else {
        StepMonitor(p, M.Leave);
      }
    }
  }
}

/**
  Why P, V and schedule may be treated as single steps: the same code statement by
  statement, with the interrupt flag IF, the flags kept by atom_disable_intr and
  atom_enable_intr (schedule/process/proc.c), the timer, and process switches that do
  not save IF (schedule/process/switch_to.S).
 */
module Interrupts {
  import opened Semaphores

  /** Statements of P; PDisable is between reading IF and cli. */
  datatype PPoint = PDisable | PDec | PBranch | PInsert | PSleep | PSched | PEnable

  /** Statements of V. */
  datatype VPoint = VDisable | VInc | VBranch | VWake | VUnlink | VEnable

  /** Statements of schedule; at SSwitch the choice is made and run_thread called. */
  datatype SPoint = SDisable | SSwitch | SEnable

  /** Statements of timer_handler, which is entered through an interrupt gate; iret restores IF. */
  datatype TPoint = TSched | TReturn

  /** An activation record; flag is what atom_disable_intr returned. */
  datatype Frame =
    | FP(s: nat, flag: bool, p: PPoint)
    | FV(s: nat, flag: bool, v: VPoint)
    | FSched(flag: bool, c: SPoint)
    | FTimer(t: TPoint)
    | FStart                        // forked, not run yet: its first iret turns interrupts on

  type Stack = seq<Frame>

  datatype State = State(k: Sys, current: nat, intr: bool, stacks: seq<Stack>)

  /** What happens next; Go is the next statement of the running activation. */
  datatype Act = CallP(s: nat) | CallV(s: nat) | CallSched | Cli | Sti | Tick | Go(next: nat)

  function Top(st: Stack): Frame
    requires st != []
  {
    st[|st| - 1]
  }

  function Rest(st: Stack): Stack
    requires st != []
  {
    st[..|st| - 1]
  }

  function Running(f: State): Stack
    requires f.current < |f.stacks|
  {
    f.stacks[f.current]
  }

  function WithStack(f: State, st: Stack, intr: bool): State
    requires f.current < |f.stacks|
  {
    f.(stacks := f.stacks[f.current := st], intr := intr)
  }

  predicate Shape(f: State) {
    && f.current < |f.stacks|
    && |f.k.tasks| == |f.stacks|
    && forall i, j :: 0 <= i < |f.stacks| && 0 <= j < |f.stacks[i]| ==> FrameOk(f.stacks[i][j], |f.k.sems|)
  }

  predicate FrameOk(fr: Frame, sems: nat) {
    (fr.FP? ==> fr.s < sems) && (fr.FV? ==> fr.s < sems)
  }

  predicate CanAct(f: State, a: Act) {
    && Shape(f)
    && match a
       case CallP(s) => Running(f) == [] && s < |f.k.sems|
       case CallV(s) => Running(f) == [] && s < |f.k.sems|
       case CallSched => Running(f) == []
       case Cli => Running(f) == []
       case Sti => Running(f) == []
       case Tick => f.intr
       case Go(q) =>
         && Running(f) != [] && Top(Running(f)) != FStart
         && (Top(Running(f)).FSched? && Top(Running(f)).c == SSwitch ==>
               q < |f.stacks| && f.k.tasks[q] == Runnable)
  }

  function SetValue(k: Sys, s: nat, v: int): Sys
    requires s < |k.sems|
  {
    k.(sems := k.sems[s := Sem(v, k.sems[s].queue)])
  }

  function SetQueue(k: Sys, s: nat, queue: seq<nat>): Sys
    requires s < |k.sems|
  {
    k.(sems := k.sems[s := Sem(k.sems[s].value, queue)])
  }

  function SetTask(k: Sys, p: nat, t: TaskState): Sys {
    if p < |k.tasks| then k.(tasks := k.tasks[p := t]) else k
  }

  function GoP(f: State, st: Stack, fr: Frame): State
    requires Shape(f) && fr.FP? && fr.s < |f.k.sems|
  {
    var k, sem := f.k, f.k.sems[fr.s];
    match fr.p
    case PDisable => WithStack(f, st + [fr.(p := PDec)], false)
    case PDec => WithStack(f.(k := SetValue(k, fr.s, sem.value - 1)), st + [fr.(p := PBranch)], f.intr)
    case PBranch => WithStack(f, st + [fr.(p := if sem.value < 0 then PInsert else PEnable)], f.intr)
    case PInsert => WithStack(f.(k := SetQueue(k, fr.s, sem.queue + [f.current])), st + [fr.(p := PSleep)], f.intr)
    case PSleep => WithStack(f.(k := SetTask(k, f.current, Sleeping)), st + [fr.(p := PSched)], f.intr)
    case PSched => WithStack(f, st + [fr.(p := PEnable), FSched(f.intr, SDisable)], f.intr)
    case PEnable => WithStack(f, st, f.intr || fr.flag)
  }

  function GoV(f: State, st: Stack, fr: Frame): State
    requires Shape(f) && fr.FV? && fr.s < |f.k.sems|
  {
    var k, sem := f.k, f.k.sems[fr.s];
    match fr.v
    case VDisable => WithStack(f, st + [fr.(v := VInc)], false)
    case VInc => WithStack(f.(k := SetValue(k, fr.s, sem.value + 1)), st + [fr.(v := VBranch)], f.intr)
    case VBranch => WithStack(f, st + [fr.(v := if sem.value <= 0 then VWake else VEnable)], f.intr)
    case VWake =>
      WithStack(f.(k := if sem.queue != [] then SetTask(k, sem.queue[0], Runnable) else k),
                st + [fr.(v := VUnlink)], f.intr)
    case VUnlink =>
      WithStack(f.(k := if sem.queue != [] then SetQueue(k, fr.s, sem.queue[1..]) else k),
                st + [fr.(v := VEnable)], f.intr)
    case VEnable => WithStack(f, st, f.intr || fr.flag)
  }

  /** switch_to: IF stays as it is, except that a new process starts through iret. */
  function SwitchTo(f: State, q: nat): State
    requires q < |f.stacks|
  {
    if f.stacks[q] == [FStart] then State(f.k, q, true, f.stacks[q := []]) else f.(current := q)
  }

  function Do(f: State, a: Act): State
    requires CanAct(f, a)
  {
    match a
    case CallP(s) => WithStack(f, [FP(s, f.intr, PDisable)], f.intr)
    case CallV(s) => WithStack(f, [FV(s, f.intr, VDisable)], f.intr)
    case CallSched => WithStack(f, [FSched(f.intr, SDisable)], f.intr)
    case Cli => f.(intr := false)
    case Sti => f.(intr := true)
    case Tick => WithStack(f, Running(f) + [FTimer(TSched)], false)
    case Go(q) =>
      var st, fr := Rest(Running(f)), Top(Running(f));
      match fr
      case FP(_, _, _) => GoP(f, st, fr)
      case FV(_, _, _) => GoV(f, st, fr)
      case FSched(flag, c) =>
        (match c
         case SDisable => WithStack(f, st + [FSched(flag, SSwitch)], false)
         case SSwitch => SwitchTo(WithStack(f, st + [FSched(flag, SEnable)], f.intr), q)
         case SEnable => WithStack(f, st, f.intr || flag))
      case FTimer(t) =>
        (match t
         case TSched => WithStack(f, st + [FTimer(TReturn), FSched(f.intr, SDisable)], f.intr)
         case TReturn => WithStack(f, st, true))
      case FStart => f
  }

  /** Process 0 runs; the others have been forked and wait to be started. */
  ghost predicate Init(f: State) {
    && Shape(f)
    && Fresh(f.k)
    && f.current == 0
    && f.stacks[0] == []
    && forall p :: 0 < p < |f.stacks| ==> f.stacks[p] == [FStart]
  }

  predicate Leads(f: State, a: Act, f': State) {
    CanAct(f, a) && f' == Do(f, a)
  }

  ghost predicate IsRun(acts: seq<Act>, states: seq<State>) {
    && |states| == |acts| + 1
    && Init(states[0])
    && forall i, j {:trigger Leads(states[i], acts[i], states[j])} :: 0 <= i < |acts| && j == i + 1 ==>
         Leads(states[i], acts[i], states[j])
  }

  // ---------------------------------------------------------------------
  // Where the flags stand
  // ---------------------------------------------------------------------

  /** IF has been read and cli has not been executed yet. */
  predicate AtDisable(fr: Frame) {
    match fr
    case FP(_, _, p) => p == PDisable
    case FV(_, _, v) => v == VDisable
    case FSched(_, c) => c == SDisable
    case _ => false
  }

  /** Called schedule and waiting for it. */
  predicate WaitsForSched(fr: Frame) {
    (fr.FP? && fr.p == PEnable) || (fr.FTimer? && fr.t == TReturn)
  }

  predicate SuspendedInSched(fr: Frame) { fr.FSched? && fr.c == SEnable }

  /** How an activation can stand on the one below it. */
  predicate Stands(below: Frame, above: Frame) {
    match above
    case FTimer(_) => AtDisable(below) && below.flag
    case FSched(flag, _) => WaitsForSched(below) && !flag
    case _ => false
  }

  ghost predicate ChainOk(st: Stack) {
    forall i :: 0 < i < |st| ==> Stands(st[i - 1], st[i])
  }

  predicate IntrFits(st: Stack, intr: bool) {
    st != [] ==> if AtDisable(Top(st)) then intr == Top(st).flag else !intr
  }

  /** A process asleep but still running is in the tail of P, on its way out. */
  predicate OnItsWayToSleep(st: Stack) {
    st != [] && st[0].FP? &&
    ((|st| == 1 && st[0].p == PSched) ||
     (|st| == 2 && st[0].p == PEnable && st[1].FSched? && st[1].c != SEnable))
  }

  ghost predicate Inv(f: State) {
    && Shape(f)
    && (forall p :: 0 <= p < |f.stacks| ==> ChainOk(f.stacks[p]))
    && (forall p :: 0 <= p < |f.stacks| && p != f.current ==>
          f.stacks[p] == [FStart] || (f.stacks[p] != [] && SuspendedInSched(Top(f.stacks[p]))))
    && (Running(f) != [] ==> Top(Running(f)) != FStart)
    && IntrFits(Running(f), f.intr)
    && (f.k.tasks[f.current] == Sleeping ==> OnItsWayToSleep(Running(f)))
  }

  lemma ChainRest(st: Stack)
    requires ChainOk(st) && st != []
    ensures ChainOk(Rest(st))
    ensures |st| > 1 ==> Stands(Top(Rest(st)), Top(st))
  {
    if |st| > 1 {
      assert Stands(st[|st| - 2], st[|st| - 1]);
    }
  }

  lemma ChainReplace(st: Stack, fr: Frame)
    requires ChainOk(st) && st != []
    requires |st| > 1 ==> Stands(Top(Rest(st)), fr)
    ensures ChainOk(Rest(st) + [fr])
  {
    var st' := Rest(st) + [fr];
    forall i | 0 < i < |st'| ensures Stands(st'[i - 1], st'[i]) {
      assert Stands(st[i - 1], st[i]);
    }
  }

  lemma ChainPush(st: Stack, fr: Frame)
    requires ChainOk(st)
    requires st != [] ==> Stands(Top(st), fr)
    ensures ChainOk(st + [fr])
  {
    var st' := st + [fr];
    forall i | 0 < i < |st'| ensures Stands(st'[i - 1], st'[i]) {
      if i < |st| {
        assert Stands(st[i - 1], st[i]);
      }
    }
  }

  /** The new stack of the process that acted is well chained. */
  lemma ActKeepsChain(f: State, a: Act)
    requires Inv(f) && CanAct(f, a)
    ensures f.current < |Do(f, a).stacks| && ChainOk(Do(f, a).stacks[f.current])
  {
    var st := Running(f);
    if a.Tick? {
      ChainPush(st, FTimer(TSched));
    } else if a.Go? {
      var fr, rest := Top(st), Rest(st);
      ChainRest(st);
      match fr
      case FP(_, _, p) =>
        if p == PSched {
          ChainReplace(st, fr.(p := PEnable));
          ChainPush(rest + [fr.(p := PEnable)], FSched(f.intr, SDisable));
          assert rest + [fr.(p := PEnable)] + [FSched(f.intr, SDisable)]
              == rest + [fr.(p := PEnable), FSched(f.intr, SDisable)];
        } else if p != PEnable {
          ChainReplace(st, Top(Do(f, a).stacks[f.current]));
        }
      case FV(_, _, v) =>
        if v != VEnable {
          ChainReplace(st, Top(Do(f, a).stacks[f.current]));
        }
      case FSched(flag, c) =>
        ChainReplace(st, FSched(flag, SSwitch));
        ChainReplace(st, FSched(flag, SEnable));
      case FTimer(t) =>
        if t == TSched {
          ChainReplace(st, FTimer(TReturn));
          ChainPush(rest + [FTimer(TReturn)], FSched(f.intr, SDisable));
          assert rest + [FTimer(TReturn)] + [FSched(f.intr, SDisable)]
              == rest + [FTimer(TReturn), FSched(f.intr, SDisable)];
        }
      case FStart =>
    }
  }

  /** The frames of the process that acted. */
  lemma ActKeepsFrames(f: State, a: Act, j: nat)
    requires Inv(f) && CanAct(f, a)
    requires f.current < |Do(f, a).stacks| && j < |Do(f, a).stacks[f.current]|
    ensures FrameOk(Do(f, a).stacks[f.current][j], |Do(f, a).k.sems|)
  {
    if j < |Running(f)| {
      assert FrameOk(f.stacks[f.current][j], |f.k.sems|);
    }
    if Running(f) != [] {
      assert FrameOk(f.stacks[f.current][|Running(f)| - 1], |f.k.sems|);
    }
  }

  /** The others stand still, but for one that starts. */
  lemma ActLeavesOthers(f: State, a: Act, p: nat)
    requires Inv(f) && CanAct(f, a) && p < |f.stacks| && p != f.current
    ensures p < |Do(f, a).stacks|
    ensures Do(f, a).stacks[p] == f.stacks[p] || (Do(f, a).stacks[p] == [] && Do(f, a).current == p)
  {
  }

  lemma ActKeepsShape(f: State, a: Act)
    requires Inv(f) && CanAct(f, a)
    ensures Shape(Do(f, a))
    ensures forall p :: 0 <= p < |f.stacks| && p != f.current && p != Do(f, a).current ==>
              Do(f, a).stacks[p] == f.stacks[p]
  {
    var f' := Do(f, a);
    forall i, j | 0 <= i < |f'.stacks| && 0 <= j < |f'.stacks[i]| ensures FrameOk(f'.stacks[i][j], |f'.k.sems|) {
      if i == f.current {
        ActKeepsFrames(f, a, j);
      } else {
        ActLeavesOthers(f, a, i);
        assert FrameOk(f.stacks[i][j], |f.k.sems|);
      }
    }
    forall p | 0 <= p < |f.stacks| && p != f.current && p != f'.current ensures f'.stacks[p] == f.stacks[p] {
      ActLeavesOthers(f, a, p);
    }
  }

  lemma ActKeepsChains(f: State, a: Act, p: nat)
    requires Inv(f) && CanAct(f, a) && p < |f.stacks|
    ensures |Do(f, a).stacks| == |f.stacks| && ChainOk(Do(f, a).stacks[p])
  {
    if p == f.current {
      ActKeepsChain(f, a);
    } else {
      ActLeavesOthers(f, a, p);
    }
  }

  /** The others are held, one that was just left included. */
  lemma OthersHeld(f: State, a: Act, p: nat)
    requires Inv(f) && CanAct(f, a) && Shape(Do(f, a)) && p < |f.stacks| && p != Do(f, a).current
    ensures var st := Do(f, a).stacks[p];
            st == [FStart] || (st != [] && SuspendedInSched(Top(st)))
  {
    if p != f.current {
      ActLeavesOthers(f, a, p);
    }
  }

  /** What holds of the running process. */
  lemma RunningKept(f: State, a: Act)
    requires Inv(f) && CanAct(f, a) && Shape(Do(f, a))
    ensures var f' := Do(f, a);
            && (Running(f') != [] ==> Top(Running(f')) != FStart)
            && IntrFits(Running(f'), f'.intr)
            && (f'.k.tasks[f'.current] == Sleeping ==> OnItsWayToSleep(Running(f')))
  {
    if Running(f) != [] {
      ChainRest(Running(f));
    }
  }

  lemma ActKeepsInv(f: State, a: Act)
    requires Inv(f) && CanAct(f, a)
    ensures Inv(Do(f, a))
  {
    ActKeepsShape(f, a);
    RunningKept(f, a);
    forall p | 0 <= p < |f.stacks| && p != Do(f, a).current
      ensures var st := Do(f, a).stacks[p]; st == [FStart] || (st != [] && SuspendedInSched(Top(st)))
    {
      OthersHeld(f, a, p);
    }
    ActKeepsChains(f, a, f.current);
    forall p | 0 <= p < |f.stacks| ensures ChainOk(Do(f, a).stacks[p]) {
      ActKeepsChains(f, a, p);
    }
  }

  lemma InitInv(f: State)
    requires Init(f)
    ensures Inv(f)
  {
  }

  lemma {:induction false} InvInEveryRun(acts: seq<Act>, states: seq<State>, i: nat)
    requires IsRun(acts, states) && i < |states|
    ensures Inv(states[i])
  {
    if i == 0 {
      InitInv(states[0]);
    } else {
      InvInEveryRun(acts, states, i - 1);
      assert Leads(states[i - 1], acts[i - 1], states[i]);
      ActKeepsInv(states[i - 1], acts[i - 1]);
    }
  }

  // ---------------------------------------------------------------------
  // No timer step inside a body
  // ---------------------------------------------------------------------

  /** The running process is between its cli and the matching sti of P, V or schedule. */
  predicate InBody(st: Stack) {
    st != [] && !Top(st).FTimer? && !AtDisable(Top(st))
  }

  /** The timer never fires inside the body of P, V or schedule, nor inside its own handler. */
  lemma NoTimerInsideBodies(acts: seq<Act>, states: seq<State>, i: nat)
    requires IsRun(acts, states) && i < |states|
    requires CanAct(states[i], Tick)
    ensures !InBody(Running(states[i]))
    ensures Running(states[i]) != [] ==> !Top(Running(states[i])).FTimer?
  {
    InvInEveryRun(acts, states, i);
  }

  /** At most one process is inside such a body: the others are held in schedule after the switch, or not started. */
  lemma OnlyOneBody(acts: seq<Act>, states: seq<State>, i: nat, p: nat)
    requires IsRun(acts, states) && i < |states| && Shape(states[i]) && p < |states[i].stacks|
    requires p != states[i].current
    ensures states[i].stacks[p] == [FStart]
            || (states[i].stacks[p] != [] && SuspendedInSched(Top(states[i].stacks[p])))
  {
    InvInEveryRun(acts, states, i);
  }

  // ---------------------------------------------------------------------
  // IF on return is IF on entry
  // ---------------------------------------------------------------------

  /** IF when the activation was entered. */
  function EntryIntr(fr: Frame): bool {
    match fr
    case FP(_, flag, _) => flag
    case FV(_, flag, _) => flag
    case FSched(flag, _) => flag
    case FTimer(_) => true
    case FStart => true
  }

  /** A call from a process's own code, or an interrupt of it, remembers IF at the bottom of the stack. */
  lemma EnteringRemembers(f: State, a: Act)
    requires Inv(f) && CanAct(f, a) && Running(f) == [] && !a.Cli? && !a.Sti?
    ensures f.current < |Do(f, a).stacks|
    ensures var st := Do(f, a).stacks[f.current];
            st != [] && EntryIntr(st[0]) == f.intr && st[0] != FStart
  {
  }

  /** The stack of p still starts with an activation entered at this IF, or p is back with IF as it was. */
  predicate Remembers(f: State, p: nat, intr: bool) {
    && p < |f.stacks|
    && if f.stacks[p] != [] then EntryIntr(f.stacks[p][0]) == intr && f.stacks[p][0] != FStart
       else f.current == p && f.intr == intr
  }

  /** A statement of the only activation keeps the IF it was entered with, and puts it back at its end. */
  lemma BottomStepRemembers(f: State, q: nat)
    requires Inv(f) && CanAct(f, Go(q)) && |Running(f)| == 1
    ensures Remembers(Do(f, Go(q)), f.current, EntryIntr(Running(f)[0]))
  {
    var st := Running(f);
    assert st == [Top(st)] && Rest(st) == [] && IntrFits(st, f.intr);
    match Top(st)
    case FP(_, _, _) =>
    case FV(_, _, _) =>
    case FSched(flag, c) =>
      match c {
        case SDisable => assert Do(f, Go(q)).stacks[f.current] == [FSched(flag, SSwitch)];
        case SSwitch =>
          assert Rest(st) + [FSched(flag, SEnable)] == [FSched(flag, SEnable)];
          assert WithStack(f, [FSched(flag, SEnable)], f.intr).stacks[f.current] != [FStart];
        case SEnable => assert Do(f, Go(q)).intr == flag;
      }
    case FTimer(_) =>
  }

  /** Every later step keeps what the bottom remembers, until p returns to its own code and IF is just that. */
  lemma StepRemembers(f: State, a: Act, p: nat)
    requires Inv(f) && CanAct(f, a) && p < |f.stacks| && f.stacks[p] != [] && f.stacks[p][0] != FStart
    ensures Remembers(Do(f, a), p, EntryIntr(f.stacks[p][0]))
  {
    if p == f.current && a.Go? {
      if |Running(f)| > 1 {
      } else {
        BottomStepRemembers(f, a.next);
      }
    }
  }

  /** While a call is active its bottom activation remembers the IF it was entered with. */
  lemma {:induction false} BottomRemembers(acts: seq<Act>, states: seq<State>, i: nat, m: nat, p: nat)
    requires IsRun(acts, states) && i < m < |states| && p < |states[0].stacks|
    requires |states[i].stacks| == |states[0].stacks|
    requires states[i].current == p && states[i].stacks[p] == [] && !acts[i].Cli? && !acts[i].Sti?
    requires forall n :: i < n <= m ==> |states[n].stacks| == |states[0].stacks| && states[n].stacks[p] != []
    ensures EntryIntr(states[m].stacks[p][0]) == states[i].intr && states[m].stacks[p][0] != FStart
  {
    var f := states[m - 1];
    assert Leads(f, acts[m - 1], states[m]);
    InvInEveryRun(acts, states, m - 1);
    if m == i + 1 {
      EnteringRemembers(f, acts[m - 1]);
    } else {
      BottomRemembers(acts, states, i, m - 1, p);
      StepRemembers(f, acts[m - 1], p);
    }
  }

  /**
    Process p calls P, V or schedule, or is interrupted, at state i and is back in its own
    code at state j for the first time: IF is what it was, although other processes
    may have run in between and changed it.
   */
  lemma ReturnRestoresIntr(acts: seq<Act>, states: seq<State>, i: nat, j: nat, p: nat)
    requires IsRun(acts, states) && i < j < |states| && p < |states[0].stacks|
    requires |states[i].stacks| == |states[j].stacks| == |states[0].stacks|
    requires states[i].current == p && states[i].stacks[p] == [] && !acts[i].Cli? && !acts[i].Sti?
    requires states[j].stacks[p] == []
    requires forall n :: i < n < j ==> |states[n].stacks| == |states[0].stacks| && states[n].stacks[p] != []
    ensures states[j].current == p && states[j].intr == states[i].intr
  {
    var f := states[j - 1];
    assert Leads(f, acts[j - 1], states[j]);
    InvInEveryRun(acts, states, j - 1);
    if j == i + 1 {
      EnteringRemembers(f, acts[i]);
    } else {
      BottomRemembers(acts, states, i, j - 1, p);
      StepRemembers(f, acts[j - 1], p);
    }
  }

  // ---------------------------------------------------------------------
  // The atomic-step model is a sound abstraction
  // ---------------------------------------------------------------------

  /** What the semaphores will be when the body the running process is in has done its work. */
  function Completed(k: Sys, fr: Frame, p: nat): Sys
    requires FrameOk(fr, |k.sems|) && p < |k.tasks|
  {
    match fr
    case FP(s, _, at) =>
      var sem := k.sems[s];
      (match at
       case PDec => P(k, s, p)
       case PBranch => if sem.value < 0 then SetTask(SetQueue(k, s, sem.queue + [p]), p, Sleeping) else k
       case PInsert => SetTask(SetQueue(k, s, sem.queue + [p]), p, Sleeping)
       case PSleep => SetTask(k, p, Sleeping)
       case _ => k)
    case FV(s, _, at) =>
      var sem := k.sems[s];
      (match at
       case VInc => V(k, s)
       case VBranch => if sem.value <= 0 then WakeFirst(k, s) else k
       case VWake => WakeFirst(k, s)
       case VUnlink => if sem.queue != [] then SetQueue(k, s, sem.queue[1..]) else k
       case _ => k)
    case _ => k
  }

  function WakeFirst(k: Sys, s: nat): Sys
    requires s < |k.sems|
  {
    var queue := k.sems[s].queue;
    if queue != [] then SetQueue(SetTask(k, queue[0], Runnable), s, queue[1..]) else k
  }

  function Atomic(f: State): Sys
    requires Shape(f)
  {
    if Running(f) == [] then f.k
    else
      assert FrameOk(f.stacks[f.current][|Running(f)| - 1], |f.k.sems|);
      Completed(f.k, Top(Running(f)), f.current)
  }

  /** The atomic operation a statement stands for: the whole body happens at its cli. */
  function Commits(f: State, a: Act): Option<Op>
    requires CanAct(f, a)
  {
    if a.Go? then
      match Top(Running(f))
      case FP(s, _, at) => if at == PDisable then Some(DoP(f.current, s)) else None
      case FV(s, _, at) => if at == VDisable then Some(DoV(f.current, s)) else None
      case _ => None
    else None
  }

  lemma StatementOfPRefines(f: State, a: Act)
    requires Inv(f) && CanAct(f, a) && a.Go? && Top(Running(f)).FP? && Shape(Do(f, a))
    ensures match Commits(f, a)
            case Some(op) => Semaphores.CanDo(Atomic(f), op) && Atomic(Do(f, a)) == Semaphores.Do(Atomic(f), op)
            case None => Atomic(Do(f, a)) == Atomic(f)
  {
    var fr, k := Top(Running(f)), f.k;
    assert FrameOk(f.stacks[f.current][|Running(f)| - 1], |k.sems|);
    assert |Running(f)| > 1 ==> Stands(Running(f)[|Running(f)| - 2], Running(f)[|Running(f)| - 1]);
    var sem := k.sems[fr.s];
    if fr.p == PDec {
      var k1 := SetValue(k, fr.s, sem.value - 1);
      assert k1.sems[fr.s := Sem(sem.value - 1, sem.queue + [f.current])] == P(k, fr.s, f.current).sems
             || sem.value > 0;
    }
  }

  /** One statement of the body of V brings it nearer to what the whole body does. */
  lemma VStatement(k: Sys, s: nat, flag: bool, at: VPoint, p: nat)
    requires s < |k.sems| && p < |k.tasks|
    ensures at == VInc ==>
              Completed(SetValue(k, s, k.sems[s].value + 1), FV(s, flag, VBranch), p) == V(k, s)
    ensures at == VBranch ==>
              Completed(k, FV(s, flag, if k.sems[s].value <= 0 then VWake else VEnable), p)
              == Completed(k, FV(s, flag, VBranch), p)
    ensures at == VWake ==>
              Completed(if k.sems[s].queue != [] then SetTask(k, k.sems[s].queue[0], Runnable) else k,
                        FV(s, flag, VUnlink), p)
              == Completed(k, FV(s, flag, VWake), p)
  {
    var sem := k.sems[s];
    if at == VInc && sem.queue != [] {
      var k1, woken := SetValue(k, s, sem.value + 1), Sem(sem.value + 1, sem.queue[1..]);
      assert k1.sems[s := woken] == k.sems[s := woken];
    }
  }

  lemma StatementOfVRefines(f: State, a: Act)
    requires Inv(f) && CanAct(f, a) && a.Go? && Top(Running(f)).FV? && Shape(Do(f, a))
    ensures match Commits(f, a)
            case Some(op) => Semaphores.CanDo(Atomic(f), op) && Atomic(Do(f, a)) == Semaphores.Do(Atomic(f), op)
            case None => Atomic(Do(f, a)) == Atomic(f)
  {
    var fr, k := Top(Running(f)), f.k;
    assert FrameOk(f.stacks[f.current][|Running(f)| - 1], |k.sems|);
    assert |Running(f)| > 1 ==> Stands(Running(f)[|Running(f)| - 2], Running(f)[|Running(f)| - 1]);
    VStatement(k, fr.s, fr.flag, fr.v, f.current);
  }

  /** Each statement is one atomic P or V of the running, awake process, or changes nothing. */
  lemma StatementRefines(f: State, a: Act)
    requires Inv(f) && CanAct(f, a)
    ensures Shape(Do(f, a))
    ensures match Commits(f, a)
            case Some(op) => Semaphores.CanDo(Atomic(f), op) && Atomic(Do(f, a)) == Semaphores.Do(Atomic(f), op)
            case None => Atomic(Do(f, a)) == Atomic(f)
  {
    ActKeepsShape(f, a);
    if a.Go? && Top(Running(f)).FP? {
      StatementOfPRefines(f, a);
    } else if a.Go? && Top(Running(f)).FV? {
      StatementOfVRefines(f, a);
    } else if a.Go? && |Running(f)| > 1 {
      assert Stands(Running(f)[|Running(f)| - 2], Running(f)[|Running(f)| - 1]);
    }
  }

  /** The operations committed in the first i steps, in order. */
  ghost function CommitsOf(acts: seq<Act>, states: seq<State>, i: nat): seq<Op>
    requires IsRun(acts, states) && i < |states|
  {
    if i == 0 then []
    else
      assert Leads(states[i - 1], acts[i - 1], states[i]);
      CommitsOf(acts, states, i - 1) +
        match Commits(states[i - 1], acts[i - 1])
        case Some(op) => [op]
        case None => []
  }

  /** The semaphores between those operations. */
  ghost function SystemsOf(acts: seq<Act>, states: seq<State>, i: nat): (syss: seq<Sys>)
    requires IsRun(acts, states) && i < |states|
    ensures |syss| == |CommitsOf(acts, states, i)| + 1
  {
    if i == 0 then [states[0].k]
    else
      assert Leads(states[i - 1], acts[i - 1], states[i]);
      SystemsOf(acts, states, i - 1) +
        match Commits(states[i - 1], acts[i - 1])
        case Some(op) => (assert Shape(states[i]) by { InvInEveryRun(acts, states, i); } [Atomic(states[i])])
        case None => []
  }

  /** A step of a run is what it commits, seen from the atomic operations. */
  lemma StepInRun(acts: seq<Act>, states: seq<State>, i: nat)
    requires IsRun(acts, states) && i < |acts|
    ensures Shape(states[i]) && Shape(states[i + 1]) && CanAct(states[i], acts[i])
    ensures match Commits(states[i], acts[i])
            case Some(op) =>
              Semaphores.CanDo(Atomic(states[i]), op) && Atomic(states[i + 1]) == Semaphores.Do(Atomic(states[i]), op)
            case None => Atomic(states[i + 1]) == Atomic(states[i])
  {
    var j := i + 1;
    InvInEveryRun(acts, states, i);
    assert Leads(states[i], acts[i], states[j]);
    StatementRefines(states[i], acts[i]);
  }

  /** Every statement-level run is, with its commits read off, a run of atomic P and V operations. */
  lemma {:induction false} RunRefines(acts: seq<Act>, states: seq<State>, i: nat)
    requires IsRun(acts, states) && i < |states|
    ensures Shape(states[i])
    ensures Semaphores.IsRun(CommitsOf(acts, states, i), SystemsOf(acts, states, i))
    ensures SystemsOf(acts, states, i)[|CommitsOf(acts, states, i)|] == Atomic(states[i])
  {
    if i == 0 {
      InvInEveryRun(acts, states, 0);
    } else {
      RunRefines(acts, states, i - 1);
      StepInRun(acts, states, i - 1);
      match Commits(states[i - 1], acts[i - 1])
      case None =>
      case Some(op) =>
        var ops, syss := CommitsOf(acts, states, i - 1), SystemsOf(acts, states, i - 1);
        assert Semaphores.Extended(ops, syss, op).0 == ops + [op];
    }
  }

  /** So the semaphore invariant, proved for atomic steps, holds at every point outside the bodies. */
  lemma SemaphoresWellFormed(acts: seq<Act>, states: seq<State>, i: nat)
    requires IsRun(acts, states) && i < |states|
    ensures Shape(states[i]) && WellFormed(Atomic(states[i]))
    ensures !InBody(Running(states[i])) ==> WellFormed(states[i].k)
  {
    RunRefines(acts, states, i);
    WellFormedInEveryRun(CommitsOf(acts, states, i), SystemsOf(acts, states, i));
    InvInEveryRun(acts, states, i);
  }

  /**
    And so do its other properties: outside the bodies a value is the initial one plus the
    V and minus the P committed so far, and wake-ups were first-in first-out.
   */
  lemma CommittedAccounting(acts: seq<Act>, states: seq<State>, i: nat, s: nat)
    requires IsRun(acts, states) && i < |states| && s < |states[0].k.sems|
    requires states[i].current < |states[i].stacks| && Running(states[i]) == []
    ensures |states[i].k.sems| == |states[0].k.sems|
    ensures var ops, syss := CommitsOf(acts, states, i), SystemsOf(acts, states, i);
            && states[i].k.sems[s].value == states[0].k.sems[s].value + CountV(ops, s) - CountP(ops, s)
            && Slept(ops, syss, s) == Woken(ops, syss, s) + states[i].k.sems[s].queue
  {
    RunRefines(acts, states, i);
    StartOfSystems(acts, states, i);
    ValueAccounting(CommitsOf(acts, states, i), SystemsOf(acts, states, i), s);
    WakeupsAreFifo(CommitsOf(acts, states, i), SystemsOf(acts, states, i), s);
  }

  lemma {:induction false} StartOfSystems(acts: seq<Act>, states: seq<State>, i: nat)
    requires IsRun(acts, states) && i < |states|
    ensures SystemsOf(acts, states, i)[0] == states[0].k
  {
    if i > 0 {
      StartOfSystems(acts, states, i - 1);
    }
  }
}

/** The scheduler and its fibers as one machine: every hand-over of SelectThread either
    switches host stacks or, for a thread without a fiber, goes on by OSLoadContext on the
    stack in use. */
module Hosting {
  import opened Guest
  import opened Wrappers
  import opened Cpu
  import opened Scheduler
  import opened Relinking
  import opened SelectLoop
  import opened SelectThread
  import opened QueueMoves
  import opened SchedulerSteps
  import opened SchedulerRuns
  import Fibers
  import FiberRuns
  import FiberEffects

  /** Where a stack that left in switch_to goes on: in OSSleepThread, with its locals
      currentThread and queuePtr, or in a caller that writes no scheduler word. */
  datatype Frame = Elsewhere | InSleep(thread: Ptr, queue: Ptr)

  datatype System = System(s: Sched, w: Fibers.World, frames: map<Fibers.Handle, Frame>)

  /** What a call finds outside: the arguments of a fiber creation and whether its stack
      can be had, and the register file OSLoadContext reads, None for a null SRR0. */
  datatype Env = Env(entry: int, arg: int, top: int, hid2: int, gotStack: bool,
                     loaded: Option<CpuContext>, seed: Fibers.Seed)

  // ---------------------------------------------------------------- one call

  /** OSRunningContext when the call reaches SelectThread. */
  function Caller(s: Sched, c: Call): Ptr {
    if c.SleepCall? then Adopt(s).running else s.running
  }

  /** OSSleepThread gets as far as parking its caller. */
  predicate Parks(s: Sched, c: Call) {
    && c.SleepCall? && c.a != 0 && c.a in s.mapped
    && (s.running != 0 || DEFAULT_THREAD in s.mapped)
    && Adopt(s).running in s.mapped && s.idle == 0
  }

  /** The fiber calls a bridge makes before SelectThread. */
  function Before(s: Sched, c: Call, env: Env): seq<Fibers.Op> {
    match c
    case CreateCall(t, pr) =>
      if ValidPriority(pr) && t != 0 && t in s.mapped
      then [Fibers.CreateOp(t, env.entry, env.arg, env.top, env.hid2, env.gotStack)]
      else []
    case ResumeCall(t, _) =>
      if t != 0 && t in s.mapped && At(s.suspend, t) == 1 && At(s.state, t) == READY
      then [Fibers.ResumeOp(t)]
      else []
    case SleepCall(_, _) => if Parks(s, c) then [Fibers.SuspendOp(Adopt(s).running)] else []
    case _ => []
  }

  /** SelectThread came back to OSSleepThread, whose tail takes the caller back. */
  predicate TakesBack(s: Sched, c: Call) {
    Parks(s, c) &&
    var t, r := Adopt(s).running, Select(Park(Adopt(s), c.a), false, c.save);
    r.Returned? && Parked(r.s, c.a, t)
  }

  function FrameOf(s: Sched, c: Call): Frame {
    if c.SleepCall? then InSleep(Adopt(s).running, c.a) else Elsewhere
  }

  function FrameAt(frames: map<Fibers.Handle, Frame>, h: Fibers.Handle): Frame {
    if h in frames then frames[h] else Elsewhere
  }

  /** The rest of the bridge once SelectThread has come back on its stack. */
  function GoOn(y: System, f: Frame): System {
    match f
    case Elsewhere => y
    case InSleep(t, a) =>
      if Parked(y.s, a, t)
      then y.(s := SleepTail(y.s, a, t), w := Fibers.SetState(y.w, t, Fibers.Ready))
      else y
  }

  predicate HasFiber(w: Fibers.World, t: Ptr) {
    Fibers.Find(w.records, t) < |w.records| && w.records[Fibers.Find(w.records, t)].host != 0
  }

  /** SelectThread registers the context it leaves. */
  predicate Registers(w: Fibers.World, caller: Ptr) {
    w.thread == 0 && caller != 0 && !HasFiber(w, caller)
  }

  /** What a hand-over comes to: the program stops, the new thread runs by OSLoadContext on
      the stack in use, switch_to returns at once, or another stack runs. */
  datatype Landing = Aborted | Loaded(w: Fibers.World) | AtOnce(w: Fibers.World) | Away(w: Fibers.World)

  function Land(w: Fibers.World, caller: Ptr, next: Ptr, env: Env): Landing {
    if !(Fibers.Available(w) && HasFiber(w, next)) then
      if env.loaded.None? then Aborted else Loaded(w.(cpu := env.loaded.value))
    else
      var r := if Registers(w, caller) then Fibers.Register(w, caller) else (w, true);
      if !r.1 then Aborted
      else
        match Fibers.SwitchTo(r.0, next, true, env.seed)
        case Went(w') => if Fibers.ReturnsAtOnce(r.0, next) then AtOnce(w') else Away(w')
        case _ => Aborted
  }

  /** SelectThread has chosen `next`; f is the rest of the bridge that called it. */
  function HandOver(y: System, f: Frame, caller: Ptr, next: Ptr, env: Env): Option<System> {
    match Land(y.w, caller, next, env)
    case Aborted => None
    case Loaded(w) => Some(y.(w := w))
    case AtOnce(w) => Some(GoOn(y.(w := w), f))
    case Away(w) =>
      var y' := y.(w := w, frames := y.frames[y.w.current := f]);
      Some(if w.current in y.w.stacks && y.w.stacks[w.current].Paused?
           then GoOn(y', FrameAt(y.frames, w.current))
           else y')
  }

  /** One call; None where the program stops. */
  function Step(y: System, c: Call, env: Env): Option<System> {
    var w := Fibers.Run(y.w, Before(y.s, c, env));
    match Exec(y.s, c)
    case Stopped => None
    case Returned(s) =>
      Some(y.(s := s, w := if TakesBack(y.s, c) then Fibers.SetState(w, Caller(y.s, c), Fibers.Ready) else w))
    case Switched(s, next) => HandOver(y.(s := s, w := w), FrameOf(y.s, c), Caller(y.s, c), next, env)
  }

  // ---------------------------------------------------------------- the invariant

  /** The fiber layer's current thread is none or the one OSRunningContext names. */
  predicate InStep(y: System) {
    y.w.thread == 0 || y.w.thread == y.s.running
  }

  /** A stack that will go on as a thread left in a call of that thread. */
  ghost predicate FramesOwn(y: System) {
    forall h | h in y.w.stacks && y.w.stacks[h].Paused? && y.w.stacks[h].thread != 0 ::
      FrameOwn(FrameAt(y.frames, h), y.w.stacks[h].thread)
  }

  predicate FrameOwn(f: Frame, t: Ptr) {
    f.InSleep? ==> f.thread == t
  }

  ghost predicate Hosted(w: Fibers.World) {
    Fibers.FiberInv(w) && FiberRuns.OwnStacks(w)
  }

  ghost predicate Sound(y: System) {
    Inv(y.s) && PendingExact(y.s) && Hosted(y.w) && InStep(y) && FramesOwn(y)
  }

  /** The call hands over by OSLoadContext on the stack of a third thread: the fiber layer
      still has a current thread, and it is not the chosen one. */
  predicate Strays(y: System, c: Call) {
    var r := Exec(y.s, c);
    r.Switched? && y.w.thread != 0 && y.w.thread != r.to && !(Fibers.Available(y.w) && HasFiber(y.w, r.to))
  }

  // ---------------------------------------------------------------- the scheduler's side

  ghost predicate Chose(r: Outcome) {
    r.Switched? ==> r.to == r.s.running && At(r.s.state, r.to) == RUNNING
  }

  lemma SelectChose(s: Sched, force: bool, save: int)
    requires Inv(s)
    ensures Chose(Select(s, force, save))
    ensures var r := Select(s, force, save); r.Returned? ==> r.s.running == s.running
  {
    SelectFrame(s, force, save);
    SwitchStates(s, force, save);
    hide Inv, Select, Ready;
  }

  lemma UnsuspendRunning(s: Sched, t: Ptr)
    ensures var r := Unsuspend(s, t); !r.Switched? && (r.Returned? ==> r.s.running == s.running)
  {
    hide EffectivePriority, SortedInsert, Without;
  }

  lemma UnsuspendedChose(s: Sched, t: Ptr, save: int)
    requires Inv(s) && At(s.suspend, t) == 0 && t != 0 && (At(s.state, t) == READY ==> Unlinked(s, t))
    ensures var r := Unsuspend(s, t);
            var r' := if r.Returned? && r.s.resched != 0 then Select(r.s, false, save) else r;
            Chose(r') && (r'.Returned? ==> r'.s.running == s.running)
  {
    hide Inv, Unlinked, Unsuspend, Select, PendingExact;
    UnsuspendRunning(s, t);
    UnsuspendKeeps(s, t);
    if Unsuspend(s, t).Returned? { SelectChose(Unsuspend(s, t).s, false, save); }
  }

  lemma ResumeChose(s: Sched, t: Ptr, save: int)
    requires Inv(s)
    ensures Chose(Resume(s, t, save))
    ensures var r := Resume(s, t, save); r.Returned? ==> r.s.running == s.running
  {
    hide Inv, Unlinked, Unsuspend, Select, PendingExact;
    if t != 0 && t in s.mapped && At(s.suspend, t) == 1 {
      var s1 := s.(suspend := s.suspend[t := 0]);
      ResuspendKeeps(s, t, 0);
      if At(s.state, t) == READY {
        SuspendedReadyUnlinked(s, t);
        UnlinkedSame(s, s1, t);
      }
      UnsuspendedChose(s1, t, save);
    }
  }

  lemma ParkedChose(s: Sched, a: Ptr, save: int)
    requires Inv(s) && CanPark(s, a) && s.running != 0
    ensures var r := AfterSelect(Select(Park(s, a), false, save), a, s.running);
            Chose(r) && (r.Returned? ==> r.s.running == s.running)
  {
    hide Inv, CanPark, Select, Park, PendingExact;
    ParkKeeps(s, a);
    ParkIs(s, a);
    SelectChose(Park(s, a), false, save);
  }

  lemma SleepChose(s: Sched, a: Ptr, save: int)
    requires Inv(s) && (a != 0 ==> CanPark(s, a))
    ensures Chose(Sleep(s, a, save))
    ensures var r := Sleep(s, a, save); r.Returned? ==> r.s.running == s.running || s.running == 0
  {
    if a != 0 {
      hide Inv, CanPark, Select, Park, AfterSelect, PendingExact;
      AdoptKeeps(s);
      AdoptCanPark(s, a);
      ParkedChose(Adopt(s), a, save);
    }
  }

  /** The chosen thread is RUNNING; without a choice OSRunningContext stays, or is set for
      the first time. */
  lemma ExecChose(s: Sched, c: Call)
    requires Inv(s) && PendingExact(s) && Allowed(s, c)
    ensures Chose(Exec(s, c))
    ensures var r := Exec(s, c); r.Returned? ==> r.s.running == s.running || s.running == 0
  {
    hide Inv, Select, Resume, Sleep, CanPark;
    match c
    case SelectCall(force, save) => SelectChose(s, force, save);
    case ResumeCall(t, save) => ResumeChose(s, t, save);
    case SleepCall(a, save) =>
      if a != 0 && !CanPark(s, a) { RunningCanPark(s, a); }
      SleepChose(s, a, save);
    case CreateCall(t, pr) =>
    case _ =>
  }

  // ---------------------------------------------------------------- the fibers' side

  /** Nothing new on other stacks but first entries. */
  ghost predicate Quiet(w: Fibers.World, w': Fibers.World) {
    && w'.thread == w.thread && w'.current == w.current && w'.cpu == w.cpu
    && forall h | h in w'.stacks && w'.stacks[h].Paused? :: h in w.stacks && w'.stacks[h] == w.stacks[h]
  }

  lemma RunOne(w: Fibers.World, op: Fibers.Op)
    ensures Fibers.Run(w, [op]) == Fibers.Step(w, op)
  {
    assert [op][1..] == [];
  }

  lemma OpQuiet(w: Fibers.World, op: Fibers.Op)
    requires Hosted(w) && (op.CreateOp? || op.SuspendOp? || op.ResumeOp?)
    ensures Hosted(Fibers.Step(w, op)) && Quiet(w, Fibers.Step(w, op))
    ensures !op.CreateOp? ==> forall t: Ptr :: HasFiber(Fibers.Step(w, op), t) == HasFiber(w, t)
    ensures !op.CreateOp? ==> Fibers.Available(Fibers.Step(w, op)) == Fibers.Available(w)
  {
    Fibers.StepKeeps(w, op);
    FiberRuns.StepOwns(w, op);
    if !op.CreateOp? {
      forall t: Ptr ensures HasFiber(Fibers.Step(w, op), t) == HasFiber(w, t) {
        StateKeepsFiber(w, Fibers.Find(w.records, op.t), if op.SuspendOp? then Fibers.Waiting else Fibers.Ready, t);
      }
    }
    hide Fibers.FiberInv, FiberRuns.OwnStacks;
  }

  lemma StateKeepsFiber(w: Fibers.World, k: nat, st: Fibers.FiberState, t: Ptr)
    requires k < |w.records| ==> Fibers.Live(w.records[k])
    requires st != Fibers.Empty
    ensures k < |w.records| ==> HasFiber(w.(records := w.records[k := w.records[k].(state := st)]), t) == HasFiber(w, t)
  {
    if k < |w.records| {
      var rs := w.records[k := w.records[k].(state := st)];
      var f := Fibers.Find(w.records, t);
      forall j | 0 <= j < |rs| ensures Fibers.Holds(rs[j], t) == Fibers.Holds(w.records[j], t) {
      }
      if f < |w.records| {
        Fibers.FindsFirst(rs, t, f);
      } else if t != 0 {
        Fibers.FindsNone(rs, t);
      }
    }
  }

  /** What the calls before SelectThread leave. */
  lemma BeforeQuiet(s: Sched, c: Call, env: Env, w: Fibers.World)
    requires Hosted(w)
    ensures var w' := Fibers.Run(w, Before(s, c, env));
            && Hosted(w') && Quiet(w, w')
            && (!c.CreateCall? ==> Fibers.Available(w') == Fibers.Available(w))
            && (!c.CreateCall? ==> forall t: Ptr :: HasFiber(w', t) == HasFiber(w, t))
  {
    var ops := Before(s, c, env);
    hide Hosted;
    if ops == [] {
      assert Fibers.Run(w, []) == w;
    } else {
      RunOne(w, ops[0]);
      assert ops == [ops[0]];
      OpQuiet(w, ops[0]);
    }
  }

  /** What a hand-over does when the fiber layer agrees with OSRunningContext. */
  ghost predicate LandsWell(w: Fibers.World, caller: Ptr, next: Ptr, r: Landing) {
    match r
    case Aborted => true
    case Loaded(w') => Hosted(w') && w' == w.(cpu := w'.cpu) && !(Fibers.Available(w) && HasFiber(w, next))
    case AtOnce(w') =>
      && Hosted(w') && next == caller == w'.thread && w'.cpu == w.cpu
      && w'.stacks == w.stacks && w'.current == w.current && w'.next == w.next
    case Away(w') =>
      && Hosted(w') && w'.thread == next != 0 && w'.current in w.stacks && w.stacks[w'.current].thread == next
      && (w.stacks[w'.current].Paused? ==> w'.cpu == w.stacks[w'.current].caller)
      && LeftBehind(w, w', caller)
  }

  /** The stack left behind will go on as the caller, or as nobody. */
  ghost predicate LeftBehind(w: Fibers.World, w': Fibers.World, caller: Ptr) {
    && w'.next == w.next && w'.stacks.Keys == w.stacks.Keys - {w'.current} + {w.current}
    && (forall h | h in w'.stacks && h != w.current :: w'.stacks[h] == w.stacks[h])
    && var left := w'.stacks[w.current];
       left.Paused? && left.caller == w.cpu && (left.thread == 0 || left.thread == caller)
  }

  lemma RegisterFirst(w: Fibers.World, caller: Ptr)
    requires Hosted(w) && Registers(w, caller) && Fibers.Register(w, caller).1
    ensures var w' := Fibers.Register(w, caller).0;
            && Hosted(w') && w'.thread == caller && w'.stacks == w.stacks && w'.current == w.current && w'.cpu == w.cpu
            && w'.next == w.next
  {
    assert Fibers.Find(w.records, caller) == |w.records|;
    Fibers.RegisterKeeps(w, caller);
    FiberRuns.RegisterOwns(w, caller);
    hide Fibers.FiberInv, FiberRuns.OwnStacks;
  }

  lemma AwayLands(w: Fibers.World, caller: Ptr, next: Ptr, seed: Fibers.Seed)
    requires Hosted(w) && (w.thread == 0 || w.thread == caller)
    requires Fibers.Switchable(w, next) && !Fibers.ReturnsAtOnce(w, next)
    ensures LandsWell(w, caller, next, Away(Fibers.Step(w, Fibers.SwitchOp(next, true, seed))))
  {
    FiberRuns.SwitchOwns(w, next, seed);
    FiberRuns.GoesOnAs(w, next, seed);
    hide Fibers.FiberInv, FiberRuns.OwnStacks, Fibers.SwitchTo, Fibers.Step, FiberRuns.SameOwners;
    Fibers.StepKeeps(w, Fibers.SwitchOp(next, true, seed));
    var h := Fibers.Target(w, next).host;
    if w.stacks[h].Paused? {
      Fibers.ResumeGivesBack(w, Fibers.SwitchOp(next, true, seed), h, w.stacks[h]);
    }
    StepKeepsNext(w, next, seed);
  }

  lemma StepKeepsNext(w: Fibers.World, next: Ptr, seed: Fibers.Seed)
    ensures Fibers.Step(w, Fibers.SwitchOp(next, true, seed)).next == w.next
  {
    hide Fibers.LeaveRecords;
  }

  lemma AtOnceLands(w: Fibers.World, caller: Ptr, next: Ptr, seed: Fibers.Seed)
    requires Hosted(w) && (w.thread == 0 || w.thread == caller) && Fibers.ReturnsAtOnce(w, next)
    ensures LandsWell(w, caller, next, AtOnce(Fibers.Step(w, Fibers.SwitchOp(next, true, seed))))
  {
    Fibers.StepKeeps(w, Fibers.SwitchOp(next, true, seed));
    FiberRuns.SwitchOwns(w, next, seed);
    FiberRuns.AtOnceIsOwn(w, next);
    FiberRuns.AtOnceGives(w, next, true, seed);
    hide Fibers.FiberInv, FiberRuns.OwnStacks, Fibers.LeaveRecords;
  }

  lemma SwitchIsStep(w: Fibers.World, next: Ptr, seed: Fibers.Seed)
    requires Hosted(w) && Fibers.Switchable(w, next)
    ensures var r := Fibers.SwitchTo(w, next, true, seed);
            r.Went? && r.world == Fibers.Step(w, Fibers.SwitchOp(next, true, seed))
  {
    hide Fibers.SwitchTo;
    Fibers.SwitchKeeps(w, next, true, seed);
  }

  lemma SwitchLands(w: Fibers.World, caller: Ptr, next: Ptr, seed: Fibers.Seed)
    requires Hosted(w) && (w.thread == 0 || w.thread == caller) && Fibers.Switchable(w, next)
    ensures var r := Fibers.SwitchTo(w, next, true, seed);
            && r.Went?
            && LandsWell(w, caller, next, if Fibers.ReturnsAtOnce(w, next) then AtOnce(r.world) else Away(r.world))
  {
    hide Hosted, LandsWell, Fibers.SwitchTo, Fibers.Step, Fibers.ReturnsAtOnce, Fibers.Switchable;
    SwitchIsStep(w, next, seed);
    if Fibers.ReturnsAtOnce(w, next) {
      AtOnceLands(w, caller, next, seed);
    } else {
      AwayLands(w, caller, next, seed);
    }
  }

  lemma LandSound(w: Fibers.World, caller: Ptr, next: Ptr, env: Env)
    requires Hosted(w) && (w.thread == 0 || w.thread == caller)
    ensures LandsWell(w, caller, next, Land(w, caller, next, env))
  {
    if Fibers.Available(w) && HasFiber(w, next) {
      if Registers(w, caller) {
        if Fibers.Register(w, caller).1 {
          RegisterFirst(w, caller);
          RegisterKeepsFiber(w, caller, next);
          hide Hosted, Fibers.Register, HasFiber, Fibers.SwitchTo;
          SwitchLands(Fibers.Register(w, caller).0, caller, next, env.seed);
        }
      } else {
        hide Hosted, Fibers.SwitchTo;
        SwitchLands(w, caller, next, env.seed);
      }
    } else if env.loaded.Some? {
      Fibers.RecontextKeeps(w, env.loaded.value);
      FiberRuns.StepOwns(w, Fibers.Compute(env.loaded.value));
    }
  }

  lemma RegisterKeepsFiber(w: Fibers.World, caller: Ptr, t: Ptr)
    requires Hosted(w) && Registers(w, caller) && Fibers.Register(w, caller).1
    requires Fibers.Available(w) && HasFiber(w, t)
    ensures Fibers.Switchable(Fibers.Register(w, caller).0, t)
  {
    var w' := Fibers.Register(w, caller).0;
    var k := Fibers.Find(w.records, t);
    assert t != caller && w'.records[k] == w.records[k];
    forall j | 0 <= j < k ensures !Fibers.Holds(w'.records[j], t) {
      assert !Fibers.Holds(w.records[j], t);
    }
    Fibers.FindsFirst(w'.records, t, k);
  }

  // ---------------------------------------------------------------- one step

  /** A RUNNING thread is not taken back. */
  lemma GoOnIdle(y: System, f: Frame, t: Ptr)
    requires FrameOwn(f, t) && At(y.s.state, t) == RUNNING
    ensures GoOn(y, f) == y
  {
  }

  lemma FramesStay(y: System, w: Fibers.World)
    requires FramesOwn(y) && Quiet(y.w, w)
    ensures FramesOwn(y.(w := w))
  {
  }

  lemma FramesAway(y: System, w: Fibers.World, f: Frame, caller: Ptr)
    requires FramesOwn(y) && LeftBehind(y.w, w, caller) && FrameOwn(f, caller)
    ensures FramesOwn(y.(w := w, frames := y.frames[y.w.current := f]))
  {
  }

  /** The hand-over of a bridge whose tails do nothing. */
  function Handed(y: System, f: Frame, l: Landing): Option<System> {
    match l
    case Aborted => None
    case Loaded(w) => Some(y.(w := w))
    case AtOnce(w) => Some(y.(w := w))
    case Away(w) => Some(y.(w := w, frames := y.frames[y.w.current := f]))
  }

  /** y.s is what SelectThread left, with `next` RUNNING, and f is the caller's frame. */
  ghost predicate AtHandOver(y: System, f: Frame, caller: Ptr, next: Ptr) {
    && Hosted(y.w) && FramesOwn(y) && (y.w.thread == 0 || y.w.thread == caller)
    && FrameOwn(f, caller) && y.s.running == next && At(y.s.state, next) == RUNNING
  }

  /** No tail takes its caller back after a hand-over. */
  lemma TailsIdle(y: System, f: Frame, caller: Ptr, next: Ptr, env: Env)
    requires AtHandOver(y, f, caller, next)
    ensures var l := Land(y.w, caller, next, env);
            LandsWell(y.w, caller, next, l) && HandOver(y, f, caller, next, env) == Handed(y, f, l)
  {
    LandSound(y.w, caller, next, env);
    hide Hosted, Land, HasFiber, Fibers.Available;
    match Land(y.w, caller, next, env)
    case Aborted =>
    case Loaded(w) =>
    case AtOnce(w) =>
      GoOnIdle(y.(w := w), f, next);
    case Away(w) =>
      if y.w.stacks[w.current].Paused? {
        GoOnIdle(y.(w := w, frames := y.frames[y.w.current := f]), FrameAt(y.frames, w.current), next);
      }
  }

  lemma HandOverSound(y: System, f: Frame, caller: Ptr, next: Ptr, env: Env)
    requires AtHandOver(y, f, caller, next)
    ensures var r := HandOver(y, f, caller, next, env);
            r.Some? ==>
              && r.value.s == y.s && Hosted(r.value.w) && FramesOwn(r.value)
              && (InStep(r.value) <==> (Fibers.Available(y.w) && HasFiber(y.w, next))
                                       || y.w.thread == 0 || y.w.thread == next)
  {
    TailsIdle(y, f, caller, next, env);
    hide Hosted, Land, HasFiber, Fibers.Available, HandOver;
    var l := Land(y.w, caller, next, env);
    if l.Away? { FramesAway(y, l.w, f, caller); }
  }

  lemma TakenBackHosted(y: System, c: Call, w: Fibers.World)
    requires Hosted(w) && Quiet(y.w, w)
    ensures var w' := if TakesBack(y.s, c) then Fibers.SetState(w, Caller(y.s, c), Fibers.Ready) else w;
            Hosted(w') && Quiet(y.w, w')
  {
    hide Hosted, TakesBack, Caller;
    OpQuiet(w, Fibers.ResumeOp(Caller(y.s, c)));
  }

  /** From a sound state a call does to the scheduler words just what its specification
      says: in particular no OSSleepThread tail takes its caller back after a hand-over,
      neither on a stack that switch_to left at once nor on one resumed later. And the
      state stays sound if and only if the call does not stray. */
  lemma StepSoundIff(y: System, c: Call, env: Env)
    requires Sound(y) && Allowed(y.s, c)
    ensures var r := Step(y, c, env);
            r.Some? ==> !Exec(y.s, c).Stopped? && r.value.s == Exec(y.s, c).s && (Sound(r.value) <==> !Strays(y, c))
  {
    hide Hosted, Inv, PendingExact, Exec, Allowed, FramesOwn, HandOver, HasFiber, Fibers.Available, Before;
    var w, r := Fibers.Run(y.w, Before(y.s, c, env)), Exec(y.s, c);
    BeforeQuiet(y.s, c, env, y.w);
    ExecKeeps(y.s, c);
    ExecChose(y.s, c);
    FramesStay(y, w);
    hide Fibers.Run;
    match r
    case Stopped =>
    case Returned(s) =>
      TakenBackHosted(y, c, w);
      var w' := if TakesBack(y.s, c) then Fibers.SetState(w, Caller(y.s, c), Fibers.Ready) else w;
      FramesStay(y, w');
      SameFrames(y.(w := w'), s);
    case Switched(s, next) =>
      CallerInStep(y, c);
      SameFrames(y.(w := w), s);
      NoSwitchInCreate(y.s, c);
      HandOverSound(y.(s := s, w := w), FrameOf(y.s, c), Caller(y.s, c), next, env);
  }

  lemma SameFrames(y: System, s: Sched)
    requires FramesOwn(y)
    ensures FramesOwn(y.(s := s))
  {
  }

  lemma NoSwitchInCreate(s: Sched, c: Call)
    ensures Exec(s, c).Switched? ==> !c.CreateCall?
  {
  }

  lemma CallerInStep(y: System, c: Call)
    requires InStep(y)
    ensures y.w.thread == 0 || y.w.thread == Caller(y.s, c)
    ensures FrameOwn(FrameOf(y.s, c), Caller(y.s, c))
  {
  }

  // ---------------------------------------------------------------- whole runs

  datatype Event = Os(c: Call, env: Env) | Guest(cpu: CpuContext)

  /** A call, or guest code between two calls. */
  function Next(y: System, e: Event): Option<System> {
    match e
    case Os(c, env) => Step(y, c, env)
    case Guest(cpu) => Some(y.(w := y.w.(cpu := cpu)))
  }

  function RunAll(y: System, es: seq<Event>): Option<System>
    decreases |es|
  {
    if es == [] then Some(y)
    else
      var r := Next(y, es[0]);
      if r.None? then None else RunAll(r.value, es[1..])
  }

  function Calls(es: seq<Event>): seq<Call>
    decreases |es|
  {
    if es == [] then [] else (if es[0].Os? then [es[0].c] else []) + Calls(es[1..])
  }

  ghost predicate AllowedEvent(y: System, e: Event) {
    e.Os? ==> Allowed(y.s, e.c) && !Strays(y, e.c)
  }

  /** Calls the scheduler allows, none of which strays. */
  ghost predicate Straight(y: System, es: seq<Event>)
    decreases |es|
  {
    es != [] ==>
      AllowedEvent(y, es[0]) && (Next(y, es[0]).Some? ==> Straight(Next(y, es[0]).value, es[1..]))
  }

  lemma NextSound(y: System, e: Event)
    requires Sound(y) && AllowedEvent(y, e)
    ensures Next(y, e).Some? ==> Sound(Next(y, e).value)
  {
    match e
    case Os(c, env) => StepSoundIff(y, c, env);
    case Guest(cpu) =>
      Fibers.RecontextKeeps(y.w, cpu);
      FiberRuns.StepOwns(y.w, Fibers.Compute(cpu));
  }

  /** A straight run of the whole machine has the specified scheduler words throughout. */
  lemma {:induction false} StraightRuns(y: System, es: seq<Event>)
    requires Sound(y) && Straight(y, es) && RunAll(y, es).Some?
    ensures var y' := RunAll(y, es).value;
            Sound(y') && AllowedRun(y.s, Calls(es)) && Run(y.s, Calls(es)) == Returned(y'.s)
    decreases |es|
  {
    hide Sound, Step, Exec, Allowed, Strays;
    if es != [] {
      NextSound(y, es[0]);
      var y1 := Next(y, es[0]).value;
      StraightRuns(y1, es[1..]);
      if es[0].Os? {
        StepSoundIff(y, es[0].c, es[0].env);
        assert Calls(es)[1..] == Calls(es[1..]);
      } else {
        assert Calls(es) == Calls(es[1..]);
      }
    }
  }

  function BootSystem(mapped: set<Ptr>, cpu: CpuContext): System {
    System(Boot(mapped), Fibers.Boot(cpu), map[])
  }

  lemma BootSound(mapped: set<Ptr>, cpu: CpuContext)
    ensures Sound(BootSystem(mapped, cpu))
  {
    BootIsSafe(mapped);
    FiberRuns.BootOwns(cpu);
    hide Inv, PendingExact, Fibers.FiberInv, FiberRuns.OwnStacks;
  }

  /** From boot, over every straight run of the scheduler bridges and the fibers: at most
      one thread is RUNNING, it is the running context, and every thread is queued once. */
  lemma StraightRunsAreSafe(mapped: set<Ptr>, cpu: CpuContext, es: seq<Event>)
    requires Straight(BootSystem(mapped, cpu), es) && RunAll(BootSystem(mapped, cpu), es).Some?
    ensures var y := RunAll(BootSystem(mapped, cpu), es).value;
            Safe(y.s) && (y.w.thread == 0 || y.w.thread == y.s.running)
  {
    BootSound(mapped, cpu);
    StraightRuns(BootSystem(mapped, cpu), es);
    hide RunAll, Hosted, FramesOwn, Inv, PendingExact;
    InvIsSafe(RunAll(BootSystem(mapped, cpu), es).value.s);
  }

  // ---------------------------------------------------------------- isolation

  /** Stack h is never the one in use. */
  predicate StaysAway(y: System, es: seq<Event>, h: Fibers.Handle)
    decreases |es|
  {
    y.w.current != h && (es != [] && Next(y, es[0]).Some? ==> StaysAway(Next(y, es[0]).value, es[1..], h))
  }

  lemma OpsSuspended(w: Fibers.World, ops: seq<Fibers.Op>, h: Fibers.Handle, st: Fibers.Stack)
    requires Hosted(w) && Fibers.SuspendedOrGone(w, h, st) && h != w.current
    requires |ops| <= 1 && forall op | op in ops :: !op.SwitchOp?
    ensures Fibers.SuspendedOrGone(Fibers.Run(w, ops), h, st)
  {
    if ops != [] {
      RunOne(w, ops[0]);
      assert ops == [ops[0]];
      Fibers.StepSuspended(w, ops[0], h, st);
    } else {
      assert Fibers.Run(w, ops) == w;
    }
  }

  /** What a hand-over does to a suspended stack h: nothing, or it goes on with its own
      context as the thread it left as. */
  ghost predicate KeepsOrGivesBack(y: System, h: Fibers.Handle, st: Fibers.Stack) {
    if y.w.current != h then Fibers.SuspendedOrGone(y.w, h, st)
    else st.Paused? ==> y.w.cpu == st.caller && y.s.running == y.w.thread == st.thread != 0
  }

  lemma HandOverSuspended(y: System, f: Frame, caller: Ptr, next: Ptr, env: Env, h: Fibers.Handle, st: Fibers.Stack)
    requires AtHandOver(y, f, caller, next)
    requires Fibers.SuspendedOrGone(y.w, h, st) && h != y.w.current
    ensures var r := HandOver(y, f, caller, next, env); r.Some? ==> KeepsOrGivesBack(r.value, h, st)
  {
    TailsIdle(y, f, caller, next, env);
    hide Hosted, Land, HasFiber, Fibers.Available, HandOver, FramesOwn;
  }

  lemma BeforeSuspended(s: Sched, c: Call, env: Env, w: Fibers.World, h: Fibers.Handle, st: Fibers.Stack)
    requires Hosted(w) && Fibers.SuspendedOrGone(w, h, st) && h != w.current
    ensures Fibers.SuspendedOrGone(Fibers.Run(w, Before(s, c, env)), h, st)
  {
    hide Hosted, Fibers.SuspendedOrGone;
    OpsSuspended(w, Before(s, c, env), h, st);
  }

  lemma NextSuspended(y: System, e: Event, h: Fibers.Handle, st: Fibers.Stack)
    requires Sound(y) && AllowedEvent(y, e) && Fibers.SuspendedOrGone(y.w, h, st) && h != y.w.current
    ensures Next(y, e).Some? ==> KeepsOrGivesBack(Next(y, e).value, h, st)
  {
    if e.Os? {
      hide Hosted, Inv, PendingExact, Exec, Allowed, FramesOwn, HandOver, HasFiber, Fibers.Available, Before;
      var c, env := e.c, e.env;
      var w, r := Fibers.Run(y.w, Before(y.s, c, env)), Exec(y.s, c);
      BeforeQuiet(y.s, c, env, y.w);
      BeforeSuspended(y.s, c, env, y.w, h, st);
      ExecChose(y.s, c);
      FramesStay(y, w);
      hide Fibers.Run;
      if r.Switched? {
        CallerInStep(y, c);
        SameFrames(y.(w := w), r.s);
        HandOverSuspended(y.(s := r.s, w := w), FrameOf(y.s, c), Caller(y.s, c), r.to, env, h, st);
      }
    }
  }

  lemma {:induction false} RunSuspended(y: System, es: seq<Event>, h: Fibers.Handle, st: Fibers.Stack)
    requires Sound(y) && Straight(y, es) && StaysAway(y, es, h) && Fibers.SuspendedOrGone(y.w, h, st)
    requires RunAll(y, es).Some?
    ensures var y' := RunAll(y, es).value; Sound(y') && Fibers.SuspendedOrGone(y'.w, h, st) && y'.w.current != h
    decreases |es|
  {
    hide Sound, Next, AllowedEvent, Fibers.SuspendedOrGone;
    if es != [] {
      NextSound(y, es[0]);
      NextSuspended(y, es[0], h, st);
      RunSuspended(Next(y, es[0]).value, es[1..], h, st);
    }
  }

  /** Stack h is suspended as t, or as nobody, with these registers. */
  predicate SuspendedAs(w: Fibers.World, h: Fibers.Handle, t: Ptr, cpu: CpuContext) {
    && h in w.stacks && w.stacks[h].Paused? && w.stacks[h].caller == cpu
    && (w.stacks[h].thread == 0 || w.stacks[h].thread == t)
  }

  lemma HandOverLeaves(y: System, f: Frame, caller: Ptr, next: Ptr, env: Env)
    requires AtHandOver(y, f, caller, next)
    ensures var r := HandOver(y, f, caller, next, env);
            r.Some? && r.value.w.current != y.w.current ==> SuspendedAs(r.value.w, y.w.current, caller, y.w.cpu)
  {
    TailsIdle(y, f, caller, next, env);
    hide Hosted, Land, HasFiber, Fibers.Available, HandOver, FramesOwn;
  }

  /** A call that leaves its stack suspends it as its caller, or as nobody, with the
      registers of the call. */
  lemma LeavingSuspends(y: System, c: Call, env: Env)
    requires Sound(y) && Allowed(y.s, c)
    requires Step(y, c, env).Some? && Step(y, c, env).value.w.current != y.w.current
    ensures SuspendedAs(Step(y, c, env).value.w, y.w.current, Caller(y.s, c), y.w.cpu)
  {
    hide Hosted, Inv, PendingExact, Exec, Allowed, FramesOwn, HandOver, HasFiber, Fibers.Available, Before;
    var w, r := Fibers.Run(y.w, Before(y.s, c, env)), Exec(y.s, c);
    BeforeQuiet(y.s, c, env, y.w);
    ExecChose(y.s, c);
    FramesStay(y, w);
    hide Fibers.Run;
    if r.Switched? {
      CallerInStep(y, c);
      SameFrames(y.(w := w), r.s);
      HandOverLeaves(y.(s := r.s, w := w), FrameOf(y.s, c), Caller(y.s, c), r.to, env);
    } else {
      TakenBackHosted(y, c, w);
    }
  }

  /** Isolation. A thread whose call leaves its host stack, when that stack is in use
      again after any straight run, is the running thread again, on both sides, with
      the registers it called with. */
  lemma CallerComesBack(y: System, c: Call, env: Env, es: seq<Event>, back: Event)
    requires Sound(y) && Allowed(y.s, c) && !Strays(y, c)
    requires Step(y, c, env).Some? && Step(y, c, env).value.w.current != y.w.current
    requires var y1 := Step(y, c, env).value;
             && Straight(y1, es) && StaysAway(y1, es, y.w.current) && RunAll(y1, es).Some?
             && var y2 := RunAll(y1, es).value;
                AllowedEvent(y2, back) && Next(y2, back).Some? && Next(y2, back).value.w.current == y.w.current
    ensures var y3 := Next(RunAll(Step(y, c, env).value, es).value, back).value;
            y3.w.cpu == y.w.cpu && y3.s.running == y3.w.thread == Caller(y.s, c) != 0
  {
    hide Sound, Next, AllowedEvent, Allowed, Strays, Step, Straight, StaysAway, RunAll, Caller;
    var y1 := Step(y, c, env).value;
    var h := y.w.current;
    StepSoundIff(y, c, env);
    LeavingSuspends(y, c, env);
    var st := y1.w.stacks[h];
    RunSuspended(y1, es, h, st);
    NextSuspended(RunAll(y1, es).value, back, h, st);
  }

  /** And a hand-over to another thread that has a fiber leaves the stack in use. */
  lemma OtherFiberLeaves(w: Fibers.World, caller: Ptr, next: Ptr, env: Env)
    requires Hosted(w) && (w.thread == 0 || w.thread == caller)
    requires Fibers.Available(w) && HasFiber(w, next) && next != caller
    ensures var r := Land(w, caller, next, env);
            r.Aborted? || (r.Away? && r.w.thread == next && r.w.current != w.current)
  {
    LandSound(w, caller, next, env);
    hide Fibers.FiberInv, FiberRuns.OwnStacks, Fibers.Register, Fibers.SwitchTo, Fibers.ReturnsAtOnce;
  }

  /** t's record names host stack h. */
  predicate OnStack(w: Fibers.World, t: Ptr, h: Fibers.Handle) {
    HasFiber(w, t) && w.records[Fibers.Find(w.records, t)].host == h
  }

  lemma OwnersKeepStack(w: Fibers.World, w': Fibers.World, t: Ptr)
    requires FiberRuns.SameOwners(w.records, w'.records)
    ensures forall h :: OnStack(w, t, h) ==> OnStack(w', t, h)
  {
    var rs, rs', k := w.records, w'.records, Fibers.Find(w.records, t);
    forall j | 0 <= j < |rs| ensures Fibers.Holds(rs'[j], t) == Fibers.Holds(rs[j], t) {
    }
    if k < |rs| { Fibers.FindsFirst(rs', t, k); }
  }

  lemma SwitchKeepsStack(w: Fibers.World, next: Ptr, seed: Fibers.Seed, t: Ptr)
    requires Hosted(w) && Fibers.Switchable(w, next) && !Fibers.ReturnsAtOnce(w, next)
    ensures var w' := Fibers.Step(w, Fibers.SwitchOp(next, true, seed));
            (forall h :: OnStack(w, t, h) ==> OnStack(w', t, h)) && OnStack(w, next, w'.current)
  {
    FiberRuns.GoesOnAs(w, next, seed);
    hide Hosted, Fibers.Step;
    OwnersKeepStack(w, Fibers.Step(w, Fibers.SwitchOp(next, true, seed)), t);
  }

  lemma RegisterOnStack(w: Fibers.World, caller: Ptr, t: Ptr)
    requires Hosted(w) && Registers(w, caller) && Fibers.Register(w, caller).1
    ensures var w' := Fibers.Register(w, caller).0;
            && OnStack(w', caller, w.current)
            && var f := Fibers.Find(w.records, t);
               HasFiber(w, t) ==> t != caller && w'.records[f] == w.records[f] && Fibers.Find(w'.records, t) == f
  {
    var w' := Fibers.Register(w, caller).0;
    var k := Fibers.Slot(w.records, caller);
    forall j | 0 <= j < k ensures !Fibers.Holds(w'.records[j], caller) {
      assert !Fibers.Holds(w.records[j], caller);
    }
    Fibers.FindsFirst(w'.records, caller, k);
    if HasFiber(w, t) {
      var f := Fibers.Find(w.records, t);
      assert w'.records[f] == w.records[f];
      forall j | 0 <= j < f ensures !Fibers.Holds(w'.records[j], t) {
        assert !Fibers.Holds(w.records[j], t);
      }
      Fibers.FindsFirst(w'.records, t, f);
    }
  }

  /** A hand-over that changes stacks goes to the stack of the chosen thread's record, and
      the caller keeps its own: the record it has there, or the one made for it now. */
  lemma CallerKeepsStack(w: Fibers.World, caller: Ptr, next: Ptr, env: Env)
    requires Hosted(w) && (w.thread == 0 || w.thread == caller)
    requires OnStack(w, caller, w.current)
             || (w.thread == 0 && caller != 0
                 && forall k :: 0 <= k < |w.records| && Fibers.Live(w.records[k]) ==> w.records[k].thread != caller)
    ensures var r := Land(w, caller, next, env);
            r.Away? ==> OnStack(w, next, r.w.current) && OnStack(r.w, caller, w.current)
  {
    if Land(w, caller, next, env).Away? {
      if !OnStack(w, caller, w.current) {
        RegisterOnStack(w, caller, next);
        RegisterFirst(w, caller);
        RegisterKeepsFiber(w, caller, next);
        hide Hosted, Fibers.Register, HasFiber, Registers;
        var w1 := Fibers.Register(w, caller).0;
        SwitchesAway(w1, caller, next, env);
      } else {
        SwitchesAway(w, caller, next, env);
        hide Hosted;
      }
    }
  }

  lemma SwitchesAway(w: Fibers.World, caller: Ptr, next: Ptr, env: Env)
    requires Hosted(w) && OnStack(w, caller, w.current) && Fibers.Switchable(w, next)
    requires var r := Fibers.SwitchTo(w, next, true, env.seed); r.Went? && !Fibers.ReturnsAtOnce(w, next)
    ensures var w' := Fibers.SwitchTo(w, next, true, env.seed).world;
            OnStack(w, next, w'.current) && OnStack(w', caller, w.current)
  {
    hide Hosted, Fibers.SwitchTo, OnStack;
    SwitchKeepsStack(w, next, env.seed, caller);
  }

  // ---------------------------------------------------------------- the fibers' states

  /** Before SelectThread a resume of the last count marks a READY thread's fiber Ready, a
      sleep marks its caller's Waiting, and no other fiber is marked. */
  lemma BeforeMarks(s: Sched, c: Call, env: Env, w: Fibers.World, t: Ptr)
    requires Hosted(w) && !c.CreateCall?
    ensures var before, after := FiberEffects.StateOf(w, t), FiberEffects.StateOf(Fibers.Run(w, Before(s, c, env)), t);
            after == if before == Fibers.Empty then before
                     else if c.ResumeCall? && c.t == t && t in s.mapped && At(s.suspend, t) == 1
                             && At(s.state, t) == READY then Fibers.Ready
                     else if Parks(s, c) && t == (if s.running == 0 then DEFAULT_THREAD else s.running)
                     then Fibers.Waiting
                     else before
  {
    var ops := Before(s, c, env);
    NullStateless(w);
    if ops == [] {
      assert Fibers.Run(w, []) == w;
    } else {
      RunOne(w, ops[0]);
      assert ops == [ops[0]];
      FiberEffects.SetStateEffect(w, ops[0].t, if ops[0].ResumeOp? then Fibers.Ready else Fibers.Waiting, t);
      hide Hosted, FiberEffects.StateOf, Fibers.SetState, Parks;
    }
  }

  lemma NullStateless(w: Fibers.World)
    ensures FiberEffects.StateOf(w, 0) == Fibers.Empty
  {
  }

  /** A caller that OSSleepThread takes back without a hand-over has its fiber Ready. */
  lemma TakenBackMarks(y: System, c: Call, env: Env, t: Ptr)
    requires Hosted(y.w) && c.SleepCall? && Exec(y.s, c).Returned? && TakesBack(y.s, c)
    ensures var before, r := FiberEffects.StateOf(y.w, t), Step(y, c, env);
            r.Some? && FiberEffects.StateOf(r.value.w, t) ==
                       if before != Fibers.Empty && t == Caller(y.s, c) then Fibers.Ready else before
  {
    BeforeMarks(y.s, c, env, y.w, t);
    BeforeMarks(y.s, c, env, y.w, Caller(y.s, c));
    BeforeQuiet(y.s, c, env, y.w);
    var w := Fibers.Run(y.w, Before(y.s, c, env));
    assert Caller(y.s, c) == if y.s.running == 0 then DEFAULT_THREAD else y.s.running;
    FiberEffects.SetStateEffect(w, Caller(y.s, c), Fibers.Ready, t);
    hide Exec, FiberEffects.StateOf, Fibers.SetState, Parks, TakesBack, Fibers.Run, Before, Caller;
  }
}

/** What straying leads to: a sleep in the loaded thread can put two threads RUNNING. */
module StrayRun {
  import opened Guest
  import opened Wrappers
  import opened Cpu
  import opened Scheduler
  import opened Relinking
  import opened SelectLoop
  import opened SelectThread
  import opened QueueMoves
  import opened SchedulerSteps
  import opened SchedulerRuns
  import opened Hosting
  import Fibers
  import FiberRuns

  /** Taking the caller back after a hand-over to another thread leaves both RUNNING. */
  lemma TakenBackTwice(s: Sched, a: Ptr, save: int)
    requires Inv(s) && CanPark(s, a) && s.running != 0
    requires var r := Select(Park(s, a), false, save); r.Switched? && r.to != s.running
    ensures var r, t := Select(Park(s, a), false, save), s.running;
            var s' := SleepTail(r.s, a, t);
            && Parked(r.s, a, t)
            && At(s'.state, t) == RUNNING && At(s'.state, r.to) == RUNNING && !Inv(s')
  {
    var r, t := Select(Park(s, a), false, save), s.running;
    hide CanPark, Select, Park, Inv;
    ParkKeeps(s, a);
    ParkIs(s, a);
    ParkedSelectQueues(s, a, save);
    SwitchStates(Park(s, a), false, save);
    SelectChose(Park(s, a), false, save);
    assert At(SleepTail(r.s, a, t).state, t) == RUNNING;
    TwoRunning(SleepTail(r.s, a, t), t, r.to);
  }

  lemma TwoRunning(s: Sched, t: Ptr, u: Ptr)
    requires t != u && At(s.state, t) == RUNNING && At(s.state, u) == RUNNING
    ensures !Inv(s)
  {
    assert OneRunning(s) ==> t == s.running && u == s.running;
  }

  /** Suspending or resuming a fiber changes no host stack. */
  lemma StateKeepsAtOnce(w: Fibers.World, u: Ptr, st: Fibers.FiberState, t: Ptr)
    requires Fibers.ReturnsAtOnce(w, t) && st != Fibers.Empty
    ensures var w' := Fibers.SetState(w, u, st);
            && Fibers.ReturnsAtOnce(w', t) && Fibers.Find(w'.records, t) == Fibers.Find(w.records, t)
            && w'.thread == w.thread && w'.cpu == w.cpu && |w'.records| == |w.records|
            && forall j :: 0 <= j < |w.records| ==> w'.records[j].saved == w.records[j].saved
  {
    var w', k := Fibers.SetState(w, u, st), Fibers.Find(w.records, t);
    forall j | 0 <= j < k ensures !Fibers.Holds(w'.records[j], t) {
      assert !Fibers.Holds(w.records[j], t);
    }
    Fibers.FindsFirst(w'.records, t, k);
  }

  /** switch_to on the stack of its own current thread. */
  lemma LandsAtOnce(w: Fibers.World, caller: Ptr, env: Env)
    requires Fibers.FiberInv(w) && Fibers.ReturnsAtOnce(w, w.thread)
    ensures var r, k := Land(w, caller, w.thread, env), Fibers.Find(w.records, w.thread);
            && r.AtOnce? && r.w.cpu == w.cpu && r.w.thread == w.thread && |r.w.records| == |w.records|
            && k < |w.records| && r.w.records[k].saved == w.cpu
  {
    Fibers.SwitchKeeps(w, w.thread, true, env.seed);
    FiberRuns.AtOnceGives(w, w.thread, true, env.seed);
    Fibers.LeaveChanges(w, w.thread);
    hide Fibers.FiberInv, Fibers.LeaveRecords;
  }

  /** A sleep in another thread than the fiber layer's, on that layer's stack. */
  ghost predicate SleepsAstray(y: System, c: Call) {
    && Inv(y.s) && PendingExact(y.s) && Fibers.FiberInv(y.w) && Allowed(y.s, c) && c.SleepCall?
    && y.s.running != 0 && y.w.thread != y.s.running && Fibers.ReturnsAtOnce(y.w, y.w.thread)
    && Exec(y.s, c).Switched? && Exec(y.s, c).to == y.w.thread
  }

  lemma StraySwitch(w0: Fibers.World, t: Ptr, env: Env)
    requires Fibers.FiberInv(w0) && Fibers.ReturnsAtOnce(w0, w0.thread)
    ensures var w, k := Fibers.Run(w0, [Fibers.SuspendOp(t)]), Fibers.Find(w0.records, w0.thread);
            var r := Land(w, t, w0.thread, env);
            && r.AtOnce?
            && var w' := Fibers.SetState(r.w, t, Fibers.Ready);
               w'.thread == w0.thread && w'.cpu == w0.cpu && k < |w'.records| && w'.records[k].saved == w0.cpu
  {
    RunOne(w0, Fibers.SuspendOp(t));
    StateKeepsAtOnce(w0, t, Fibers.Waiting, w0.thread);
    Fibers.SetStateKeeps(w0, t, Fibers.Waiting);
    var w := Fibers.SetState(w0, t, Fibers.Waiting);
    hide Fibers.FiberInv, Fibers.ReturnsAtOnce, Fibers.Run, Land, Fibers.SetState;
    LandsAtOnce(w, t, env);
    SavedStays(Land(w, t, w0.thread, env).w, t);
  }

  /** When SelectThread then picks the thread whose stack it is, switch_to returns at
      once, the tail of OSSleepThread runs, and two threads are RUNNING; what the fiber
      layer holds for the picked thread are the sleeper's registers. */
  lemma SleepAfterStray(y: System, c: Call, env: Env)
    requires SleepsAstray(y, c)
    ensures var r, t := Step(y, c, env), y.s.running;
            var k := Fibers.Find(y.w.records, y.w.thread);
            && r.Some?
            && At(r.value.s.state, t) == RUNNING && At(r.value.s.state, y.w.thread) == RUNNING && !Inv(r.value.s)
            && r.value.w.thread == y.w.thread && r.value.w.cpu == y.w.cpu
            && k < |r.value.w.records| && r.value.w.records[k].saved == y.w.cpu
  {
    hide Fibers.FiberInv, Fibers.ReturnsAtOnce, Inv, PendingExact, Allowed, Select, Park, Exec, Fibers.Run, CanPark,
         Land, Fibers.SetState, Parks, Unpark;
    SleepingParks(y.s, c);
    TakenBackTwice(y.s, c.a, c.save);
    StraySwitch(y.w, y.s.running, env);
    assert Before(y.s, c, env) == [Fibers.SuspendOp(y.s.running)];
  }

  lemma SavedStays(w: Fibers.World, u: Ptr)
    ensures var w' := Fibers.SetState(w, u, Fibers.Ready);
            && w'.thread == w.thread && w'.cpu == w.cpu && |w'.records| == |w.records|
            && forall j :: 0 <= j < |w.records| ==> w'.records[j].saved == w.records[j].saved
  {
  }

  lemma SleepingParks(s: Sched, c: Call)
    requires Inv(s) && Allowed(s, c) && c.SleepCall? && s.running != 0 && Exec(s, c).Switched?
    ensures Parks(s, c) && CanPark(s, c.a) && Adopt(s) == s
    ensures Exec(s, c) == Select(Park(s, c.a), false, c.save)
  {
    hide Inv, Select, Park;
    if !CanPark(s, c.a) { RunningCanPark(s, c.a); }
  }

  // ---------------------------------------------------------------- such a run from boot

  const LOW: Ptr := 0x80500000
  const HIGH: Ptr := 0x80580000
  const QUEUE: Ptr := 0x80600000

  function Words(): set<Ptr> {
    {LOW, HIGH, QUEUE, DEFAULT_THREAD}
  }

  /** A wait queue is set up and a thread created and resumed. */
  function LowQueued(): Sched {
    Queued(LowCreated(), LOW, 16)
  }

  function LowCreated(): Sched {
    Create(QueueSet(), LOW, 16)
  }

  function QueueSet(): Sched {
    Exec(Boot(Words()), InitQueue(QUEUE)).s
  }

  lemma Levels(p: nat)
    requires p < 32
    ensures RunSeq(LowCreated(), p) == []
    ensures RunSeq(LowQueued(), p) == if p == 16 then [LOW] else []
  {
    RunQLevel(p);
    assert p != 16 ==> RunQ(p) != RunQ(16);
  }

  lemma FirstCalls()
    ensures Allowed(Boot(Words()), InitQueue(QUEUE)) && Allowed(QueueSet(), CreateCall(LOW, 16))
    ensures Allowed(LowCreated(), ResumeCall(LOW, 0)) && Allowed(LowQueued(), SleepCall(QUEUE, 0))
    ensures CanPark(LowQueued(), QUEUE)
    ensures Exec(Boot(Words()), InitQueue(QUEUE)) == Returned(QueueSet())
    ensures Exec(QueueSet(), CreateCall(LOW, 16)) == Returned(LowCreated())
  {
    RunQLevel(16);
    assert !IsRunQ(QUEUE) && !IsRunQ(JoinQ(LOW));
  }

  lemma LowIsQueued()
    ensures Exec(LowCreated(), ResumeCall(LOW, 0)) == Returned(LowQueued())
  {
    Levels(16);
    hide EmptyRunQueues, RunSeq;
    FirstResume(LowCreated(), LOW, 16);
  }

  lemma LowQueuedIsSafe()
    ensures Inv(LowQueued()) && PendingExact(LowQueued())
  {
    FirstCalls();
    LowIsQueued();
    BootIsSafe(Words());
    hide Inv, PendingExact, Allowed, Exec, Queued, Create;
    ExecKeeps(Boot(Words()), InitQueue(QUEUE));
    ExecKeeps(QueueSet(), CreateCall(LOW, 16));
    ExecKeeps(LowCreated(), ResumeCall(LOW, 0));
  }

  /** LOW runs and nobody is ready. */
  ghost predicate LowRuns(s: Sched) {
    && Inv(s) && PendingExact(s) && s.running == s.current == LOW && At(s.state, LOW) == RUNNING
    && s.idle == 0 && s.mapped == Words() && At(s.priority, LOW) == 16
    && QUEUE in s.q && (forall p :: 0 <= p < 32 ==> RunSeq(s, p) == []) && Reusable(s, HIGH)
  }

  /** HIGH runs and only LOW is ready. */
  ghost predicate HighRuns(s: Sched) {
    && Inv(s) && PendingExact(s) && s.running == s.current == HIGH && At(s.state, HIGH) == RUNNING
    && s.idle == 0 && s.mapped == Words()
    && QUEUE in s.q && OnlyReady(s, LOW)
  }

  ghost predicate OnlyReady(s: Sched, t: Ptr) {
    Flat(s) != [] && AllAre(Flat(s), t)
  }

  predicate AllAre(xs: seq<Ptr>, t: Ptr) {
    forall i :: 0 <= i < |xs| ==> xs[i] == t
  }

  lemma QueueIsNoRunQueue()
    ensures !IsRunQ(QUEUE)
  {
  }

  /** With one thread ready that is the one picked. */
  lemma SelectPicks(s: Sched, t: Ptr)
    requires Inv(s) && PendingExact(s) && !Running(s) && Selects(s, false, 0) && OnlyReady(s, t)
    ensures var r := Select(s, false, 0); r.Switched? && r.to == t && AllAre(Flat(r.s), t)
    ensures At(Select(s, false, 0).s.queue, t) == 0
  {
    hide Inv, PendingExact, Flat, Select;
    SelectOutcome(s, false, 0);
    assert Ready(s) == s;
  }

  /** Parked, the caller leaves the ready threads as they are. */
  lemma ParkedReady(s: Sched, t: Ptr)
    requires Inv(s) && PendingExact(s) && CanPark(s, QUEUE) && s.running == s.current != 0
    requires s.idle == 0 && s.running in s.mapped && OnlyReady(s, t)
    ensures var s1 := Park(s, QUEUE);
            Inv(s1) && PendingExact(s1) && !Running(s1) && Selects(s1, false, 0) && OnlyReady(s1, t)
  {
    var s1 := Park(s, QUEUE);
    QueueIsNoRunQueue();
    hide Inv, PendingExact, Park, CanPark, RunSeq, IsRunQ;
    ParkKeeps(s, QUEUE);
    ParkFrame(s, QUEUE);
    FlatFrame(s, s1, 0);
  }

  /** A sleeper hands over to the only ready thread. */
  lemma SleepPicks(s: Sched, t: Ptr)
    requires Inv(s) && PendingExact(s) && CanPark(s, QUEUE) && Adopt(s).running == Adopt(s).current != 0
    requires s.idle == 0 && s.mapped == Words() && Adopt(s).running in Words() && OnlyReady(s, t)
    ensures var r := Sleep(s, QUEUE, 0);
            && r == Select(Park(Adopt(s), QUEUE), false, 0)
            && r.Switched? && r.to == t && AllAre(Flat(r.s), t) && At(r.s.queue, t) == 0
  {
    AdoptKeeps(s);
    AdoptCanPark(s, QUEUE);
    hide Inv, PendingExact, Park, CanPark, RunSeq, Select, Sleep;
    var s0 := Adopt(s);
    SameReady(s, s0, t);
    ParkedReady(s0, t);
    hide OnlyReady;
    SelectPicks(Park(s0, QUEUE), t);
    SleepHandsOver(s, QUEUE);
  }

  lemma SameReady(s: Sched, s': Sched, t: Ptr)
    requires OnlyReady(s, t) && s'.q == s.q
    ensures OnlyReady(s', t)
  {
    FlatFrame(s, s', 0);
  }

  lemma NoneLeft(s: Sched, t: Ptr)
    requires Inv(s) && PendingExact(s) && AllAre(Flat(s), t) && At(s.queue, t) == 0
    ensures Flat(s) == [] && forall p :: 0 <= p < 32 ==> RunSeq(s, p) == []
  {
    hide Inv, Flat, RunSeq;
    forall p | 0 <= p < 32 ensures RunSeq(s, p) == [] {
      if RunSeq(s, p) != [] {
        FlatContains(s, 0, p, RunSeq(s, p)[0]);
        InFlat(s, p, t);
        RunMemberAt(s, p, 0);
        RunQNonZero(p);
      }
    }
    FlatOfNone(s);
  }

  lemma InFlat(s: Sched, p: nat, t: Ptr)
    requires p < 32 && AllAre(Flat(s), t) && RunSeq(s, p) != [] && RunSeq(s, p)[0] in FlatFrom(s, 0)
    ensures RunSeq(s, p)[0] == t
  {
    hide RunSeq, FlatFrom;
  }

  lemma RunQNonZero(p: nat)
    ensures RunQ(p) != 0
  {
  }

  lemma FlatOfNone(s: Sched)
    requires forall p :: 0 <= p < 32 ==> RunSeq(s, p) == []
    ensures Flat(s) == []
  {
    FlatFromLevel(s, 0, 32);
  }

  /** The wait queues of the parked state: the default thread in one, nobody else. */
  lemma ParkedQueues(a: Ptr)
    ensures var q := Park(Adopt(LowQueued()), QUEUE).q;
            && QUEUE in q && JoinQ(HIGH) !in q
            && (a in q && !IsRunQ(a) ==> q[a] == if a == QUEUE then [DEFAULT_THREAD] else [])
  {
    LowQueues(a);
    LowQueues(QUEUE);
    LowQueues(JoinQ(HIGH));
    hide LowQueued, IsRunQ;
    var s := LowQueued();
    assert SortedInsert([], s.priority, At(s.priority, DEFAULT_THREAD), DEFAULT_THREAD) == [DEFAULT_THREAD];
  }

  lemma LowQueues(a: Ptr)
    ensures var s := LowQueued();
            && (a in s.q <==> IsRunQ(a) || a == QUEUE || a == JoinQ(LOW))
            && (a in s.q && !IsRunQ(a) ==> s.q[a] == [])
            && !IsRunQ(JoinQ(HIGH)) && s.running == 0
  {
    RunQLevel(16);
    hide EmptyRunQueues;
    BootQueues(a);
  }

  lemma BootQueues(a: Ptr)
    ensures a in EmptyRunQueues() <==> IsRunQ(a)
  {
  }

  lemma LowFree(s: Sched)
    requires Inv(s) && SameWaitQueues(Park(Adopt(LowQueued()), QUEUE), s)
    requires forall p :: 0 <= p < 32 ==> RunSeq(s, p) == []
    ensures QUEUE in s.q && Reusable(s, HIGH)
  {
    ParkedQueues(QUEUE);
    hide Park, LowQueued, Inv, RunSeq;
    forall a, i | a in s.q && 0 <= i < |s.q[a]| ensures s.q[a][i] == HIGH <==> a == JoinQ(HIGH) {
      ParkedQueues(a);
      if IsRunQ(a) {
        RunQLevel(LevelOf(a));
        RunQueueKnown(s, LevelOf(a));
      }
    }
  }

  lemma LowQueuedWords()
    ensures var s := LowQueued();
            && OnlyReady(s, LOW) && s.idle == 0 && s.mapped == Words() && s.running == 0 == s.current
            && At(s.priority, LOW) == 16
  {
    LowQueuedIsSafe();
    forall p | 0 <= p < 32 ensures RunSeq(LowQueued(), p) == if p == 16 then [LOW] else [] { Levels(p); }
    hide Inv, RunSeq, LowQueued, PendingExact, Flat;
    FlatOfOne(LowQueued(), LOW);
  }

  lemma LowStarts()
    ensures var r := Exec(LowQueued(), SleepCall(QUEUE, 0));
            && r.Switched? && r.to == LOW && LowRuns(r.s)
            && r == Select(Park(Adopt(LowQueued()), QUEUE), false, 0)
  {
    LowQueuedIsSafe();
    LowQueuedWords();
    FirstCalls();
    hide Inv, PendingExact, LowQueued, CanPark, Select, Park, Flat, RunSeq, OnlyReady, Reusable;
    var s0 := LowQueued();
    SleepPicks(s0, LOW);
    var s1, r := Park(Adopt(s0), QUEUE), Sleep(s0, QUEUE, 0);
    AdoptKeeps(s0);
    AdoptCanPark(s0, QUEUE);
    ParkKeeps(Adopt(s0), QUEUE);
    ParkIs(Adopt(s0), QUEUE);
    SelectKeeps(s1, false, 0);
    SelectFrame(s1, false, 0);
    SelectChose(s1, false, 0);
    SelectWaitQueues(s1, false, 0);
    NoneLeft(r.s, LOW);
    LowFree(r.s);
    ParkWords(Adopt(s0), QUEUE);
  }

  lemma ParkWords(s: Sched, a: Ptr)
    ensures var s' := Park(s, a); s'.priority == s.priority && s'.idle == s.idle && s'.mapped == s.mapped
  {
  }

  // ---------------------------------------------------------------- HIGH is loaded on LOW's stack

  lemma {:induction false} FlatAllFrom(s: Sched, p: nat, t: Ptr)
    requires p <= 32 && forall r :: p <= r < 32 ==> AllAre(RunSeq(s, r), t)
    ensures AllAre(FlatFrom(s, p), t)
    decreases 32 - p
  {
    if p < 32 {
      hide RunSeq;
      FlatUnfold(s, p);
      FlatAllFrom(s, p + 1, t);
    }
  }

  /** HIGH and LOW ready, HIGH first. */
  lemma TwoReady(s: Sched)
    requires forall p :: 0 <= p < 32 ==> RunSeq(s, p) == if p == 8 then [HIGH] else if p == 16 then [LOW] else []
    ensures |Flat(s)| > 1 && Flat(s)[0] == HIGH && AllAre(Flat(s)[1..], LOW)
  {
    hide RunSeq;
    FlatFromLevel(s, 0, 8);
    FlatUnfold(s, 8);
    FlatAllFrom(s, 9, LOW);
    assert RunSeq(s, 16) == [LOW];
    FlatContains(s, 9, 16, LOW);
  }

  function HighQueued(s: Sched): Sched {
    Queued(Create(s, HIGH, 8), HIGH, 8)
  }

  lemma HighQueuedWords(s: Sched)
    requires LowRuns(s)
    ensures var s1 := HighQueued(s);
            && (forall p :: 0 <= p < 32 ==> RunSeq(s1, p) == if p == 8 then [HIGH] else [])
            && Running(s1) && s1.running == s1.current == LOW && s1.idle == 0 && s1.mapped == Words()
            && At(s1.priority, LOW) == 16 && At(s1.state, HIGH) == READY && s1.pending[8] && s1.resched == 1
            && QUEUE in s1.q
  {
    forall p | 0 <= p < 32 ensures RunSeq(HighQueued(s), p) == if p == 8 then [HIGH] else [] {
      RunQLevel(p);
      RunQLevel(8);
      assert !IsRunQ(JoinQ(HIGH));
      assert RunSeq(s, p) == [];
    }
    hide Inv, RunSeq;
  }

  lemma HighCreated(s: Sched)
    requires s.mapped == Words()
    ensures var s1 := Create(s, HIGH, 8);
            && At(s1.suspend, HIGH) == 1 && At(s1.state, HIGH) == READY && HIGH in s1.mapped
            && At(s1.base, HIGH) == 8 && Held(s1, HIGH) == [] && RunSeq(s1, 8) == RunSeq(s, 8)
    ensures Reusable(s, HIGH) ==> Allowed(s, CreateCall(HIGH, 8))
    ensures Exec(s, CreateCall(HIGH, 8)) == Returned(Create(s, HIGH, 8))
  {
    RunQLevel(8);
    assert !IsRunQ(JoinQ(HIGH));
    hide Reusable;
  }

  /** A resume that makes t ready goes on to SelectThread. */
  lemma ResumeSelects(s: Sched, t: Ptr, s': Sched)
    requires t != 0 && t in s.mapped && At(s.suspend, t) == 1 && s'.resched != 0
    requires Unsuspend(s.(suspend := s.suspend[t := 0]), t) == Returned(s')
    ensures Resume(s, t, 0) == Select(s', false, 0)
  {
    hide Unsuspend, Select;
  }

  lemma UnsuspendedIsSafe(s: Sched, t: Ptr, s': Sched)
    requires Inv(s) && PendingExact(s) && t != 0 && At(s.suspend, t) == 1 && At(s.state, t) == READY
    requires Unsuspend(s.(suspend := s.suspend[t := 0]), t) == Returned(s')
    ensures Inv(s') && PendingExact(s')
  {
    hide Inv, PendingExact, Unsuspend, Unlinked;
    ResuspendKeeps(s, t, 0);
    SuspendedReadyUnlinked(s, t);
    UnlinkedSame(s, s.(suspend := s.suspend[t := 0]), t);
    UnsuspendKeeps(s.(suspend := s.suspend[t := 0]), t);
  }

  lemma HighQueuedKeeps(s: Sched)
    requires LowRuns(s)
    ensures Inv(HighQueued(s)) && PendingExact(HighQueued(s)) && Allowed(s, CreateCall(HIGH, 8))
    ensures Exec(Create(s, HIGH, 8), ResumeCall(HIGH, 0)) == Select(HighQueued(s), false, 0)
  {
    HighCreated(s);
    HighQueuedWords(s);
    hide Inv, PendingExact, Select, Unsuspend, Queued, Create, Allowed, RunSeq, Reusable;
    var s1 := Create(s, HIGH, 8);
    ExecKeeps(s, CreateCall(HIGH, 8));
    UnsuspendNew(s1, HIGH, 8);
    UnsuspendedIsSafe(s1, HIGH, HighQueued(s));
    ResumeSelects(s1, HIGH, HighQueued(s));
  }

  lemma RequeueState(s: Sched, t: Ptr)
    requires ValidPriority(At(s.priority, s.running)) && t != s.running
    ensures At(Requeue(s).state, t) == At(s.state, t)
  {
  }

  /** With LOW running and HIGH ready, SelectThread puts LOW back and picks HIGH. */
  lemma HighPicked(s: Sched)
    requires Inv(s) && PendingExact(s) && Running(s) && s.running == s.current == LOW && s.idle == 0
    requires s.mapped == Words() && At(s.priority, LOW) == 16 && At(s.state, HIGH) == READY && s.pending[8]
    requires forall p :: 0 <= p < 32 ==> RunSeq(s, p) == if p == 8 then [HIGH] else []
    ensures var r := Select(s, false, 0); r.Switched? && r.to == HIGH && OnlyReady(r.s, LOW)
  {
    hide Inv, PendingExact, Flat, RunSeq, Requeue, Select;
    var s2 := Requeue(s);
    forall p | 0 <= p < 32
      ensures RunSeq(s2, p) == if p == 8 then [HIGH] else if p == 16 then [LOW] else []
    {
      RequeueSeq(s, p);
    }
    TwoReady(s2);
    RequeueState(s, HIGH);
    assert Ready(s) == s2 && Selects(s, false, 0);
    assert DeadPrefix(s2.state, Flat(s2)) == 0;
    SelectOutcome(s, false, 0);
  }

  lemma HighTakesOver(s: Sched)
    requires LowRuns(s)
    ensures var r := Exec(Create(s, HIGH, 8), ResumeCall(HIGH, 0));
            Allowed(s, CreateCall(HIGH, 8)) && r.Switched? && r.to == HIGH && HighRuns(r.s)
  {
    HighQueuedWords(s);
    HighQueuedKeeps(s);
    QueueIsNoRunQueue();
    hide Inv, PendingExact, Select, RunSeq, HighQueued, LowRuns, IsRunQ, OnlyReady, Allowed;
    var s1 := HighQueued(s);
    HighPicked(s1);
    SelectKeeps(s1, false, 0);
    SelectFrame(s1, false, 0);
    SelectChose(s1, false, 0);
    SelectWaitQueues(s1, false, 0);
  }

  /** HIGH goes to sleep, and LOW is picked. */
  lemma HighSleeps(s: Sched)
    requires HighRuns(s)
    ensures var r := Exec(s, SleepCall(QUEUE, 0));
            Allowed(s, SleepCall(QUEUE, 0)) && r.Switched? && r.to == LOW
  {
    QueueIsNoRunQueue();
    RunningCanPark(s, QUEUE);
    hide Inv, PendingExact, CanPark, OnlyReady, Sleep;
    SleepPicks(s, LOW);
  }

  // ---------------------------------------------------------------- the fibers of that run

  /** LOW's fiber exists but was never entered. */
  function LowFresh(cpu: CpuContext): Fibers.World {
    Fibers.SetState(Fibers.Step(Fibers.Boot(cpu), LowFiberOp()), LOW, Fibers.Ready)
  }

  function LowFiberOp(): Fibers.Op {
    Fibers.CreateOp(LOW, 0x80004000, 0, 0x80700000, 0, true)
  }

  lemma LowFreshIs(cpu: CpuContext)
    ensures var w := LowFresh(cpu);
            && w.scheduler == w.current == 1 && w.thread == 0 && w.cpu == cpu && w.next == 3
            && w.stacks == map[2 := Fibers.Fresh(LOW)] && |w.records| == Fibers.MAX_FIBERS
            && w.records[0].thread == LOW && w.records[0].host == 2 && Fibers.Live(w.records[0])
            && forall k :: 0 < k < |w.records| ==> w.records[k] == Fibers.Blank()
    ensures Fibers.SetState(LowFresh(cpu), DEFAULT_THREAD, Fibers.Waiting) == LowFresh(cpu)
  {
    var w0 := Fibers.Boot(cpu);
    Fibers.FindsNone(w0.records, LOW);
    var w1 := Fibers.Step(w0, LowFiberOp());
    assert w1.records == w0.records[0 := Fibers.Created(LOW, 2, 0x80004000, 0, 0x80700000, 0)];
    Fibers.FindsFirst(w1.records, LOW, 0);
    Fibers.FindsNone(LowFresh(cpu).records, DEFAULT_THREAD);
  }

  /** LOW runs on its own stack; HIGH has no fiber, and there is room for one. */
  ghost predicate OnLowsStack(w: Fibers.World) {
    && Fibers.FiberInv(w) && w.thread == LOW && Fibers.ReturnsAtOnce(w, LOW)
    && Fibers.Find(w.records, HIGH) == |w.records|
    && Fibers.FirstEmpty(w.records) < |w.records|
    && w.records[Fibers.FirstEmpty(w.records)] == Fibers.Blank()
  }

  lemma LowRegisters(cpu: CpuContext)
    ensures var w := LowFresh(cpu);
            && Registers(w, DEFAULT_THREAD) && Fibers.Switchable(w, LOW)
            && Fibers.Register(w, DEFAULT_THREAD)
               == (w.(records := w.records[1 := Fibers.Record(DEFAULT_THREAD, 1, 0, 0, cpu, Fibers.Running, true)],
                      thread := DEFAULT_THREAD), true)
  {
    var w := LowFresh(cpu);
    LowFreshIs(cpu);
    hide LowFresh;
    Fibers.FindsNone(w.records, DEFAULT_THREAD);
    Fibers.FindsFirst(w.records, LOW, 0);
    Fibers.EmptyFirst(w.records, 1);
  }

  lemma FreshHosted(cpu: CpuContext)
    ensures Hosted(LowFresh(cpu))
  {
    FiberRuns.BootOwns(cpu);
    assert Hosted(Fibers.Boot(cpu));
    hide Hosted;
    OpQuiet(Fibers.Boot(cpu), LowFiberOp());
    OpQuiet(Fibers.Step(Fibers.Boot(cpu), LowFiberOp()), Fibers.ResumeOp(LOW));
  }

  /** The registered world, and what switching to LOW makes of its records. */
  lemma LowSwitched(w: Fibers.World, seed: Fibers.Seed)
    requires Fibers.FiberInv(w) && w.current == w.scheduler == 1 && w.stacks == map[2 := Fibers.Fresh(LOW)]
    requires w.records[0].thread == LOW && w.records[0].host == 2 && Fibers.Live(w.records[0])
    requires w.records[1].thread == DEFAULT_THREAD && Fibers.Live(w.records[1])
    requires forall k :: 1 < k < |w.records| ==> w.records[k] == Fibers.Blank()
    ensures var r := Fibers.SwitchTo(w, LOW, true, seed);
            && r.Went? && !Fibers.ReturnsAtOnce(w, LOW) && OnLowsStack(r.world) && r.world.current == 2
  {
    Fibers.FindsFirst(w.records, LOW, 0);
    Fibers.SwitchKeeps(w, LOW, true, seed);
    Fibers.LeaveChanges(w, LOW);
    var rs, w' := Fibers.LeaveRecords(w, LOW), Fibers.SwitchTo(w, LOW, true, seed).world;
    assert rs[0].thread == LOW && rs[0].host == 2 && Fibers.Live(rs[0]);
    assert rs[1].thread == DEFAULT_THREAD && Fibers.Live(rs[1]);
    assert forall k :: 1 < k < |rs| ==> rs[k] == Fibers.Blank() by { BlankStay(w, rs); }
    Fibers.FindsFirst(rs, LOW, 0);
    assert w'.records == rs && w'.current == 2 && w'.thread == LOW;
    hide Fibers.FiberInv, Fibers.SwitchTo, Fibers.LeaveRecords;
    Fibers.FindsNone(rs, HIGH);
    Fibers.EmptyFirst(rs, 2);
  }

  lemma BlankStay(w: Fibers.World, rs: seq<Fibers.Record>)
    requires Fibers.Switchable(w, LOW) && rs == Fibers.LeaveRecords(w, LOW)
    requires forall k :: 1 < k < |w.records| ==> w.records[k] == Fibers.Blank()
    ensures forall k :: 1 < k < |rs| ==> rs[k] == Fibers.Blank()
  {
    assert forall k :: 1 < k < |w.records| ==> !Fibers.Live(w.records[k]);
  }

  lemma LowEntered(cpu: CpuContext, env: Env)
    ensures var r := Land(LowFresh(cpu), DEFAULT_THREAD, LOW, env); r.Away? && OnLowsStack(r.w) && r.w.current == 2
  {
    var w := LowFresh(cpu);
    LowFreshIs(cpu);
    LowRegisters(cpu);
    FreshHosted(cpu);
    hide LowFresh, Fibers.FiberInv, FiberRuns.OwnStacks, OnLowsStack, Fibers.SwitchTo;
    RegisterFirst(w, DEFAULT_THREAD);
    LowSwitched(Fibers.Register(w, DEFAULT_THREAD).0, env.seed);
  }

  /** HIGH's fiber cannot be had, and nothing changes; then it is loaded on LOW's stack. */
  lemma HighHasNone(w: Fibers.World, op: Fibers.Op, c: CpuContext)
    requires OnLowsStack(w)
    requires op == Fibers.CreateOp(HIGH, 0x80004000, 0, 0x80700000, 0, false) || op == Fibers.ResumeOp(HIGH)
    ensures Fibers.Run(w, [op]) == w
    ensures !HasFiber(w, HIGH) && OnLowsStack(w.(cpu := c))
  {
    RunOne(w, op);
    assert w.records[Fibers.FirstEmpty(w.records) := Fibers.Blank()] == w.records;
    Fibers.RecontextKeeps(w, c);
    hide Fibers.FiberInv;
  }

  // ---------------------------------------------------------------- the whole run

  function EnvOf(gotStack: bool, c: CpuContext): Env {
    Env(0x80004000, 0, 0x80700000, 0, gotStack, Some(c), Fibers.Seed(0, 0, 0, 0))
  }

  /** Up to LOW running on its own stack, with HIGH created without one. */
  function Prelude(c: CpuContext): seq<Event> {
    [Os(InitQueue(QUEUE), EnvOf(true, c)), Os(CreateCall(LOW, 16), EnvOf(true, c)),
     Os(ResumeCall(LOW, 0), EnvOf(true, c)), Os(SleepCall(QUEUE, 0), EnvOf(true, c)),
     Os(CreateCall(HIGH, 8), EnvOf(false, c))]
  }

  lemma OneMore(y: System, e: Event, es: seq<Event>)
    requires AllowedEvent(y, e) && Next(y, e).Some? && Straight(Next(y, e).value, es)
    ensures Straight(y, [e] + es) && RunAll(y, [e] + es) == RunAll(Next(y, e).value, es)
  {
    assert ([e] + es)[1..] == es;
  }

  /** A call that does not reach a hand-over. */
  lemma Goes(y: System, c: Call, env: Env, s: Sched, w: Fibers.World)
    requires Allowed(y.s, c) && Exec(y.s, c) == Returned(s) && !c.SleepCall?
    requires Fibers.Run(y.w, Before(y.s, c, env)) == w
    ensures AllowedEvent(y, Os(c, env)) && Next(y, Os(c, env)) == Some(y.(s := s, w := w))
  {
    hide Exec, Allowed, Fibers.Run, Before;
  }

  /** A sleep that hands over to a fiber not yet entered. */
  lemma SleepGoes(y: System, a: Ptr, env: Env, s: Sched, next: Ptr, w: Fibers.World)
    requires Allowed(y.s, SleepCall(a, 0)) && Exec(y.s, SleepCall(a, 0)) == Switched(s, next) && y.w.thread == 0
    requires Fibers.Run(y.w, Before(y.s, SleepCall(a, 0), env)) == y.w
    requires Land(y.w, Adopt(y.s).running, next, env) == Away(w)
    requires w.current in y.w.stacks ==> y.w.stacks[w.current].Fresh?
    ensures var e := Os(SleepCall(a, 0), env);
            && AllowedEvent(y, e) && Next(y, e).Some?
            && Next(y, e).value.s == s && Next(y, e).value.w == w
  {
    hide Exec, Allowed, Fibers.Run, Before, Land;
  }

  lemma FirstCall(cpu: CpuContext, env: Env)
    ensures var y, e := BootSystem(Words(), cpu), Os(InitQueue(QUEUE), env);
            AllowedEvent(y, e) && Next(y, e) == Some(System(QueueSet(), Fibers.Boot(cpu), map[]))
  {
    FirstCalls();
    assert Fibers.Run(Fibers.Boot(cpu), []) == Fibers.Boot(cpu);
    hide Exec, Allowed, Boot, QueueSet, LowCreated, LowQueued, Fibers.Run, Fibers.Boot;
    Goes(BootSystem(Words(), cpu), InitQueue(QUEUE), env, QueueSet(), Fibers.Boot(cpu));
  }

  lemma SecondCall(w: Fibers.World, c: CpuContext)
    ensures var y, e := System(QueueSet(), w, map[]), Os(CreateCall(LOW, 16), EnvOf(true, c));
            AllowedEvent(y, e) && Next(y, e) == Some(System(LowCreated(), Fibers.Step(w, LowFiberOp()), map[]))
  {
    FirstCalls();
    assert Before(QueueSet(), CreateCall(LOW, 16), EnvOf(true, c)) == [LowFiberOp()];
    RunOne(w, LowFiberOp());
    hide Exec, Allowed, QueueSet, LowCreated, LowQueued, Fibers.Run, Fibers.Step, Before;
    Goes(System(QueueSet(), w, map[]), CreateCall(LOW, 16), EnvOf(true, c), LowCreated(), Fibers.Step(w, LowFiberOp()));
  }

  lemma LowCreatedWords()
    ensures var s := LowCreated(); LOW in s.mapped && At(s.suspend, LOW) == 1 && At(s.state, LOW) == READY
  {
  }

  lemma ThirdCall(w: Fibers.World, c: CpuContext)
    ensures var y, e := System(LowCreated(), w, map[]), Os(ResumeCall(LOW, 0), EnvOf(true, c));
            && AllowedEvent(y, e)
            && Next(y, e) == Some(System(LowQueued(), Fibers.SetState(w, LOW, Fibers.Ready), map[]))
  {
    LowCreatedWords();
    hide Exec, Allowed, LowCreated, LowQueued, Fibers.Run, Fibers.SetState;
    FirstCalls();
    LowIsQueued();
    RunOne(w, Fibers.ResumeOp(LOW));
    assert Before(LowCreated(), ResumeCall(LOW, 0), EnvOf(true, c)) == [Fibers.ResumeOp(LOW)];
    hide Before;
    Goes(System(LowCreated(), w, map[]), ResumeCall(LOW, 0), EnvOf(true, c), LowQueued(),
         Fibers.SetState(w, LOW, Fibers.Ready));
  }

  /** LOW runs on its own stack. */
  ghost predicate LowIn(y: System) {
    LowRuns(y.s) && OnLowsStack(y.w)
  }

  lemma SuspendsNobody(cpu: CpuContext, env: Env)
    ensures Fibers.Run(LowFresh(cpu), Before(LowQueued(), SleepCall(QUEUE, 0), env)) == LowFresh(cpu)
    ensures Adopt(LowQueued()).running == DEFAULT_THREAD
  {
    LowFreshIs(cpu);
    LowQueuedWords();
    hide LowFresh, LowQueued, Fibers.SetState;
    assert Before(LowQueued(), SleepCall(QUEUE, 0), env) == [Fibers.SuspendOp(DEFAULT_THREAD)];
    RunOne(LowFresh(cpu), Fibers.SuspendOp(DEFAULT_THREAD));
  }

  lemma LowGoesIn(cpu: CpuContext, c: CpuContext)
    ensures var y, e := System(LowQueued(), LowFresh(cpu), map[]), Os(SleepCall(QUEUE, 0), EnvOf(true, c));
            AllowedEvent(y, e) && Next(y, e).Some? && LowIn(Next(y, e).value)
  {
    hide LowRuns, OnLowsStack, Exec, Allowed, LowQueued, LowFresh, Land, Fibers.Run, Select, Park, CanPark, Before;
    FirstCalls();
    LowStarts();
    LowFreshIs(cpu);
    LowEntered(cpu, EnvOf(true, c));
    SuspendsNobody(cpu, EnvOf(true, c));
    var r, l := Exec(LowQueued(), SleepCall(QUEUE, 0)), Land(LowFresh(cpu), DEFAULT_THREAD, LOW, EnvOf(true, c));
    SleepGoes(System(LowQueued(), LowFresh(cpu), map[]), QUEUE, EnvOf(true, c), r.s, LOW, l.w);
  }

  lemma HighIsCreated(y: System, c: CpuContext)
    requires LowIn(y)
    ensures var e := Os(CreateCall(HIGH, 8), EnvOf(false, c));
            AllowedEvent(y, e) && Next(y, e) == Some(y.(s := Create(y.s, HIGH, 8)))
  {
    var op := Fibers.CreateOp(HIGH, 0x80004000, 0, 0x80700000, 0, false);
    assert Before(y.s, CreateCall(HIGH, 8), EnvOf(false, c)) == [op];
    HighHasNone(y.w, op, c);
    HighCreated(y.s);
    hide LowRuns, OnLowsStack, Exec, Allowed, Create, Fibers.Run;
    Goes(y, CreateCall(HIGH, 8), EnvOf(false, c), Create(y.s, HIGH, 8), y.w);
  }

  lemma HighIsLoaded(y: System, c: CpuContext)
    requires LowIn(y)
    ensures var y1 := y.(s := Create(y.s, HIGH, 8));
            var r := Step(y1, ResumeCall(HIGH, 0), EnvOf(true, c));
            && Strays(y1, ResumeCall(HIGH, 0))
            && r.Some? && r.value == System(r.value.s, y.w.(cpu := c), y.frames) && HighRuns(r.value.s)
  {
    var y1 := y.(s := Create(y.s, HIGH, 8));
    HighTakesOver(y.s);
    HighCreated(y.s);
    HighHasNone(y.w, Fibers.ResumeOp(HIGH), c);
    assert Before(y1.s, ResumeCall(HIGH, 0), EnvOf(true, c)) == [Fibers.ResumeOp(HIGH)];
    assert y.w.thread == LOW;
    hide LowRuns, OnLowsStack, Exec, Allowed, Create, Fibers.Run, HighRuns, HasFiber;
  }

  /** What a straight run cannot do, a run from boot with one stray does: LOW is switched to
      its fiber, HIGH's fiber cannot be had, HIGH is loaded on LOW's stack and goes to
      sleep. Then both are RUNNING, and LOW's fiber has HIGH's registers. */
  lemma StrayFromBoot(cpu: CpuContext, c: CpuContext)
    ensures var y0 := BootSystem(Words(), cpu);
            && Straight(y0, Prelude(c)) && RunAll(y0, Prelude(c)).Some?
            && var y := RunAll(y0, Prelude(c)).value;
               var r1 := Step(y, ResumeCall(HIGH, 0), EnvOf(true, c));
               && Strays(y, ResumeCall(HIGH, 0)) && r1.Some?
               && Allowed(r1.value.s, SleepCall(QUEUE, 0))
               && var r2 := Step(r1.value, SleepCall(QUEUE, 0), EnvOf(true, c));
                  && r2.Some?
                  && At(r2.value.s.state, LOW) == RUNNING && At(r2.value.s.state, HIGH) == RUNNING
                  && r2.value.w.thread == LOW && r2.value.w.cpu == c
  {
    hide LowIn, Next, AllowedEvent, Step, Allowed, Straight, RunAll, BootSystem, Strays, HighRuns, OnLowsStack, Prelude;
    PreludeRuns(cpu, c);
    var y5 := RunAll(BootSystem(Words(), cpu), Prelude(c)).value;
    AfterPrelude(y5, c);
  }

  /** HIGH was created without a fiber while LOW runs on its own stack. */
  ghost predicate BeforeStray(y: System) {
    exists s :: LowIn(y.(s := s)) && y.s == Create(s, HIGH, 8)
  }

  lemma AfterPrelude(y: System, c: CpuContext)
    requires BeforeStray(y)
    ensures var r1 := Step(y, ResumeCall(HIGH, 0), EnvOf(true, c));
            && Strays(y, ResumeCall(HIGH, 0)) && r1.Some?
            && Allowed(r1.value.s, SleepCall(QUEUE, 0))
            && var r2 := Step(r1.value, SleepCall(QUEUE, 0), EnvOf(true, c));
               && r2.Some?
               && At(r2.value.s.state, LOW) == RUNNING && At(r2.value.s.state, HIGH) == RUNNING
               && r2.value.w.thread == LOW && r2.value.w.cpu == c
  {
    hide Step, Allowed, HighRuns, Strays, Create;
    var s :| LowIn(y.(s := s)) && y.s == Create(s, HIGH, 8);
    HighIsLoaded(y.(s := s), c);
    var y1 := Step(y, ResumeCall(HIGH, 0), EnvOf(true, c)).value;
    HighAstray(y1, y.w, c);
    SleepAfterStray(y1, SleepCall(QUEUE, 0), EnvOf(true, c));
  }

  lemma PreludeRuns(cpu: CpuContext, c: CpuContext)
    ensures var y0 := BootSystem(Words(), cpu);
            && Straight(y0, Prelude(c)) && RunAll(y0, Prelude(c)).Some?
            && BeforeStray(RunAll(y0, Prelude(c)).value)
  {
    var e := Prelude(c);
    var w1 := Fibers.Step(Fibers.Boot(cpu), LowFiberOp());
    var y0, y1 := BootSystem(Words(), cpu), System(QueueSet(), Fibers.Boot(cpu), map[]);
    var y2, y3 := System(LowCreated(), w1, map[]), System(LowQueued(), LowFresh(cpu), map[]);
    hide LowIn, Next, AllowedEvent, Straight, RunAll, BootSystem, LowQueued, LowCreated, QueueSet, Create, Boot,
         Fibers.Step, Fibers.Boot, Fibers.SetState;
    FirstCall(cpu, EnvOf(true, c));
    SecondCall(Fibers.Boot(cpu), c);
    ThirdCall(w1, c);
    LowGoesIn(cpu, c);
    var y4 := Next(y3, e[3]).value;
    HighIsCreated(y4, c);
    var y5 := y4.(s := Create(y4.s, HIGH, 8));
    assert BeforeStray(y5) by { assert LowIn(y5.(s := y4.s)) by { assert y5.(s := y4.s) == y4; } }
    EndOfRun(y5);
    assert e == [e[0]] + [e[1], e[2], e[3], e[4]] && [e[4]] + [] == [e[4]] && [e[3]] + [e[4]] == [e[3], e[4]];
    assert [e[2]] + [e[3], e[4]] == [e[2], e[3], e[4]] && [e[1]] + [e[2], e[3], e[4]] == [e[1], e[2], e[3], e[4]];
    OneMore(y4, e[4], []);
    OneMore(y3, e[3], [e[4]]);
    OneMore(y2, e[2], [e[3], e[4]]);
    OneMore(y1, e[1], [e[2], e[3], e[4]]);
    OneMore(y0, e[0], [e[1], e[2], e[3], e[4]]);
  }

  lemma EndOfRun(y: System)
    ensures Straight(y, []) && RunAll(y, []) == Some(y)
  {
  }

  lemma HighAstray(y: System, w: Fibers.World, c: CpuContext)
    requires OnLowsStack(w) && HighRuns(y.s) && y.w == w.(cpu := c)
    ensures SleepsAstray(y, SleepCall(QUEUE, 0)) && y.w.thread == LOW && y.s.running == HIGH
  {
    HighHasNone(w, Fibers.ResumeOp(HIGH), c);
    HighSleeps(y.s);
    hide Inv, PendingExact, Fibers.FiberInv, Exec, Allowed;
  }
}

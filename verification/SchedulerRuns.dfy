/** Safety over whole runs of the scheduler bridges, from boot on. */
module SchedulerRuns {
  import opened Guest
  import opened Scheduler
  import opened Relinking
  import opened SelectLoop
  import opened SelectThread
  import opened SchedulerSteps

  /** Bridge calls, and what other code does to this state: setting up an empty wait
      queue, marking a thread dead, OSSetCurrentContext, switching the scheduler off and
      on, and what the mutex bridges write, whatever that is. */
  datatype Call =
    | SelectCall(force: bool, save: int)
    | ResumeCall(t: Ptr, save: int)
    | SleepCall(a: Ptr, save: int)
    | CreateCall(t: Ptr, pr: int)
    | InitQueue(a: Ptr)
    | MarkDead(t: Ptr, st: int)
    | SetCurrent(context: Ptr)
    | SetIdle(n: nat)
    | SetMutexes(held: map<Ptr, seq<Ptr>>, waitMutex: map<Ptr, Ptr>)

  function Exec(s: Sched, c: Call): Outcome {
    match c
    case SelectCall(force, save) => Select(s, force, save)
    case ResumeCall(t, save) => Resume(s, t, save)
    case SleepCall(a, save) => Sleep(s, a, save)
    case CreateCall(t, pr) => Returned(Create(s, t, pr))
    case InitQueue(a) => Returned(s.(q := s.q[a := []]))
    case MarkDead(t, st) => Returned(s.(state := s.state[t := st]))
    case SetCurrent(context) => Returned(s.(current := context))
    case SetIdle(n) => Returned(s.(idle := n))
    case SetMutexes(held, waitMutex) => Returned(s.(held := held, waitMutex := waitMutex))
  }

  /** What the scheduler leaves to its callers. */
  ghost predicate Allowed(s: Sched, c: Call) {
    match c
    case SelectCall(_, _) => true
    case ResumeCall(_, _) => true
    case SleepCall(a, _) => a == 0 || (a in s.q && !IsRunQ(a) && (Running(s) || CanPark(s, a)))
    case CreateCall(t, pr) =>
      ValidPriority(pr) && t != 0 && t in s.mapped ==>
        !IsRunQ(JoinQ(t)) && JoinQ(t) != 0 && Reusable(s, t)
    case InitQueue(a) => a != 0 && a !in s.q
    case MarkDead(t, st) => Dead(st) && At(s.state, t) != WAITING
    case _ => true
  }

  /** The outcome of the whole run; calls after a switch are the new thread's. */
  function Run(s: Sched, cs: seq<Call>): Outcome
    decreases |cs|
  {
    if cs == [] then Returned(s)
    else
      var r := Exec(s, cs[0]);
      if r.Stopped? then r else Run(r.s, cs[1..])
  }

  ghost predicate AllowedRun(s: Sched, cs: seq<Call>)
    decreases |cs|
  {
    cs != [] ==>
      Allowed(s, cs[0]) && (Exec(s, cs[0]).Stopped? || AllowedRun(Exec(s, cs[0]).s, cs[1..]))
  }

  lemma InitQueueKeeps(s: Sched, a: Ptr)
    requires Inv(s) && a != 0 && a !in s.q
    ensures var s' := s.(q := s.q[a := []]); Inv(s') && (PendingExact(s) ==> PendingExact(s'))
  {
    var s' := s.(q := s.q[a := []]);
    forall p | 0 <= p < 32 ensures RunQ(p) in s'.q && RunSeq(s', p) == RunSeq(s, p) {
      RunQueueKnown(s, p);
    }
    forall p, i | 0 <= p < 32 && 0 <= i < |RunSeq(s', p)| ensures RunMember(s', p, RunSeq(s', p)[i]) {
      RunMemberAt(s, p, i);
    }
    forall x: Ptr | At(s'.state, x) == WAITING && At(s'.queue, x) != 0
      ensures At(s'.queue, x) in s'.q && x in s'.q[At(s'.queue, x)]
    {
      assert At(s.queue, x) in s.q && x in s.q[At(s.queue, x)];
    }
  }

  lemma MarkDeadKeeps(s: Sched, t: Ptr, st: int)
    requires Inv(s) && Dead(st) && At(s.state, t) != WAITING
    ensures var s' := s.(state := s.state[t := st]); Inv(s') && (PendingExact(s) ==> PendingExact(s'))
  {
    var s' := s.(state := s.state[t := st]);
    forall p, i | 0 <= p < 32 && 0 <= i < |RunSeq(s', p)| ensures RunMember(s', p, RunSeq(s', p)[i]) {
      RunMemberAt(s, p, i);
    }
    forall p | 0 <= p < 32 ensures RunSeq(s', p) == RunSeq(s, p) {
    }
    forall x: Ptr | At(s'.state, x) == RUNNING
      ensures x == s'.running && x != 0 && At(s'.suspend, x) == 0 && At(s'.queue, x) == 0
    {
      assert At(s.state, x) == RUNNING;
    }
    forall x: Ptr | At(s'.state, x) == WAITING && At(s'.queue, x) != 0
      ensures At(s'.queue, x) in s'.q && x in s'.q[At(s'.queue, x)]
    {
      assert At(s.state, x) == WAITING;
    }
  }

  /** The invariant does not look at these words. */
  lemma FreeWordsKeep(s: Sched, current: Ptr, idle: nat, held: map<Ptr, seq<Ptr>>, waitMutex: map<Ptr, Ptr>)
    requires Inv(s)
    ensures var s' := s.(current := current, idle := idle, held := held, waitMutex := waitMutex);
            Inv(s') && (PendingExact(s) ==> PendingExact(s'))
  {
    var s' := s.(current := current, idle := idle, held := held, waitMutex := waitMutex);
    forall p | 0 <= p < 32 ensures RunSeq(s', p) == RunSeq(s, p) {
    }
    forall p, i | 0 <= p < 32 && 0 <= i < |RunSeq(s', p)| ensures RunMember(s', p, RunSeq(s', p)[i]) {
      RunMemberAt(s, p, i);
    }
  }

  lemma ExecKeeps(s: Sched, c: Call)
    requires Inv(s) && PendingExact(s) && Allowed(s, c)
    ensures var r := Exec(s, c); r.Stopped? || (Inv(r.s) && PendingExact(r.s))
  {
    hide Inv, PendingExact, CanPark, Reusable, Select, Resume, Sleep;
    match c
    case SelectCall(force, save) => SelectKeeps(s, force, save);
    case ResumeCall(t, save) => ResumeKeeps(s, t, save);
    case SleepCall(a, save) =>
      if a != 0 && !CanPark(s, a) { RunningCanPark(s, a); }
      SleepKeeps(s, a, save);
    case CreateCall(t, pr) =>
      if ValidPriority(pr) && t != 0 && t in s.mapped { CreateKeeps(s, t, pr); }
    case InitQueue(a) => InitQueueKeeps(s, a);
    case MarkDead(t, st) => MarkDeadKeeps(s, t, st);
    case SetCurrent(context) => FreeWordsKeep(s, context, s.idle, s.held, s.waitMutex);
    case SetIdle(n) => FreeWordsKeep(s, s.current, n, s.held, s.waitMutex);
    case SetMutexes(held, waitMutex) => FreeWordsKeep(s, s.current, s.idle, held, waitMutex);
  }

  /** Every run that does not stop at a boundary keeps the scheduler invariant and
      the exact agreement of mask bits and run queues. */
  lemma {:induction false} RunKeepsInvariant(s: Sched, cs: seq<Call>)
    requires Inv(s) && PendingExact(s) && AllowedRun(s, cs)
    ensures var r := Run(s, cs); r.Stopped? || (Inv(r.s) && PendingExact(r.s))
    decreases |cs|
  {
    hide Inv, PendingExact, Exec, Allowed;
    if cs != [] {
      ExecKeeps(s, cs[0]);
      var r := Exec(s, cs[0]);
      if !r.Stopped? { RunKeepsInvariant(r.s, cs[1..]); }
    }
  }

  // ---------------------------------------------------------------- boot

  function EmptyRunQueues(): map<Ptr, seq<Ptr>> {
    map a: Ptr | RUN_QUEUES <= a < RUN_QUEUES + RUN_QUEUE_BYTES && IsRunQ(a) :: []
  }

  /** Zero-filled thread words, no thread anywhere. */
  function Boot(mapped: set<Ptr>): Sched {
    Sched(EmptyRunQueues(), map[], map[], map[], map[], map[], map[], map[], [], mapped,
          seq(32, _ => false), 0, 0, 0, 0)
  }

  lemma BootIsSafe(mapped: set<Ptr>)
    ensures Inv(Boot(mapped)) && PendingExact(Boot(mapped))
  {
    var s := Boot(mapped);
    forall p | 0 <= p < 32 ensures RunQ(p) in s.q && RunSeq(s, p) == [] {
      RunQLevel(p);
    }
  }

  /** At most one thread is RUNNING; it is the running context, it is in no queue, every
      queued thread is in one queue, and the mask is exact. */
  ghost predicate Safe(s: Sched) {
    && (forall t: Ptr :: At(s.state, t) == RUNNING ==> t == s.running && Unlinked(s, t))
    && (forall a, b, t: Ptr | a in s.q && b in s.q && t in s.q[a] && t in s.q[b] :: a == b)
    && (forall p :: 0 <= p < 32 ==> (s.pending[p] <==> RunSeq(s, p) != []))
  }

  lemma InvIsSafe(s: Sched)
    requires Inv(s) && PendingExact(s)
    ensures Safe(s)
  {
    forall t: Ptr | At(s.state, t) == RUNNING ensures t == s.running && Unlinked(s, t) {
      UnqueuedUnlinked(s, t);
    }
    forall a, b, t: Ptr | a in s.q && b in s.q && t in s.q[a] && t in s.q[b] ensures a == b {
      var i :| 0 <= i < |s.q[a]| && s.q[a][i] == t;
      var j :| 0 <= j < |s.q[b]| && s.q[b][j] == t;
    }
  }

  /** The specified words are safe at every moment of every run from boot. Module Hosting
      says which runs of the program have these words. */
  lemma RunsFromBootAreSafe(mapped: set<Ptr>, cs: seq<Call>)
    requires AllowedRun(Boot(mapped), cs) && !Run(Boot(mapped), cs).Stopped?
    ensures Safe(Run(Boot(mapped), cs).s)
  {
    BootIsSafe(mapped);
    RunKeepsInvariant(Boot(mapped), cs);
    InvIsSafe(Run(Boot(mapped), cs).s);
  }

  // ---------------------------------------------------------------- a dead thread can run

  const DYING: Ptr := 0x80500000
  const SLEEPERS: Ptr := 0x80600000

  function DeadWords(): set<Ptr> {
    {DYING, SLEEPERS, DEFAULT_THREAD}
  }

  /** A wait queue is set up; a thread is created, resumed and, still queued, marked
      dead by the code that cancels it; then the default thread goes to sleep. */
  function DeadRun(): seq<Call> {
    [InitQueue(SLEEPERS), CreateCall(DYING, 16), ResumeCall(DYING, 0), MarkDead(DYING, MORIBUND),
     SleepCall(SLEEPERS, 0)]
  }

  function QueuesSet(): Sched {
    Exec(Boot(DeadWords()), InitQueue(SLEEPERS)).s
  }

  function DeadCreated(): Sched {
    Create(QueuesSet(), DYING, 16)
  }

  /** s with the thread t, until now in no queue, alone at the empty level pr. */
  function Queued(s: Sched, t: Ptr, pr: nat): Sched
    requires pr < 32
  {
    s.(suspend := s.suspend[t := 0],
       priority := s.priority[t := pr],
       queue := s.queue[t := RunQ(pr)],
       q := s.q[RunQ(pr) := [t]],
       pending := s.pending[pr := true],
       resched := 1)
  }

  lemma UnsuspendNew(s: Sched, t: Ptr, pr: nat)
    requires pr < 32 && At(s.state, t) == READY && At(s.base, t) == pr && Held(s, t) == [] && RunSeq(s, pr) == []
    ensures Unsuspend(s.(suspend := s.suspend[t := 0]), t) == Returned(Queued(s, t, pr))
  {
    RunQLevel(pr);
    var s1 := s.(suspend := s.suspend[t := 0]);
    assert EffectivePriority(s1, t) == pr;
    assert SortedInsert([], s1.priority[t := pr], pr, t) == [t];
  }

  /** Resuming a new thread while nobody runs only queues it. */
  lemma FirstResume(s: Sched, t: Ptr, pr: nat)
    requires t != 0 && t in s.mapped && pr < 32 && s.running == 0 == s.current
    requires At(s.state, t) == READY && At(s.suspend, t) == 1 && At(s.base, t) == pr && Held(s, t) == []
    requires RunSeq(s, pr) == []
    ensures Exec(s, ResumeCall(t, 0)) == Returned(Queued(s, t, pr))
  {
    UnsuspendNew(s, t, pr);
    hide Unsuspend;
  }

  function DeadQueued(): Sched {
    Queued(DeadCreated(), DYING, 16)
  }

  function DeadMarked(): Sched {
    Exec(DeadQueued(), MarkDead(DYING, MORIBUND)).s
  }

  lemma BootLevel(p: nat)
    requires p < 32
    ensures RunQ(p) in QueuesSet().q && RunSeq(QueuesSet(), p) == [] && RunSeq(DeadCreated(), p) == []
    ensures RunSeq(DeadMarked(), p) == if p == 16 then [DYING] else []
  {
    RunQLevel(p);
    assert p != 16 ==> RunQ(p) != RunQ(16);
  }

  lemma DeadIsQueued()
    ensures Exec(DeadCreated(), ResumeCall(DYING, 0)) == Returned(DeadQueued())
  {
    BootLevel(16);
    hide EmptyRunQueues, RunSeq;
    var s := DeadCreated();
    FirstResume(s, DYING, 16);
  }

  lemma RunStep(s: Sched, c: Call, cs: seq<Call>)
    ensures var r := Exec(s, c);
            && Run(s, [c] + cs) == (if r.Stopped? then r else Run(r.s, cs))
            && (Allowed(s, c) && (r.Stopped? || AllowedRun(r.s, cs)) ==> AllowedRun(s, [c] + cs))
  {
    assert ([c] + cs)[1..] == cs;
  }

  /** Every call of the run is one the scheduler allows. */
  lemma DeadCallsAllowed()
    ensures var c := DeadRun();
            && |c| == 5
            && Allowed(Boot(DeadWords()), c[0]) && Allowed(QueuesSet(), c[1]) && Allowed(DeadCreated(), c[2])
            && Allowed(DeadQueued(), c[3]) && Allowed(DeadMarked(), c[4])
            && CanPark(DeadMarked(), SLEEPERS)
  {
    RunQLevel(16);
    assert !IsRunQ(SLEEPERS) && !IsRunQ(JoinQ(DYING));
  }

  lemma DeadMarkedIsSafe()
    ensures Inv(DeadMarked()) && PendingExact(DeadMarked())
  {
    var c := DeadRun();
    DeadIsQueued();
    DeadCallsAllowed();
    BootIsSafe(DeadWords());
    assert Exec(QueuesSet(), c[1]).s == DeadCreated();
    hide Inv, PendingExact, Allowed, Exec, Queued, Create;
    ExecKeeps(Boot(DeadWords()), c[0]);
    ExecKeeps(QueuesSet(), c[1]);
    ExecKeeps(DeadCreated(), c[2]);
    ExecKeeps(DeadQueued(), c[3]);
  }

  /** The first four calls, one by one. */
  lemma DeadSteps()
    ensures var c := DeadRun();
            && |c| == 5
            && Exec(Boot(DeadWords()), c[0]) == Returned(QueuesSet())
            && Exec(QueuesSet(), c[1]) == Returned(DeadCreated())
            && Exec(DeadCreated(), c[2]) == Returned(DeadQueued())
            && Exec(DeadQueued(), c[3]) == Returned(DeadMarked())
  {
    DeadIsQueued();
  }

  /** The run up to the sleep leads from boot to the marked state. */
  lemma DeadRunReaches(tail: seq<Call>)
    requires AllowedRun(DeadMarked(), tail)
    ensures |DeadRun()| == 5
    ensures AllowedRun(Boot(DeadWords()), DeadRun()[..4] + tail)
    ensures Run(Boot(DeadWords()), DeadRun()[..4] + tail) == Run(DeadMarked(), tail)
  {
    hide Exec, Allowed, Run, AllowedRun, Boot, QueuesSet, DeadCreated, DeadQueued, DeadMarked, DeadRun, CanPark;
    var c := DeadRun();
    DeadSteps();
    DeadCallsAllowed();
    var c3 := [c[3]] + tail;
    var c2 := [c[2]] + c3;
    var c1 := [c[1]] + c2;
    assert c[..4] + tail == [c[0]] + c1;
    RunStep(DeadQueued(), c[3], tail);
    RunStep(DeadCreated(), c[2], c3);
    RunStep(QueuesSet(), c[1], c2);
    RunStep(Boot(DeadWords()), c[0], c1);
  }

  lemma ParkFrame(s: Sched, a: Ptr)
    requires !IsRunQ(a)
    ensures var s' := Park(s, a);
            && (forall p :: 0 <= p < 32 ==> RunSeq(s', p) == RunSeq(s, p))
            && s'.pending == s.pending && s'.idle == s.idle && s'.mapped == s.mapped
            && s'.running == s.running && s'.current == s.current
            && At(s'.state, s.running) == WAITING
            && (forall x: Ptr :: x != s.running ==> At(s'.state, x) == At(s.state, x))
  {
    forall p | 0 <= p < 32 ensures RunQ(p) != a { RunQLevel(p); }
  }

  lemma SleepHandsOver(s: Sched, a: Ptr)
    requires a != 0 && a in s.mapped && Adopt(s).running in s.mapped && s.idle == 0
    requires Select(Park(Adopt(s), a), false, 0).Switched?
    ensures Sleep(s, a, 0) == Select(Park(Adopt(s), a), false, 0)
  {
    hide Park, Select, Unpark;
  }

  lemma DeadMarkedWords()
    ensures var s := Adopt(DeadMarked());
            && s.running == s.current == DEFAULT_THREAD && s.idle == 0 && s.mapped == DeadWords()
            && DeadMarked().mapped == DeadWords() && DeadMarked().idle == 0
            && At(s.state, DYING) == MORIBUND && s.pending[16]
            && s.q == DeadMarked().q && !IsRunQ(SLEEPERS)
  {
  }

  /** The default thread, parked: only the dead thread is left to pick. */
  lemma ParkedAmongDead()
    ensures var s := Park(Adopt(DeadMarked()), SLEEPERS);
            && Inv(s) && PendingExact(s) && Selects(s, false, 0) && s.pending[16]
            && Flat(s) != [] && (forall i :: 0 <= i < |Flat(s)| ==> Flat(s)[i] == DYING)
            && At(s.state, DYING) == MORIBUND && !Running(s)
  {
    hide Inv, PendingExact, RunSeq, DeadMarked, CanPark, Flat, Park, IsRunQ;
    DeadMarkedWords();
    DeadCallsAllowed();
    DeadMarkedIsSafe();
    AdoptKeeps(DeadMarked());
    AdoptCanPark(DeadMarked(), SLEEPERS);
    var s0 := Adopt(DeadMarked());
    var s := Park(s0, SLEEPERS);
    ParkKeeps(s0, SLEEPERS);
    ParkFrame(s0, SLEEPERS);
    forall p | 0 <= p < 32 ensures RunSeq(s, p) == if p == 16 then [DYING] else [] {
      BootLevel(p);
      SameLevel(DeadMarked(), s0, p);
    }
    FlatOfOne(s, DYING);
  }

  lemma SameLevel(s: Sched, s': Sched, p: nat)
    requires s'.q == s.q
    ensures RunSeq(s', p) == RunSeq(s, p)
  {
  }

  /** A sleep in the marked state hands over to the dead thread. */
  lemma SleepRevives()
    ensures var r := Sleep(DeadMarked(), SLEEPERS, 0); r.Switched? && r.to == DYING
  {
    hide Inv, PendingExact, Select, Flat, Park, DeadMarked, Sleep, RunSeq;
    var s := Park(Adopt(DeadMarked()), SLEEPERS);
    ParkedAmongDead();
    DeadMarkedWords();
    assert Ready(s) == s && AllDead(s.state, Flat(s));
    DeadThreadRunsIff(s, false, 0);
    SelectOutcome(s, false, 0);
    SleepHandsOver(DeadMarked(), SLEEPERS);
  }

  /** SelectThread's promise to run only live threads fails: from boot, five allowed
      calls end in a switch to a thread that was MORIBUND. */
  lemma DeadThreadRuns()
    ensures var cs := DeadRun();
            && AllowedRun(Boot(DeadWords()), cs)
            && Run(Boot(DeadWords()), cs[..4]).Returned?
            && var s := Run(Boot(DeadWords()), cs[..4]).s;
               var r := Exec(s, cs[4]);
               At(s.state, DYING) == MORIBUND && r.Switched? && r.to == DYING
  {
    var cs := DeadRun();
    DeadCallsAllowed();
    SleepRevives();
    assert cs == cs[..4] + [cs[4]] && cs[..4] == cs[..4] + [];
    DeadRunReaches([]);
    DeadRunReaches([cs[4]]);
  }

  /** With one thread at level 16 and none elsewhere, that thread is all there is to pick. */
  lemma FlatOfOne(s: Sched, t: Ptr)
    requires Inv(s)
    requires forall p :: 0 <= p < 32 ==> RunSeq(s, p) == if p == 16 then [t] else []
    ensures Flat(s) != [] && forall i :: 0 <= i < |Flat(s)| ==> Flat(s)[i] == t
  {
    hide RunSeq, Inv;
    assert RunSeq(s, 16) == [t];
    FlatContains(s, 0, 16, t);
    hide Flat;
    forall i | 0 <= i < |Flat(s)| ensures Flat(s)[i] == t {
      var level := FlatElement(s, 0, i);
    }
  }
}

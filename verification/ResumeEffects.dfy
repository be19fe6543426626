/** What OSResumeThread does to the words, told without its specification: the suspend
    count, the queue the thread ends in, and whole series of resumes. */
module ResumeEffects {
  import opened Guest
  import opened Scheduler
  import opened Relinking
  import opened SelectLoop
  import opened SelectThread
  import opened QueueMoves
  import opened SchedulerSteps
  import opened SchedulerRuns

  // ---------------------------------------------------------------- the suspend count

  /** One less, but not below 0. */
  function CountDown(n: int): int {
    if n <= 0 then 0 else n - 1
  }

  /** Only t's count differs, and it is n. */
  ghost predicate CountIs(s: Sched, s': Sched, t: Ptr, n: int) {
    At(s'.suspend, t) == n && forall x: Ptr :: x != t ==> At(s'.suspend, x) == At(s.suspend, x)
  }

  /** What the bridge makes of the count decides how far it goes: only a count of 1 does
      more than count down. */
  lemma CountDecides(s: Sched, t: Ptr, save: int)
    ensures t == 0 ==> Resume(s, t, save) == Returned(s)
    ensures t != 0 && t !in s.mapped ==> Resume(s, t, save) == Stopped
    ensures t != 0 && t in s.mapped && At(s.suspend, t) != 1 ==>
              var r := Resume(s, t, save);
              r.Returned? && r.s == s.(suspend := r.s.suspend) && CountIs(s, r.s, t, CountDown(At(s.suspend, t)))
  {
    hide Unsuspend, Select;
  }

  lemma MovesKeepCounts(s: Sched, a: Ptr, t: Ptr, pr: int)
    ensures Remove(s, t).suspend == s.suspend && InsertAndMark(s, a, t, pr).suspend == s.suspend
  {
    hide SortedInsert, Without, IsRunQ;
  }

  lemma UnsuspendCounts(s: Sched, t: Ptr)
    ensures var r := Unsuspend(s, t); r.Stopped? || (r.Returned? && r.s.suspend == s.suspend)
  {
    hide EffectivePriority, Remove, InsertAndMark;
    var s1 := Remove(s, t);
    var pr := EffectivePriority(s1, t);
    MovesKeepCounts(s, 0, t, 0);
    MovesKeepCounts(s1.(priority := s1.priority[t := pr]), At(s.queue, t), t, pr);
    var pr' := EffectivePriority(s, t);
    MovesKeepCounts(s.(priority := s.priority[t := pr']), RunQ(pr'), t, pr');
  }

  /** On every path that does not stop, the SelectThread call included. */
  lemma ResumeCounts(s: Sched, t: Ptr, save: int)
    requires Inv(s) && t != 0 && t in s.mapped
    ensures var r := Resume(s, t, save);
            r.Stopped? || CountIs(s, r.s, t, CountDown(At(s.suspend, t)))
  {
    hide Inv, Unsuspend, Select, Unlinked, PendingExact;
    CountDecides(s, t, save);
    if At(s.suspend, t) == 1 {
      var s1 := s.(suspend := s.suspend[t := 0]);
      LastCount(s, t);
      UnsuspendKeeps(s1, t);
      UnsuspendCounts(s1, t);
      var r := Unsuspend(s1, t);
      if r.Returned? { SelectFrame(r.s, false, save); }
    }
  }

  lemma LastCount(s: Sched, t: Ptr)
    requires Inv(s) && At(s.suspend, t) == 1
    ensures var s1 := s.(suspend := s.suspend[t := 0]);
            && Inv(s1) && (PendingExact(s) ==> PendingExact(s1))
            && (At(s.state, t) == READY ==> Unlinked(s1, t))
  {
    hide Inv, Unlinked, PendingExact;
    ResuspendKeeps(s, t, 0);
    if At(s.state, t) == READY {
      SuspendedReadyUnlinked(s, t);
      UnlinkedSame(s, s.(suspend := s.suspend[t := 0]), t);
    }
  }

  lemma ParkedCounts(s: Sched, a: Ptr, save: int)
    requires Inv(s) && CanPark(s, a) && s.running != 0
    ensures var r := AfterSelect(Select(Park(s, a), false, save), a, s.running);
            r.Stopped? || r.s.suspend == s.suspend
  {
    hide Inv, CanPark, Select, Park, PendingExact, Unpark;
    ParkKeeps(s, a);
    ParkIs(s, a);
    SelectFrame(Park(s, a), false, save);
    UnparkCounts(a, s.running);
  }

  lemma SleepCounts(s: Sched, a: Ptr, save: int)
    requires Inv(s) && (a != 0 ==> CanPark(s, a))
    ensures var r := Sleep(s, a, save); r.Stopped? || r.s.suspend == s.suspend
  {
    hide Inv, CanPark, Select, Park, PendingExact, AfterSelect, Sleep;
    SleepEarly(s, a, save);
    if a != 0 && a in s.mapped && Adopt(s).running in s.mapped && s.idle == 0 {
      AdoptKeeps(s);
      AdoptCanPark(s, a);
      ParkedCounts(Adopt(s), a, save);
      SleepGoesOn(s, a, save);
    }
  }

  lemma UnparkCounts(a: Ptr, t: Ptr)
    ensures forall s: Sched :: Unpark(s, a, t).suspend == s.suspend
  {
  }

  /** Of all calls only a resume counts down, and only a creation sets a count, to 1. */
  lemma ExecCounts(s: Sched, c: Call)
    requires Inv(s) && PendingExact(s) && Allowed(s, c)
    ensures var r := Exec(s, c);
            if r.Stopped? then true
            else if c.ResumeCall? && c.t != 0 then CountIs(s, r.s, c.t, CountDown(At(s.suspend, c.t)))
            else if c.CreateCall? && 0 <= c.pr <= 31 && c.t != 0 && c.t in s.mapped then CountIs(s, r.s, c.t, 1)
            else r.s.suspend == s.suspend
  {
    hide Inv, PendingExact, CanPark, Reusable, Select, Resume, Sleep;
    match c
    case SelectCall(force, save) => SelectFrame(s, force, save);
    case ResumeCall(t, save) =>
      CountDecides(s, t, save);
      if t != 0 && t in s.mapped { ResumeCounts(s, t, save); }
    case SleepCall(a, save) =>
      if a != 0 && !CanPark(s, a) { RunningCanPark(s, a); }
      SleepCounts(s, a, save);
    case _ =>
  }

  // ---------------------------------------------------------------- the last resume

  /** u is s with t, no longer suspended, at the tail of level pr. */
  ghost predicate JoinsLevel(s: Sched, u: Sched, t: Ptr, pr: nat) {
    && u == s.(suspend := u.suspend, priority := u.priority, queue := u.queue, q := u.q, pending := u.pending,
               resched := 1)
    && CountIs(s, u, t, 0) && At(u.priority, t) == pr && At(u.queue, t) == RunQ(pr)
    && (forall x: Ptr :: x != t ==> At(u.priority, x) == At(s.priority, x) && At(u.queue, x) == At(s.queue, x))
    && pr < 32 && RunSeq(u, pr) == RunSeq(s, pr) + [t]
    && (forall a: Ptr :: a != RunQ(pr) ==> Contents(u, a) == Contents(s, a))
    && (forall p :: 0 <= p < 32 ==> (u.pending[p] <==> s.pending[p] || p == pr))
  }

  /** u is s with t, no longer suspended, re-priced at its sorted place in its queue. */
  ghost predicate Repriced(s: Sched, u: Sched, t: Ptr, pr: nat) {
    var a := At(s.queue, t);
    && CountIs(s, u, t, 0) && At(u.priority, t) == pr && pr < 32
    && (forall x: Ptr :: x != t ==> At(u.priority, x) == At(s.priority, x))
    && (forall x: Ptr :: At(u.queue, x) == At(s.queue, x))
    && u.state == s.state && u.base == s.base && u.held == s.held && u.resched == s.resched && u.pending == s.pending
    && u.running == s.running && u.current == s.current && u.idle == s.idle && u.mapped == s.mapped
    && (a != 0 ==> a in s.q && Contents(u, a) == SortedInsert(Without(s.q[a], t), u.priority, pr, t))
    && (forall b: Ptr :: b != a ==> Contents(u, b) == Contents(s, b))
  }

  lemma {:induction false} InheritSame(s: Sched, s': Sched, ms: seq<Ptr>, pr: int)
    requires s'.q == s.q && s'.priority == s.priority
    ensures InheritFrom(s', ms, pr) == InheritFrom(s, ms, pr)
    decreases |ms|
  {
    if ms != [] {
      var w := HeadWaiter(s, ms[0]);
      InheritSame(s, s', ms[1..], if w != 0 && At(s.priority, w) < pr then At(s.priority, w) else pr);
    }
  }

  /** s with t, no longer suspended, inserted at level pr. */
  function Joined(s: Sched, t: Ptr, pr: int): Sched {
    InsertAndMark(s.(suspend := s.suspend[t := 0], priority := s.priority[t := pr]), RunQ(pr), t, pr).(resched := 1)
  }

  lemma JoinedJoins(s: Sched, t: Ptr, pr: nat)
    requires Inv(s) && t != 0 && At(s.suspend, t) == 1 && At(s.state, t) == READY && pr < 32
    ensures var u := Joined(s, t, pr);
            JoinsLevel(s, u, t, pr) && Inv(u) && (PendingExact(s) ==> PendingExact(u))
  {
    var s1 := s.(suspend := s.suspend[t := 0]);
    var s2 := s1.(priority := s1.priority[t := pr]);
    hide Inv, PendingExact, Unlinked, SortedInsert;
    LastCount(s, t);
    ResumeReady(s1, t, pr);
    RepriceKeeps(s1, t, pr);
    UnlinkedSame(s1, s2, t);
    InsertReadyKeeps(s2, t, pr);
    RunQLevel(pr);
  }

  lemma ReadyUnsuspended(s: Sched, t: Ptr)
    requires At(s.state, t) == READY
    ensures var pr := EffectivePriority(s, t);
            Unsuspend(s.(suspend := s.suspend[t := 0]), t) ==
            if 0 <= pr <= 31 then Returned(Joined(s, t, pr)) else Stopped
  {
    InheritSame(s, s.(suspend := s.suspend[t := 0]), Held(s, t), At(s.base, t));
    hide InheritFrom, InsertAndMark;
  }

  /** The last resume of a READY thread: it stops on an effective priority that is none,
      and else appends the thread to that level and goes on to SelectThread. */
  lemma ReadyJoins(s: Sched, t: Ptr, save: int)
    requires Inv(s) && t != 0 && t in s.mapped && At(s.suspend, t) == 1 && At(s.state, t) == READY
    ensures var pr, r := EffectivePriority(s, t), Resume(s, t, save);
            if 0 <= pr <= 31
            then var u := Joined(s, t, pr);
                 JoinsLevel(s, u, t, pr) && Inv(u) && (PendingExact(s) ==> PendingExact(u))
                 && r == Select(u, false, save)
            else r == Stopped
  {
    var pr := EffectivePriority(s, t);
    ReadyUnsuspended(s, t);
    if 0 <= pr <= 31 { JoinedJoins(s, t, pr); }
    hide Inv, PendingExact, Select, Unsuspend, InsertAndMark, EffectivePriority;
  }

  /** s with t, no longer suspended, put back into its queue with priority pr. */
  function Reinserted(s: Sched, t: Ptr, pr: int): Sched {
    var s1 := Remove(s.(suspend := s.suspend[t := 0]), t);
    var s2 := s1.(priority := s1.priority[t := pr]);
    if At(s.queue, t) != 0 then InsertAndMark(s2, At(s.queue, t), t, pr) else s2
  }

  lemma ReinsertedIs(s: Sched, t: Ptr, pr: nat)
    requires Inv(s) && t != 0 && At(s.state, t) == WAITING && pr < 32
    ensures Repriced(s, Reinserted(s, t, pr), t, pr)
  {
    hide Inv, SortedInsert, Without, InsertAndMark, Remove, IsRunQ, Repriced;
    var a := At(s.queue, t);
    if a == 0 {
      RemoveNothing(s, t);
      UnlinkedRepriced(s, t, pr);
    } else {
      WaiterQueue(s, t);
      hide Reinserted;
      ReinsertedWords(s, a, t, pr);
      LinkedRepriced(s, a, t, pr);
    }
  }

  lemma UnlinkedRepriced(s: Sched, t: Ptr, pr: nat)
    requires At(s.queue, t) == 0 && pr < 32
    ensures Repriced(s, s.(suspend := s.suspend[t := 0], priority := s.priority[t := pr]), t, pr)
  {
    hide SortedInsert, Without;
  }

  lemma LinkedRepriced(s: Sched, a: Ptr, t: Ptr, pr: nat)
    requires a == At(s.queue, t) != 0 && a in s.q && pr < 32
    ensures var p := s.priority[t := pr];
            Repriced(s, s.(suspend := s.suspend[t := 0], priority := p, queue := s.queue[t := 0][t := a],
                           q := s.q[a := Without(s.q[a], t)][a := SortedInsert(Without(s.q[a], t), p, pr, t)]), t, pr)
  {
    hide SortedInsert, Without;
  }

  lemma RemoveNothing(s: Sched, t: Ptr)
    requires At(s.queue, t) == 0
    ensures Remove(s.(suspend := s.suspend[t := 0]), t) == s.(suspend := s.suspend[t := 0])
  {
    hide Without;
  }

  lemma ReinsertedWords(s: Sched, a: Ptr, t: Ptr, pr: nat)
    requires a == At(s.queue, t) != 0 && a in s.q && !IsRunQ(a)
    ensures var p := s.priority[t := pr];
            Reinserted(s, t, pr) ==
            s.(suspend := s.suspend[t := 0], priority := p, queue := s.queue[t := 0][t := a],
               q := s.q[a := Without(s.q[a], t)][a := SortedInsert(Without(s.q[a], t), p, pr, t)])
  {
    hide SortedInsert, Without, IsRunQ;
  }

  lemma RemoveCommutes(s: Sched, t: Ptr)
    ensures Remove(s.(suspend := s.suspend[t := 0]), t) == Remove(s, t).(suspend := s.suspend[t := 0])
  {
    hide Without;
    if At(s.queue, t) != 0 {
      assert Contents(s.(suspend := s.suspend[t := 0]), At(s.queue, t)) == Contents(s, At(s.queue, t));
    }
  }

  lemma WaiterUnsuspended(s: Sched, t: Ptr)
    requires At(s.state, t) == WAITING
    ensures var pr := EffectivePriority(Remove(s, t), t);
            Unsuspend(s.(suspend := s.suspend[t := 0]), t) ==
            if At(s.waitMutex, t) != 0 then Stopped
            else if 0 <= pr <= 31 then Returned(Reinserted(s, t, pr))
            else Stopped
  {
    var s1 := s.(suspend := s.suspend[t := 0]);
    RemoveCommutes(s, t);
    RemoveFrame(s, t);
    hide Remove;
    InheritSame(Remove(s, t), Remove(s1, t), Held(s, t), At(s.base, t));
    hide InheritFrom, InsertAndMark;
  }

  lemma RemoveFrame(s: Sched, t: Ptr)
    ensures var s' := Remove(s, t); s'.held == s.held && s'.base == s.base && s'.priority == s.priority
  {
    hide Without, IsRunQ;
  }

  /** The last resume of a waiting thread: one that waits for a mutex stops, and so does
      an effective priority that is none; else the thread is re-priced and put back at
      its sorted place, and SelectThread is entered if a reschedule was asked for. */
  lemma WaiterRepriced(s: Sched, t: Ptr, save: int)
    requires Inv(s) && t != 0 && t in s.mapped && At(s.suspend, t) == 1 && At(s.state, t) == WAITING
    ensures var pr, r := EffectivePriority(Remove(s, t), t), Resume(s, t, save);
            if At(s.waitMutex, t) == 0 && 0 <= pr <= 31
            then var u := Reinserted(s, t, pr);
                 Repriced(s, u, t, pr) && r == (if s.resched != 0 then Select(u, false, save) else Returned(u))
            else r == Stopped
  {
    var pr := EffectivePriority(Remove(s, t), t);
    WaiterUnsuspended(s, t);
    if 0 <= pr <= 31 { ReinsertedIs(s, t, pr); }
    hide Inv, Select, Unsuspend, Reinserted, EffectivePriority;
  }

  /** A RUNNING thread stops the last resume; one in no other of these states has only
      its count changed, whatever SelectThread does if a reschedule is asked for. */
  lemma OthersOnlyCount(s: Sched, t: Ptr, save: int)
    requires t != 0 && t in s.mapped && At(s.suspend, t) == 1
    ensures At(s.state, t) == RUNNING ==> Resume(s, t, save) == Stopped
    ensures At(s.state, t) !in {READY, RUNNING, WAITING} ==>
              var u := s.(suspend := s.suspend[t := 0]);
              Resume(s, t, save) == if s.resched != 0 then Select(u, false, save) else Returned(u)
  {
    hide Select;
  }

  // ---------------------------------------------------------------- n resumes

  /** t is ready to run at its priority: queued at that level, or RUNNING. */
  ghost predicate CanRun(s: Sched, t: Ptr) {
    At(s.suspend, t) == 0 &&
    ((At(s.state, t) == RUNNING && s.running == t)
     || (At(s.state, t) == READY && 0 <= At(s.priority, t) <= 31 && t in RunSeq(s, At(s.priority, t))))
  }

  lemma {:induction false} LevelIn(s: Sched, p: nat, t: Ptr) returns (level: nat)
    requires p <= 32 && t in FlatFrom(s, p)
    ensures p <= level < 32 && t in RunSeq(s, level)
    decreases 32 - p
  {
    hide RunSeq;
    if p < 32 {
      FlatUnfold(s, p);
      if t in RunSeq(s, p) {
        level := p;
      } else {
        level := LevelIn(s, p + 1, t);
      }
    }
  }

  lemma QueuedCanRun(s: Sched, t: Ptr)
    requires Inv(s) && t in Flat(s) && At(s.state, t) == READY
    ensures CanRun(s, t)
  {
    var level := LevelIn(s, 0, t);
    hide Inv, RunSeq, Flat;
    var i :| 0 <= i < |RunSeq(s, level)| && RunSeq(s, level)[i] == t;
    RunMemberAt(s, level, i);
  }

  lemma ReadyUntouched(s: Sched, t: Ptr)
    requires At(s.state, t) == READY && (Running(s) ==> ValidPriority(At(s.priority, s.running)))
    ensures At(Ready(s).state, t) == READY
  {
    if Running(s) { RequeuePutsBack(s); }
    hide Requeue;
  }

  lemma HandsOverIs(r: Outcome, xs: seq<Ptr>, k: nat)
    requires k < |xs| && HandsOver(r, xs, k)
    ensures r.Switched?
  {
    hide Flat;
  }

  /** A call that gets past the exits stops or hands over. */
  lemma SelectedSwitches(s: Sched, force: bool, save: int)
    requires Inv(s) && PendingExact(s) && Selects(s, force, save)
    ensures !Select(s, force, save).Returned?
  {
    hide Inv, PendingExact, Flat, Select;
    SelectOutcome(s, force, save);
  }

  /** One that comes back has at most put its caller back. */
  lemma ReturnedUntouched(s: Sched, force: bool, save: int, t: Ptr)
    requires Inv(s) && PendingExact(s) && At(s.state, t) == READY && Select(s, force, save).Returned?
    ensures At(Select(s, force, save).s.state, t) == READY
  {
    hide Inv, PendingExact, Select, SelectBest, Requeue, Cntlzw, RunSeq;
    SelectExits(s, force, save);
    LeadingZeros(s, At(s.priority, s.running));
    if Selects(s, force, save) { SelectedSwitches(s, force, save); }
  }

  /** Where a ready thread is after a SelectThread call. */
  lemma ReadyState(s: Sched, force: bool, save: int, t: Ptr)
    requires Inv(s) && PendingExact(s) && At(s.state, t) == READY
    ensures var r := Select(s, force, save);
            r.Stopped? || At(r.s.state, t) == if r.Switched? && r.to == t then RUNNING else READY
  {
    hide Inv, PendingExact, Select, Ready;
    var r := Select(s, force, save);
    SwitchStates(s, force, save);
    if r.Returned? {
      ReturnedUntouched(s, force, save, t);
    } else if r.Switched? {
      ReadyUntouched(s, t);
    }
  }

  /** A ready thread is not lost: it is still queued at its level, or it is the one that
      runs. */
  lemma StaysRunnable(s: Sched, force: bool, save: int, t: Ptr)
    requires Inv(s) && PendingExact(s) && t in Flat(s) && At(s.state, t) == READY
    ensures var r := Select(s, force, save); r.Stopped? || CanRun(r.s, t)
  {
    var r := Select(s, force, save);
    ReadyState(s, force, save, t);
    QueuedCanRun(s, t);
    SelectFrame(s, force, save);
    SelectKeeps(s, force, save);
    if !r.Stopped? && At(r.s.state, t) == READY {
      hide Inv, PendingExact, Select, Flat, RunSeq;
      StillQueued(s, force, save, t);
      QueuedCanRun(r.s, t);
    }
  }

  lemma StillQueued(s: Sched, force: bool, save: int, t: Ptr)
    requires Inv(s) && PendingExact(s) && t in Flat(s) && At(s.state, t) == READY
    requires var r := Select(s, force, save); !r.Stopped? && At(r.s.state, t) == READY
    ensures t in Flat(Select(s, force, save).s)
  {
    var r := Select(s, force, save);
    SelectConserves(s, force, save);
    hide Inv, PendingExact, Select, Flat, RunSeq;
    assert t in Runnable(s);
    if Selects(s, force, save) {
      ReadyUntouched(s, t);
      hide Ready;
      var purged := Flat(Ready(s))[..Chosen(s)];
      assert t in multiset(purged) ==> t in purged;
      assert t !in purged;
    }
    assert t in Runnable(r.s);
  }

  // ---------------------------------------------------------------- n resumes of a READY thread

  function Resumes(t: Ptr, n: nat): seq<Call> {
    seq(n, _ => ResumeCall(t, 0))
  }

  /** Before the last resume nothing but the count changes, and the thread is in no queue. */
  lemma {:induction false} EarlyResumes(s: Sched, t: Ptr, k: nat)
    requires Inv(s) && t != 0 && t in s.mapped && At(s.state, t) == READY && k < At(s.suspend, t)
    ensures var r := Run(s, Resumes(t, k));
            && r.Returned? && r.s == s.(suspend := r.s.suspend)
            && CountIs(s, r.s, t, At(s.suspend, t) - k)
            && Inv(r.s) && (PendingExact(s) ==> PendingExact(r.s)) && Unlinked(r.s, t)
    decreases k
  {
    if k == 0 {
      assert Resumes(t, 0) == [];
      SuspendedReadyUnlinked(s, t);
    } else {
      hide Inv, Unlinked, PendingExact, Resume;
      CountDecides(s, t, 0);
      ResumeKeeps(s, t, 0);
      assert Resumes(t, k)[1..] == Resumes(t, k - 1);
      EarlyResumes(Resume(s, t, 0).s, t, k - 1);
    }
  }

  /** A READY thread with suspend count n is runnable after exactly n resumes: until then
      it is in no queue; the n-th stops or leaves it queued at its effective priority or
      running. */
  lemma ResumedAtLast(s: Sched, t: Ptr)
    requires Inv(s) && PendingExact(s) && t != 0 && t in s.mapped
    requires At(s.state, t) == READY && At(s.suspend, t) >= 1
    ensures var n := At(s.suspend, t);
            && (forall k :: 0 <= k < n ==> Run(s, Resumes(t, k)).Returned? && Unlinked(Run(s, Resumes(t, k)).s, t))
            && var r := Resume(Run(s, Resumes(t, n - 1)).s, t, 0);
               r.Stopped? || (CanRun(r.s, t) && At(r.s.priority, t) == EffectivePriority(s, t))
  {
    var n := At(s.suspend, t);
    forall k | 0 <= k < n ensures Run(s, Resumes(t, k)).Returned? && Unlinked(Run(s, Resumes(t, k)).s, t) {
      EarlyResumes(s, t, k);
    }
    EarlyResumes(s, t, n - 1);
    var s1 := Run(s, Resumes(t, n - 1)).s;
    InheritSame(s, s1, Held(s, t), At(s.base, t));
    hide Run, Inv, PendingExact, Unlinked, InheritFrom;
    LastResume(s1, t, 0);
  }

  lemma LastResume(s: Sched, t: Ptr, save: int)
    requires Inv(s) && PendingExact(s) && t != 0 && t in s.mapped
    requires At(s.suspend, t) == 1 && At(s.state, t) == READY
    ensures var r := Resume(s, t, save);
            r.Stopped? || (CanRun(r.s, t) && At(r.s.priority, t) == EffectivePriority(s, t))
  {
    ReadyJoins(s, t, save);
    var pr := EffectivePriority(s, t);
    if 0 <= pr <= 31 {
      hide Inv, PendingExact, Resume, Select, Joined, EffectivePriority, CanRun, RunSeq;
      var u := Joined(s, t, pr);
      FlatContains(u, 0, pr, t);
      hide FlatFrom;
      StaysRunnable(u, false, save, t);
      SelectFrame(u, false, save);
    }
  }
}

/** OSResumeThread, OSSleepThread and OSCreateThread keep the scheduler invariant,
    sleeping without a switch undoes itself, and so does every run of bridge calls
    keep it. */
module SchedulerSteps {
  import opened Guest
  import opened Scheduler
  import opened Relinking
  import opened SelectLoop
  import opened SelectThread
  import opened QueueMoves

  // ---------------------------------------------------------------- OSResumeThread

  lemma UnsuspendKeeps(s: Sched, t: Ptr)
    requires Inv(s) && t != 0 && At(s.suspend, t) == 0
    requires At(s.state, t) == READY ==> Unlinked(s, t)
    ensures var r := Unsuspend(s, t);
            r.Stopped? || (r.Returned? && Inv(r.s) && (PendingExact(s) ==> PendingExact(r.s)))
  {
    hide Inv, PendingExact, Unlinked, Remove, InsertAndMark, EffectivePriority;
    var st := At(s.state, t);
    if st == WAITING && At(s.waitMutex, t) == 0 {
      ResumeWaiter(s, t);
    } else if st == READY && ValidPriority(EffectivePriority(s, t)) {
      ResumeReady(s, t, EffectivePriority(s, t));
    }
  }

  lemma ResumeWaiter(s: Sched, t: Ptr)
    requires Inv(s) && t != 0 && At(s.state, t) == WAITING && At(s.waitMutex, t) == 0
    ensures var r := Unsuspend(s, t);
            r.Stopped? || (r.Returned? && Inv(r.s) && (PendingExact(s) ==> PendingExact(r.s)))
  {
    var a := At(s.queue, t);
    var s1 := Remove(s, t);
    RemoveWaiterKeeps(s, t);
    if a != 0 { WaiterQueue(s, t); }
    hide Inv, PendingExact, EffectivePriority;
    var pr := EffectivePriority(s1, t);
    RepriceKeeps(s1, t, pr);
    var s2 := s1.(priority := s1.priority[t := pr]);
    if a != 0 {
      assert a in s2.q && At(s2.state, t) == WAITING && At(s2.priority, t) == pr;
      hide Remove;
      InsertWaiterKeeps(s2, a, t);
    }
  }

  lemma ResumeReady(s: Sched, t: Ptr, pr: nat)
    requires Inv(s) && t != 0 && At(s.state, t) == READY && At(s.suspend, t) == 0 && Unlinked(s, t)
    requires pr < 32
    ensures var s1 := s.(priority := s.priority[t := pr]);
            var s' := InsertAndMark(s1, RunQ(pr), t, pr).(resched := 1);
            Inv(s') && (PendingExact(s) ==> PendingExact(s'))
  {
    RepriceKeeps(s, t, pr);
    var s1 := s.(priority := s.priority[t := pr]);
    InsertReadyKeeps(s1, t, pr);
    ReschedFree(InsertAndMark(s1, RunQ(pr), t, pr), 1);
  }

  /** A suspended thread that is READY is in no queue. */
  lemma SuspendedReadyUnlinked(s: Sched, t: Ptr)
    requires Inv(s) && At(s.suspend, t) != 0 && At(s.state, t) == READY
    ensures Unlinked(s, t)
  {
    forall a | a in s.q ensures t !in s.q[a] {
      if t in s.q[a] {
        var i :| 0 <= i < |s.q[a]| && s.q[a][i] == t;
        if IsRunQ(a) {
          assert RunQ(LevelOf(a)) == a;
          RunMemberAt(s, LevelOf(a), i);
        }
        assert false;
      }
    }
  }

  lemma ResumeKeeps(s: Sched, t: Ptr, save: int)
    requires Inv(s)
    ensures var r := Resume(s, t, save);
            r.Stopped? || (Inv(r.s) && (PendingExact(s) ==> PendingExact(r.s)))
  {
    if t != 0 && t in s.mapped {
      var left := At(s.suspend, t) - 1;
      var s1 := s.(suspend := s.suspend[t := if left < 0 then 0 else left]);
      ResuspendKeeps(s, t, if left < 0 then 0 else left);
      if left == 0 {
        if At(s.state, t) == READY { SuspendedReadyUnlinked(s, t); }
        assert At(s.state, t) == READY ==> Unlinked(s1, t);
        hide Inv, PendingExact, Unlinked, Unsuspend, Select;
        UnsuspendKeeps(s1, t);
        var r := Unsuspend(s1, t);
        if r.Returned? && r.s.resched != 0 {
          SelectKeeps(r.s, false, save);
        }
      }
    }
  }

  // ---------------------------------------------------------------- OSSleepThread

  /** The thread OSSleepThread would park is in no queue and not suspended; a
      running thread always is so. */
  ghost predicate CanPark(s: Sched, a: Ptr) {
    && a in s.q && !IsRunQ(a)
    && Unlinked(s, Adopt(s).running) && At(s.suspend, Adopt(s).running) == 0
  }

  lemma RunningCanPark(s: Sched, a: Ptr)
    requires Inv(s) && Running(s) && a in s.q && !IsRunQ(a)
    ensures CanPark(s, a)
  {
    UnqueuedUnlinked(s, s.running);
  }

  lemma AdoptKeeps(s: Sched)
    requires Inv(s)
    ensures Inv(Adopt(s)) && (PendingExact(s) ==> PendingExact(Adopt(s)))
  {
    if s.running == 0 {
      forall t: Ptr ensures At(s.state, t) != RUNNING {
        assert At(s.state, t) == RUNNING ==> t == s.running && t != 0;
      }
      hide Inv, PendingExact;
      PublishKeeps(s, DEFAULT_THREAD);
    }
  }

  lemma ParkKeeps(s: Sched, a: Ptr)
    requires Inv(s) && CanPark(s, a) && s.running != 0
    ensures Inv(Park(s, a)) && (PendingExact(s) ==> PendingExact(Park(s, a)))
    ensures At(Park(s, a).state, s.running) == WAITING && At(Park(s, a).queue, s.running) == a
  {
    var t := s.running;
    var s0 := s.(queue := s.queue[t := 0]);
    UnnameKeeps(s, t);
    RestateKeeps(s0, t, WAITING);
    var s1 := s0.(state := s0.state[t := WAITING]);
    UnlinkedSame(s0, s1, t);
    ParkIs(s, a);
    hide Inv, PendingExact, Unlinked, Insert, Park;
    InsertWaiterKeeps(s1, a, t);
    ReschedFree(Insert(s1, a, t, At(s.priority, t)), 1);
  }

  lemma ParkIs(s: Sched, a: Ptr)
    ensures var t := s.running;
            var s1 := s.(queue := s.queue[t := 0], state := s.state[t := WAITING]);
            Park(s, a) == Insert(s1, a, t, At(s.priority, t)).(resched := 1)
    ensures At(Park(s, a).state, s.running) == WAITING && At(Park(s, a).queue, s.running) == a
    ensures Park(s, a).running == s.running && Park(s, a).suspend == s.suspend
  {
    assert s.queue[s.running := 0][s.running := a] == s.queue[s.running := a];
  }

  lemma UnparkKeeps(s: Sched, a: Ptr, t: Ptr)
    requires Inv(s) && a != 0 && t == s.running && t != 0 && At(s.suspend, t) == 0
    requires At(s.state, t) == WAITING && At(s.queue, t) == a
    ensures Inv(Unpark(s, a, t)) && (PendingExact(s) ==> PendingExact(Unpark(s, a, t)))
  {
    WaiterQueue(s, t);
    RemoveWaiterKeeps(s, t);
    assert Unpark(s, a, t) == Remove(s, t).(state := s.state[t := RUNNING]);
    assert At(Remove(s, t).queue, t) == 0;
    RestateKeeps(Remove(s, t), t, RUNNING);
  }

  lemma ParkedSelectKeeps(s: Sched, a: Ptr, save: int)
    requires Inv(s) && CanPark(s, a) && s.running != 0
    ensures var r := AfterSelect(Select(Park(s, a), false, save), a, s.running);
            r.Stopped? || (Inv(r.s) && (PendingExact(s) ==> PendingExact(r.s)))
  {
    var t := s.running;
    var s1 := Park(s, a);
    var r := Select(s1, false, save);
    assert a != 0 && At(s.suspend, t) == 0;
    hide Inv, PendingExact, CanPark, Select, Park, Unpark;
    ParkKeeps(s, a);
    ParkIs(s, a);
    SelectKeeps(s1, false, save);
    SelectFrame(s1, false, save);
    if r.Returned? && At(r.s.state, t) == WAITING && At(r.s.queue, t) == a {
      UnparkKeeps(r.s, a, t);
    }
  }

  lemma SleepKeeps(s: Sched, a: Ptr, save: int)
    requires Inv(s) && (a != 0 ==> CanPark(s, a))
    ensures var r := Sleep(s, a, save);
            r.Stopped? || (Inv(r.s) && (PendingExact(s) ==> PendingExact(r.s)))
  {
    if a != 0 {
      hide Inv, PendingExact, CanPark, Select, Park, Unpark;
      var s0 := Adopt(s);
      AdoptKeeps(s);
      AdoptCanPark(s, a);
      ParkedSelectKeeps(s0, a, save);
    }
  }

  // ---------------------------------------------------------------- sleeping without a switch

  lemma BestReturnsNever(s: Sched)
    requires Inv(s) && PendingExact(s)
    ensures !SelectBest(s).Returned?
  {
    hide Inv, PendingExact;
    PendingNonZero(s);
    if Flat(s) != [] {
      if DeadPrefix(s.state, Flat(s)) < |Flat(s)| {
        BestPicks(s);
      } else {
        BestRevives(s);
      }
    }
  }

  /** Reading word by word, the same scheduler state. */
  ghost predicate SameState(s: Sched, s': Sched) {
    && s' == s.(queue := s'.queue, state := s'.state)
    && (forall x: Ptr :: At(s'.queue, x) == At(s.queue, x) && At(s'.state, x) == At(s.state, x))
  }

  /** A parked caller's SelectThread comes back with nothing changed. */
  lemma ParkedSelectReturns(s: Sched, a: Ptr, save: int)
    requires Inv(s) && PendingExact(s) && CanPark(s, a) && s.running != 0 && s.idle == 0
    requires s.running in s.mapped
    ensures var r := Select(Park(s, a), false, save);
            (r.Returned? <==> s.current != s.running || save != 0) && (r.Returned? ==> r.s == Park(s, a))
  {
    var s1 := Park(s, a);
    hide Inv, PendingExact, CanPark, SelectBest;
    ParkKeeps(s, a);
    ParkIs(s, a);
    assert !Running(s1);
    BestReturnsNever(s1);
  }

  /** Sleeping, stably sorted insertion included, undoes itself when SelectThread
      returns without switching: the wait queue, every queue word and every state
      are back, the caller RUNNING again in no queue; only the reschedule request
      stays. */
  lemma SleepUndoes(s: Sched, a: Ptr, save: int)
    requires Inv(s) && PendingExact(s) && Running(s) && a in s.q && !IsRunQ(a)
    ensures var r := Sleep(s, a, save);
            r.Returned? ==>
              && SameState(s.(resched := r.s.resched), r.s)
              && At(r.s.state, s.running) == RUNNING && At(r.s.queue, s.running) == 0
              && r.s.q[a] == s.q[a]
  {
    var t := s.running;
    RunningCanPark(s, a);
    if a in s.mapped && s.running in s.mapped && s.idle == 0 {
      ParkedSelectReturns(s, a, save);
      ParkIs(s, a);
      var k := InsertionPoint(s.q[a], s.priority, At(s.priority, t));
      UnqueuedUnlinked(s, t);
      WithoutInserted(s.q[a], k, t);
      hide Inv, PendingExact, CanPark, Select;
      var r := Sleep(s, a, save);
      if r.Returned? {
        UnparkPark(s, a);
      }
    }
  }

  lemma UnparkPark(s: Sched, a: Ptr)
    requires a in s.q && Running(s) && At(s.queue, s.running) == 0
    requires Without(SortedInsert(s.q[a], s.priority, At(s.priority, s.running), s.running), s.running) == s.q[a]
    ensures SameState(s.(resched := 1), Unpark(Park(s, a), a, s.running))
    ensures Unpark(Park(s, a), a, s.running).q == s.q
  {
    var t := s.running;
    var ys := SortedInsert(s.q[a], s.priority, At(s.priority, t), t);
    hide SortedInsert, Without;
    RewriteBack(s.q, a, ys);
    RewriteWord(s.queue, t, a, 0);
    RewriteWord(s.state, t, WAITING, RUNNING);
  }

  lemma RewriteBack(q: map<Ptr, seq<Ptr>>, a: Ptr, ys: seq<Ptr>)
    requires a in q
    ensures q[a := ys][a := q[a]] == q
  {
  }

  lemma RewriteWord(m: map<Ptr, int>, t: Ptr, v: int, w: int)
    requires At(m, t) == w
    ensures forall x: Ptr :: At(m[t := v][t := w], x) == At(m, x)
  {
  }

  lemma SleeperNamed(s: Sched, a: Ptr, xs: seq<Ptr>, priority: map<Ptr, int>, pr: int, t: Ptr)
    requires Inv(s) && a in s.q && s.q[a] == SortedInsert(xs, priority, pr, t)
    ensures At(s.queue, t) == a
  {
    assert s.q[a][InsertionPoint(xs, priority, pr)] == t;
  }

  lemma ParkedSelectQueues(s: Sched, a: Ptr, save: int)
    requires Inv(s) && CanPark(s, a) && s.running != 0
    ensures var r, t := Select(Park(s, a), false, save), s.running;
            r.Switched? ==>
              && a in r.s.q
              && r.s.q[a] == SortedInsert(s.q[a], s.priority, At(s.priority, t), t)
              && At(r.s.queue, t) == a
  {
    var s1 := Park(s, a);
    var r := Select(s1, false, save);
    assert s1.q[a] == SortedInsert(s.q[a], s.priority, At(s.priority, s.running), s.running);
    assert !IsRunQ(a);
    hide Inv, Select, Park, SortedInsert;
    ParkKeeps(s, a);
    SelectWaitQueues(s1, false, save);
    SelectKeeps(s1, false, save);
    hide CanPark, IsRunQ;
    if r.Switched? {
      SleeperNamed(r.s, a, s.q[a], s.priority, At(s.priority, s.running), s.running);
    }
  }

  /** While the caller sleeps, its wait queue is the old one with the caller in it,
      behind everyone at least as urgent and before everyone else. */
  lemma SleepQueuesUp(s: Sched, a: Ptr, save: int)
    requires Inv(s) && CanPark(s, a) && a != 0
    ensures var r, t := Sleep(s, a, save), Adopt(s).running;
            r.Switched? ==>
              && a in r.s.q
              && r.s.q[a] == SortedInsert(s.q[a], s.priority, At(s.priority, t), t)
              && At(r.s.queue, t) == a
  {
    var s0 := Adopt(s);
    AdoptKeeps(s);
    AdoptCanPark(s, a);
    hide Inv, CanPark, Park, Unpark, Select, SortedInsert, Sleep;
    ParkedSelectQueues(s0, a, save);
    SleepSwitches(s, a, save);
  }

  lemma AdoptCanPark(s: Sched, a: Ptr)
    requires CanPark(s, a)
    ensures CanPark(Adopt(s), a) && Adopt(s).q == s.q && Adopt(s).priority == s.priority
    ensures a in s.q
  {
    hide IsRunQ;
  }

  lemma SleepSwitches(s: Sched, a: Ptr, save: int)
    ensures Sleep(s, a, save).Switched? ==>
              Sleep(s, a, save) == Select(Park(Adopt(s), a), false, save)
    ensures Adopt(s).running != 0
  {
    hide Park, Unpark, Select;
  }

  /** The exits of OSSleepThread before its caller is parked. */
  lemma SleepEarly(s: Sched, a: Ptr, save: int)
    ensures a == 0 || a !in s.mapped || (s.running == 0 && DEFAULT_THREAD !in s.mapped) ==>
              Sleep(s, a, save) == Returned(s)
    ensures a != 0 && a in s.mapped && (s.running == 0 ==> DEFAULT_THREAD in s.mapped)
            && (Adopt(s).running !in s.mapped || s.idle != 0) ==>
              Sleep(s, a, save) == Returned(Adopt(s))
  {
    hide Park, Select, AfterSelect;
  }

  lemma SleepGoesOn(s: Sched, a: Ptr, save: int)
    requires a != 0 && a in s.mapped && Adopt(s).running in s.mapped && s.idle == 0
    ensures Sleep(s, a, save) == AfterSelect(Select(Park(Adopt(s), a), false, save), a, Adopt(s).running)
  {
    hide Park, Select, AfterSelect;
  }

  // ---------------------------------------------------------------- OSCreateThread

  /** The record passed to OSCreateThread is in use by no queue; its own join queue
      may at most hold the record itself. */
  ghost predicate Reusable(s: Sched, t: Ptr) {
    forall a, i | a in s.q && 0 <= i < |s.q[a]| :: s.q[a][i] == t <==> a == JoinQ(t)
  }

  /** OSCreateThread does not look whether the record is still linked anywhere; it
      keeps the invariant exactly when it is not. */
  lemma CreateKeepsIff(s: Sched, t: Ptr, pr: int)
    requires Inv(s) && ValidPriority(pr) && t != 0 && t in s.mapped
    requires !IsRunQ(JoinQ(t)) && JoinQ(t) != 0
    ensures Inv(Create(s, t, pr)) <==> Reusable(s, t)
  {
    if Reusable(s, t) {
      CreateKeeps(s, t, pr);
    } else {
      CreateBreaks(s, t, pr);
    }
  }

  lemma CreateKeeps(s: Sched, t: Ptr, pr: int)
    requires Inv(s) && ValidPriority(pr) && t != 0 && t in s.mapped
    requires !IsRunQ(JoinQ(t)) && JoinQ(t) != 0 && Reusable(s, t)
    ensures Inv(Create(s, t, pr)) && (PendingExact(s) ==> PendingExact(Create(s, t, pr)))
  {
    var s' := Create(s, t, pr);
    forall p, i | 0 <= p < 32 && 0 <= i < |RunSeq(s', p)| ensures RunMember(s', p, RunSeq(s', p)[i]) {
      RunMemberAt(s, p, i);
      RunQueueKnown(s, p);
    }
    forall p | 0 <= p < 32 ensures RunQ(p) in s'.q && RunSeq(s', p) == RunSeq(s, p) {
      RunQueueKnown(s, p);
    }
    forall x: Ptr | At(s'.state, x) == RUNNING
      ensures x == s'.running && x != 0 && At(s'.suspend, x) == 0 && At(s'.queue, x) == 0
    {
      assert At(s.state, x) == RUNNING;
    }
    forall x: Ptr | At(s'.state, x) == WAITING && At(s'.queue, x) != 0
      ensures At(s'.queue, x) in s'.q && x in s'.q[At(s'.queue, x)]
    {
      assert At(s.queue, x) in s.q && x in s.q[At(s.queue, x)];
    }
  }

  /** A thread just created has suspend count 1, and its OSResumeThread comes back
      normally whenever SelectThread would leave the caller running and the caller is
      at least as urgent as the new thread. */
  lemma CreatedResumeReturns(s: Sched, t: Ptr, pr: int, save: int)
    requires ValidPriority(pr) && t != 0 && t in s.mapped && t != s.running
    requires SelectDeclines(s, false)
    requires Running(s) ==> s.running in s.mapped && At(s.priority, s.running) <= pr
    ensures var s1 := Create(s, t, pr); At(s1.suspend, t) == 1 && Resume(s1, t, save).Returned?
  {
    var s1 := Create(s, t, pr);
    var s2 := s1.(suspend := s1.suspend[t := 0]);
    assert EffectivePriority(s2, t) == pr;
    RunQLevel(pr);
  }

  lemma CreateBreaks(s: Sched, t: Ptr, pr: int)
    requires Inv(s) && ValidPriority(pr) && t != 0 && t in s.mapped
    requires !IsRunQ(JoinQ(t)) && JoinQ(t) != 0 && !Reusable(s, t)
    ensures !Inv(Create(s, t, pr))
  {
    var s' := Create(s, t, pr);
    var a, i :| a in s.q && 0 <= i < |s.q[a]| && !(s.q[a][i] == t <==> a == JoinQ(t));
    var x := s.q[a][i];
    if a == JoinQ(t) {
      assert At(s'.state, x) == WAITING && At(s'.queue, x) == a && s'.q[a] == [];
    } else {
      assert s'.q[a][i] == t && At(s'.state, t) == READY && At(s'.suspend, t) == 1;
      if IsRunQ(a) {
        assert RunQ(LevelOf(a)) == a;
        assert RunSeq(s', LevelOf(a))[i] == t;
      }
    }
  }
}

/** What OSSleepThread and OSCreateThread do to the words, told without their
    specification. */
module SleepEffects {
  import opened Guest
  import opened Scheduler
  import opened Relinking
  import opened SelectLoop
  import opened SelectThread
  import opened QueueMoves
  import opened SchedulerSteps
  import opened SchedulerRuns
  import opened ResumeEffects

  // ---------------------------------------------------------------- OSSleepThread

  /** s' is s with t RUNNING in no queue, every other thread and every queue as it was,
      and a reschedule requested. */
  ghost predicate BackAwake(s: Sched, s': Sched, t: Ptr) {
    && s' == s.(state := s'.state, queue := s'.queue, q := s'.q, resched := 1)
    && At(s'.state, t) == RUNNING && At(s'.queue, t) == 0
    && (forall x: Ptr :: x != t ==> At(s'.state, x) == At(s.state, x) && At(s'.queue, x) == At(s.queue, x))
    && (forall b: Ptr :: Contents(s', b) == Contents(s, b))
  }

  /** s' is s with t asleep at its sorted place in queue a. */
  ghost predicate Asleep(s: Sched, s': Sched, a: Ptr, t: Ptr) {
    && At(s'.state, t) == WAITING && At(s'.queue, t) == a
    && Contents(s', a) == SortedInsert(Contents(s, a), s.priority, At(s.priority, t), t)
    && (forall b: Ptr :: b != a && !IsRunQ(b) ==> Contents(s', b) == Contents(s, b))
  }

  /** s with t parked in queue a, whose members are then ys. */
  function ParkedAs(s: Sched, a: Ptr, t: Ptr, ys: seq<Ptr>): Sched {
    s.(state := s.state[t := WAITING], queue := s.queue[t := a], q := s.q[a := ys], resched := 1)
  }

  lemma ParkIsParkedAs(s: Sched, a: Ptr)
    requires a in s.q
    ensures Park(s, a)
            == ParkedAs(s, a, s.running, SortedInsert(s.q[a], s.priority, At(s.priority, s.running), s.running))
  {
    hide SortedInsert;
  }

  lemma TakenBackAs(s: Sched, a: Ptr, t: Ptr, ys: seq<Ptr>)
    requires a in s.q && Without(ys, t) == s.q[a]
    ensures SleepTail(ParkedAs(s, a, t, ys), a, t)
            == s.(state := s.state[t := WAITING][t := RUNNING], queue := s.queue[t := a][t := 0], resched := 1)
  {
    RewriteBack(s.q, a, ys);
    hide Without;
  }

  /** Parking and taking back, word by word. */
  lemma RoundTripWords(s: Sched, a: Ptr)
    requires a in s.q
    requires Without(SortedInsert(s.q[a], s.priority, At(s.priority, s.running), s.running), s.running) == s.q[a]
    ensures BackAwake(s, SleepTail(Park(s, a), a, s.running), s.running)
  {
    hide SortedInsert, Without, Park, SleepTail, ParkedAs;
    ParkIsParkedAs(s, a);
    TakenBackAs(s, a, s.running, SortedInsert(s.q[a], s.priority, At(s.priority, s.running), s.running));
  }

  lemma UnparkedIsBack(s: Sched, a: Ptr)
    requires Inv(s) && CanPark(s, a) && s.running != 0
    ensures BackAwake(s, SleepTail(Park(s, a), a, s.running), s.running)
  {
    NotRunQ(s, a);
    hide Inv, CanPark, BackAwake, Park, SleepTail;
    WithoutInserted(s.q[a], InsertionPoint(s.q[a], s.priority, At(s.priority, s.running)), s.running);
    RoundTripWords(s, a);
  }

  /** SelectThread called by the parked thread: back at once, stopped with nobody ready,
      or a hand-over to a ready thread, the caller asleep and no reschedule left. */
  lemma ParkedOutcome(s: Sched, a: Ptr, save: int)
    requires Inv(s) && PendingExact(s) && CanPark(s, a) && s.running != 0 && s.idle == 0 && s.running in s.mapped
    ensures var r, t := Select(Park(s, a), false, save), s.running;
            if s.current != t || save != 0 then r == Returned(Park(s, a))
            else if Flat(s) == [] then r == Stopped
            else r.Switched? && r.to in Flat(s) && r.s.resched == 0 && At(r.s.state, t) == WAITING
  {
    hide Inv, PendingExact, CanPark, SelectBest, Park, IsRunQ;
    var s1, t := Park(s, a), s.running;
    ParkedSelectReturns(s, a, save);
    NotRunQ(s, a);
    ParkFrame(s, a);
    ParkKeeps(s, a);
    hide RunSeq;
    FlatFrame(s, s1, 0);
    hide FlatFrom;
    if s.current == t && save == 0 {
      assert Selects(s1, false, 0) && Ready(s1) == s1;
      SelectOutcome(s1, false, 0);
      SelectExits(s1, false, 0);
      SwitchStates(s1, false, 0);
      if Flat(s) != [] { OffOwnLevels(s, t); }
    }
  }

  lemma NotRunQ(s: Sched, a: Ptr)
    requires CanPark(s, a)
    ensures !IsRunQ(a) && a in s.q && Unlinked(s, Adopt(s).running)
  {
  }

  lemma OffOwnLevels(s: Sched, t: Ptr)
    requires Unlinked(s, t)
    ensures t !in Flat(s)
  {
    if t in Flat(s) {
      hide FlatFrom;
      var level := LevelIn(s, 0, t);
    }
  }

  lemma ParkedExits(s: Sched, a: Ptr, save: int)
    requires Inv(s) && PendingExact(s) && CanPark(s, a) && s.running != 0 && s.idle == 0 && s.running in s.mapped
    ensures var t, r := s.running, AfterSelect(Select(Park(s, a), false, save), a, s.running);
            if s.current != t || save != 0 then r.Returned? && BackAwake(s, r.s, t)
            else if Flat(s) == [] then r == Stopped
            else r.Switched? && r.to in Flat(s) && r.s.resched == 0 && Asleep(s, r.s, a, t)
  {
    hide Inv, PendingExact, CanPark, Select, Park, SleepTail, Flat;
    ParkedOutcome(s, a, save);
    UnparkedIsBack(s, a);
    ParkedSleeper(s, a, save);
  }

  /** Every outcome of OSSleepThread, told from the words it reads. */
  lemma SleepExits(s: Sched, a: Ptr, save: int)
    requires Inv(s) && PendingExact(s) && (a != 0 ==> CanPark(s, a))
    ensures var r := Sleep(s, a, save);
            var first := s.running == 0;
            var t := if first then DEFAULT_THREAD else s.running;
            var s0 := s.(running := t, current := if first then t else s.current);
            if a == 0 || a !in s.mapped || (first && t !in s.mapped) then r == Returned(s)
            else if t !in s.mapped || s.idle != 0 then r == Returned(s0)
            else if s0.current != t || save != 0 then r.Returned? && BackAwake(s0, r.s, t)
            else if Flat(s) == [] then r == Stopped
            else r.Switched? && r.to in Flat(s) && r.s.resched == 0 && Asleep(s0, r.s, a, t)
  {
    hide Inv, PendingExact, CanPark, Select, Park, AfterSelect, BackAwake, Asleep, Sleep, Flat;
    var s0 := Adopt(s);
    SleepEarly(s, a, save);
    if a != 0 && a in s.mapped && s0.running in s.mapped && s.idle == 0 {
      AdoptKeeps(s);
      AdoptCanPark(s, a);
      SameFlat(s, s0);
      SleepGoesOn(s, a, save);
      ParkedExits(s0, a, save);
    }
  }

  lemma SameFlat(s: Sched, s': Sched)
    requires s'.q == s.q
    ensures Flat(s') == Flat(s)
  {
    FlatFrame(s, s', 0);
  }

  lemma ParkedSleeper(s: Sched, a: Ptr, save: int)
    requires Inv(s) && CanPark(s, a) && s.running != 0
    ensures var r, t := Select(Park(s, a), false, save), s.running;
            r.Switched? && At(r.s.state, t) == WAITING ==> Asleep(s, r.s, a, t)
  {
    var r := Select(Park(s, a), false, save);
    ParkKeeps(s, a);
    SelectWaitQueues(Park(s, a), false, save);
    ParkedSelectQueues(s, a, save);
    hide Inv, Select, SortedInsert, PendingExact;
  }

  // ---------------------------------------------------------------- OSCreateThread

  /** What a creation writes, thread by thread and queue by queue; a refused one writes
      nothing. */
  lemma CreateEffects(s: Sched, t: Ptr, pr: int)
    ensures var s' := Create(s, t, pr);
            if !(0 <= pr <= 31) || t == 0 || t !in s.mapped then s' == s
            else
              && s' == s.(state := s'.state, base := s'.base, priority := s'.priority, suspend := s'.suspend,
                          waitMutex := s'.waitMutex, q := s'.q, held := s'.held, all := s.all + [t])
              && At(s'.state, t) == READY && At(s'.suspend, t) == 1 && At(s'.waitMutex, t) == 0
              && At(s'.base, t) == At(s'.priority, t) == pr && Held(s', t) == [] && Contents(s', JoinQ(t)) == []
              && (forall x: Ptr :: x != t ==>
                    && At(s'.state, x) == At(s.state, x) && At(s'.suspend, x) == At(s.suspend, x)
                    && At(s'.waitMutex, x) == At(s.waitMutex, x) && At(s'.base, x) == At(s.base, x)
                    && At(s'.priority, x) == At(s.priority, x) && Held(s', x) == Held(s, x))
              && (forall a: Ptr :: a != JoinQ(t) ==> Contents(s', a) == Contents(s, a))
  {
  }

  /** A thread created at priority pr is runnable at that priority after one resume. */
  lemma CreatedRunsAtPriority(s: Sched, t: Ptr, pr: int)
    requires Inv(s) && PendingExact(s) && 0 <= pr <= 31 && t != 0 && t in s.mapped
    requires !IsRunQ(JoinQ(t)) && JoinQ(t) != 0 && Reusable(s, t)
    ensures var r := Resume(Create(s, t, pr), t, 0);
            r.Stopped? || (CanRun(r.s, t) && At(r.s.priority, t) == pr)
  {
    CreateKeeps(s, t, pr);
    CreateEffects(s, t, pr);
    hide Inv, PendingExact, Create, Resume, CanRun;
    assert EffectivePriority(Create(s, t, pr), t) == pr;
    LastResume(Create(s, t, pr), t, 0);
  }
}

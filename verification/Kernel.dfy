/** The scheduler bridges over guest words, method by method, each proved to do to
    the words what its specification in module Scheduler does to queue contents. */
module Kernel {
  import opened Guest
  import opened IntrusiveList
  import opened Interrupts
  import opened Scheduler
  import opened Relinking
  import opened SelectLoop
  import opened SelectThread
  import opened QueueMoves
  import opened SchedulerSteps
  import opened SchedulerRuns
  import opened ThreadQueues
  import opened Mutexes

  datatype Exit = Back | SwitchedTo(thread: Ptr) | Boundary

  /** The bridge left as its specification says, and in the specified state. */
  ghost predicate Meets(e: Exit, after: Sched, r: Outcome) {
    match r
    case Returned(s) => e == Back && after == s
    case Switched(s, to) => e == SwitchedTo(to) && after == s
    case Stopped => e == Exit.Boundary
  }

  lemma OffQueues(s: Sched, t: Ptr)
    requires Unlinked(s, t)
    ensures Nowhere(s.q, t)
  {
  }

  lemma {:induction false} SkipClear(s: Sched, p: nat, n: nat, last: Ptr, level: int)
    requires p <= n <= 32 && forall i :: p <= i < n ==> !s.pending[i]
    ensures ScanFrom(s, p, last, level) == ScanFrom(s, n, last, level)
    decreases n - p
  {
    if p < n { SkipClear(s, p + 1, n, last, level); }
  }

  /** One turn of the selection loop on an empty level. */
  lemma ClearTurn(s: Sched, n: nat, last: Ptr, level: int)
    requires Inv(s) && n < 32 && s.pending[n] && RunSeq(s, n) == []
    ensures var s' := ClearPending(s, n);
            Inv(s') && ScanFrom(s, n, last, level) == ScanFrom(s', n + 1, 0, n)
  {
    ClearEmptyKeeps(s, n);
  }

  /** One turn of the selection loop on a dead head. */
  lemma PurgeTurn(s: Sched, n: nat, last: Ptr, level: int)
    requires Inv(s) && n < 32 && s.pending[n] && RunSeq(s, n) != [] && Dead(At(s.state, RunSeq(s, n)[0]))
    ensures var head := RunSeq(s, n)[0];
            var s' := Remove(s, head);
            && Inv(s') && At(s.queue, head) == RunQ(n)
            && ScanFrom(s, n, last, level) == ScanFrom(s', n, head, n)
            && |RunSeq(s', n)| < |RunSeq(s, n)|
            && (forall i :: 0 <= i < n && !s.pending[i] ==> !s'.pending[i])
  {
    RemoveHead(s, n);
    RemoveHeadKeeps(s, n);
  }

  lemma LiveTurn(s: Sched, n: nat, last: Ptr, level: int)
    requires n < 32 && s.pending[n] && RunSeq(s, n) != [] && !Dead(At(s.state, RunSeq(s, n)[0]))
    ensures ScanFrom(s, n, last, level) == Scan(s, RunSeq(s, n)[0], n)
  {
  }

  lemma ScanEnds(s: Sched, last: Ptr, level: int)
    ensures ScanFrom(s, 32, last, level) == Scan(s, last, level)
  {
  }

  lemma NoneQueued(s: Sched)
    requires Inv(s) && Zero(s.pending)
    ensures forall p :: 0 <= p < 32 ==> RunSeq(s, p) == []
  {
  }

  lemma ReadyToUnsuspend(s: Sched, t: Ptr)
    requires Inv(s)
    ensures var s' := s.(suspend := s.suspend[t := 0]);
            At(s.suspend, t) == 1 ==> Inv(s') && (At(s.state, t) == READY ==> Unlinked(s', t))
  {
    if At(s.suspend, t) == 1 {
      ResuspendKeeps(s, t, 0);
      if At(s.state, t) == READY { SuspendedReadyUnlinked(s, t); }
    }
  }

  /** OSSleepThread writes the queue word before the insertion writes it again. */
  lemma ParkStep(s: Sched, a: Ptr)
    requires Inv(s) && CanPark(s, a) && s.running != 0
    ensures Inv(Park(s, a)) && Nowhere(s.q, s.running)
    ensures var t := s.running;
            var s1 := s.(state := s.state[t := WAITING], queue := s.queue[t := a]);
            Park(s, a) == Insert(s1, a, t, At(s.priority, t)).(resched := 1)
  {
    ParkKeeps(s, a);
    OffQueues(s, s.running);
    hide Inv;
    InsertTwice(s.(state := s.state[s.running := WAITING]), a, s.running, At(s.priority, s.running));
  }

  lemma InsertTwice(s: Sched, a: Ptr, t: Ptr, pr: int)
    ensures Insert(s.(queue := s.queue[t := a]), a, t, pr) == Insert(s, a, t, pr)
  {
    assert s.queue[t := a][t := a] == s.queue[t := a];
  }

  lemma CanParkNonZero(s: Sched, a: Ptr)
    requires Inv(s) && CanPark(s, a)
    ensures a != 0
  {
  }

  class Threads {
    const links: QueueWords
    const mutexes: MutexWords
    const mapped: set<Ptr>
    var queue: map<Ptr, Ptr>        // per thread
    var state: map<Ptr, int>
    var suspend: map<Ptr, int>
    var priority: map<Ptr, int>
    var base: map<Ptr, int>
    var waitMutex: map<Ptr, Ptr>
    var listNext: map<Ptr, Ptr>     // global thread list
    var listPrev: map<Ptr, Ptr>
    var listHead: Ptr
    var listTail: Ptr
    var pending: Mask
    var resched: int
    var idle: nat
    var current: Ptr
    var running: Ptr
    ghost var all: seq<Ptr>

    ghost function Value(): Sched
      reads this, links, mutexes
    {
      Sched(links.q, queue, state, suspend, priority, base, waitMutex, mutexes.held, all, mapped,
            pending, resched, idle, current, running)
    }

    ghost predicate Linked()
      reads this, links, mutexes
    {
      && links.Linked()
      && Lists(mutexes.first, mutexes.last, mutexes.next, mutexes.prev, mutexes.held)
    }

    ghost predicate Valid()
      reads this, links, mutexes
    {
      Linked() && Inv(Value())
    }

    constructor (mapped: set<Ptr>)
      ensures Valid() && Value() == Boot(mapped) && fresh(links) && fresh(mutexes)
    {
      this.mapped := mapped;
      links := new QueueWords(EmptyRunQueues());
      mutexes := new MutexWords();
      queue, state, suspend, priority, base, waitMutex := map[], map[], map[], map[], map[], map[];
      listNext, listPrev, listHead, listTail, all := map[], map[], 0, 0, [];
      pending, resched, idle, current, running := seq(32, _ => false), 0, 0, 0, 0;
      BootIsSafe(mapped);
    }

    /** LinkThreadOnRunQueue: tail append on level p. */
    method LinkThreadOnRunQueue(t: Ptr, p: int) returns (stopped: bool)
      requires Linked() && links.Off(t)
      modifies this`queue, links
      ensures Linked() && stopped == !ValidPriority(p)
      ensures Value() == if stopped then old(Value()) else
                Relink(old(Value()), RunQ(p), RunSeq(old(Value()), p) + [t], t, RunQ(p))
    {
      if p < 0 || p > 31 {
        return true;
      }
      links.Append(RunQ(p), t);
      queue := queue[t := RunQ(p)];
      stopped := false;
    }

    method MarkRunQueuePending(p: int)
      requires ValidPriority(p)
      modifies this`pending, this`resched
      ensures pending == old(pending)[p := true] && resched == 1
    {
      pending := pending[p := true];
      resched := 1;
    }

    /** RemoveThreadFromQueue, with UpdatePendingMaskForQueue. */
    method RemoveThreadFromQueue(t: Ptr)
      requires Linked()
      requires At(queue, t) != 0 ==> t in Contents(Value(), At(queue, t))
      modifies this`queue, this`pending, links
      ensures Linked() && Value() == Remove(old(Value()), t)
      ensures old(At(queue, t)) != 0 ==> links.Off(t) && At(links.next, t) == 0
    {
      var a := At(queue, t);
      if a == 0 {
        return;
      }
      links.Unlink(a, t);
      queue := queue[t := 0];
      links.HeadIs(a);
      if IsRunQ(a) && At(links.head, a) == 0 {
        pending := pending[LevelOf(a) := false];
      }
    }

    /** The loop's branch for a pending level without threads. */
    method ClearLevel(n: nat, ghost last: Ptr, ghost level: int)
      requires Valid() && n < 32 && pending[n] && RunSeq(Value(), n) == []
      modifies this`pending
      ensures Valid() && pending == old(pending)[n := false]
      ensures ScanFrom(old(Value()), n, last, level) == ScanFrom(Value(), n + 1, 0, n)
    {
      hide Inv, ScanFrom, Lists, OnOneList;
      ClearTurn(Value(), n, last, level);
      pending := pending[n := false];
    }

    /** The loop's branch for a dead head. */
    method PurgeHead(n: nat, head: Ptr, ghost last: Ptr, ghost level: int)
      requires Valid() && n < 32 && pending[n]
      requires RunSeq(Value(), n) != [] && head == RunSeq(Value(), n)[0] && Dead(At(state, head))
      modifies this`queue, this`pending, links
      ensures Valid() && At(links.next, head) == 0
      ensures ScanFrom(old(Value()), n, last, level) == ScanFrom(Value(), n, head, n)
      ensures |RunSeq(Value(), n)| < |RunSeq(old(Value()), n)|
      ensures forall i :: 0 <= i < n && !old(pending)[i] ==> !pending[i]
    {
      hide Inv, ScanFrom, Lists, OnOneList, Remove;
      PurgeTurn(Value(), n, last, level);
      RemoveThreadFromQueue(head);
    }

    /** The selection loop. `thread` and `level` are what its variables hold at the end. */
    method FindNextThread() returns (thread: Ptr, level: int)
      requires Valid()
      modifies this`queue, this`pending, links
      ensures Valid()
      ensures ScanFrom(old(Value()), 0, 0, 0) == Scan(Value(), thread, level)
      ensures thread != 0 ==>
                && 0 <= level < 32
                && var xs := RunSeq(Value(), level);
                   if xs == [] then At(links.next, thread) == 0 else thread == xs[0]
    {
      hide Inv, Remove, ScanFrom, ClearPending, Lists, OnOneList, Dead;
      ghost var goal := ScanFrom(Value(), 0, 0, 0);
      ghost var p := 0;
      thread, level := 0, 0;
      while !Zero(pending)
        invariant Valid() && p <= 32
        invariant forall i :: 0 <= i < p ==> !pending[i]
        invariant ScanFrom(Value(), p, thread, level) == goal
        invariant thread != 0 ==> 0 <= level < 32 && At(links.next, thread) == 0
        decreases 32 - p, |RunSeq(Value(), p)|
      {
        var n := Cntlzw(pending);
        SkipClear(Value(), p, n, thread, level);
        links.HeadIs(RunQ(n));
        var head := At(links.head, RunQ(n));
        if head == 0 {
          ClearLevel(n, thread, level);
          p := n + 1;
        } else if Dead(At(state, head)) {
          PurgeHead(n, head, thread, level);
          p := n;
        } else {
          LiveTurn(Value(), n, thread, level);
          return head, n;
        }
        thread, level := head, n;
      }
      NoneQueued(Value());
      SkipClear(Value(), p, 32, thread, level);
      ScanEnds(Value(), thread, level);
    }

    /** PopThreadQueueHead, the mask, the hand-over words and OSSetCurrentContext. */
    method HandOver(thread: Ptr, level: int)
      requires Linked() && 0 <= level < 32
      requires var xs := RunSeq(Value(), level);
               if xs == [] then At(links.next, thread) == 0 else thread == xs[0]
      modifies this`queue, this`state, this`pending, this`running, this`current, links
      ensures Linked() && Value() == Dispatch(old(Value()), thread, level)
    {
      hide Lists, OnOneList;
      var n := links.PopHead(RunQ(level), thread);
      if n == 0 {
        pending := pending[level := false];
      }
      queue := queue[thread := 0];
      state := state[thread := RUNNING];
      running := thread;
      current := thread;
    }

    /** The running thread becomes READY at the tail of its level. */
    method RequeueRunning()
      requires Valid() && Running(Value()) && ValidPriority(At(priority, running))
      modifies this`queue, this`state, this`pending, this`resched, links
      ensures Valid() && Value() == Requeue(old(Value()))
    {
      UnqueuedUnlinked(Value(), running);
      OffQueues(Value(), running);
      ReadyKeeps(Value());
      hide Inv;
      var p := At(priority, running);
      state := state[running := READY];
      var stopped := LinkThreadOnRunQueue(running, p);
      MarkRunQueuePending(p);
    }

    /** SelectThread from the idle-poll test on. */
    method SwitchToBest() returns (e: Exit)
      requires Valid()
      modifies this, links
      ensures Meets(e, Value(), SelectBest(old(Value())))
      ensures e != Exit.Boundary ==> Linked()
    {
      hide Inv, ScanFrom, Dispatch, Zero, Flat, PendingExact;
      if Zero(pending) {
        return Exit.Boundary;
      }
      ReschedFree(Value(), 0);
      resched := 0;
      var thread, level := FindNextThread();
      if thread == 0 {
        return Back;
      }
      HandOver(thread, level);
      e := SwitchedTo(thread);
    }

    /** SelectThread. `save` is what OSSaveContext leaves in r3, 0 when it is skipped. */
    method SelectThread(force: bool, save: int) returns (e: Exit)
      requires Valid()
      modifies this, links
      ensures Meets(e, Value(), Select(old(Value()), force, save))
      ensures e != Exit.Boundary ==> Valid()
    {
      SelectKeeps(Value(), force, save);
      hide Inv, SelectBest, Requeue;
      if idle >= 1 {
        return Back;
      }
      if current == 0 && running == 0 {
        return Back;
      }
      if current != running {
        return Back;
      }
      if running !in mapped {
        return Exit.Boundary;
      }
      if At(state, running) == RUNNING {
        var p := At(priority, running);
        if !force && p <= Cntlzw(pending) {
          return Back;
        }
        if p < 0 || p > 31 {
          return Exit.Boundary;
        }
        RequeueRunning();
      }
      if save != 0 {
        return Back;
      }
      e := SwitchToBest();
    }

    /** ComputeThreadEffectivePriority: a walk over the held-mutex list. */
    method ComputeThreadEffectivePriority(t: Ptr) returns (pr: int)
      requires Linked()
      ensures pr == EffectivePriority(Value(), t)
    {
      ghost var s, ms, k := Value(), Held(Value(), t), 0;
      assert IsList(At(mutexes.first, t), At(mutexes.last, t), mutexes.next, mutexes.prev, ListOf(mutexes.held, t));
      pr := At(base, t);
      var m := At(mutexes.first, t);
      while m != 0
        invariant k <= |ms| && m == if k < |ms| then ms[k] else 0
        invariant InheritFrom(s, ms[k..], pr) == EffectivePriority(s, t)
        decreases |ms| - k
      {
        Walk(At(mutexes.first, t), At(mutexes.last, t), mutexes.next, mutexes.prev, ms, k);
        assert ms[k..][1..] == ms[k + 1..];
        links.HeadIs(m);
        var w := At(links.head, m);
        if w != 0 && At(priority, w) < pr {
          pr := At(priority, w);
        }
        m := At(mutexes.next, m);
        k := k + 1;
      }
      if k < |ms| {
        Walk(At(mutexes.first, t), At(mutexes.last, t), mutexes.next, mutexes.prev, ms, k);
      }
    }

    /** The resume bridge's InsertThreadIntoQueueByPriority. */
    method InsertAndMarkPending(a: Ptr, t: Ptr, pr: int)
      requires Linked() && links.Off(t)
      modifies this`queue, this`pending, links
      ensures Linked() && Value() == InsertAndMark(old(Value()), a, t, pr)
    {
      hide SortedInsert;
      queue := queue[t := a];
      links.InsertByPriority(a, t, pr, priority);
      if IsRunQ(a) {
        pending := pending[LevelOf(a) := true];
      }
    }

    /** OSResumeThread's WAITING branch: the thread is taken out of its wait queue,
        re-priced and put back where its priority belongs. */
    method RepriceWaiter(t: Ptr) returns (e: Exit)
      requires Valid() && t != 0 && At(state, t) == WAITING
      modifies this`queue, this`pending, this`priority, links
      ensures Meets(e, Value(), Unsuspend(old(Value()), t)) && Linked()
    {
      if At(waitMutex, t) != 0 {
        return Exit.Boundary;
      }
      if At(queue, t) != 0 { WaiterQueue(Value(), t); }
      hide Inv, InsertAndMark, Remove, EffectivePriority, Lists, OnOneList;
      var a := At(queue, t);
      RemoveThreadFromQueue(t);
      var pr := ComputeThreadEffectivePriority(t);
      if pr < 0 || pr > 31 {
        return Exit.Boundary;
      }
      priority := priority[t := pr];
      if a != 0 {
        InsertAndMarkPending(a, t, pr);
      }
      e := Back;
    }

    /** OSResumeThread's READY branch. */
    method MakeRunnable(t: Ptr) returns (e: Exit)
      requires Valid() && t != 0 && At(state, t) == READY && Unlinked(Value(), t)
      modifies this`queue, this`pending, this`priority, this`resched, links
      ensures Meets(e, Value(), Unsuspend(old(Value()), t)) && Linked()
    {
      OffQueues(Value(), t);
      hide Inv, InsertAndMark, EffectivePriority;
      var pr := ComputeThreadEffectivePriority(t);
      if pr < 0 || pr > 31 {
        return Exit.Boundary;
      }
      priority := priority[t := pr];
      InsertAndMarkPending(RunQ(pr), t, pr);
      resched := 1;
      e := Back;
    }

    /** The branches taken when the suspend count has come down to 0. */
    method UnsuspendThread(t: Ptr) returns (e: Exit)
      requires Valid() && t != 0 && At(suspend, t) == 0
      requires At(state, t) == READY ==> Unlinked(Value(), t)
      modifies this, links
      ensures Meets(e, Value(), Unsuspend(old(Value()), t))
      ensures e != Exit.Boundary ==> e == Back && Valid()
      ensures current == old(current)
    {
      UnsuspendKeeps(Value(), t);
      hide Inv, Unlinked;
      var st := At(state, t);
      if st == WAITING {
        e := RepriceWaiter(t);
      } else if st == READY {
        e := MakeRunnable(t);
      } else if st == RUNNING {
        e := Exit.Boundary;
      } else {
        e := Back;
      }
    }

    /** OSResumeThread up to the reschedule, between the interrupt bracket. */
    method ResumeCritical(t: Ptr, save: int) returns (e: Exit)
      requires Valid() && t != 0
      modifies this, links
      ensures Meets(e, Value(), Resume(old(Value()), t, save))
      ensures e != Exit.Boundary ==> Linked()
    {
      hide Inv, Unlinked, Unsuspend, Select, Lists;
      ReadyToUnsuspend(Value(), t);
      if t !in mapped {
        return Exit.Boundary;
      }
      var left := At(suspend, t) - 1;
      suspend := suspend[t := if left < 0 then 0 else left];
      if left != 0 {
        return Back;
      }
      e := UnsuspendThread(t);
      if e == Back && resched != 0 {
        e := SelectThread(false, save);
      }
    }

    /** OSResumeThread. A switch leaves with interrupts off; they are restored when
        this stack is next resumed. The old suspend count is put in r3, but restoring
        the interrupts puts the previous flag there, and that is 0: a caller gets the
        count it is promised exactly when that count was 0. */
    method ResumeThread(t: Ptr, save: int, irq: InterruptState) returns (e: Exit, r3: int)
      requires Valid()
      modifies this, links, irq
      ensures Meets(e, Value(), Resume(old(Value()), t, save))
      ensures e != Exit.Boundary ==> Valid()
      ensures e == Back ==> irq.enabled == old(irq.enabled) && r3 == 0
      ensures e == Back && t != 0 ==> (r3 == old(At(suspend, t)) <==> old(At(suspend, t)) == 0)
      ensures e.SwitchedTo? ==> !irq.enabled
    {
      r3 := 0;
      if t == 0 {
        return Back, 0;
      }
      hide Inv, Resume;
      ResumeKeeps(Value(), t, save);
      var irqState := irq.Disable(current);
      var count := At(suspend, t);
      e := ResumeCritical(t, save);
      if e == Back {
        r3 := count;
        var previous := irq.Restore(current, irqState);
        r3 := if previous then 1 else 0;
      }
    }

    /** The sleep bridge's InsertThreadIntoQueueByPriority: no mask update. */
    method InsertIntoQueue(a: Ptr, t: Ptr, pr: int)
      requires Linked() && links.Off(t)
      modifies this`queue, links
      ensures Linked() && Value() == Insert(old(Value()), a, t, pr)
    {
      hide SortedInsert;
      queue := queue[t := a];
      links.InsertByPriority(a, t, pr, priority);
    }

    /** OSSleepThread's parking step. */
    method ParkRunning(a: Ptr)
      requires Valid() && CanPark(Value(), a) && running != 0
      modifies this`queue, this`state, this`resched, links
      ensures Valid() && Value() == Park(old(Value()), a)
    {
      hide Inv, Insert, CanPark, Park;
      ParkStep(Value(), a);
      state := state[running := WAITING];
      queue := queue[running := a];
      var pr := At(priority, running);
      InsertIntoQueue(a, running, pr);
      resched := 1;
    }

    /** UnlinkWaitQueueNode and the two words written after it. */
    method UnparkThread(a: Ptr, t: Ptr)
      requires Linked() && t in Contents(Value(), a)
      modifies this`queue, this`state, links
      ensures Linked() && Value() == Unpark(old(Value()), a, t)
    {
      links.Unlink(a, t);
      queue := queue[t := 0];
      state := state[t := RUNNING];
    }

    /** The tail of OSSleepThread, run whenever SelectThread comes back on its stack. */
    method TakeBack(a: Ptr, t: Ptr)
      requires Valid() && a != 0
      modifies this`queue, this`state, links
      ensures Linked() && Value() == SleepTail(old(Value()), a, t)
    {
      if At(state, t) == WAITING && At(queue, t) == a {
        WaiterQueue(Value(), t);
        hide Unpark;
        UnparkThread(a, t);
      }
    }

    /** OSSleepThread between parking and the interrupt restore. */
    method ParkAndSelect(a: Ptr, save: int) returns (e: Exit)
      requires Valid() && CanPark(Value(), a) && running != 0
      modifies this, links
      ensures Meets(e, Value(), AfterSelect(Select(Park(old(Value()), a), false, save), a, old(running)))
      ensures e != Exit.Boundary ==> Valid()
    {
      ParkedSelectKeeps(Value(), a, save);
      hide Inv, CanPark, Select, Park, Unpark, Lists, OnOneList;
      var t := running;
      assert a != 0 by { CanParkNonZero(Value(), a); }
      ParkRunning(a);
      e := SelectThread(false, save);
      if e == Back {
        TakeBack(a, t);
      }
    }

    /** The default thread is published on first use. */
    method AdoptDefault()
      requires Valid()
      modifies this`running, this`current
      ensures Valid() && Value() == Adopt(old(Value()))
    {
      AdoptKeeps(Value());
      hide Inv;
      if running == 0 {
        running := DEFAULT_THREAD;
        current := DEFAULT_THREAD;
      }
    }

    /** OSSleepThread between the interrupt bracket. */
    method SleepCritical(a: Ptr, save: int) returns (e: Exit)
      requires Valid() && CanPark(Value(), a) && a != 0
      modifies this, links
      ensures Meets(e, Value(), Sleep(old(Value()), a, save))
      ensures e != Exit.Boundary ==> Valid()
    {
      hide Inv, CanPark, Select, Park, Unpark, Lists, OnOneList;
      AdoptCanPark(Value(), a);
      if a !in mapped {
        return Back;
      }
      if running == 0 && DEFAULT_THREAD !in mapped {
        return Back;
      }
      AdoptDefault();
      if running !in mapped || idle != 0 {
        return Back;
      }
      e := ParkAndSelect(a, save);
    }

    /** OSSleepThread on wait queue a. */
    method SleepThread(a: Ptr, save: int, irq: InterruptState) returns (e: Exit)
      requires Valid() && (a != 0 ==> CanPark(Value(), a))
      modifies this, links, irq
      ensures Meets(e, Value(), Sleep(old(Value()), a, save))
      ensures e != Exit.Boundary ==> Valid()
      ensures e == Back ==> irq.enabled == old(irq.enabled)
      ensures e.SwitchedTo? ==> !irq.enabled
    {
      if a == 0 {
        return Back;
      }
      hide Inv, CanPark, Sleep;
      var irqState := irq.Disable(current);
      e := SleepCritical(a, save);
      if e == Back {
        var _ := irq.Restore(current, irqState);
      }
    }

    ghost predicate ListLinked()
      reads this
    {
      IsList(listHead, listTail, listNext, listPrev, all)
    }

    /** The tail linkage of OSCreateThread into the global thread list. */
    method LinkGlobally(t: Ptr)
      requires t != 0
      modifies this`listHead, this`listTail, this`listNext, this`listPrev, this`all
      ensures all == old(all) + [t]
      ensures old(ListLinked()) && t !in old(all) ==> ListLinked()
    {
      if ListLinked() && t !in all { Append(listHead, listTail, listNext, listPrev, all, t); }
      var newHead := t;
      if listTail != 0 {
        listNext := listNext[listTail := t];
        newHead := listHead;
      }
      listHead := newHead;
      listPrev := listPrev[t := listTail];
      listNext := listNext[t := 0];
      listTail := t;
      all := all + [t];
    }

    /** The words OSCreateThread gives a new thread. */
    method InitializeThread(t: Ptr, pr: int)
      requires Linked() && ValidPriority(pr) && t != 0 && t in mapped
      modifies this`state, this`base, this`priority, this`suspend, this`waitMutex, links, mutexes
      ensures Linked() && Value() == Create(old(Value()), t, pr).(all := all)
    {
      hide Lists, OnOneList;
      state := state[t := READY];
      base := base[t := pr];
      priority := priority[t := pr];
      suspend := suspend[t := 1];
      waitMutex := waitMutex[t := 0];
      links.Clear(JoinQ(t));
      mutexes.ClearHeld(t);
    }

    /** The part of OSCreateThread that runs with interrupts off. */
    method PublishThread(t: Ptr, irq: InterruptState)
      requires t != 0
      modifies this`listHead, this`listTail, this`listNext, this`listPrev, this`all, irq
      ensures all == old(all) + [t] && irq.enabled == old(irq.enabled)
      ensures old(ListLinked()) && t !in old(all) ==> ListLinked()
    {
      hide IsList;
      var irqState := irq.Disable(current);
      LinkGlobally(t);
      var _ := irq.Restore(current, irqState);
    }

    /** OSCreateThread: the thread words and the global list. */
    method CreateThread(t: Ptr, pr: int, irq: InterruptState) returns (ok: bool)
      requires Linked()
      modifies this, links, mutexes, irq
      ensures Linked() && Value() == Create(old(Value()), t, pr)
      ensures ok == (ValidPriority(pr) && t != 0 && t in mapped)
      ensures old(ListLinked()) && t !in old(all) ==> ListLinked()
      ensures irq.enabled == old(irq.enabled)
    {
      if pr < 0 || pr > 31 || t == 0 || t !in mapped {
        return false;
      }
      hide Lists, OnOneList, IsList;
      InitializeThread(t, pr);
      PublishThread(t, irq);
      ok := true;
    }
  }
}

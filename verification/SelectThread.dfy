/** What a whole SelectThread call achieves: it keeps the scheduler invariant, runs
    the most urgent live thread and loses no thread but the dead ones it purges. */
module SelectThread {
  import opened Guest
  import opened Scheduler
  import opened Relinking
  import opened SelectLoop

  /** The state the selection loop starts from. */
  function Ready(s: Sched): Sched
    requires Running(s) ==> ValidPriority(At(s.priority, s.running))
  {
    if Running(s) then Requeue(s) else s
  }

  /** The call gets past every early exit and every boundary before the loop. */
  predicate Selects(s: Sched, force: bool, save: int) {
    && !SelectDeclines(s, force)
    && s.running in s.mapped
    && (Running(s) ==> ValidPriority(At(s.priority, s.running)))
    && save == 0
  }

  lemma ReadyKeeps(s: Sched)
    requires Inv(s) && (Running(s) ==> ValidPriority(At(s.priority, s.running)))
    ensures Inv(Ready(s)) && NobodyRuns(Ready(s))
    ensures PendingExact(s) ==> PendingExact(Ready(s))
  {
    if Running(s) {
      RequeueKeeps(s);
    } else {
      forall x: Ptr ensures At(s.state, x) != RUNNING {
        assert At(s.state, x) == RUNNING ==> x == s.running;
      }
    }
  }

  /** The loop's outcome from any state in which nobody runs. */
  lemma BestKeeps(s: Sched)
    requires Inv(s) && NobodyRuns(s)
    ensures var r := SelectBest(s);
            r.Stopped? || (Inv(r.s) && (PendingExact(s) ==> PendingExact(r.s)))
  {
    if Zero(s.pending) { return; }
    var s0 := s.(resched := 0);
    ReschedFree(s, 0);
    var r := ScanFrom(s0, 0, 0, 0);
    ScanKeeps(s0, 0, 0, 0);
    ScanFrame(s0, 0, 0, 0);
    if r.thread != 0 && 0 <= r.level < 32 {
      BestDispatchable(s0);
      hide Inv;
      DispatchKeeps(r.s, r.thread, r.level);
    }
  }

  lemma BestDispatchable(s: Sched)
    requires Inv(s) && NobodyRuns(s)
    ensures var r := ScanFrom(s, 0, 0, 0);
            && NobodyRuns(r.s)
            && (r.thread != 0 && 0 <= r.level < 32 ==> Dispatchable(r.s, r.thread, r.level))
  {
    hide Inv, ScanFrom, FlatFrom, PendingExact, SameWaitQueues;
    var r := ScanFrom(s, 0, 0, 0);
    ScanFrame(s, 0, 0, 0);
    ScanKeeps(s, 0, 0, 0);
    var xs := FlatFrom(s, 0);
    if DeadPrefix(s.state, xs) < |xs| {
      ScanFindsFirstLive(s, 0, 0, 0);
      RunMemberAt(r.s, r.level, 0);
    } else {
      ScanEmpties(s, 0, 0, 0);
      ScanLeavesSpent(s, 0, 0, 0);
    }
  }

  /** SelectThread keeps the invariant, and an exact mask exact, on every path. */
  lemma SelectKeeps(s: Sched, force: bool, save: int)
    requires Inv(s)
    ensures var r := Select(s, force, save);
            r.Stopped? || (Inv(r.s) && (PendingExact(s) ==> PendingExact(r.s)))
  {
    hide Inv, PendingExact, SelectBest;
    if !SelectDeclines(s, force) && (Running(s) ==> ValidPriority(At(s.priority, s.running))) {
      ReadyKeeps(s);
      BestKeeps(Ready(s));
    }
  }

  // ---------------------------------------------------------------- who runs next

  /** Index, in pick order, of the first live thread once the running one is queued. */
  function Best(s: Sched): nat
    requires Running(s) ==> ValidPriority(At(s.priority, s.running))
  {
    DeadPrefix(Ready(s).state, Flat(Ready(s)))
  }

  lemma {:induction false} FlatFromLevel(s: Sched, p: nat, level: nat)
    requires p <= level <= 32 && EmptyBelow(s, level)
    ensures FlatFrom(s, p) == FlatFrom(s, level)
    decreases level - p
  {
    if p < level { FlatFromLevel(s, p + 1, level); }
  }

  lemma DispatchFlat(s: Sched, p: nat)
    requires p < 32 && EmptyBelow(s, p) && RunSeq(s, p) != []
    ensures Flat(s) != [] && Flat(Dispatch(s, RunSeq(s, p)[0], p)) == Flat(s)[1..]
  {
    var s' := Dispatch(s, RunSeq(s, p)[0], p);
    forall r | 0 <= r < 32 && r != p ensures RunSeq(s', r) == RunSeq(s, r) {
      assert RunQ(r) != RunQ(p);
    }
    FlatPop(s, s', p);
    FlatFromLevel(s, 0, p);
    FlatFromLevel(s', 0, p);
  }

  /** The outcome hands over to xs[k] and leaves xs[k + 1..] queued. */
  ghost predicate HandsOver(r: Outcome, xs: seq<Ptr>, k: nat)
    requires k < |xs|
  {
    && r.Switched?
    && r.to == r.s.running == r.s.current == xs[k]
    && At(r.s.state, r.to) == RUNNING && At(r.s.queue, r.to) == 0
    && Flat(r.s) == xs[k + 1..]
  }

  lemma ScanPicks(s: Sched)
    requires Inv(s) && DeadPrefix(s.state, Flat(s)) < |Flat(s)|
    ensures var k, r := DeadPrefix(s.state, Flat(s)), ScanFrom(s, 0, 0, 0);
            && r.thread == Flat(s)[k] && r.thread != 0 && 0 <= r.level < 32
            && EmptyBelow(r.s, r.level)
            && RunSeq(r.s, r.level) != [] && RunSeq(r.s, r.level)[0] == r.thread
            && Flat(r.s) == Flat(s)[k..]
  {
    ScanFindsFirstLive(s, 0, 0, 0);
    hide Inv, ScanFrom;
    var level := FlatElement(s, 0, DeadPrefix(s.state, Flat(s)));
  }

  lemma DropOneMore(xs: seq<Ptr>, k: nat)
    requires k < |xs|
    ensures xs[k..][1..] == xs[k + 1..]
  {
  }

  /** The loop and the hand-over, from a state with a live queued thread. */
  lemma BestPicks(s: Sched)
    requires Inv(s) && DeadPrefix(s.state, Flat(s)) < |Flat(s)|
    ensures HandsOver(SelectBest(s), Flat(s), DeadPrefix(s.state, Flat(s)))
  {
    hide Inv, RunSeq, FlatFrom, EmptyBelow;
    var k := DeadPrefix(s.state, Flat(s));
    ReschedFree(s, 0);
    ScanPicks(s.(resched := 0));
    var r := ScanFrom(s.(resched := 0), 0, 0, 0);
    hide ScanFrom;
    var level := FlatElement(s, 0, k);
    DispatchFlat(r.s, r.level);
    DropOneMore(Flat(s), k);
    hide Flat;
  }

  /** Every queued thread sits at a level whose mask bit is set, and its priority
      is that level; so pick order is order of urgency. */
  lemma {:induction false} FlatElement(s: Sched, p: nat, i: nat) returns (level: nat)
    requires Inv(s) && p <= 32 && i < |FlatFrom(s, p)|
    ensures p <= level < 32 && s.pending[level]
    ensures RunMember(s, level, FlatFrom(s, p)[i]) && FlatFrom(s, p)[i] != 0
    ensures FlatFrom(s, p)[i] in RunSeq(s, level)
    ensures forall j :: i <= j < |FlatFrom(s, p)| ==>
              At(s.priority, FlatFrom(s, p)[j]) >= level
    decreases 32 - p
  {
    hide Inv;
    FlatUnfold(s, p);
    var n := |RunSeq(s, p)|;
    forall j | i <= j < n ensures At(s.priority, FlatFrom(s, p)[j]) >= p {
      RunMemberAt(s, p, j);
    }
    if i < n {
      level := p;
      RunMemberAt(s, p, i);
      Covered(s, p);
      forall j | n <= j < |FlatFrom(s, p)| ensures At(s.priority, FlatFrom(s, p)[j]) >= p {
        var l := FlatElement(s, p + 1, j - n);
      }
    } else {
      level := FlatElement(s, p + 1, i - n);
      forall j | i <= j < |FlatFrom(s, p)| ensures At(s.priority, FlatFrom(s, p)[j]) >= level {
        assert FlatFrom(s, p)[j] == FlatFrom(s, p + 1)[j - n];
      }
    }
  }

  /** SelectThread runs the first live thread of q_0 ++ ... ++ q_31, taken after the
      running thread went to the tail of its level. What is left queued is what
      stood behind it: exactly the dead threads in front are purged. */
  lemma SelectRunsFirstLive(s: Sched, force: bool, save: int)
    requires Inv(s) && Selects(s, force, save)
    requires Best(s) < |Flat(Ready(s))|
    ensures HandsOver(Select(s, force, save), Flat(Ready(s)), Best(s))
  {
    hide Inv, SelectBest, HandsOver, Flat, DeadPrefix;
    ReadyKeeps(s);
    BestPicks(Ready(s));
  }

  // ---------------------------------------------------------------- nobody more urgent waits

  /** No live queued thread is strictly more urgent than the running one. */
  ghost predicate RunsMostUrgent(s: Sched) {
    Running(s) ==> forall x | x in Flat(s) && !Dead(At(s.state, x)) ::
      At(s.priority, s.running) <= At(s.priority, x)
  }

  lemma DeclineIsSafe(s: Sched)
    requires Inv(s) && Running(s) && At(s.priority, s.running) <= Cntlzw(s.pending)
    ensures RunsMostUrgent(s)
  {
    hide Inv;
    forall x | x in Flat(s) ensures At(s.priority, s.running) <= At(s.priority, x) {
      var i :| 0 <= i < |Flat(s)| && Flat(s)[i] == x;
      var level := FlatElement(s, 0, i);
    }
  }

  /** Words no SelectThread call writes. */
  ghost predicate SameWords(s: Sched, r: Outcome) {
    !r.Stopped? ==>
    && r.s.priority == s.priority && r.s.suspend == s.suspend && r.s.base == s.base
    && r.s.idle == s.idle && r.s.mapped == s.mapped
    && (if r.Switched? then r.s.running == r.s.current == r.to
        else r.s.running == s.running && r.s.current == s.current)
  }

  lemma BestFrame(s: Sched)
    requires Inv(s)
    ensures SameWords(s, SelectBest(s))
  {
    hide Inv, ScanFrom, SameWaitQueues, PendingExact, Flat, RunSeq;
    ReschedFree(s, 0);
    ScanFrame(s.(resched := 0), 0, 0, 0);
  }

  lemma SelectFrame(s: Sched, force: bool, save: int)
    requires Inv(s)
    ensures SameWords(s, Select(s, force, save))
  {
    hide Inv, SelectBest;
    if !SelectDeclines(s, force) && (Running(s) ==> ValidPriority(At(s.priority, s.running))) {
      ReadyKeeps(s);
      BestFrame(Ready(s));
    }
  }

  lemma BestStates(s: Sched)
    requires Inv(s)
    ensures var r := SelectBest(s); r.Switched? ==> r.s.state == s.state[r.to := RUNNING]
  {
    hide Inv, ScanFrom, SameWaitQueues, PendingExact, Flat, RunSeq;
    ReschedFree(s, 0);
    ScanFrame(s.(resched := 0), 0, 0, 0);
  }

  /** A switch changes two thread states at most: the old runner's and the new one's. */
  lemma SwitchStates(s: Sched, force: bool, save: int)
    requires Inv(s)
    ensures var r := Select(s, force, save);
            r.Switched? ==>
              && (Running(s) ==> ValidPriority(At(s.priority, s.running)))
              && r.s.state == Ready(s).state[r.to := RUNNING]
  {
    hide Inv, SelectBest;
    if !SelectDeclines(s, force) && (Running(s) ==> ValidPriority(At(s.priority, s.running))) {
      ReadyKeeps(s);
      BestStates(Ready(s));
    }
  }

  lemma DispatchWaitQueues(s: Sched, t: Ptr, p: nat)
    requires Inv(s) && p < 32
    ensures SameWaitQueues(s, Dispatch(s, t, p))
  {
    RunQueueKnown(s, p);
  }

  lemma BestWaitQueues(s: Sched)
    requires Inv(s)
    ensures var r := SelectBest(s); r.Stopped? || SameWaitQueues(s, r.s)
  {
    var s0 := s.(resched := 0);
    var r := ScanFrom(s0, 0, 0, 0);
    ReschedFree(s, 0);
    ScanFrame(s0, 0, 0, 0);
    ScanKeeps(s0, 0, 0, 0);
    if 0 <= r.level < 32 {
      DispatchWaitQueues(r.s, r.thread, r.level);
    }
    hide Inv, ScanFrom, Dispatch, IsRunQ;
  }

  /** SelectThread leaves every wait queue alone. */
  lemma SelectWaitQueues(s: Sched, force: bool, save: int)
    requires Inv(s)
    ensures var r := Select(s, force, save); r.Stopped? || SameWaitQueues(s, r.s)
  {
    hide SelectBest;
    if !SelectDeclines(s, force) && (Running(s) ==> ValidPriority(At(s.priority, s.running))) {
      ReadyKeeps(s);
      BestWaitQueues(Ready(s));
      if Running(s) { RunQueueKnown(s, At(s.priority, s.running)); }
      hide Inv;
    }
  }

  /** Pick order is order of urgency. */
  lemma FlatUrgency(s: Sched, k: nat)
    requires Inv(s) && k < |Flat(s)|
    ensures forall j :: k <= j < |Flat(s)| ==> At(s.priority, Flat(s)[k]) <= At(s.priority, Flat(s)[j])
  {
    hide Inv, FlatFrom;
    var level := FlatElement(s, 0, k);
  }

  /** The thread switched to is as urgent as every thread left queued. */
  lemma MostUrgentAfterSwitch(s: Sched, force: bool, save: int)
    requires Inv(s) && Selects(s, force, save) && Best(s) < |Flat(Ready(s))|
    ensures var r := Select(s, force, save); r.Switched? && RunsMostUrgent(r.s)
  {
    hide Inv, SelectBest, Flat, DeadPrefix, Select, PendingExact, Requeue, RunMember;
    var xs, k := Flat(Ready(s)), Best(s);
    ReadyKeeps(s);
    SelectRunsFirstLive(s, force, save);
    SelectFrame(s, force, save);
    RequeueKeepsPriority(s);
    FlatUrgency(Ready(s), k);
    LeftBehind(Select(s, force, save).s, xs, k);
  }

  lemma LeftBehind(s: Sched, xs: seq<Ptr>, k: nat)
    requires k < |xs| && s.running == xs[k] && Flat(s) == xs[k + 1..]
    requires forall j :: k <= j < |xs| ==> At(s.priority, xs[k]) <= At(s.priority, xs[j])
    ensures RunsMostUrgent(s)
  {
    hide Flat;
    forall x | x in Flat(s) ensures At(s.priority, xs[k]) <= At(s.priority, x) {
      var j :| 0 <= j < |Flat(s)| && Flat(s)[j] == x;
      assert xs[k + 1 + j] == x;
    }
  }

  lemma RequeueKeepsPriority(s: Sched)
    requires Running(s) ==> ValidPriority(At(s.priority, s.running))
    ensures Ready(s).priority == s.priority
  {
  }

  lemma NoLiveLeft(s: Sched)
    requires Inv(s) && NobodyRuns(s) && DeadPrefix(s.state, Flat(s)) == |Flat(s)|
    ensures var r := SelectBest(s); r.Stopped? || Flat(r.s) == []
  {
    hide Inv, ScanFrom;
    if Zero(s.pending) { return; }
    var s0 := s.(resched := 0);
    ReschedFree(s, 0);
    ScanEmpties(s0, 0, 0, 0);
    EmptyFlat(ScanFrom(s0, 0, 0, 0));
  }

  lemma EmptyFlat(r: Scan)
    requires EmptyBelow(r.s, 32)
    ensures Flat(r.s) == []
    ensures 0 <= r.level < 32 ==> Flat(Dispatch(r.s, r.thread, r.level)) == []
  {
    FlatFromLevel(r.s, 0, 32);
    if 0 <= r.level < 32 {
      var s' := Dispatch(r.s, r.thread, r.level);
      forall p | 0 <= p < 32 ensures RunSeq(s', p) == [] {
        assert RunSeq(r.s, p) == [];
      }
      FlatFromLevel(s', 0, 32);
    }
  }

  /** After any completed call with the scheduler enabled and the current context
      the running one, the running thread is as urgent as every live queued one. */
  lemma SelectRunsMostUrgent(s: Sched, force: bool, save: int)
    requires Inv(s) && s.idle == 0 && s.current == s.running
    ensures var r := Select(s, force, save); r.Stopped? || RunsMostUrgent(r.s)
  {
    var r := Select(s, force, save);
    if Selects(s, force, save) {
      ReadyKeeps(s);
      if Best(s) < |Flat(Ready(s))| {
        MostUrgentAfterSwitch(s, force, save);
      } else {
        NoLiveLeft(Ready(s));
      }
    } else if Running(s) && SelectDeclines(s, force) {
      DeclineIsSafe(s);
    }
  }

  // ---------------------------------------------------------------- no live thread left

  lemma PendingNonZero(s: Sched)
    requires Inv(s) && PendingExact(s)
    ensures Zero(s.pending) <==> Flat(s) == []
  {
    if Flat(s) == [] {
      if !Zero(s.pending) {
        var p :| 0 <= p < 32 && s.pending[p];
        FlatContains(s, 0, p, RunSeq(s, p)[0]);
      }
    } else {
      hide Inv;
      var level := FlatElement(s, 0, 0);
    }
  }

  lemma {:induction false} FlatContains(s: Sched, p: nat, level: nat, t: Ptr)
    requires p <= level < 32 && t in RunSeq(s, level)
    ensures t in FlatFrom(s, p)
    decreases level - p
  {
    FlatUnfold(s, p);
    if p < level { FlatContains(s, p + 1, level, t); }
  }

  /** With nothing but dead threads queued the loop purges them all, yet leaves the
      last one in nextThread: that dead thread is made RUNNING. */
  lemma BestRevives(s: Sched)
    requires Inv(s) && PendingExact(s) && AllDead(s.state, Flat(s)) && Flat(s) != []
    ensures HandsOver(SelectBest(s), Flat(s), |Flat(s)| - 1)
  {
    hide Inv, ScanFrom, FlatFrom, EmptyBelow, PendingExact;
    PendingNonZero(s);
    ScanRevives(s.(resched := 0), s);
    EmptyFlat(ScanFrom(s.(resched := 0), 0, 0, 0));
  }

  lemma ScanRevives(s0: Sched, s: Sched)
    requires Inv(s) && PendingExact(s) && AllDead(s.state, Flat(s)) && Flat(s) != []
    requires s0 == s.(resched := 0)
    ensures var r := ScanFrom(s0, 0, 0, 0);
            && r.thread == Flat(s)[|Flat(s)| - 1] && r.thread != 0 && 0 <= r.level < 32
            && EmptyBelow(r.s, 32)
  {
    ReschedFree(s, 0);
    hide Inv, ScanFrom, EmptyBelow;
    EmptyBelowZero(s0);
    ScanLast(s0, 0, 0, 0);
    ScanEmpties(s0, 0, 0, 0);
    var level := FlatElement(s, 0, |Flat(s)| - 1);
  }

  lemma EmptyBelowZero(s: Sched)
    ensures EmptyBelow(s, 0)
  {
  }

  /** Index of the thread the loop ends with: the first live one, else the last. */
  function Chosen(s: Sched): int
    requires Running(s) ==> ValidPriority(At(s.priority, s.running))
  {
    var n := |Flat(Ready(s))|;
    if Best(s) < n then Best(s) else n - 1
  }

  /** The complete outcome of a call that reaches the loop. With an exact mask it
      stops at the idle-poll boundary when nothing is queued and otherwise hands
      over to the chosen thread, having purged just the dead threads before it. */
  lemma SelectOutcome(s: Sched, force: bool, save: int)
    requires Inv(s) && PendingExact(s) && Selects(s, force, save)
    ensures var xs, r := Flat(Ready(s)), Select(s, force, save);
            if xs == [] then r.Stopped? else HandsOver(r, xs, Chosen(s))
    ensures forall i :: 0 <= i < Chosen(s) ==> Dead(At(Ready(s).state, Flat(Ready(s))[i]))
  {
    hide Inv, PendingExact, HandsOver, Flat;
    var s1 := Ready(s);
    ReadyKeeps(s);
    PendingNonZero(s1);
    if Flat(s1) != [] {
      if Best(s) < |Flat(s1)| {
        SelectRunsFirstLive(s, force, save);
      } else {
        BestRevives(s1);
      }
    }
  }

  /** SelectThread makes a dead thread RUNNING exactly when threads are queued and
      all of them are dead; it is then the last one in pick order. */
  lemma DeadThreadRunsIff(s: Sched, force: bool, save: int)
    requires Inv(s) && PendingExact(s) && Selects(s, force, save)
    ensures var xs, r := Flat(Ready(s)), Select(s, force, save);
            (r.Switched? && Dead(At(Ready(s).state, r.to)))
            <==> xs != [] && AllDead(Ready(s).state, xs)
  {
    hide Inv, PendingExact, Flat;
    SelectOutcome(s, force, save);
    var xs := Flat(Ready(s));
    if Best(s) < |xs| { assert !Dead(At(Ready(s).state, xs[Best(s)])); }
  }

  // ---------------------------------------------------------------- conservation

  /** The threads that are running or ready to. */
  ghost function Runnable(s: Sched): multiset<Ptr> {
    multiset(Flat(s)) + (if Running(s) then multiset{s.running} else multiset{})
  }

  lemma FlatEnd(s: Sched)
    ensures FlatFrom(s, 32) == []
  {
  }

  lemma RequeueSeq(s: Sched, r: nat)
    requires ValidPriority(At(s.priority, s.running)) && r < 32
    ensures RunSeq(Requeue(s), r) ==
            RunSeq(s, r) + (if r == At(s.priority, s.running) then [s.running] else [])
  {
  }

  lemma {:induction false} RequeueFlat(s: Sched, p: nat)
    requires ValidPriority(At(s.priority, s.running)) && p <= 32
    ensures multiset(FlatFrom(Requeue(s), p)) ==
            multiset(FlatFrom(s, p)) +
            (if p <= At(s.priority, s.running) then multiset{s.running} else multiset{})
    decreases 32 - p
  {
    hide Requeue, FlatFrom, RunSeq;
    var s' := Requeue(s);
    if p == 32 {
      FlatEnd(s);
      FlatEnd(s');
    } else {
      RequeueFlat(s, p + 1);
      RequeueSeq(s, p);
      FlatUnfold(s, p);
      FlatUnfold(s', p);
    }
  }

  /** Every thread that was running or ready still is, except the purged ones, and
      those were dead. */
  lemma SelectConserves(s: Sched, force: bool, save: int)
    requires Inv(s) && PendingExact(s)
    ensures var r := Select(s, force, save);
            if r.Stopped? then true
            else if Selects(s, force, save) then
              && 0 <= Chosen(s) < |Flat(Ready(s))|
              && Runnable(s) == Runnable(r.s) + multiset(Flat(Ready(s))[..Chosen(s)])
              && (forall i :: 0 <= i < Chosen(s) ==> Dead(At(Ready(s).state, Flat(Ready(s))[i])))
            else Runnable(r.s) == Runnable(s)
  {
    hide Inv, PendingExact, Flat, SelectBest;
    if !SelectDeclines(s, force) && (Running(s) ==> ValidPriority(At(s.priority, s.running))) {
      ReadyRunnable(s);
      if Selects(s, force, save) {
        SelectOutcome(s, force, save);
        if !Select(s, force, save).Stopped? {
          ReadyKeeps(s);
          var level := FlatElementOf(Ready(s), Chosen(s));
          HandOverRunnable(Select(s, force, save), Flat(Ready(s)), Chosen(s));
        }
      }
    }
  }

  lemma FlatElementOf(s: Sched, i: nat) returns (level: nat)
    requires Inv(s) && i < |Flat(s)|
    ensures level < 32 && RunMember(s, level, Flat(s)[i]) && Flat(s)[i] != 0
  {
    level := FlatElement(s, 0, i);
  }

  lemma ReadyRunnable(s: Sched)
    requires Inv(s) && (Running(s) ==> ValidPriority(At(s.priority, s.running)))
    ensures Runnable(s) == multiset(Flat(Ready(s))) == Runnable(Ready(s))
  {
    ReadyKeeps(s);
    hide Inv, FlatFrom;
    if Running(s) {
      RequeueFlat(s, 0);
      hide Requeue;
      assert !Running(Ready(s));
    }
  }

  lemma HandOverRunnable(r: Outcome, xs: seq<Ptr>, k: nat)
    requires k < |xs| && HandsOver(r, xs, k) && xs[k] != 0
    ensures multiset(xs) == Runnable(r.s) + multiset(xs[..k])
  {
    hide Flat;
    assert xs == xs[..k] + [xs[k]] + xs[k + 1..];
  }

  // ---------------------------------------------------------------- read off the words

  /** No set level is more urgent than the priority pr. */
  ghost predicate NothingBefore(s: Sched, pr: int) {
    pr <= 32 && forall p :: 0 <= p < 32 && s.pending[p] ==> pr <= p
  }

  lemma LeadingZeros(s: Sched, pr: int)
    ensures pr <= Cntlzw(s.pending) <==> NothingBefore(s, pr)
  {
  }

  lemma ScanReschedule(s: Sched, p: nat, last: Ptr, level: int)
    requires p <= 32
    ensures ScanFrom(s, p, last, level).s.resched == s.resched
    decreases 32 - p, |RunSeq(s, p)|
  {
    if p < 32 && s.pending[p] {
      if RunSeq(s, p) == [] {
        ScanReschedule(ClearPending(s, p), p + 1, 0, p);
      } else {
        var head := RunSeq(s, p)[0];
        if Dead(At(s.state, head)) && At(s.queue, head) == RunQ(p) {
          hide Dead;
          ScanReschedule(Remove(s, head), p, head, p);
        }
      }
    } else if p < 32 {
      ScanReschedule(s, p + 1, last, level);
    }
  }

  /** The words of the runner after it was put back: READY at the tail of its level, and
      a reschedule requested; nothing else is written. */
  ghost predicate PutBack(s: Sched, s': Sched) {
    var t, p := s.running, At(s.priority, s.running);
    && s' == s.(state := s'.state, queue := s'.queue, q := s'.q, pending := s'.pending, resched := 1)
    && At(s'.state, t) == READY && At(s'.queue, t) == RunQ(p) && RunSeq(s', p) == RunSeq(s, p) + [t]
    && (forall x: Ptr :: x != t ==> At(s'.state, x) == At(s.state, x) && At(s'.queue, x) == At(s.queue, x))
    && (forall r :: 0 <= r < 32 && r != p ==> RunSeq(s', r) == RunSeq(s, r))
    && (forall r :: 0 <= r < 32 ==> (s'.pending[r] <==> s.pending[r] || r == p))
  }

  lemma RequeuePutsBack(s: Sched)
    requires ValidPriority(At(s.priority, s.running))
    ensures PutBack(s, Requeue(s))
  {
    forall r | 0 <= r < 32 && r != At(s.priority, s.running) ensures RunSeq(Requeue(s), r) == RunSeq(s, r) {
      RequeueSeq(s, r);
    }
  }

  /** Every exit of SelectThread, told from the words it reads: with the scheduler off, no
      current context that is the running one, or an unforced call of a RUNNING thread
      that no set level precedes, it returns and nothing is written; an unmapped or badly
      placed runner stops; OSSaveContext's second return leaves the runner put back; and
      what gets past all that and does not stop has the reschedule word cleared. */
  lemma SelectExits(s: Sched, force: bool, save: int)
    ensures var r, t := Select(s, force, save), s.running;
            var runs := At(s.state, t) == RUNNING;
            if s.idle >= 1 || s.current != t || t == 0 then r == Returned(s)
            else if t !in s.mapped then r == Stopped
            else if runs && !force && NothingBefore(s, At(s.priority, t)) then r == Returned(s)
            else if runs && !(0 <= At(s.priority, t) <= 31) then r == Stopped
            else if save != 0 then r.Returned? && (if runs then PutBack(s, r.s) else r.s == s)
            else r.Stopped? || r.s.resched == 0
  {
    LeadingZeros(s, At(s.priority, s.running));
    if Running(s) && ValidPriority(At(s.priority, s.running)) { RequeuePutsBack(s); }
    hide PutBack, Requeue, Cntlzw;
    if !SelectDeclines(s, force) && (Running(s) ==> ValidPriority(At(s.priority, s.running))) {
      BestClears(Ready(s));
    }
  }

  lemma BestClears(s: Sched)
    ensures var r := SelectBest(s); r.Stopped? || r.s.resched == 0
  {
    ScanReschedule(s.(resched := 0), 0, 0, 0);
    hide ScanFrom;
  }
}

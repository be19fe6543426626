/** SelectThread's selection loop: it keeps the scheduler invariant and walks the
    run queues q_0 ++ ... ++ q_31, purging dead threads, up to the first live one. */
module SelectLoop {
  import opened Guest
  import opened Scheduler
  import opened Relinking

  /** Words SelectThread's selection loop never writes. */
  ghost predicate SameButQueues(s: Sched, s': Sched) {
    s' == s.(q := s'.q, queue := s'.queue, pending := s'.pending)
  }

  ghost predicate SameWaitQueues(s: Sched, s': Sched) {
    && s'.q.Keys == s.q.Keys
    && forall a | a in s.q && !IsRunQ(a) :: s'.q[a] == s.q[a]
  }

  lemma RemoveHead(s: Sched, p: nat)
    requires Inv(s) && p < 32 && RunSeq(s, p) != []
    ensures At(s.queue, RunSeq(s, p)[0]) == RunQ(p)
    ensures Remove(s, RunSeq(s, p)[0]) == DropHead(s, p)
  {
    RunQueueKnown(s, p);
    RunMemberAt(s, p, 0);
  }

  lemma RemoveHeadKeeps(s: Sched, p: nat)
    requires Inv(s) && p < 32 && RunSeq(s, p) != []
    ensures Inv(Remove(s, RunSeq(s, p)[0]))
    ensures forall r :: 0 <= r < 32 ==>
              RunSeq(Remove(s, RunSeq(s, p)[0]), r) == if r == p then RunSeq(s, p)[1..] else RunSeq(s, r)
  {
    RemoveHead(s, p);
    DropHeadKeeps(s, p);
    RelinkRunSeq(s, p, RunSeq(s, p)[1..], RunSeq(s, p)[0], 0);
    var s' := DropHead(s, p);
    hide Inv, Remove;
    forall r | 0 <= r < 32 ensures RunSeq(s', r) == if r == p then RunSeq(s, p)[1..] else RunSeq(s, r) {
      assert RunSeq(s', r) == RunSeq(Relink(s, RunQ(p), RunSeq(s, p)[1..], RunSeq(s, p)[0], 0), r);
    }
  }

  lemma ClearEmptyKeeps(s: Sched, p: nat)
    requires Inv(s) && p < 32 && RunSeq(s, p) == []
    ensures Inv(ClearPending(s, p))
    ensures forall r :: 0 <= r < 32 ==> RunSeq(ClearPending(s, p), r) == RunSeq(s, r)
  {
    var s' := ClearPending(s, p);
    assert forall r :: 0 <= r < 32 ==> RunSeq(s', r) == RunSeq(s, r);
    assert RunQueuesOk(s') by {
      forall r, i | 0 <= r < 32 && 0 <= i < |RunSeq(s', r)| ensures RunMember(s', r, RunSeq(s', r)[i]) {
        assert RunMember(s, r, RunSeq(s, r)[i]);
      }
    }
  }

  /** The selection loop keeps the invariant. */
  lemma {:induction false} ScanKeeps(s: Sched, p: nat, last: Ptr, level: int)
    requires Inv(s) && p <= 32
    ensures Inv(ScanFrom(s, p, last, level).s)
    decreases 32 - p, |RunSeq(s, p)|
  {
    hide Inv;
    if p == 32 {
    } else if !s.pending[p] {
      ScanKeeps(s, p + 1, last, level);
    } else if RunSeq(s, p) == [] {
      ClearEmptyKeeps(s, p);
      ScanKeeps(ClearPending(s, p), p + 1, 0, p);
    } else {
      var head := RunSeq(s, p)[0];
      if Dead(At(s.state, head)) {
        RemoveHead(s, p);
        RemoveHeadKeeps(s, p);
        ScanKeeps(Remove(s, head), p, head, p);
      }
    }
  }

  /** What the loop may write: run queues, the mask and the queue words of the
      threads it purges. */
  ghost predicate ScanWrites(s: Sched, s': Sched) {
    && SameButQueues(s, s')
    && SameWaitQueues(s, s')
    && (PendingExact(s) ==> PendingExact(s'))
  }

  lemma PurgeWrites(s: Sched, p: nat)
    requires Inv(s) && p < 32 && RunSeq(s, p) != []
    ensures ScanWrites(s, Remove(s, RunSeq(s, p)[0]))
  {
    RemoveHead(s, p);
    RunQLevel(p);
    var s' := Remove(s, RunSeq(s, p)[0]);
    if PendingExact(s) {
      forall r | 0 <= r < 32 ensures s'.pending[r] <==> RunSeq(s', r) != [] {
        assert r != p ==> RunQ(r) != RunQ(p);
      }
    }
  }

  lemma ClearWrites(s: Sched, p: nat)
    requires p < 32 && RunSeq(s, p) == []
    ensures ScanWrites(s, ClearPending(s, p))
  {
  }

  lemma ScanWritesReflexive(s: Sched)
    ensures ScanWrites(s, s)
  {
  }

  lemma ScanWritesTransitive(s: Sched, s1: Sched, s2: Sched)
    requires ScanWrites(s, s1) && ScanWrites(s1, s2)
    ensures ScanWrites(s, s2)
  {
  }

  lemma {:induction false} ScanFrame(s: Sched, p: nat, last: Ptr, level: int)
    requires Inv(s) && p <= 32
    ensures ScanWrites(s, ScanFrom(s, p, last, level).s)
    decreases 32 - p, |RunSeq(s, p)|
  {
    hide Inv, ScanWrites;
    if p == 32 {
      ScanWritesReflexive(s);
    } else if !s.pending[p] {
      ScanFrame(s, p + 1, last, level);
    } else if RunSeq(s, p) == [] {
      ClearEmptyKeeps(s, p);
      ClearWrites(s, p);
      ScanFrame(ClearPending(s, p), p + 1, 0, p);
      ScanWritesTransitive(s, ClearPending(s, p), ScanFrom(s, p, last, level).s);
    } else {
      var head := RunSeq(s, p)[0];
      if Dead(At(s.state, head)) {
        RemoveHead(s, p);
        RemoveHeadKeeps(s, p);
        PurgeWrites(s, p);
        ScanFrame(Remove(s, head), p, head, p);
        ScanWritesTransitive(s, Remove(s, head), ScanFrom(s, p, last, level).s);
      } else {
        ScanWritesReflexive(s);
      }
    }
  }

  // ------------------------------------------------ the run queues as one sequence

  /** q_p ++ q_(p+1) ++ ... ++ q_31: threads in the order they would be picked. */
  function FlatFrom(s: Sched, p: nat): seq<Ptr>
    requires p <= 32
    decreases 32 - p
  {
    if p == 32 then [] else RunSeq(s, p) + FlatFrom(s, p + 1)
  }

  function Flat(s: Sched): seq<Ptr> {
    FlatFrom(s, 0)
  }

  lemma {:induction false} FlatFrame(s: Sched, s': Sched, p: nat)
    requires p <= 32
    requires forall r :: p <= r < 32 ==> RunSeq(s', r) == RunSeq(s, r)
    ensures FlatFrom(s', p) == FlatFrom(s, p)
    decreases 32 - p
  {
    if p < 32 { FlatFrame(s, s', p + 1); }
  }

  /** Number of dead threads in front of the first live one. */
  function DeadPrefix(state: map<Ptr, int>, xs: seq<Ptr>): (k: nat)
    ensures k <= |xs|
    ensures forall i :: 0 <= i < k ==> Dead(At(state, xs[i]))
    ensures k < |xs| ==> !Dead(At(state, xs[k]))
  {
    if xs == [] || !Dead(At(state, xs[0])) then 0 else 1 + DeadPrefix(state, xs[1..])
  }

  ghost predicate EmptyBelow(s: Sched, p: nat) {
    forall r :: 0 <= r < p && r < 32 ==> RunSeq(s, r) == []
  }

  lemma ConcatTail<T>(a: seq<T>, b: seq<T>)
    requires a != []
    ensures (a + b)[0] == a[0] && (a + b)[1..] == a[1..] + b
  {
  }

  lemma FlatUnfold(s: Sched, p: nat)
    requires p < 32
    ensures FlatFrom(s, p) == RunSeq(s, p) + FlatFrom(s, p + 1)
  {
  }

  lemma FlatPop(s: Sched, s': Sched, p: nat)
    requires p < 32 && RunSeq(s, p) != []
    requires RunSeq(s', p) == RunSeq(s, p)[1..]
    requires forall r :: p < r < 32 ==> RunSeq(s', r) == RunSeq(s, r)
    ensures FlatFrom(s, p) != [] && FlatFrom(s, p)[0] == RunSeq(s, p)[0]
    ensures FlatFrom(s', p) == FlatFrom(s, p)[1..]
  {
    hide FlatFrom, RunSeq;
    FlatFrame(s, s', p + 1);
    FlatUnfold(s, p);
    FlatUnfold(s', p);
    ConcatTail(RunSeq(s, p), FlatFrom(s, p + 1));
  }

  lemma PurgeFlat(s: Sched, p: nat)
    requires Inv(s) && p < 32 && RunSeq(s, p) != [] && Dead(At(s.state, RunSeq(s, p)[0]))
    ensures FlatFrom(s, p) != [] && FlatFrom(s, p)[0] == RunSeq(s, p)[0]
    ensures FlatFrom(Remove(s, RunSeq(s, p)[0]), p) == FlatFrom(s, p)[1..]
    ensures EmptyBelow(s, p) ==> EmptyBelow(Remove(s, RunSeq(s, p)[0]), p)
  {
    hide Inv, FlatFrom;
    RemoveHead(s, p);
    RemoveHeadKeeps(s, p);
    var s' := Remove(s, RunSeq(s, p)[0]);
    assert RunSeq(s', p) == RunSeq(s, p)[1..];
    FlatPop(s, s', p);
  }

  lemma Covered(s: Sched, p: nat)
    requires Inv(s) && p < 32 && RunSeq(s, p) != []
    ensures s.pending[p] && At(s.queue, RunSeq(s, p)[0]) == RunQ(p)
  {
    RunQLevel(p);
    assert RunSeq(s, p) == s.q[RunQ(p)];
  }

  lemma ScanSkips(s: Sched, p: nat, last: Ptr, level: int)
    requires p < 32 && RunSeq(s, p) == []
    ensures ScanFrom(s, p, last, level) ==
            if s.pending[p] then ScanFrom(ClearPending(s, p), p + 1, 0, p)
            else ScanFrom(s, p + 1, last, level)
  {
  }

  /** Where the loop stops, given the flattened queues it has still to walk. */
  ghost predicate StopsAtLive(s: Sched, xs: seq<Ptr>, r: Scan, p: nat)
    requires p <= 32
  {
    var k := DeadPrefix(s.state, xs);
    k < |xs| ==>
      && r.thread == xs[k]
      && p <= r.level < 32
      && EmptyBelow(r.s, r.level)
      && RunSeq(r.s, r.level) != [] && RunSeq(r.s, r.level)[0] == r.thread
      && FlatFrom(r.s, p) == xs[k..]
  }

  lemma StopsAfterSkip(s: Sched, s1: Sched, xs: seq<Ptr>, r: Scan, p: nat)
    requires p < 32 && s1.state == s.state && StopsAtLive(s1, xs, r, p + 1)
    ensures StopsAtLive(s, xs, r, p)
  {
    FlatUnfold(r.s, p);
  }

  lemma StopsAfterPurge(s: Sched, s1: Sched, xs: seq<Ptr>, r: Scan, p: nat)
    requires p < 32 && s1.state == s.state && xs != [] && Dead(At(s.state, xs[0]))
    requires StopsAtLive(s1, xs[1..], r, p)
    ensures StopsAtLive(s, xs, r, p)
  {
    DeadPrefixStep(s.state, xs);
  }

  /** The loop walks q_p ++ ... ++ q_31, drops the dead prefix and stops at the
      first live thread, which then heads its own level. */
  lemma {:induction false} ScanFindsFirstLive(s: Sched, p: nat, last: Ptr, level: int)
    requires Inv(s) && p <= 32 && EmptyBelow(s, p)
    ensures StopsAtLive(s, FlatFrom(s, p), ScanFrom(s, p, last, level), p)
    decreases 32 - p, |RunSeq(s, p)|, 1
  {
    hide Inv, Remove;
    if p == 32 {
    } else if RunSeq(s, p) == [] {
      FindsAfterSkip(s, p, last, level);
    } else {
      FlatUnfold(s, p);
      Covered(s, p);
      if Dead(At(s.state, RunSeq(s, p)[0])) {
        FindsAfterPurge(s, p, last, level);
      } else {
        assert FlatFrom(s, p)[0] == RunSeq(s, p)[0];
      }
    }
  }

  lemma {:induction false} FindsAfterSkip(s: Sched, p: nat, last: Ptr, level: int)
    requires Inv(s) && p < 32 && EmptyBelow(s, p) && RunSeq(s, p) == []
    ensures StopsAtLive(s, FlatFrom(s, p), ScanFrom(s, p, last, level), p)
    decreases 32 - p, 0, 0
  {
    hide Inv, EmptyBelow, StopsAtLive;
    var s1 := if s.pending[p] then ClearPending(s, p) else s;
    ScanSkips(s, p, last, level);
    FlatFrame(s, s1, p + 1);
    FlatUnfold(s, p);
    assert FlatFrom(s, p) == FlatFrom(s1, p + 1);
    EmptyNext(s, s1, p);
    ClearEmptyKeeps(s, p);
    ScanFindsFirstLive(s1, p + 1, if s.pending[p] then 0 else last, if s.pending[p] then p else level);
    StopsAfterSkip(s, s1, FlatFrom(s, p), ScanFrom(s, p, last, level), p);
  }

  lemma {:induction false} FindsAfterPurge(s: Sched, p: nat, last: Ptr, level: int)
    requires Inv(s) && p < 32 && EmptyBelow(s, p)
    requires RunSeq(s, p) != [] && Dead(At(s.state, RunSeq(s, p)[0]))
    ensures StopsAtLive(s, FlatFrom(s, p), ScanFrom(s, p, last, level), p)
    decreases 32 - p, |RunSeq(s, p)|, 0
  {
    hide Inv, Remove, EmptyBelow, ScanWrites, StopsAtLive;
    var head := RunSeq(s, p)[0];
    PurgeFlat(s, p);
    PurgeStep(s, p);
    RemoveWritesNoState(s, head);
    ScanFindsFirstLive(Remove(s, head), p, head, p);
    StopsAfterPurge(s, Remove(s, head), FlatFrom(s, p), ScanFrom(s, p, last, level), p);
  }

  lemma RemoveWritesNoState(s: Sched, t: Ptr)
    ensures Remove(s, t).state == s.state
  {
  }

  lemma DeadPrefixStep(state: map<Ptr, int>, xs: seq<Ptr>)
    requires xs != [] && Dead(At(state, xs[0]))
    ensures DeadPrefix(state, xs) == 1 + DeadPrefix(state, xs[1..])
  {
  }

  /** One purge, seen from the flattened queues. */
  lemma PurgeStep(s: Sched, p: nat)
    requires Inv(s) && p < 32 && RunSeq(s, p) != [] && Dead(At(s.state, RunSeq(s, p)[0]))
    ensures var s' := Remove(s, RunSeq(s, p)[0]);
            && Inv(s') && ScanWrites(s, s')
            && s.pending[p] && At(s.queue, RunSeq(s, p)[0]) == RunQ(p)
            && RunSeq(s', p) == RunSeq(s, p)[1..]
            && FlatFrom(s', p) == FlatFrom(s, p)[1..]
            && (EmptyBelow(s, p) ==> EmptyBelow(s', p))
  {
    hide Inv, ScanWrites, FlatFrom;
    RemoveHead(s, p);
    RemoveHeadKeeps(s, p);
    PurgeFlat(s, p);
    PurgeWrites(s, p);
    Covered(s, p);
  }

  predicate AllDead(state: map<Ptr, int>, xs: seq<Ptr>) {
    forall i :: 0 <= i < |xs| ==> Dead(At(state, xs[i]))
  }

  lemma EmptyNext(s: Sched, s1: Sched, p: nat)
    requires p < 32 && EmptyBelow(s, p) && RunSeq(s, p) == []
    requires forall r :: 0 <= r < 32 ==> RunSeq(s1, r) == RunSeq(s, r)
    ensures EmptyBelow(s1, p + 1)
  {
  }

  /** Without a live thread the loop empties every queue. */
  lemma {:induction false} ScanEmpties(s: Sched, p: nat, last: Ptr, level: int)
    requires Inv(s) && p <= 32 && EmptyBelow(s, p) && AllDead(s.state, FlatFrom(s, p))
    ensures EmptyBelow(ScanFrom(s, p, last, level).s, 32)
    decreases 32 - p, |RunSeq(s, p)|, 1
  {
    hide Inv, Remove;
    if p < 32 {
      if RunSeq(s, p) == [] {
        EmptiesAfterSkip(s, p, last, level);
      } else {
        FlatUnfold(s, p);
        assert FlatFrom(s, p)[0] == RunSeq(s, p)[0];
        PurgeStep(s, p);
        RemoveWritesNoState(s, RunSeq(s, p)[0]);
        ScanEmpties(Remove(s, RunSeq(s, p)[0]), p, RunSeq(s, p)[0], p);
      }
    }
  }

  lemma {:induction false} EmptiesAfterSkip(s: Sched, p: nat, last: Ptr, level: int)
    requires Inv(s) && p < 32 && EmptyBelow(s, p) && AllDead(s.state, FlatFrom(s, p))
    requires RunSeq(s, p) == []
    ensures EmptyBelow(ScanFrom(s, p, last, level).s, 32)
    decreases 32 - p, 0, 0
  {
    hide Inv, EmptyBelow;
    var s1 := if s.pending[p] then ClearPending(s, p) else s;
    ScanSkips(s, p, last, level);
    FlatFrame(s, s1, p + 1);
    FlatUnfold(s, p);
    assert FlatFrom(s, p) == FlatFrom(s1, p + 1);
    EmptyNext(s, s1, p);
    ClearEmptyKeeps(s, p);
    ScanEmpties(s1, p + 1, if s.pending[p] then 0 else last, if s.pending[p] then p else level);
  }

  /** ... and with an exact mask its nextThread variable is left holding the last
      thread it purged. */
  lemma {:induction false} ScanLast(s: Sched, p: nat, last: Ptr, level: int)
    requires Inv(s) && p <= 32 && AllDead(s.state, FlatFrom(s, p)) && PendingExact(s)
    ensures var xs, r := FlatFrom(s, p), ScanFrom(s, p, last, level);
            if xs == [] then r.thread == last && r.level == level
            else r.thread == xs[|xs| - 1] && 0 <= r.level < 32
    decreases 32 - p, |RunSeq(s, p)|
  {
    hide Inv, Remove;
    if p == 32 {
    } else if RunSeq(s, p) == [] {
      FlatUnfold(s, p);
      assert FlatFrom(s, p) == FlatFrom(s, p + 1);
      ScanLast(s, p + 1, last, level);
    } else {
      FlatUnfold(s, p);
      assert FlatFrom(s, p)[0] == RunSeq(s, p)[0];
      PurgeStep(s, p);
      ScanLast(Remove(s, RunSeq(s, p)[0]), p, RunSeq(s, p)[0], p);
    }
  }

  /** A thread the loop has purged: dead and in no queue. */
  predicate Spent(s: Sched, t: Ptr, level: int) {
    t != 0 ==>
      Dead(At(s.state, t)) && At(s.queue, t) == 0 && At(s.suspend, t) == 0 && 0 <= level < 32
  }

  lemma SpentStays(s: Sched, p: nat, t: Ptr, level: int)
    requires Inv(s) && p < 32 && Spent(s, t, level)
    ensures Spent(ClearPending(s, p), t, level)
  {
  }

  lemma SpentByPurge(s: Sched, p: nat)
    requires Inv(s) && p < 32 && RunSeq(s, p) != [] && Dead(At(s.state, RunSeq(s, p)[0]))
    ensures Spent(Remove(s, RunSeq(s, p)[0]), RunSeq(s, p)[0], p)
  {
    RunMemberAt(s, p, 0);
    RemoveHead(s, p);
  }

  /** Whatever nextThread holds after a fruitless walk is dead and in no queue. */
  lemma {:induction false} ScanLeavesSpent(s: Sched, p: nat, last: Ptr, level: int)
    requires Inv(s) && p <= 32 && AllDead(s.state, FlatFrom(s, p)) && Spent(s, last, level)
    ensures var r := ScanFrom(s, p, last, level); Spent(r.s, r.thread, r.level)
    decreases 32 - p, |RunSeq(s, p)|
  {
    hide Inv, ScanWrites, Remove, SameWaitQueues, Spent;
    if p == 32 {
    } else if RunSeq(s, p) == [] {
      var s1 := if s.pending[p] then ClearPending(s, p) else s;
      ScanSkips(s, p, last, level);
      FlatFrame(s, s1, p + 1);
      FlatUnfold(s, p);
      assert FlatFrom(s, p) == FlatFrom(s1, p + 1);
      ClearEmptyKeeps(s, p);
      SpentNull(s1, p);
      SpentStays(s, p, last, level);
      ScanLeavesSpent(s1, p + 1, if s.pending[p] then 0 else last, if s.pending[p] then p else level);
    } else {
      FlatUnfold(s, p);
      var head := RunSeq(s, p)[0];
      assert FlatFrom(s, p)[0] == head;
      PurgeStep(s, p);
      RemoveWritesNoState(s, head);
      SpentByPurge(s, p);
      ScanLeavesSpent(Remove(s, head), p, head, p);
    }
  }

  lemma SpentNull(s: Sched, level: int)
    ensures Spent(s, 0, level)
  {
  }

  // ---------------------------------------------------------------- hand-over

  /** The thread SelectThread may hand over to: the head of its level, or a
      just-purged one once every level is empty. */
  predicate Dispatchable(s: Sched, t: Ptr, p: int)
    requires 0 <= p < 32
  {
    && t != 0 && At(s.suspend, t) == 0
    && if RunSeq(s, p) == [] then Dead(At(s.state, t)) && At(s.queue, t) == 0
       else RunSeq(s, p)[0] == t
  }

  lemma DispatchKeeps(s: Sched, t: Ptr, p: int)
    requires Inv(s) && NobodyRuns(s) && 0 <= p < 32 && Dispatchable(s, t, p)
    ensures Inv(Dispatch(s, t, p))
    ensures PendingExact(s) ==> PendingExact(Dispatch(s, t, p))
  {
    var s1 := if RunSeq(s, p) == [] then Relink(ClearPending(s, p), RunQ(p), [], t, 0) else DropHead(s, p);
    if RunSeq(s, p) == [] {
      DispatchSpent(s, t, p);
    } else {
      DropHeadKeeps(s, p);
    }
    assert NobodyRuns(s1);
    hide Inv, PendingExact, Unlinked;
    PublishKeeps(s1, t);
    var s2 := s1.(running := t, current := t);
    assert Unlinked(s2, t) by { UnlinkedSame(s1, s2, t); }
    RestateKeeps(s2, t, RUNNING);
    assert Dispatch(s, t, p) == s2.(state := s2.state[t := RUNNING]);
  }

  lemma UnlinkedSame(s: Sched, s': Sched, t: Ptr)
    requires s'.q == s.q && Unlinked(s, t)
    ensures Unlinked(s', t)
  {
  }

  lemma DispatchSpent(s: Sched, t: Ptr, p: nat)
    requires Inv(s) && p < 32 && RunSeq(s, p) == [] && At(s.queue, t) == 0
    ensures var s1 := Relink(ClearPending(s, p), RunQ(p), [], t, 0);
            Inv(s1) && Unlinked(s1, t) && (PendingExact(s) ==> PendingExact(s1))
  {
    RunQueueKnown(s, p);
    ClearEmptyKeeps(s, p);
    ClearWrites(s, p);
    var s0 := ClearPending(s, p);
    assert s0.q[RunQ(p) := []] == s0.q;
    UnnameKeeps(s0, t);
  }

  lemma ReschedFree(s: Sched, c: int)
    requires Inv(s)
    ensures Inv(s.(resched := c)) && Flat(s.(resched := c)) == Flat(s)
    ensures forall p :: 0 <= p < 32 ==> RunSeq(s.(resched := c), p) == RunSeq(s, p)
    ensures PendingExact(s) ==> PendingExact(s.(resched := c))
  {
    var s' := s.(resched := c);
    forall p, i | 0 <= p < 32 && 0 <= i < |RunSeq(s', p)| ensures RunMember(s', p, RunSeq(s', p)[i]) {
      RunMemberAt(s, p, i);
    }
    FlatFrame(s, s', 0);
  }

  lemma RequeueKeeps(s: Sched)
    requires Inv(s) && Running(s) && ValidPriority(At(s.priority, s.running))
    ensures Inv(Requeue(s)) && NobodyRuns(Requeue(s))
    ensures PendingExact(s) ==> PendingExact(Requeue(s))
  {
    var p, t := At(s.priority, s.running), s.running;
    UnqueuedUnlinked(s, t);
    RestateKeeps(s, t, READY);
    var s1 := s.(state := s.state[t := READY]);
    UnlinkedSame(s, s1, t);
    forall x: Ptr ensures At(s1.state, x) != RUNNING {
      assert At(s.state, x) == RUNNING ==> x == t;
    }
    hide Inv, PendingExact, Unlinked;
    JoinTailKeeps(s1, t, p);
    var s2 := Relink(s1, RunQ(p), RunSeq(s1, p) + [t], t, RunQ(p)).(pending := s1.pending[p := true]);
    assert RunSeq(s1, p) == RunSeq(s, p);
    ReschedFree(s2, 1);
    assert Requeue(s) == s2.(resched := 1);
  }
}

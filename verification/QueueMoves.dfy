/** Single moves on the thread queues, each of which keeps the scheduler invariant:
    taking a waiting thread out, repricing a thread that is in no queue, and the
    priority insertions of the sleep and resume bridges. */
module QueueMoves {
  import opened Guest
  import opened Scheduler
  import opened Relinking

  // ---------------------------------------------------------------- sorted insertion

  /** The insertion is stable: everything of equal or greater urgency stays in front,
      everything else stays behind, both in their old order. */
  lemma {:induction false} SortedInsertStable(xs: seq<Ptr>, priority: map<Ptr, int>, pr: int, t: Ptr)
    requires Sorted(xs, priority)
    ensures var k := InsertionPoint(xs, priority, pr);
            && SortedInsert(xs, priority, pr, t) == xs[..k] + [t] + xs[k..]
            && (forall i :: 0 <= i < |xs| ==> (i < k <==> At(priority, xs[i]) <= pr))
    ensures At(priority, t) == pr ==> Sorted(SortedInsert(xs, priority, pr, t), priority)
  {
    var k := InsertionPoint(xs, priority, pr);
    var ys := SortedInsert(xs, priority, pr, t);
    if At(priority, t) == pr {
      forall i, j | 0 <= i < j < |ys| ensures At(priority, ys[i]) <= At(priority, ys[j]) {
        assert ys[i] == if i < k then xs[i] else if i == k then t else xs[i - 1];
        assert ys[j] == if j < k then xs[j] else if j == k then t else xs[j - 1];
      }
    }
  }

  /** In a queue with nobody less urgent the sorted insertion is a tail append, so a
      resumed thread queues up exactly where a preempted one would. */
  lemma {:induction false} SortedInsertAppends(xs: seq<Ptr>, priority: map<Ptr, int>, pr: int, t: Ptr)
    requires forall i :: 0 <= i < |xs| ==> At(priority, xs[i]) <= pr
    ensures SortedInsert(xs, priority, pr, t) == xs + [t]
  {
    assert InsertionPoint(xs, priority, pr) == |xs|;
  }

  /** Taking the inserted thread out again gives back the original sequence. */
  lemma WithoutInserted(xs: seq<Ptr>, k: nat, t: Ptr)
    requires k <= |xs| && t !in xs
    ensures Without(xs[..k] + [t] + xs[k..], t) == xs
  {
    var ys := xs[..k] + [t] + xs[k..];
    assert ys[k] == t && ys[..k] == xs[..k] && ys[k + 1..] == xs[k..];
    WithoutAt(ys, t, k);
    assert xs == xs[..k] + xs[k..];
  }

  // ---------------------------------------------------------------- one move at a time

  lemma RepriceKeeps(s: Sched, t: Ptr, pr: int)
    requires Inv(s) && Unlinked(s, t)
    ensures var s' := s.(priority := s.priority[t := pr]); Inv(s') && Unlinked(s', t)
    ensures PendingExact(s) ==> PendingExact(s.(priority := s.priority[t := pr]))
  {
    var s' := s.(priority := s.priority[t := pr]);
    forall a, i | a in s.q && 0 <= i < |s.q[a]|
      ensures At(s'.priority, s.q[a][i]) == At(s.priority, s.q[a][i])
    {
      assert s.q[a][i] in s.q[a];
    }
    forall p, i | 0 <= p < 32 && 0 <= i < |RunSeq(s', p)| ensures RunMember(s', p, RunSeq(s', p)[i]) {
      RunMemberAt(s, p, i);
      UnlinkedOffRuns(s, t, p);
    }
  }

  /** A suspend count may change freely off the run queues; on them it stays 0. */
  lemma ResuspendKeeps(s: Sched, t: Ptr, n: int)
    requires Inv(s)
    requires At(s.suspend, t) == 0 ==> n == 0
    ensures Inv(s.(suspend := s.suspend[t := n]))
    ensures PendingExact(s) ==> PendingExact(s.(suspend := s.suspend[t := n]))
  {
    var s' := s.(suspend := s.suspend[t := n]);
    forall p, i | 0 <= p < 32 && 0 <= i < |RunSeq(s', p)| ensures RunMember(s', p, RunSeq(s', p)[i]) {
      RunMemberAt(s, p, i);
    }
  }

  lemma DropAt(xs: seq<Ptr>, k: nat, priority: map<Ptr, int>)
    requires Distinct(xs) && k < |xs|
    ensures var ys := xs[..k] + xs[k + 1..];
            && Distinct(ys)
            && (Sorted(xs, priority) ==> Sorted(ys, priority))
            && (forall i :: 0 <= i < |ys| ==> ys[i] in xs && ys[i] != xs[k])
            && (forall x | x in xs && x != xs[k] :: x in ys)
  {
    var ys := xs[..k] + xs[k + 1..];
    forall i | 0 <= i < |ys| ensures ys[i] in xs && ys[i] != xs[k] {
      assert ys[i] == if i < k then xs[i] else xs[i + 1];
    }
    forall x | x in xs && x != xs[k] ensures x in ys {
      var i :| 0 <= i < |xs| && xs[i] == x;
      assert x == if i < k then ys[i] else ys[i - 1];
    }
  }

  lemma RemoveWaiterKeeps(s: Sched, t: Ptr)
    requires Inv(s) && At(s.state, t) == WAITING
    ensures Inv(Remove(s, t)) && Unlinked(Remove(s, t), t)
    ensures PendingExact(s) ==> PendingExact(Remove(s, t))
  {
    var a := At(s.queue, t);
    if a == 0 {
      UnqueuedUnlinked(s, t);
    } else {
      WaiterQueue(s, t);
      var xs := s.q[a];
      var k := WithoutElement(xs, t);
      var ys := Without(xs, t);
      DropAt(xs, k, s.priority);
      assert Remove(s, t) == Relink(s, a, ys, t, 0);
      RelinkWaitQueue(s, a, ys, t, 0);
      RemoveNamed(s, a, ys, t);
      hide Relink, Remove;
      UnlinkedByDrop(s, a, ys, t);
    }
  }

  lemma RemoveNamed(s: Sched, a: Ptr, ys: seq<Ptr>, t: Ptr)
    requires Inv(s) && a in s.q && !IsRunQ(a) && Distinct(ys) && Sorted(ys, s.priority)
    requires forall i :: 0 <= i < |ys| ==> ys[i] in s.q[a] && ys[i] != t
    requires forall x | x in s.q[a] && x != t :: x in ys
    requires At(s.queue, t) == a
    ensures var s' := Relink(s, a, ys, t, 0);
            QueuesNamed(s') && WaitQueuesOk(s') && WaitersLinked(s')
  {
    NamedOnce(s, a, t);
    forall i | 0 <= i < |ys|
      ensures ys[i] != 0 && At(s.queue, ys[i]) == a && At(s.state, ys[i]) == WAITING
    {
      assert ys[i] in s.q[a];
      var j :| 0 <= j < |s.q[a]| && s.q[a][j] == ys[i];
    }
    hide Distinct, Sorted, IsRunQ;
    RelinkNamed(s, a, ys, t, 0);
    RelinkWaits(s, a, ys, t, 0);
    RelinkLinked(s, a, ys, t, 0);
  }

  /** InsertThreadIntoQueueByPriority on a wait queue. */
  lemma InsertWaiterKeeps(s: Sched, a: Ptr, t: Ptr)
    requires Inv(s) && At(s.state, t) == WAITING && Unlinked(s, t) && t != 0
    requires a in s.q && !IsRunQ(a)
    ensures Inv(Insert(s, a, t, At(s.priority, t)))
    ensures PendingExact(s) ==> PendingExact(Insert(s, a, t, At(s.priority, t)))
  {
    var xs := s.q[a];
    var ys := SortedInsert(xs, s.priority, At(s.priority, t), t);
    SortedInsertStable(xs, s.priority, At(s.priority, t), t);
    InsertedDistinct(xs, InsertionPoint(xs, s.priority, At(s.priority, t)), t);
    RelinkWaitQueue(s, a, ys, t, a);
    assert Insert(s, a, t, At(s.priority, t)) == Relink(s, a, ys, t, a);
    hide SortedInsert, Relink, Insert;
    InsertNamed(s, a, ys, t);
  }

  lemma InsertNamed(s: Sched, a: Ptr, ys: seq<Ptr>, t: Ptr)
    requires Inv(s) && a in s.q && !IsRunQ(a) && Distinct(ys) && Sorted(ys, s.priority)
    requires Unlinked(s, t) && t != 0 && At(s.state, t) == WAITING
    requires forall i :: 0 <= i < |ys| ==> ys[i] == t || ys[i] in s.q[a]
    requires t in ys && forall x | x in s.q[a] :: x in ys
    ensures var s' := Relink(s, a, ys, t, a);
            QueuesNamed(s') && WaitQueuesOk(s') && WaitersLinked(s')
  {
    forall i | 0 <= i < |ys|
      ensures ys[i] != 0 && (ys[i] == t || At(s.queue, ys[i]) == a) && At(s.state, ys[i]) == WAITING
    {
      if ys[i] != t {
        assert ys[i] in s.q[a];
        var j :| 0 <= j < |s.q[a]| && s.q[a][j] == ys[i];
      }
    }
    hide Distinct, Sorted, IsRunQ;
    RelinkNamed(s, a, ys, t, a);
    RelinkWaits(s, a, ys, t, a);
    RelinkLinked(s, a, ys, t, a);
  }

  lemma InsertedDistinct(xs: seq<Ptr>, k: nat, t: Ptr)
    requires Distinct(xs) && t !in xs && k <= |xs|
    ensures var ys := xs[..k] + [t] + xs[k..];
            && Distinct(ys) && t in ys
            && (forall i :: 0 <= i < |ys| ==> ys[i] == t || ys[i] in xs)
            && (forall x | x in xs :: x in ys)
  {
    var ys := xs[..k] + [t] + xs[k..];
    assert ys[k] == t;
    forall x | x in xs ensures x in ys {
      var i :| 0 <= i < |xs| && xs[i] == x;
      assert x == if i < k then ys[i] else ys[i + 1];
    }
  }

  /** The resume bridge makes a suspended READY thread runnable: it joins the tail
      of its level and the level becomes pending. */
  lemma InsertReadyKeeps(s: Sched, t: Ptr, p: nat)
    requires Inv(s) && Unlinked(s, t) && t != 0 && p < 32
    requires At(s.state, t) == READY && At(s.suspend, t) == 0 && At(s.priority, t) == p
    ensures var s' := InsertAndMark(s, RunQ(p), t, p);
            && Inv(s')
            && RunSeq(s', p) == RunSeq(s, p) + [t]
            && (PendingExact(s) ==> PendingExact(s'))
  {
    RunQueueKnown(s, p);
    var xs := RunSeq(s, p);
    forall i | 0 <= i < |xs| ensures At(s.priority, xs[i]) <= p { RunMemberAt(s, p, i); }
    SortedInsertAppends(xs, s.priority, p, t);
    hide Inv, PendingExact, Unlinked;
    JoinTailKeeps(s, t, p);
    RelinkRunSeq(s, p, xs + [t], t, RunQ(p));
    var s1 := Relink(s, RunQ(p), xs + [t], t, RunQ(p));
    assert InsertAndMark(s, RunQ(p), t, p) == s1.(pending := s.pending[p := true]);
    assert RunSeq(s1.(pending := s.pending[p := true]), p) == RunSeq(s1, p);
  }
}

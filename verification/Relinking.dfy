/** The moves every scheduler bridge is made of, each keeping the scheduler
    invariant: replacing one queue's contents, dropping the head of a run queue,
    joining the tail of one, and changing the words of a thread in no queue. */
module Relinking {
  import opened Guest
  import opened Scheduler

  ghost predicate Unlinked(s: Sched, t: Ptr) {
    forall a | a in s.q :: t !in s.q[a]
  }

  ghost predicate NobodyRuns(s: Sched) {
    forall t: Ptr :: At(s.state, t) != RUNNING
  }

  /** One queue gets new contents and one thread a new queue word. */
  function Relink(s: Sched, a: Ptr, ys: seq<Ptr>, t: Ptr, b: Ptr): Sched {
    s.(q := s.q[a := ys], queue := s.queue[t := b])
  }

  // ---------------------------------------------------------------- reading the invariant

  lemma RunMemberAt(s: Sched, p: nat, i: nat)
    requires Inv(s) && p < 32 && i < |RunSeq(s, p)|
    ensures RunMember(s, p, RunSeq(s, p)[i]) && RunSeq(s, p)[i] != 0
    ensures At(s.queue, RunSeq(s, p)[i]) == RunQ(p)
  {
    RunQLevel(p);
    assert RunSeq(s, p) == s.q[RunQ(p)];
  }

  lemma RunQueueKnown(s: Sched, p: nat)
    requires Inv(s) && p < 32
    ensures RunQ(p) in s.q && s.q[RunQ(p)] == RunSeq(s, p) && Distinct(RunSeq(s, p))
    ensures IsRunQ(RunQ(p)) && LevelOf(RunQ(p)) == p
  {
    RunQLevel(p);
  }

  lemma WaiterOffRunQueue(s: Sched, x: Ptr, p: nat)
    requires Inv(s) && At(s.state, x) == WAITING && At(s.queue, x) != 0 && p < 32
    ensures At(s.queue, x) in s.q && x in s.q[At(s.queue, x)]
    ensures At(s.queue, x) != RunQ(p)
  {
    if At(s.queue, x) == RunQ(p) {
      var i :| 0 <= i < |RunSeq(s, p)| && RunSeq(s, p)[i] == x;
      RunMemberAt(s, p, i);
    }
  }

  lemma WaiterQueue(s: Sched, t: Ptr)
    requires Inv(s) && At(s.state, t) == WAITING && At(s.queue, t) != 0
    ensures var a := At(s.queue, t); a in s.q && t in s.q[a] && !IsRunQ(a)
  {
    var a := At(s.queue, t);
    if IsRunQ(a) {
      assert RunQ(LevelOf(a)) == a;
      WaiterOffRunQueue(s, t, LevelOf(a));
    }
  }

  lemma NamedOnce(s: Sched, a: Ptr, t: Ptr)
    requires QueuesNamed(s) && At(s.queue, t) == a
    ensures forall c | c in s.q && c != a :: t !in s.q[c]
  {
    forall c | c in s.q && c != a ensures t !in s.q[c] {
      assert forall i :: 0 <= i < |s.q[c]| ==> At(s.queue, s.q[c][i]) == c;
    }
  }

  lemma UnqueuedUnlinked(s: Sched, t: Ptr)
    requires Inv(s) && At(s.queue, t) == 0
    ensures Unlinked(s, t)
  {
    forall a | a in s.q ensures t !in s.q[a] {
      assert forall i :: 0 <= i < |s.q[a]| ==> At(s.queue, s.q[a][i]) == a;
    }
  }

  lemma UnlinkedOffRuns(s: Sched, t: Ptr, p: nat)
    requires Inv(s) && Unlinked(s, t) && p < 32
    ensures t !in RunSeq(s, p)
  {
  }

  // ---------------------------------------------------------------- one queue at a time

  lemma RelinkNamed(s: Sched, a: Ptr, ys: seq<Ptr>, t: Ptr, b: Ptr)
    requires QueuesNamed(s) && a in s.q && Distinct(ys)
    requires forall i :: 0 <= i < |ys| ==>
               ys[i] != 0 && (if ys[i] == t then b else At(s.queue, ys[i])) == a
    requires forall c | c in s.q && c != a :: t !in s.q[c]
    ensures QueuesNamed(Relink(s, a, ys, t, b))
  {
    var s' := Relink(s, a, ys, t, b);
    forall c, i | c in s'.q && 0 <= i < |s'.q[c]|
      ensures s'.q[c][i] != 0 && At(s'.queue, s'.q[c][i]) == c
    {
      if c != a { assert s.q[c][i] in s.q[c]; }
    }
  }

  lemma RelinkWaits(s: Sched, a: Ptr, ys: seq<Ptr>, t: Ptr, b: Ptr)
    requires WaitQueuesOk(s)
    requires !IsRunQ(a) ==> Sorted(ys, s.priority)
    requires !IsRunQ(a) ==> forall i :: 0 <= i < |ys| ==> At(s.state, ys[i]) == WAITING
    ensures WaitQueuesOk(Relink(s, a, ys, t, b))
  {
    hide IsRunQ, Sorted;
  }

  lemma RelinkLinked(s: Sched, a: Ptr, ys: seq<Ptr>, t: Ptr, b: Ptr)
    requires WaitersLinked(s) && a in s.q
    requires forall x | x in s.q[a] && x != t && At(s.state, x) == WAITING :: x in ys
    requires b != 0 ==> b == a && t in ys
    ensures WaitersLinked(Relink(s, a, ys, t, b))
  {
    var s' := Relink(s, a, ys, t, b);
    forall x: Ptr | At(s'.state, x) == WAITING && At(s'.queue, x) != 0
      ensures At(s'.queue, x) in s'.q && x in s'.q[At(s'.queue, x)]
    {
      assert x != t ==> At(s.queue, x) in s.q && x in s.q[At(s.queue, x)];
    }
  }

  lemma RelinkRunner(s: Sched, a: Ptr, ys: seq<Ptr>, t: Ptr, b: Ptr)
    requires OneRunning(s) && (b == 0 || At(s.state, t) != RUNNING)
    ensures OneRunning(Relink(s, a, ys, t, b))
  {
    var s' := Relink(s, a, ys, t, b);
    forall x: Ptr | At(s'.state, x) == RUNNING
      ensures x == s'.running && x != 0 && At(s'.suspend, x) == 0 && At(s'.queue, x) == 0
    {
      assert At(s.state, x) == RUNNING ==> At(s.queue, x) == 0;
    }
  }

  lemma RelinkRunSeq(s: Sched, p: nat, ys: seq<Ptr>, t: Ptr, b: Ptr)
    requires p < 32
    ensures var s' := Relink(s, RunQ(p), ys, t, b);
            && RunSeq(s', p) == ys
            && forall r :: 0 <= r < 32 && r != p ==> RunSeq(s', r) == RunSeq(s, r)
  {
    forall r | 0 <= r < 32 && r != p
      ensures RunSeq(Relink(s, RunQ(p), ys, t, b), r) == RunSeq(s, r)
    {
      assert RunQ(r) != RunQ(p);
    }
  }

  /** Run queue p gets members of its own kind. */
  lemma RelinkLevels(s: Sched, p: nat, ys: seq<Ptr>, t: Ptr, b: Ptr, bit: bool)
    requires Inv(s) && p < 32 && (bit || ys == [])
    requires forall i :: 0 <= i < |ys| ==> RunMember(s, p, ys[i])
    ensures var s' := Relink(s, RunQ(p), ys, t, b).(pending := s.pending[p := bit]);
            && RunQueuesOk(s') && PendingCovers(s')
            && (PendingExact(s) && (bit ==> ys != []) ==> PendingExact(s'))
  {
    RelinkRunSeq(s, p, ys, t, b);
    var s1 := Relink(s, RunQ(p), ys, t, b);
    var s' := s1.(pending := s.pending[p := bit]);
    forall r | 0 <= r < 32 ensures RunSeq(s', r) == RunSeq(s1, r) && RunQ(r) in s'.q {
    }
    forall r, i | 0 <= r < 32 && 0 <= i < |RunSeq(s', r)|
      ensures RunMember(s', r, RunSeq(s', r)[i])
    {
      if r != p { RunMemberAt(s, r, i); }
    }
  }

  /** Changing one wait queue leaves every run queue as it was. */
  lemma RelinkWaitQueue(s: Sched, a: Ptr, ys: seq<Ptr>, t: Ptr, b: Ptr)
    requires Inv(s) && a in s.q && !IsRunQ(a)
    ensures var s' := Relink(s, a, ys, t, b);
            && (forall p :: 0 <= p < 32 ==> RunSeq(s', p) == RunSeq(s, p))
            && RunQueuesOk(s') && PendingCovers(s')
            && (PendingExact(s) ==> PendingExact(s'))
  {
    var s' := Relink(s, a, ys, t, b);
    forall p | 0 <= p < 32 ensures RunQ(p) in s'.q && RunSeq(s', p) == RunSeq(s, p) {
      RunQLevel(p);
    }
    forall p, i | 0 <= p < 32 && 0 <= i < |RunSeq(s', p)| ensures RunMember(s', p, RunSeq(s', p)[i]) {
      RunMemberAt(s, p, i);
    }
  }

  // ---------------------------------------------------------------- moves on a run queue

  function DropHead(s: Sched, p: nat): Sched
    requires p < 32 && RunSeq(s, p) != []
  {
    var ys := RunSeq(s, p)[1..];
    Relink(s, RunQ(p), ys, RunSeq(s, p)[0], 0).(
      pending := if ys == [] then s.pending[p := false] else s.pending)
  }

  lemma DropHeadKeeps(s: Sched, p: nat)
    requires Inv(s) && p < 32 && RunSeq(s, p) != []
    ensures Inv(DropHead(s, p)) && Unlinked(DropHead(s, p), RunSeq(s, p)[0])
    ensures PendingExact(s) ==> PendingExact(DropHead(s, p))
  {
    var xs := RunSeq(s, p);
    var ys := xs[1..];
    RunQueueKnown(s, p);
    RunMemberAt(s, p, 0);
    forall i | 0 <= i < |ys|
      ensures RunMember(s, p, ys[i]) && ys[i] != 0 && At(s.queue, ys[i]) == RunQ(p) && ys[i] != xs[0]
    {
      RunMemberAt(s, p, i + 1);
    }
    var s' := DropHead(s, p);
    assert s.pending[p];
    assert s.pending[p := true] == s.pending;
    RelinkLevels(s, p, ys, xs[0], 0, ys != []);
    RelinkLinkedRun(s, p, ys, xs[0], 0);
    NamedOnce(s, RunQ(p), xs[0]);
    hide RunQ, IsRunQ, RunMember;
    RelinkNamed(s, RunQ(p), ys, xs[0], 0);
    RelinkWaits(s, RunQ(p), ys, xs[0], 0);
    RelinkRunner(s, RunQ(p), ys, xs[0], 0);
    hide DropHead;
    UnlinkedByDrop(s, RunQ(p), ys, xs[0]);
  }

  lemma UnlinkedByDrop(s: Sched, a: Ptr, ys: seq<Ptr>, t: Ptr)
    requires QueuesNamed(s) && a in s.q && At(s.queue, t) == a && t !in ys
    ensures Unlinked(Relink(s, a, ys, t, 0), t)
  {
    NamedOnce(s, a, t);
  }

  lemma RelinkLinkedRun(s: Sched, p: nat, ys: seq<Ptr>, t: Ptr, b: Ptr)
    requires Inv(s) && p < 32 && (b == 0 || At(s.state, t) != WAITING)
    ensures WaitersLinked(Relink(s, RunQ(p), ys, t, b))
  {
    forall x: Ptr | At(s.state, x) == WAITING && At(s.queue, x) != 0
      ensures At(s.queue, x) in s.q && x in s.q[At(s.queue, x)] && At(s.queue, x) != RunQ(p)
    {
      WaiterOffRunQueue(s, x, p);
    }
  }

  /** A runnable thread in no queue joins the tail of its level, which is marked. */
  lemma JoinTailKeeps(s: Sched, t: Ptr, p: nat)
    requires Inv(s) && Unlinked(s, t) && t != 0 && p < 32
    requires At(s.state, t) == READY && RunMember(s, p, t)
    ensures var s' := Relink(s, RunQ(p), RunSeq(s, p) + [t], t, RunQ(p)).(pending := s.pending[p := true]);
            Inv(s') && (PendingExact(s) ==> PendingExact(s'))
  {
    var xs := RunSeq(s, p);
    var ys := xs + [t];
    RunQueueKnown(s, p);
    forall i | 0 <= i < |ys|
      ensures RunMember(s, p, ys[i]) && ys[i] != 0 && (ys[i] == t || At(s.queue, ys[i]) == RunQ(p))
    {
      if i < |xs| { RunMemberAt(s, p, i); }
    }
    assert t !in xs;
    RelinkLevels(s, p, ys, t, RunQ(p), true);
    RelinkLinkedRun(s, p, ys, t, RunQ(p));
    hide RunQ, IsRunQ, RunMember;
    RelinkNamed(s, RunQ(p), ys, t, RunQ(p));
    RelinkWaits(s, RunQ(p), ys, t, RunQ(p));
    RelinkRunner(s, RunQ(p), ys, t, RunQ(p));
  }

  // ---------------------------------------------------------------- words of an unlinked thread

  lemma RestateRuns(s: Sched, t: Ptr, st: int)
    requires Inv(s) && Unlinked(s, t)
    ensures var s' := s.(state := s.state[t := st]);
            && RunQueuesOk(s') && WaitQueuesOk(s') && PendingCovers(s')
            && (PendingExact(s) ==> PendingExact(s'))
  {
    var s' := s.(state := s.state[t := st]);
    forall a, i | a in s.q && 0 <= i < |s.q[a]| ensures At(s'.state, s.q[a][i]) == At(s.state, s.q[a][i]) {
      assert s.q[a][i] in s.q[a];
    }
    forall p, i | 0 <= p < 32 && 0 <= i < |RunSeq(s', p)| ensures RunMember(s', p, RunSeq(s', p)[i]) {
      RunMemberAt(s, p, i);
      UnlinkedOffRuns(s, t, p);
    }
  }

  /** The state word of a thread in no queue is free, as long as nobody but the
      running context becomes RUNNING. */
  lemma RestateKeeps(s: Sched, t: Ptr, st: int)
    requires Inv(s) && Unlinked(s, t) && At(s.queue, t) == 0
    requires st == RUNNING ==> t == s.running && t != 0 && At(s.suspend, t) == 0
    ensures var s' := s.(state := s.state[t := st]);
            Inv(s') && (PendingExact(s) ==> PendingExact(s'))
  {
    RestateRuns(s, t, st);
    var s' := s.(state := s.state[t := st]);
    forall x: Ptr | At(s'.state, x) == RUNNING
      ensures x == s'.running && x != 0 && At(s'.suspend, x) == 0 && At(s'.queue, x) == 0
    {
      assert x != t ==> At(s.state, x) == RUNNING;
    }
    forall x: Ptr | At(s'.state, x) == WAITING && At(s'.queue, x) != 0
      ensures At(s'.queue, x) in s'.q && x in s'.q[At(s'.queue, x)]
    {
      assert x != t && At(s.state, x) == WAITING;
    }
  }

  lemma UnnameKeeps(s: Sched, t: Ptr)
    requires Inv(s) && Unlinked(s, t)
    ensures var s' := s.(queue := s.queue[t := 0]);
            Inv(s') && Unlinked(s', t) && (PendingExact(s) ==> PendingExact(s'))
  {
    var s' := s.(queue := s.queue[t := 0]);
    forall a, i | a in s.q && 0 <= i < |s.q[a]| ensures At(s'.queue, s.q[a][i]) == a {
      assert s.q[a][i] in s.q[a];
    }
    forall p, i | 0 <= p < 32 && 0 <= i < |RunSeq(s', p)| ensures RunMember(s', p, RunSeq(s', p)[i]) {
      RunMemberAt(s, p, i);
    }
    forall x: Ptr | At(s'.state, x) == RUNNING
      ensures x == s'.running && x != 0 && At(s'.suspend, x) == 0 && At(s'.queue, x) == 0
    {
      assert At(s.state, x) == RUNNING;
    }
  }

  /** With nobody RUNNING any thread may be published as the running context. */
  lemma PublishKeeps(s: Sched, t: Ptr)
    requires Inv(s) && NobodyRuns(s)
    ensures var s' := s.(running := t, current := t);
            Inv(s') && (PendingExact(s) ==> PendingExact(s'))
  {
    var s' := s.(running := t, current := t);
    forall p, i | 0 <= p < 32 && 0 <= i < |RunSeq(s', p)| ensures RunMember(s', p, RunSeq(s', p)[i]) {
      RunMemberAt(s, p, i);
    }
  }
}

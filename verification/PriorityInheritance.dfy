/** Priority inheritance: the folding of wait-queue heads over a thread's held
    mutexes is the minimum over everyone who waits for the thread. */
module PriorityInheritance {
  import opened Guest
  import opened Scheduler

  predicate WaitsOn(s: Sched, ms: seq<Ptr>, w: Ptr) {
    exists m | m in ms :: w in Contents(s, m)
  }

  /** pr is the least of the bound and the priorities of all waiters on ms. */
  ghost predicate LeastOver(s: Sched, ms: seq<Ptr>, bound: int, pr: int) {
    && pr <= bound
    && (forall w: Ptr | WaitsOn(s, ms, w) :: pr <= At(s.priority, w))
    && (pr == bound || exists w: Ptr :: WaitsOn(s, ms, w) && At(s.priority, w) == pr)
  }

  lemma HeadIsLeast(s: Sched, m: Ptr)
    requires QueuesNamed(s) && WaitQueuesOk(s) && !IsRunQ(m)
    ensures Contents(s, m) == [] <==> HeadWaiter(s, m) == 0
    ensures forall w | w in Contents(s, m) :: At(s.priority, HeadWaiter(s, m)) <= At(s.priority, w)
  {
    var xs := Contents(s, m);
    if xs != [] {
      assert xs == s.q[m] && s.q[m][0] != 0;
      forall w | w in xs ensures At(s.priority, xs[0]) <= At(s.priority, w) {
        var i :| 0 <= i < |xs| && xs[i] == w;
        assert i > 0 ==> At(s.priority, s.q[m][0]) <= At(s.priority, s.q[m][i]);
      }
    }
  }

  lemma {:induction false} InheritIsLeast(s: Sched, ms: seq<Ptr>, bound: int)
    requires QueuesNamed(s) && WaitQueuesOk(s) && forall m | m in ms :: !IsRunQ(m)
    ensures LeastOver(s, ms, bound, InheritFrom(s, ms, bound))
    decreases |ms|
  {
    hide QueuesNamed, WaitQueuesOk, IsRunQ;
    var pr := InheritFrom(s, ms, bound);
    if ms != [] {
      HeadIsLeast(s, ms[0]);
      var w := HeadWaiter(s, ms[0]);
      var bound' := if w != 0 && At(s.priority, w) < bound then At(s.priority, w) else bound;
      InheritIsLeast(s, ms[1..], bound');
      forall x: Ptr | WaitsOn(s, ms, x) ensures pr <= At(s.priority, x) {
        if x !in Contents(s, ms[0]) {
          var m :| m in ms && x in Contents(s, m);
          assert m in ms[1..];
        }
      }
      LeastAttained(s, ms, bound, pr);
    }
  }

  lemma LeastAttained(s: Sched, ms: seq<Ptr>, bound: int, pr: int)
    requires ms != []
    requires var w := HeadWaiter(s, ms[0]);
             var bound' := if w != 0 && At(s.priority, w) < bound then At(s.priority, w) else bound;
             (w != 0 ==> Contents(s, ms[0]) != []) && LeastOver(s, ms[1..], bound', pr)
    ensures pr == bound || exists w: Ptr :: WaitsOn(s, ms, w) && At(s.priority, w) == pr
  {
    var w := HeadWaiter(s, ms[0]);
    if w != 0 { assert WaitsOn(s, ms, w); }
    if exists x: Ptr :: WaitsOn(s, ms[1..], x) && At(s.priority, x) == pr {
      var x: Ptr :| WaitsOn(s, ms[1..], x) && At(s.priority, x) == pr;
      assert WaitsOn(s, ms, x);
    }
  }

  /** In every state of the scheduler invariant ComputeThreadEffectivePriority is the
      minimum of the base priority and the priorities of all waiters, not just the
      heads, on all mutexes the thread holds. */
  lemma EffectiveIsExact(s: Sched, t: Ptr)
    requires Inv(s) && forall m | m in Held(s, t) :: !IsRunQ(m)
    ensures LeastOver(s, Held(s, t), At(s.base, t), EffectivePriority(s, t))
  {
    InheritIsLeast(s, Held(s, t), At(s.base, t));
  }
}

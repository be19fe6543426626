/** Forced SelectThread calls are fair: threads of equal urgency take strict turns. */
module RoundRobin {
  import opened Guest
  import opened Scheduler
  import opened Relinking
  import opened SelectLoop
  import opened SelectThread

  // ------------------------------------------------ a level is a slice of the pick order

  function OfPriority(priority: map<Ptr, int>, p: int, xs: seq<Ptr>): seq<Ptr> {
    if xs == [] then []
    else (if At(priority, xs[0]) == p then [xs[0]] else []) + OfPriority(priority, p, xs[1..])
  }

  lemma {:induction false} OfPriorityConcat(priority: map<Ptr, int>, p: int, xs: seq<Ptr>, ys: seq<Ptr>)
    ensures OfPriority(priority, p, xs + ys) == OfPriority(priority, p, xs) + OfPriority(priority, p, ys)
  {
    if xs == [] {
      assert xs + ys == ys;
    } else {
      assert (xs + ys)[1..] == xs[1..] + ys;
      OfPriorityConcat(priority, p, xs[1..], ys);
    }
  }

  lemma {:induction false} OfPriorityNone(priority: map<Ptr, int>, p: int, xs: seq<Ptr>)
    requires forall i :: 0 <= i < |xs| ==> At(priority, xs[i]) != p
    ensures OfPriority(priority, p, xs) == []
  {
    if xs != [] { OfPriorityNone(priority, p, xs[1..]); }
  }

  lemma {:induction false} OfPriorityAll(priority: map<Ptr, int>, p: int, xs: seq<Ptr>)
    requires forall i :: 0 <= i < |xs| ==> At(priority, xs[i]) == p
    ensures OfPriority(priority, p, xs) == xs
  {
    if xs != [] { OfPriorityAll(priority, p, xs[1..]); }
  }

  lemma LevelPriority(s: Sched, p: nat)
    requires Inv(s) && p < 32
    ensures forall i :: 0 <= i < |RunSeq(s, p)| ==> At(s.priority, RunSeq(s, p)[i]) == p
  {
    hide Inv;
    forall i | 0 <= i < |RunSeq(s, p)| ensures At(s.priority, RunSeq(s, p)[i]) == p {
      RunMemberAt(s, p, i);
    }
  }

  /** Pick order determines every run queue: queue p is its priority-p part. */
  lemma {:induction false} LevelOfFlat(s: Sched, from: nat, p: nat)
    requires Inv(s) && from <= 32 && p < 32
    ensures OfPriority(s.priority, p, FlatFrom(s, from)) == if from <= p then RunSeq(s, p) else []
    decreases 32 - from
  {
    hide Inv, RunSeq;
    if from < 32 {
      FlatUnfold(s, from);
      LevelOfFlat(s, from + 1, p);
      hide FlatFrom;
      OfPriorityConcat(s.priority, p, RunSeq(s, from), FlatFrom(s, from + 1));
      LevelPriority(s, from);
      hide OfPriority, At;
      if from == p {
        OfPriorityAll(s.priority, p, RunSeq(s, from));
      } else {
        OfPriorityNone(s.priority, p, RunSeq(s, from));
      }
    }
  }

  // ---------------------------------------------------------------- one forced call

  /** `cycle` is the running thread followed by the queue of its level; all of them
      live, and nothing more urgent is. */
  ghost predicate Turns(s: Sched, p: nat, cycle: seq<Ptr>) {
    && Inv(s) && p < 32
    && s.idle == 0 && s.current == s.running && Running(s)
    && At(s.priority, s.running) == p
    && cycle == [s.running] + RunSeq(s, p)
    && (forall i :: 0 <= i < |cycle| ==> cycle[i] in s.mapped && !Dead(At(s.state, cycle[i])))
    && (forall r, i :: 0 <= r < p && 0 <= i < |RunSeq(s, r)| ==> Dead(At(s.state, RunSeq(s, r)[i])))
  }

  function Rotated(cycle: seq<Ptr>): seq<Ptr>
    requires cycle != []
  {
    cycle[1..] + [cycle[0]]
  }

  /** The thread a forced call picks is the next of the cycle. */
  lemma NextOfCycle(s: Sched, p: nat, cycle: seq<Ptr>) returns (k: nat)
    requires Turns(s, p, cycle)
    ensures k == Best(s) && k < |Flat(Ready(s))|
    ensures Flat(Ready(s))[k] == Rotated(cycle)[0]
    ensures OfPriority(s.priority, p, Flat(Ready(s))[k + 1..]) == Rotated(cycle)[1..]
  {
    var s1 := Ready(s);
    var xs := Flat(s1);
    ReadyKeeps(s);
    RequeueSeq(s, p);
    var ring := RunSeq(s1, p);
    assert ring == Rotated(cycle);
    CycleLive(s, p, cycle);
    k := Best(s);
    FlatContains(s1, 0, p, ring[0]);
    var j :| 0 <= j < |xs| && xs[j] == ring[0];
    assert k < |xs|;
    hide Inv, Flat, DeadPrefix, Turns;
    LevelSplit(s1, p, k);
  }

  /** In Requeue(s) the levels above p hold dead threads only, level p none. */
  lemma CycleLive(s: Sched, p: nat, cycle: seq<Ptr>)
    requires Turns(s, p, cycle)
    ensures LiveFrom(Ready(s), p)
  {
    var s1 := Ready(s);
    forall r, i | 0 <= r < p && 0 <= i < |RunSeq(s1, r)|
      ensures Dead(At(s1.state, RunSeq(s1, r)[i]))
    {
      RequeueSeq(s, r);
      RunMemberAt(s, r, i);
    }
    RequeueSeq(s, p);
    forall i | 0 <= i < |RunSeq(s1, p)| ensures !Dead(At(s1.state, RunSeq(s1, p)[i])) {
      if i < |RunSeq(s, p)| { assert RunSeq(s1, p)[i] == cycle[i + 1]; }
    }
  }

  ghost predicate LiveFrom(s: Sched, p: nat)
    requires p < 32
  {
    && RunSeq(s, p) != []
    && (forall r, i :: 0 <= r < p && 0 <= i < |RunSeq(s, r)| ==> Dead(At(s.state, RunSeq(s, r)[i])))
    && (forall i :: 0 <= i < |RunSeq(s, p)| ==> !Dead(At(s.state, RunSeq(s, p)[i])))
  }

  lemma FirstLiveLevel(s: Sched, p: nat, k: nat)
    requires Inv(s) && p < 32 && LiveFrom(s, p)
    requires k == DeadPrefix(s.state, Flat(s)) && k < |Flat(s)|
    ensures forall i :: 0 <= i < k ==> At(s.priority, Flat(s)[i]) != p
    ensures At(s.priority, Flat(s)[k]) == p
  {
    var xs := Flat(s);
    hide Inv, FlatFrom;
    forall i | 0 <= i < k ensures At(s.priority, xs[i]) != p {
      var l := FlatElement(s, 0, i);
    }
    var level := FlatElement(s, 0, k);
    assert level >= p;
    FlatContains(s, 0, p, RunSeq(s, p)[0]);
    var j :| 0 <= j < |xs| && xs[j] == RunSeq(s, p)[0];
    RunMemberAt(s, p, 0);
    assert j >= k;
  }

  lemma LiveHeads(s: Sched, p: nat)
    requires p < 32 && LiveFrom(s, p)
    ensures RunSeq(s, p) != []
    ensures Flat(s) == FlatFrom(s, 0)
  {
  }

  /** The first live thread of the pick order heads level p. */
  lemma LevelSplit(s: Sched, p: nat, k: nat)
    requires Inv(s) && p < 32 && LiveFrom(s, p)
    requires k == DeadPrefix(s.state, Flat(s)) && k < |Flat(s)|
    ensures Flat(s)[k] == RunSeq(s, p)[0]
    ensures OfPriority(s.priority, p, Flat(s)[k + 1..]) == RunSeq(s, p)[1..]
  {
    hide Inv, LiveFrom, DeadPrefix, OfPriority;
    FirstLiveLevel(s, p, k);
    LevelOfFlat(s, 0, p);
    OfPriorityFrom(s.priority, p, Flat(s), k);
    LiveHeads(s, p);
    hide Flat, RunSeq;
    var xs, rest := RunSeq(s, p), OfPriority(s.priority, p, Flat(s)[k + 1..]);
    assert xs == [Flat(s)[k]] + rest;
  }

  lemma OfPriorityFrom(priority: map<Ptr, int>, p: int, xs: seq<Ptr>, k: nat)
    requires k < |xs| && At(priority, xs[k]) == p
    requires forall i :: 0 <= i < k ==> At(priority, xs[i]) != p
    ensures OfPriority(priority, p, xs) == [xs[k]] + OfPriority(priority, p, xs[k + 1..])
  {
    OfPriorityNone(priority, p, xs[..k]);
    assert xs == xs[..k] + xs[k..];
    OfPriorityConcat(priority, p, xs[..k], xs[k..]);
    assert xs[k..][1..] == xs[k + 1..];
  }

  lemma DeadUnchanged(st: map<Ptr, int>, was: Ptr, to: Ptr)
    requires At(st, was) == RUNNING
    requires !Dead(At(st[was := READY], to))
    ensures forall t: Ptr :: Dead(At(st[was := READY][to := RUNNING], t)) <==> Dead(At(st, t))
  {
  }

  /** Which threads are dead does not change: only the running thread and the one
      picked change state, and both are live before and after. */
  lemma TurnKeepsDead(s: Sched, p: nat, cycle: seq<Ptr>)
    requires Turns(s, p, cycle) && Best(s) < |Flat(Ready(s))|
    ensures var r := Select(s, true, 0);
            r.Switched? && forall t: Ptr :: Dead(At(r.s.state, t)) <==> Dead(At(s.state, t))
  {
    assert cycle[0] == s.running;
    hide Inv, Select, Flat, DeadPrefix, RunSeq;
    SelectRunsFirstLive(s, true, 0);
    SwitchStates(s, true, 0);
    assert !Dead(At(Ready(s).state, Flat(Ready(s))[Best(s)]));
    DeadUnchanged(s.state, s.running, Select(s, true, 0).to);
  }

  lemma LaterIsLessUrgent(s: Sched, k: nat, rest: seq<Ptr>, q: int)
    requires Inv(s) && k < |Flat(s)| && rest == Flat(s)[k + 1..]
    requires q < At(s.priority, Flat(s)[k])
    ensures OfPriority(s.priority, q, rest) == []
  {
    hide Inv;
    var level := FlatElement(s, 0, k);
    forall i | 0 <= i < |rest| ensures At(s.priority, rest[i]) != q {
      assert rest[i] == Flat(s)[k + 1 + i];
    }
    OfPriorityNone(s.priority, q, rest);
  }

  /** Nothing above level p is left queued. */
  lemma TurnEmptiesAbove(s: Sched, p: nat, cycle: seq<Ptr>, rest: seq<Ptr>)
    requires Turns(s, p, cycle) && Best(s) < |Flat(Ready(s))|
    requires rest == Flat(Ready(s))[Best(s) + 1..]
    ensures At(s.priority, Flat(Ready(s))[Best(s)]) == p
    ensures forall q :: 0 <= q < p ==> OfPriority(s.priority, q, rest) == []
  {
    ReadyKeeps(s);
    CycleLive(s, p, cycle);
    FirstLiveLevel(Ready(s), p, Best(s));
    hide Inv, Flat, DeadPrefix, OfPriority;
    forall q | 0 <= q < p ensures OfPriority(s.priority, q, rest) == [] {
      LaterIsLessUrgent(Ready(s), Best(s), rest, q);
    }
  }

  /** One forced call turns the cycle by one place. */
  lemma ForcedTurn(s: Sched, p: nat, cycle: seq<Ptr>)
    requires Turns(s, p, cycle)
    ensures var r := Select(s, true, 0);
            r.Switched? && Turns(r.s, p, Rotated(cycle))
  {
    assert cycle[0] == s.running;
    var k := NextOfCycle(s, p, cycle);
    SelectRunsFirstLive(s, true, 0);
    SelectKeeps(s, true, 0);
    SelectFrame(s, true, 0);
    TurnKeepsDead(s, p, cycle);
    TurnEmptiesAbove(s, p, cycle, Flat(Ready(s))[k + 1..]);
    var s' := Select(s, true, 0).s;
    hide Inv, Select, Flat, FlatFrom, DeadPrefix, OfPriority;
    assert Flat(s') == FlatFrom(s', 0);
    forall q | 0 <= q < p ensures RunSeq(s', q) == [] {
      LevelOfFlat(s', 0, q);
    }
    LevelOfFlat(s', 0, p);
    TurnsAgain(s, s', p, cycle);
  }

  lemma TurnsAgain(s: Sched, s': Sched, p: nat, cycle: seq<Ptr>)
    requires Turns(s, p, cycle) && Inv(s')
    requires s'.idle == 0 && s'.current == s'.running == Rotated(cycle)[0] && s'.running != 0
    requires At(s'.state, s'.running) == RUNNING && At(s'.priority, s'.running) == p
    requires s'.mapped == s.mapped
    requires RunSeq(s', p) == Rotated(cycle)[1..]
    requires forall t: Ptr :: Dead(At(s'.state, t)) <==> Dead(At(s.state, t))
    requires forall q :: 0 <= q < p ==> RunSeq(s', q) == []
    ensures Turns(s', p, Rotated(cycle))
  {
    hide Inv;
    var c := Rotated(cycle);
    assert c == [c[0]] + c[1..];
    forall i | 0 <= i < |c| ensures c[i] in s'.mapped && !Dead(At(s'.state, c[i])) {
      assert c[i] == if i + 1 < |cycle| then cycle[i + 1] else cycle[0];
    }
  }

  // ---------------------------------------------------------------- k forced calls

  /** The state after k forced calls, each of which must switch. */
  function ForcedRun(s: Sched, k: nat): Outcome {
    if k == 0 then Returned(s)
    else
      var r := ForcedRun(s, k - 1);
      if r.Stopped? then r else Select(r.s, true, 0)
  }

  function RotatedBy(cycle: seq<Ptr>, k: nat): (r: seq<Ptr>)
    requires cycle != []
    ensures |r| == |cycle|
  {
    if k == 0 then cycle else Rotated(RotatedBy(cycle, k - 1))
  }

  lemma ModStep(m: nat, n: nat)
    requires n > 0
    ensures (m + n) % n == m % n
  {
    var q := m / n;
    assert m == n * q + m % n;
    assert m + n == n * (q + 1) + m % n;
    ModUnique(m + n, n, q + 1, m % n);
  }

  lemma ModUnique(m: nat, n: nat, q: nat, r: nat)
    requires n > 0 && m == n * q + r && r < n
    ensures m % n == r
  {
    var d := m / n - q;
    assert n * d == r - m % n;
    assert d > 0 ==> n * d >= n;
    assert d < 0 ==> n * d + n <= 0;
  }

  lemma {:induction false} RotatedByIndex(cycle: seq<Ptr>, k: nat, i: nat)
    requires i < |cycle|
    ensures RotatedBy(cycle, k)[i] == cycle[(i + k) % |cycle|]
  {
    var n := |cycle|;
    if k == 0 {
      ModUnique(i, n, 0, i);
    } else {
      var c := RotatedBy(cycle, k - 1);
      if i + 1 < n {
        RotatedByIndex(cycle, k - 1, i + 1);
        assert RotatedBy(cycle, k)[i] == c[i + 1];
      } else {
        RotatedByIndex(cycle, k - 1, 0);
        assert RotatedBy(cycle, k)[i] == c[0];
        ModStep(k - 1, n);
        assert i + k == k - 1 + n;
      }
    }
  }

  lemma RunnerLeads(s: Sched, p: nat, cycle: seq<Ptr>)
    requires Turns(s, p, cycle)
    ensures cycle != [] && s.running == cycle[0]
  {
  }

  /** Round robin: after k forced calls the k-th thread in cyclic order runs and the
      queue of the level holds the matching rotation, for every k. */
  lemma {:induction false} ForcedRoundRobin(s: Sched, p: nat, cycle: seq<Ptr>, k: nat)
    requires Turns(s, p, cycle)
    ensures cycle != []
    ensures var r := ForcedRun(s, k);
            && !r.Stopped?
            && Turns(r.s, p, RotatedBy(cycle, k))
            && r.s.running == cycle[k % |cycle|]
  {
    hide Turns, Select;
    RunnerLeads(s, p, cycle);
    if k > 0 {
      ForcedRoundRobin(s, p, cycle, k - 1);
      ForcedTurn(ForcedRun(s, k - 1).s, p, RotatedBy(cycle, k - 1));
    }
    RunnerLeads(ForcedRun(s, k).s, p, RotatedBy(cycle, k));
    RotatedByIndex(cycle, k, 0);
  }
}

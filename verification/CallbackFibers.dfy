/** The callback queue when fibers pump it in turns: the drain depth belongs to the host
    thread they all run on, so a callback that sleeps keeps every other pump out. */
module CallbackFibers {
  import opened Cpu
  import opened CallbackPump

  /** An unfinished pump: how many callbacks it has taken, and its caller's registers. */
  datatype Activation = Activation(taken: nat, cpu: CpuContext)

  /** `depth` is the host thread's word; `active` has the fibers inside a callback. */
  datatype Shared = Shared(log: Log, depth: nat, active: map<int, Activation>)

  /** What fibers do, in any interleaving: queue, call the pump, or return from the
      callback their pump is in. */
  datatype Event =
    | Queued(c: Callback)
    | Pumped(fiber: int, cpu: CpuContext)
    | Returned(fiber: int)

  function Take(l: Log, cpu: CpuContext): Log
    requires l.pending != []
  {
    var c := l.pending[0];
    Log(l.pending[1..], l.delivered + [Delivery(c, Arguments(cpu, c))], l.queued)
  }

  /** The loop head of PumpCallbacks: the next callback, or out of the loop. */
  function LoopHead(s: Shared, f: int, a: Activation): Shared {
    if a.taken < BATCH && s.log.pending != []
    then s.(log := Take(s.log, a.cpu), active := s.active[f := a.(taken := a.taken + 1)])
    else s.(depth := if s.depth > 0 then s.depth - 1 else 0, active := s.active - {f})
  }

  function Step(s: Shared, e: Event): Shared {
    match e
    case Queued(c) => s.(log := Accept(s.log, Accepted([Queue(c)])))
    case Pumped(f, cpu) => if s.depth != 0 then s else LoopHead(s.(depth := 1), f, Activation(0, cpu))
    case Returned(f) => if f in s.active then LoopHead(s, f, s.active[f]) else s
  }

  function Run(s: Shared, es: seq<Event>): Shared
    decreases |es|
  {
    if es == [] then s else Run(Step(s, es[0]), es[1..])
  }

  /** The depth counts the unfinished pumps, of which there is one at most. */
  ghost predicate Valid(s: Shared) {
    && InOrder(s.log) && s.depth == |s.active| <= 1
    && forall f | f in s.active :: 1 <= s.active[f].taken <= BATCH
  }

  lemma TakeKeepsOrder(l: Log, cpu: CpuContext)
    requires InOrder(l) && l.pending != []
    ensures InOrder(Take(l, cpu))
  {
    DeliverKeepsOrder(l, cpu, (c, n) => []);
    assert Take(l, cpu) == DeliverOne(l, cpu, (c, n) => []);
  }

  lemma OnlyFiber(active: map<int, Activation>, f: int)
    requires f in active && |active| <= 1
    ensures active == map[f := active[f]]
  {
    assert |active.Keys - {f}| == 0;
    assert active.Keys == {f};
  }

  lemma StepKeeps(s: Shared, e: Event)
    requires Valid(s)
    ensures Valid(Step(s, e))
  {
    match e
    case Queued(c) => AcceptKeepsOrder(s.log, Accepted([Queue(c)]));
    case Pumped(f, cpu) =>
      if s.depth == 0 {
        assert s.active == map[];
        if s.log.pending != [] { TakeKeepsOrder(s.log, cpu); }
      }
    case Returned(f) =>
      if f in s.active {
        OnlyFiber(s.active, f);
        if s.log.pending != [] { TakeKeepsOrder(s.log, s.active[f].cpu); }
      }
  }

  /** First in, first out and exactly once also when fibers pump in any interleaving. */
  lemma {:induction false} RunKeeps(s: Shared, es: seq<Event>)
    requires Valid(s)
    ensures Valid(Run(s, es))
    decreases |es|
  {
    if es != [] {
      StepKeeps(s, es[0]);
      hide Valid, Step;
      RunKeeps(Step(s, es[0]), es[1..]);
    }
  }

  /** A pump delivers if and only if something is pending and no fiber, the caller or
      another, is inside a callback. */
  lemma PumpDeliversIff(s: Shared, f: int, cpu: CpuContext)
    requires Valid(s)
    ensures Step(s, Pumped(f, cpu)).log.delivered != s.log.delivered <==> s.active == map[] && s.log.pending != []
  {
    if s.depth == 0 && s.log.pending != [] {
      var l := Take(s.log, cpu);
      assert |l.delivered| == |s.log.delivered| + 1;
    }
  }

  /** While a fiber's callback sleeps nothing is delivered, whatever the others do. */
  lemma {:induction false} SleepingCallbackStalls(s: Shared, f: int, es: seq<Event>)
    requires Valid(s) && f in s.active && Returned(f) !in es
    ensures var s' := Run(s, es);
            s'.log.delivered == s.log.delivered && s'.active == s.active
            && s.log.pending <= s'.log.pending
    decreases |es|
  {
    OnlyFiber(s.active, f);
    if es != [] {
      StepKeeps(s, es[0]);
      assert es[0] != Returned(f);
      SleepingCallbackStalls(Step(s, es[0]), f, es[1..]);
    }
  }

  /** f's pump to its end when every callback finishes inside it, doing what `guest` says. */
  function Finished(s: Shared, f: int, guest: Guest): Shared
    requires f in s.active && s.log.delivered != []
    requires 1 <= s.active[f].taken <= BATCH
    decreases BATCH - s.active[f].taken
  {
    var n := |s.log.delivered| - 1;
    var acted := Accept(s.log, Accepted(guest(s.log.delivered[n].c, n)));
    var s1 := Step(s.(log := acted), Returned(f));
    if f in s1.active then Finished(s1, f, guest) else s1
  }

  lemma {:induction false} FinishedIsPump(s: Shared, l: Log, f: int, guest: Guest, budget: nat)
    requires Valid(s) && f in s.active && s.active[f].taken + budget == BATCH && l.pending != []
    requires s.log == Take(l, s.active[f].cpu)
    ensures Finished(s, f, guest) == Shared(Pump(DeliverOne(l, s.active[f].cpu, guest), s.active[f].cpu, guest, budget),
                                            0, map[])
    decreases budget
  {
    OnlyFiber(s.active, f);
    var n, a := |l.delivered|, s.active[f];
    var acted := Accept(s.log, Accepted(guest(s.log.delivered[n].c, n)));
    assert acted == DeliverOne(l, a.cpu, guest);
    if budget > 0 && acted.pending != [] {
      var s1 := Step(s.(log := acted), Returned(f));
      AcceptKeepsOrder(s.log, Accepted(guest(s.log.delivered[n].c, n)));
      TakeKeepsOrder(acted, a.cpu);
      FinishedIsPump(s1, acted, f, guest, budget - 1);
    }
  }

  /** A pump none of whose callbacks sleeps is the one-fiber pump. */
  lemma UndisturbedPump(s: Shared, f: int, cpu: CpuContext, guest: Guest)
    requires Valid(s) && s.active == map[] && s.log.pending != []
    ensures var s1 := Step(s, Pumped(f, cpu));
            && f in s1.active && s1.active[f].taken == 1 && s1.log.delivered != []
            && Finished(s1, f, guest) == Shared(Pump(s.log, cpu, guest, BATCH), 0, map[])
  {
    StepKeeps(s, Pumped(f, cpu));
    FinishedIsPump(Step(s, Pumped(f, cpu)), s.log, f, guest, BATCH - 1);
  }
}

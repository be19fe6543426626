/** Which host stack belongs to which thread, in the fiber layer's own terms and under its
    only caller's guards: register_current is called for a first thread only, and the guest
    globals can be read after a switch. Whether the layer's current thread is the running
    one is a matter of the whole machine; see module Hosting. */
module FiberRuns {
  import opened Guest
  import opened Cpu
  import opened Fibers

  // ---------------------------------------------------------------- guarded calls

  /** SelectThread registers the running context only while no thread is current and the
      context has no record; a Read32 that fails stops the program. */
  predicate Guarded(w: World, op: Op) {
    match op
    case RegisterOp(t) => w.thread == 0 && Find(w.records, t) == |w.records|
    case SwitchOp(_, readable, _) => readable
    case _ => true
  }

  predicate GuardedRun(w: World, ops: seq<Op>)
    decreases |ops|
  {
    ops == [] || (Guarded(w, ops[0]) && GuardedRun(Step(w, ops[0]), ops[1..]))
  }

  /** A record of the stack in use names the current thread, and a record of any other
      stack the thread that stack will go on as. */
  ghost predicate OwnStacks(w: World) {
    forall k :: 0 <= k < |w.records| && Live(w.records[k]) ==> Owned(w, w.records[k])
  }

  predicate Owned(w: World, r: Record) {
    if r.host == w.current then r.thread == w.thread
    else r.host in w.stacks ==> r.thread == w.stacks[r.host].thread
  }

  lemma CreateOwns(w: World, t: Ptr, entry: int, arg: int, top: int, hid2: int, gotStack: bool)
    requires FiberInv(w) && OwnStacks(w)
    ensures OwnStacks(Create(w, t, entry, arg, top, hid2, gotStack).0)
  {
    var w' := Create(w, t, entry, arg, top, hid2, gotStack).0;
    forall k | 0 <= k < |w'.records| && Live(w'.records[k]) ensures Owned(w', w'.records[k]) {
      assert w'.records[k] == w.records[k] ==> Owned(w, w.records[k]);
    }
  }

  lemma RegisterOwns(w: World, t: Ptr)
    requires FiberInv(w) && OwnStacks(w) && Guarded(w, RegisterOp(t))
    ensures OwnStacks(Register(w, t).0)
  {
    var w' := Register(w, t).0;
    forall k | 0 <= k < |w'.records| && Live(w'.records[k]) ensures Owned(w', w'.records[k]) {
      assert w'.records[k] == w.records[k] ==> Owned(w, w.records[k]);
    }
  }

  lemma SetStateOwns(w: World, t: Ptr, st: FiberState)
    requires OwnStacks(w) && st != Empty
    ensures OwnStacks(SetState(w, t, st))
  {
    var w' := SetState(w, t, st);
    forall k | 0 <= k < |w'.records| && Live(w'.records[k]) ensures Owned(w', w'.records[k]) {
      assert Owned(w, w.records[k]);
    }
  }

  /** switch_to finds its own stack only under the layer's current thread. */
  lemma AtOnceIsOwn(w: World, target: Ptr)
    requires OwnStacks(w) && ReturnsAtOnce(w, target)
    ensures target == w.thread
  {
    assert Owned(w, Target(w, target));
  }

  /** The stack handed to is the target's own. */
  lemma HandsToOwn(w: World, target: Ptr)
    requires FiberInv(w) && OwnStacks(w) && Switchable(w, target) && !ReturnsAtOnce(w, target)
    ensures var k := Find(w.records, target);
            && w.records[k].host in w.stacks && w.stacks[w.records[k].host].thread == target
            && StackFits(w.records[k], k, w.stacks[w.records[k].host])
  {
    var k := Find(w.records, target);
    assert Owned(w, w.records[k]);
  }

  /** Same threads and hosts in the same slots. */
  ghost predicate SameOwners(rs: seq<Record>, rs': seq<Record>) {
    && |rs'| == |rs|
    && forall j :: 0 <= j < |rs| ==>
         rs'[j].thread == rs[j].thread && rs'[j].host == rs[j].host && (Live(rs'[j]) <==> Live(rs[j]))
  }

  lemma ContinueOwners(w: World, stack: Stack, target: Ptr, seed: Seed)
    requires target != 0 && w.thread == target && stack.thread == target
    requires stack.Paused? ==> stack.slot < |w.records| && Live(w.records[stack.slot])
    ensures var r := Continue(w, stack, target, true, seed);
            r.Some? ==> r.value.thread == target && r.value.current == w.current
                        && r.value.stacks == w.stacks && SameOwners(w.records, r.value.records)
  {
  }

  lemma HandedOwners(w: World, target: Ptr)
    requires Switchable(w, target)
    ensures SameOwners(w.records, Handed(w, target).records)
  {
    LeaveChanges(w, target);
    hide LeaveRecords;
  }

  /** Where the stack that takes over goes on: as the thread it was handed to. */
  lemma GoesOnAs(w: World, target: Ptr, seed: Seed)
    requires FiberInv(w) && OwnStacks(w) && Switchable(w, target) && !ReturnsAtOnce(w, target)
    ensures Target(w, target).host in w.stacks && w.stacks[Target(w, target).host].thread == target
    ensures var w' := Step(w, SwitchOp(target, true, seed));
            && w'.thread == target && w'.current == Target(w, target).host
            && w'.stacks == (w.stacks - {w'.current})[w.current := Paused(w.thread, Find(w.records, w.thread), w.cpu)]
            && SameOwners(w.records, w'.records)
  {
    HandsToOwn(w, target);
    HandedOwners(w, target);
    TakeOver(w, target, true, seed);
    LeaveChanges(w, target);
    hide FiberInv, OwnStacks, LeaveRecords, Continue, SameOwners;
    var w1, stack := Handed(w, target), w.stacks[Target(w, target).host];
    ContinueOwners(w1, stack, target, seed);
    assert Step(w, SwitchOp(target, true, seed)) == Continue(w1, stack, target, true, seed).value;
    SameOwnersJoin(w.records, w1.records, Step(w, SwitchOp(target, true, seed)).records);
  }

  lemma SameOwnersJoin(rs: seq<Record>, rs': seq<Record>, rs'': seq<Record>)
    requires SameOwners(rs, rs') && SameOwners(rs', rs'')
    ensures SameOwners(rs, rs'')
  {
  }

  lemma SwitchOwns(w: World, target: Ptr, seed: Seed)
    requires FiberInv(w) && OwnStacks(w)
    ensures OwnStacks(Step(w, SwitchOp(target, true, seed)))
  {
    var w' := Step(w, SwitchOp(target, true, seed));
    if ReturnsAtOnce(w, target) {
      AtOnceIsOwn(w, target);
      LeaveChanges(w, target);
      hide LeaveRecords;
      forall k | 0 <= k < |w'.records| && Live(w'.records[k]) ensures Owned(w', w'.records[k]) {
        assert Owned(w, w.records[k]);
      }
    } else if Switchable(w, target) {
      GoesOnAs(w, target, seed);
      hide FiberInv, Step;
      forall k | 0 <= k < |w'.records| && Live(w'.records[k]) ensures Owned(w', w'.records[k]) {
        assert Owned(w, w.records[k]);
      }
    }
  }

  lemma StepOwns(w: World, op: Op)
    requires FiberInv(w) && OwnStacks(w) && Guarded(w, op)
    ensures OwnStacks(Step(w, op))
  {
    hide FiberInv, Switchable;
    match op
    case CreateOp(t, entry, arg, top, hid2, gotStack) => CreateOwns(w, t, entry, arg, top, hid2, gotStack);
    case RegisterOp(t) => RegisterOwns(w, t);
    case SuspendOp(t) => SetStateOwns(w, t, Waiting);
    case ResumeOp(t) => SetStateOwns(w, t, Fibers.Ready);
    case SwitchOp(target, readable, seed) => SwitchOwns(w, target, seed);
    case Compute(cpu) =>
      forall k | 0 <= k < |w.records| && Live(w.records[k]) ensures Owned(w.(cpu := cpu), w.records[k]) {
        assert Owned(w, w.records[k]);
      }
  }

  lemma {:induction false} RunOwns(w: World, ops: seq<Op>)
    requires FiberInv(w) && OwnStacks(w) && GuardedRun(w, ops)
    ensures FiberInv(Run(w, ops)) && OwnStacks(Run(w, ops))
    decreases |ops|
  {
    hide FiberInv, OwnStacks, Step, Guarded;
    if ops != [] {
      StepKeeps(w, ops[0]);
      StepOwns(w, ops[0]);
      RunOwns(Step(w, ops[0]), ops[1..]);
    }
  }

  lemma BootOwns(cpu: CpuContext)
    ensures FiberInv(Boot(cpu)) && OwnStacks(Boot(cpu))
  {
  }

  /** After any guarded run from boot a switch_to that returns at once was asked for the
      layer's current thread and leaves the registers alone; any other switch_to that goes
      through lands on a stack that goes on as the very thread asked for. */
  lemma SwitchesAreOwn(cpu: CpuContext, ops: seq<Op>, target: Ptr, seed: Seed)
    requires GuardedRun(Boot(cpu), ops) && Switchable(Run(Boot(cpu), ops), target)
    ensures var w := Run(Boot(cpu), ops);
            var w' := Step(w, SwitchOp(target, true, seed));
            && w'.thread == target
            && (ReturnsAtOnce(w, target) ==> target == w.thread && w'.cpu == w.cpu && w'.current == w.current)
  {
    BootOwns(cpu);
    RunOwns(Boot(cpu), ops);
    var w := Run(Boot(cpu), ops);
    hide Run, FiberInv, GuardedRun;
    if ReturnsAtOnce(w, target) {
      AtOnceIsOwn(w, target);
      AtOnceGives(w, target, true, seed);
    } else {
      GoesOnAs(w, target, seed);
    }
  }

  /** And the round trip: a stack that leaves in switch_to during a guarded run from boot
      and is resumed after any guarded continuation goes on as the thread that was the
      layer's current one when it left, with the registers it left with. */
  lemma ThreadComesBack(cpu: CpuContext, before: seq<Op>, target: Ptr, seed: Seed, ops: seq<Op>, back: Op)
    requires GuardedRun(Boot(cpu), before)
    requires var w := Run(Boot(cpu), before);
             var leave := SwitchOp(target, true, seed);
             && Switchable(w, target) && !ReturnsAtOnce(w, target)
             && GuardedRun(Step(w, leave), ops) && NeverResumed(Step(w, leave), ops, w.current)
             && var w1 := Run(Step(w, leave), ops); Resumes(w1, back, w.current) && Guarded(w1, back)
    ensures var w := Run(Boot(cpu), before);
            var w' := Step(Run(Step(w, SwitchOp(target, true, seed)), ops), back);
            && w'.cpu == w.cpu && w'.current == w.current
            && w'.thread == w.thread == back.target && w.thread != 0
  {
    BootOwns(cpu);
    RunOwns(Boot(cpu), before);
    var w := Run(Boot(cpu), before);
    var leave := SwitchOp(target, true, seed);
    assert Guarded(w, leave);
    hide Step, Run, FiberInv, OwnStacks, GuardedRun, NeverResumed;
    StepKeeps(w, leave);
    StepOwns(w, leave);
    RunOwns(Step(w, leave), ops);
    ContextComesBack(w, leave, ops, back);
    var w1 := Run(Step(w, leave), ops);
    GoesOnAs(w1, back.target, back.seed);
  }

  // ---------------------------------------------------------------- without the guards

  lemma AtOnceGives(w: World, target: Ptr, readable: bool, seed: Seed)
    requires ReturnsAtOnce(w, target)
    ensures Step(w, SwitchOp(target, readable, seed)).cpu
            == if Find(w.records, target) == Find(w.records, w.thread) then w.cpu else Target(w, target).saved
  {
    LeaveChanges(w, target);
    hide LeaveRecords;
  }

  /** For a caller of the fiber layer that does not keep to those guards: a switch_to
      that returns at once leaves the caller its registers, whatever they are, exactly
      when it asked for the current thread. */
  lemma AtOnceKeepsRegistersIff(w: World, target: Ptr, readable: bool, seed: Seed)
    requires ReturnsAtOnce(w, target)
    ensures (forall c :: Step(w.(cpu := c), SwitchOp(target, readable, seed)).cpu == c) <==> target == w.thread
  {
    forall c ensures Step(w.(cpu := c), SwitchOp(target, readable, seed)).cpu
                     == if target == w.thread then c else Target(w, target).saved {
      AtOnceGives(w.(cpu := c), target, readable, seed);
    }
    if target != w.thread {
      var saved := Target(w, target).saved;
      var c := saved.(pc := saved.pc + 1);
      assert Step(w.(cpu := c), SwitchOp(target, readable, seed)).cpu != c;
    }
  }

  const MAIN: Ptr := 0x80400000
  const OTHER: Ptr := 0x80500000
  const WORKER: Ptr := 0x80600000

  /** A worker exists; main, then other, were registered on the scheduler's stack. */
  function TwoRegistered(c0: CpuContext, c1: CpuContext): World {
    Run(Boot(c0), [CreateOp(WORKER, 0x80004000, 0, 0x80700000, 0, true), RegisterOp(MAIN),
                   Compute(c1), RegisterOp(OTHER)])
  }

  lemma TwoRegisteredIs(c0: CpuContext, c1: CpuContext)
    ensures var w := TwoRegistered(c0, c1);
            && w.scheduler == w.current == 1 && w.thread == OTHER && w.cpu == c1 && |w.records| == MAX_FIBERS
            && Find(w.records, MAIN) == 1 && w.records[1].saved == c0 && w.records[1].host == 1
            && w.records[2].thread == OTHER && Find(w.records, OTHER) == 2
  {
    var create := CreateOp(WORKER, 0x80004000, 0, 0x80700000, 0, true);
    var w0 := Boot(c0);
    FindsNone(w0.records, WORKER);
    var w1 := Step(w0, create);
    assert w1.records == w0.records[0 := Created(WORKER, 2, 0x80004000, 0, 0x80700000, 0)];
    FindsNone(w1.records, MAIN);
    var w2 := Step(w1, RegisterOp(MAIN));
    assert w2.records == w1.records[1 := Record(MAIN, 1, 0, 0, c0, Running, true)];
    var w3 := Step(w2, Compute(c1));
    FindsNone(w3.records, OTHER);
    assert w3.records[0].state == Waiting && w3.records[1].state == Running && w3.records[2].state == Empty;
    assert FirstEmpty(w3.records) == 2;
    var w4 := Step(w3, RegisterOp(OTHER));
    assert w4.records == w2.records[2 := Record(OTHER, 1, 0, 0, c1, Running, true)];
    RunFour(w0, create, RegisterOp(MAIN), Compute(c1), RegisterOp(OTHER));
    FindsFirst(w4.records, MAIN, 1);
    FindsFirst(w4.records, OTHER, 2);
  }

  /** Misuse: with a second thread registered while the first is current, switching back
      to the first hands its registers to the second one's code. */
  lemma AtOnceLosesRegisters(c0: CpuContext, c1: CpuContext, seed: Seed)
    requires c0 != c1
    ensures var w := TwoRegistered(c0, c1);
            && FiberInv(w) && ReturnsAtOnce(w, MAIN)
            && w.cpu == c1 && Step(w, SwitchOp(MAIN, true, seed)).cpu == c0
  {
    assert FiberInv(Boot(c0));
    RunKeeps(Boot(c0), [CreateOp(WORKER, 0x80004000, 0, 0x80700000, 0, true), RegisterOp(MAIN),
                        Compute(c1), RegisterOp(OTHER)]);
    TwoRegisteredIs(c0, c1);
    hide TwoRegistered, FiberInv, Run;
    AtOnceGives(TwoRegistered(c0, c1), MAIN, true, seed);
  }

  lemma RunFour(w: World, a: Op, b: Op, c: Op, d: Op)
    ensures Run(w, [a, b, c, d]) == Step(Step(Step(Step(w, a), b), c), d)
  {
    hide Step;
    var w1 := Step(w, a);
    assert Run(w, [a, b, c, d]) == Run(w1, [b, c, d]) by { assert [a, b, c, d][1..] == [b, c, d]; }
    assert Run(w1, [b, c, d]) == Run(Step(w1, b), [c, d]) by { assert [b, c, d][1..] == [c, d]; }
    assert Run(Step(w1, b), [c, d]) == Run(Step(Step(w1, b), c), [d]) by { assert [c, d][1..] == [d]; }
    var w3 := Step(Step(w1, b), c);
    assert Run(w3, [d]) == Run(Step(w3, d), []) by { assert [d][1..] == []; }
  }
}

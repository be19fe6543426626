/** The two ways a created thread first runs: OSLoadContext of its guest context, and
    the first entry of its fiber. */
module ThreadStart {
  import opened Guest
  import opened Wrappers
  import opened Cpu
  import opened Fibers

  const EXIT_TRAMPOLINE := 0x801AA0F0
  const INITIAL_SRR1 := 0x9032
  const THP_GQRS := [0x40004, 0x50005, 0x60006, 0x70007]

  predicate IsThpEntry(entry: int) {
    entry == 0x805529A8 || entry == 0x80552A74
  }

  /** The register words of a guest OSContext. */
  datatype GuestContext = GuestContext(gpr: Regs, gqr: Gqrs, cr: int, lr: int, ctr: int, xer: int, srr0: int, srr1: int)

  /** The context OSCreateThread leaves. The words it never writes (r0 and CTR) keep what
      was in memory; `c` is the creator's register file. */
  function CreatedContext(memory: GuestContext, c: CpuContext, entry: int, arg: int, sp: int, scheduler: bool)
    : GuestContext
  {
    GuestContext(
      seq(32, r requires 0 <= r < 32 =>
        if r == 0 then memory.gpr[0]
        else if r == 1 then sp
        else if r == 2 then c.gpr[2]
        else if r == 3 then arg
        else if r == 13 then c.gpr[13]
        else 0),
      seq(8, q requires 0 <= q < 8 => if IsThpEntry(entry) && 2 <= q <= 5 then THP_GQRS[q - 2] else 0),
      0, EXIT_TRAMPOLINE, memory.ctr, 0, entry,
      if scheduler then 0x9932 else INITIAL_SRR1)
  }

  /** The register file after OSLoadContext, or None where it stops. */
  function Loaded(cpu: CpuContext, g: GuestContext): Option<CpuContext> {
    if g.srr0 == 0 then None
    else Some(cpu.(gpr := g.gpr, gqr := g.gqr[0 := 0], cr := g.cr, lr := g.lr, ctr := g.ctr, xer := g.xer,
                   srr0 := g.srr0, srr1 := g.srr1, pc := g.srr0))
  }

  /** What GuestFiberEntry reads from the guest context. */
  function SeedOf(g: GuestContext): Seed {
    Seed(g.gpr[1], g.gpr[2], g.gpr[13], g.lr)
  }

  /** Same r1-r31, GQRs, LR, CR, XER, PC and SRR0. */
  ghost predicate SameStart(a: CpuContext, b: CpuContext) {
    && (forall r :: 1 <= r < 32 ==> a.gpr[r] == b.gpr[r])
    && a.gqr == b.gqr && a.lr == b.lr && a.cr == b.cr && a.xer == b.xer && a.pc == b.pc && a.srr0 == b.srr0
  }

  /** The fiber's registers at its entry: those create saved, with the four of the seed. */
  function Entered(t: Ptr, host: Handle, entry: int, arg: int, sp: int, hid2: int, seed: Seed): CpuContext {
    var r := Created(t, host, entry, arg, sp, hid2);
    EntryContext(r.saved, r, seed)
  }

  /** The two starts agree exactly when the entry is not one of the two THP decoders,
      whose GQR presets exist in guest memory only. */
  lemma StartsAgreeIff(memory: GuestContext, creator: CpuContext, loader: CpuContext,
                       t: Ptr, host: Handle, entry: int, arg: int, sp: int, hid2: int, scheduler: bool)
    requires entry != 0
    ensures var g := CreatedContext(memory, creator, entry, arg, sp, scheduler);
            && Loaded(loader, g).Some?
            && (SameStart(Loaded(loader, g).value, Entered(t, host, entry, arg, sp, hid2, SeedOf(g)))
                <==> !IsThpEntry(entry))
  {
    var g := CreatedContext(memory, creator, entry, arg, sp, scheduler);
    var a, b := Loaded(loader, g).value, Entered(t, host, entry, arg, sp, hid2, SeedOf(g));
    if IsThpEntry(entry) {
      assert a.gqr[2] == 0x40004 && b.gqr[2] == 0;
    } else {
      assert a.gqr == b.gqr;
    }
  }

  /** A fiber's first entry takes its stack, small-data bases and return address from the
      guest context, its argument and entry from its record, and all else as it was. */
  lemma EntryTakes(cpu: CpuContext, r: Record, seed: Seed)
    ensures var c := EntryContext(cpu, r, seed);
            && c.gpr[1] == seed.r1 && c.gpr[2] == seed.r2 && c.gpr[13] == seed.r13 && c.lr == seed.lr
            && c.gpr[3] == r.arg && c.pc == c.srr0 == r.entry
            && (forall k :: 0 <= k < 32 && k !in {1, 2, 3, 13} ==> c.gpr[k] == cpu.gpr[k])
            && c == cpu.(gpr := c.gpr, lr := c.lr, pc := c.pc, srr0 := c.srr0)
  {
  }

  /** OSLoadContext takes over every register of the context but GQR0, which becomes 0,
      continues at SRR0, and leaves the registers a context does not have. */
  lemma LoadTakes(cpu: CpuContext, g: GuestContext)
    ensures Loaded(cpu, g).None? <==> g.srr0 == 0
    ensures g.srr0 != 0 ==>
              var c := Loaded(cpu, g).value;
              && (forall r :: 0 <= r < 32 ==> c.gpr[r] == g.gpr[r])
              && c.gqr[0] == 0 && (forall q :: 1 <= q < 8 ==> c.gqr[q] == g.gqr[q])
              && c.cr == g.cr && c.lr == g.lr && c.ctr == g.ctr && c.xer == g.xer && c.srr1 == g.srr1
              && c.pc == c.srr0 == g.srr0 && c.fpr == cpu.fpr && c.hid2 == cpu.hid2
  {
  }

  /** What a thread created with these arguments finds in its registers, by whichever way
      it starts: its entry and argument, its stack, the creator's small-data bases, and
      the exit trampoline to return to. The fiber also has clean floating-point registers
      and the creator's HID2, or the default for none. */
  lemma StartRegisters(memory: GuestContext, creator: CpuContext, loader: CpuContext,
                       t: Ptr, host: Handle, entry: int, arg: int, sp: int, hid2: int, scheduler: bool)
    requires entry != 0
    ensures var g := CreatedContext(memory, creator, entry, arg, sp, scheduler);
            && Loaded(loader, g).Some?
            && var a, b := Loaded(loader, g).value, Entered(t, host, entry, arg, sp, hid2, SeedOf(g));
               && a.pc == a.srr0 == b.pc == b.srr0 == entry && a.lr == b.lr == 0x801AA0F0
               && a.gpr[1] == b.gpr[1] == sp && a.gpr[3] == b.gpr[3] == arg
               && a.gpr[2] == b.gpr[2] == creator.gpr[2] && a.gpr[13] == b.gpr[13] == creator.gpr[13]
               && (forall r :: 4 <= r < 32 && r != 13 ==> a.gpr[r] == b.gpr[r] == 0)
               && a.cr == b.cr == 0 && a.xer == b.xer == 0 && a.srr1 == (if scheduler then 0x9932 else 0x9032)
               && (forall q :: 0 <= q < 8 && !(IsThpEntry(entry) && 2 <= q <= 5) ==> a.gqr[q] == b.gqr[q] == 0)
               && (IsThpEntry(entry) ==> a.gqr[2..6] == [0x40004, 0x50005, 0x60006, 0x70007])
               && (forall r :: 0 <= r < 32 ==> b.fpr[r] == 0) && b.ctr == 0
               && b.hid2 == if hid2 == 0 then 0x10000000 else hid2
  {
  }

  // ---------------------------------------------------------------- up to the first entry

  /** t's fiber has not been entered: its record is as create left it, but for the state. */
  ghost predicate Waits(w: World, t: Ptr, r: Record) {
    var k := Find(w.records, t);
    && w.thread != t && k < |w.records|
    && w.records[k] == r.(state := w.records[k].state) && Live(w.records[k])
    && r.host in w.stacks && w.stacks[r.host] == Fresh(t)
  }

  predicate LeavesAlone(op: Op, t: Ptr) {
    !(op.CreateOp? && op.t == t) && !(op.SwitchOp? && op.target == t)
  }

  lemma CreatedWaits(w: World, t: Ptr, entry: int, arg: int, sp: int, hid2: int)
    requires FiberInv(w) && t != w.thread && Create(w, t, entry, arg, sp, hid2, true).1
    ensures Waits(Create(w, t, entry, arg, sp, hid2, true).0, t, Created(t, w.next, entry, arg, sp, hid2))
  {
    var w1 := Adopted(w);
    assert FiberInv(w1);
    var k := Slot(w1.records, t);
    SlotIsOnly(w1, t);
    var w' := Create(w, t, entry, arg, sp, hid2, true).0;
    assert w'.records == w1.records[k := Created(t, w.next, entry, arg, sp, hid2)];
    FindsFirst(w'.records, t, k);
  }

  lemma CreateLeavesWaiting(w: World, u: Ptr, entry: int, arg: int, top: int, hid2: int, gotStack: bool,
                            t: Ptr, r: Record)
    requires FiberInv(w) && Waits(w, t, r) && u != t && r.thread == t
    ensures Waits(Create(w, u, entry, arg, top, hid2, gotStack).0, t, r)
  {
    var w' := Create(w, u, entry, arg, top, hid2, gotStack).0;
    var k := Find(w.records, t);
    SlotDiffers(w.records, u, t);
    assert StackFits(w.records[k], k, w.stacks[r.host]);
    assert w'.records[k] == w.records[k];
    FindsFirst(w'.records, t, k);
  }

  lemma SlotDiffers(rs: seq<Record>, u: Ptr, t: Ptr)
    requires u != t && Find(rs, t) < |rs|
    ensures Slot(rs, u) != Find(rs, t)
  {
  }

  lemma RegisterLeavesWaiting(w: World, u: Ptr, t: Ptr, r: Record)
    requires FiberInv(w) && Waits(w, t, r) && r.thread == t
    ensures Waits(Register(w, u).0, t, r)
  {
    var w' := Register(w, u).0;
    var k := Find(w.records, t);
    assert StackFits(w.records[k], k, w.stacks[r.host]);
    if u == t {
      assert Slot(w.records, t) == k && w.records[k].host != w.scheduler;
    } else {
      SlotDiffers(w.records, u, t);
      assert w'.records[k] == w.records[k];
      FindsFirst(w'.records, t, k);
    }
  }

  lemma SetStateLeavesWaiting(w: World, u: Ptr, st: FiberState, t: Ptr, r: Record)
    requires FiberInv(w) && Waits(w, t, r) && r.thread == t && st != Empty
    ensures Waits(SetState(w, u, st), t, r)
  {
    var w' := SetState(w, u, st);
    FindsFirst(w'.records, t, Find(w.records, t));
  }

  /** Rewriting saved contexts and states of other threads' records. */
  lemma RecordStays(w: World, rs: seq<Record>, t: Ptr, r: Record)
    requires RecordsOk(w) && Waits(w, t, r) && |rs| == |w.records|
    requires forall j :: 0 <= j < |rs| ==>
               && rs[j] == w.records[j].(saved := rs[j].saved, state := rs[j].state)
               && (Live(rs[j]) <==> Live(w.records[j]))
    requires rs[Find(w.records, t)].saved == w.records[Find(w.records, t)].saved
    ensures Find(rs, t) == Find(w.records, t)
    ensures rs[Find(rs, t)] == r.(state := rs[Find(rs, t)].state) && Live(rs[Find(rs, t)])
  {
    var k := Find(w.records, t);
    forall j | 0 <= j < k ensures !Holds(rs[j], t) {
      assert !Holds(w.records[j], t);
    }
    FindsFirst(rs, t, k);
  }

  lemma ThreadsDiffer(w: World, t: Ptr, u: Ptr)
    requires Find(w.records, t) < |w.records| && t != u
    ensures Find(w.records, u) != Find(w.records, t)
  {
  }

  lemma AtOnceLeavesWaiting(w: World, u: Ptr, t: Ptr, r: Record)
    requires FiberInv(w) && Waits(w, t, r) && r.thread == t && u != t && ReturnsAtOnce(w, u)
    ensures var rs := LeaveRecords(w, u);
            Waits(w.(records := rs, thread := u, cpu := rs[Find(w.records, u)].saved), t, r)
  {
    LeaveChanges(w, u);
    ThreadsDiffer(w, t, w.thread);
    RecordStays(w, LeaveRecords(w, u), t, r);
    hide LeaveRecords;
  }

  lemma HandedLeavesWaiting(w: World, u: Ptr, t: Ptr, r: Record)
    requires FiberInv(w) && Waits(w, t, r) && r.thread == t && u != t && Switchable(w, u) && !ReturnsAtOnce(w, u)
    ensures Waits(Handed(w, u), t, r)
  {
    LeaveChanges(w, u);
    ThreadsDiffer(w, t, w.thread);
    RecordStays(w, LeaveRecords(w, u), t, r);
    hide LeaveRecords;
    var k, j := Find(w.records, t), Find(w.records, u);
    assert StackFits(w.records[k], k, w.stacks[r.host]);
    ThreadsDiffer(w, t, u);
    assert w.records[j].host != w.records[k].host;
  }

  lemma ContinueLeavesWaiting(w: World, s: Stack, u: Ptr, readable: bool, seed: Seed, t: Ptr, r: Record)
    requires FiberInv(w) && Waits(w, t, r) && r.thread == t && u != t && w.thread == u
    requires Continue(w, s, u, readable, seed).Some? && FiberInv(Continue(w, s, u, readable, seed).value)
    requires s.Paused? && s.slot < |w.records| && s.thread == u ==> Live(w.records[s.slot])
    ensures Waits(Continue(w, s, u, readable, seed).value, t, r)
  {
    var w' := Continue(w, s, u, readable, seed).value;
    RecordStays(w, w'.records, t, r);
  }

  lemma AwayLeavesWaiting(w: World, u: Ptr, readable: bool, seed: Seed, t: Ptr, r: Record)
    requires FiberInv(w) && Waits(w, t, r) && r.thread == t && u != t && Switchable(w, u) && !ReturnsAtOnce(w, u)
    ensures Target(w, u).host in w.stacks
    ensures var c := Continue(Handed(w, u), w.stacks[Target(w, u).host], u, readable, seed);
            c.Some? && Waits(c.value, t, r)
  {
    HandedKeeps(w, u);
    HandedLeavesWaiting(w, u, t, r);
    TakeOver(w, u, readable, seed);
    LeaveChanges(w, u);
    var k := Find(w.records, u);
    var s := w.stacks[w.records[k].host];
    assert StackFits(w.records[k], k, s);
    hide FiberInv, Waits, LeaveRecords, Continue, StackFits;
    ContinueLeavesWaiting(Handed(w, u), s, u, readable, seed, t, r);
  }

  lemma SwitchLeavesWaiting(w: World, u: Ptr, readable: bool, seed: Seed, t: Ptr, r: Record)
    requires FiberInv(w) && Waits(w, t, r) && r.thread == t && u != t
    ensures Waits(Step(w, SwitchOp(u, readable, seed)), t, r)
  {
    hide FiberInv, Waits, Continue;
    if Switchable(w, u) {
      LeaveChanges(w, u);
      if ReturnsAtOnce(w, u) {
        AtOnceLeavesWaiting(w, u, t, r);
      } else {
        AwayLeavesWaiting(w, u, readable, seed, t, r);
        HandedKeeps(w, u);
      }
      hide LeaveRecords;
    }
  }

  lemma StepLeavesWaiting(w: World, op: Op, t: Ptr, r: Record)
    requires FiberInv(w) && Waits(w, t, r) && r.thread == t && LeavesAlone(op, t)
    ensures Waits(Step(w, op), t, r)
  {
    hide FiberInv;
    match op
    case CreateOp(u, entry, arg, top, hid2, gotStack) =>
      CreateLeavesWaiting(w, u, entry, arg, top, hid2, gotStack, t, r);
    case RegisterOp(u) => RegisterLeavesWaiting(w, u, t, r);
    case SuspendOp(u) => SetStateLeavesWaiting(w, u, Waiting, t, r);
    case ResumeOp(u) => SetStateLeavesWaiting(w, u, Ready, t, r);
    case SwitchOp(u, readable, seed) => SwitchLeavesWaiting(w, u, readable, seed, t, r);
    case Compute(cpu) =>
  }

  predicate AllLeaveAlone(ops: seq<Op>, t: Ptr) {
    forall i :: 0 <= i < |ops| ==> LeavesAlone(ops[i], t)
  }

  lemma {:induction false} RunLeavesWaiting(w: World, ops: seq<Op>, t: Ptr, r: Record)
    requires FiberInv(w) && Waits(w, t, r) && r.thread == t && AllLeaveAlone(ops, t)
    ensures FiberInv(Run(w, ops)) && Waits(Run(w, ops), t, r)
    decreases |ops|
  {
    hide FiberInv, Waits, Step;
    if ops != [] {
      StepKeeps(w, ops[0]);
      StepLeavesWaiting(w, ops[0], t, r);
      RunLeavesWaiting(Step(w, ops[0]), ops[1..], t, r);
    }
  }

  lemma FirstSwitch(w: World, t: Ptr, r: Record, readable: bool, seed: Seed)
    requires FiberInv(w) && Waits(w, t, r) && r.thread == t && Switchable(w, t)
    ensures Step(w, SwitchOp(t, readable, seed)).cpu == EntryContext(r.saved, r, seed)
  {
    LeaveChanges(w, t);
    ThreadsDiffer(w, t, w.thread);
    WaitsApart(w, t, r);
    hide FiberInv, LeaveRecords, Continue, Waits;
    TakeOver(w, t, readable, seed);
    HandedKeeps(w, t);
  }

  lemma WaitsApart(w: World, t: Ptr, r: Record)
    requires FiberInv(w) && Waits(w, t, r)
    ensures var k := Find(w.records, t);
            && k < |w.records| && w.records[k] == r.(state := w.records[k].state) && w.thread != t
            && w.records[k].host != w.current && w.records[k].host in w.stacks
            && w.stacks[w.records[k].host] == Fresh(t)
  {
  }

  /** t's first switch_to after `ops` enters its fiber with the registers create saved
      and the seed from its guest context. */
  predicate EntersAs(w: World, ops: seq<Op>, t: Ptr, readable: bool, seed: Seed, entered: CpuContext) {
    && Switchable(Run(w, ops), t)
    && Step(Run(w, ops), SwitchOp(t, readable, seed)).cpu == entered
  }

  lemma FirstEntry(w: World, t: Ptr, entry: int, arg: int, sp: int, hid2: int, ops: seq<Op>, readable: bool, seed: Seed)
    requires FiberInv(w) && t != w.thread && Create(w, t, entry, arg, sp, hid2, true).1
    requires AllLeaveAlone(ops, t)
    ensures EntersAs(Create(w, t, entry, arg, sp, hid2, true).0, ops, t, readable, seed,
                     Entered(t, w.next, entry, arg, sp, hid2, seed))
  {
    var w0, r := Create(w, t, entry, arg, sp, hid2, true).0, Created(t, w.next, entry, arg, sp, hid2);
    CreateKeeps(w, t, entry, arg, sp, hid2, true);
    CreatedWaits(w, t, entry, arg, sp, hid2);
    RunLeavesWaiting(w0, ops, t, r);
    var w1 := Run(w0, ops);
    WaitingSwitchable(w1, t, r);
    hide FiberInv, Waits, Run, Step, Create;
    FirstSwitch(w1, t, r, readable, seed);
  }

  /** A thread that creates its own record anew: its next switch_to saves the running
      registers over the fresh ones, and the fiber is entered with those. */
  lemma OwnRecordEntry(w: World, t: Ptr, entry: int, arg: int, sp: int, hid2: int, readable: bool, seed: Seed)
    requires FiberInv(w) && t == w.thread && Create(w, t, entry, arg, sp, hid2, true).1
    ensures var ops := [Compute(ZeroContext().(cr := 1))];
            && AllLeaveAlone(ops, t)
            && !EntersAs(Create(w, t, entry, arg, sp, hid2, true).0, ops, t, readable, seed,
                         Entered(t, w.next, entry, arg, sp, hid2, seed))
  {
    var c := ZeroContext().(cr := 1);
    var w0 := Create(w, t, entry, arg, sp, hid2, true).0;
    CreateKeeps(w, t, entry, arg, sp, hid2, true);
    OwnRecord(w, t, entry, arg, sp, hid2);
    RunCompute(w0, c);
    hide FiberInv, Run, Create, Step, Find, ReturnsAtOnce, Switchable, Target;
    OwnFiberEntered(w0, t, c, readable, seed);
  }

  lemma RunCompute(w: World, c: CpuContext)
    ensures Run(w, [Compute(c)]) == w.(cpu := c)
  {
    assert Run(w.(cpu := c), []) == w.(cpu := c) && [Compute(c)][1..] == [];
  }

  /** The current thread's own, not yet entered fiber gets the running registers. */
  lemma OwnFiberEntered(w: World, t: Ptr, c: CpuContext, readable: bool, seed: Seed)
    requires FiberInv(w) && w.thread == t && Switchable(w, t) && !ReturnsAtOnce(w, t)
    requires Target(w, t).host in w.stacks && w.stacks[Target(w, t).host] == Fresh(t)
    ensures Step(w.(cpu := c), SwitchOp(t, readable, seed)).cpu.cr == c.cr
  {
    var w1 := w.(cpu := c);
    RecontextKeeps(w, c);
    TakeOver(w1, t, readable, seed);
    HandedKeeps(w1, t);
    LeaveChanges(w1, t);
    hide FiberInv, LeaveRecords, Continue;
  }

  lemma OwnRecord(w: World, t: Ptr, entry: int, arg: int, sp: int, hid2: int)
    requires FiberInv(w) && t == w.thread && Create(w, t, entry, arg, sp, hid2, true).1
    ensures var w0 := Create(w, t, entry, arg, sp, hid2, true).0;
            && Switchable(w0, t) && !ReturnsAtOnce(w0, t) && w0.thread == t
            && w0.stacks[Target(w0, t).host] == Fresh(t) && Target(w0, t).host in w0.stacks
  {
    var w1 := Adopted(w);
    var k := Slot(w1.records, t);
    assert FiberInv(w1);
    SlotIsOnly(w1, t);
    var w' := Create(w, t, entry, arg, sp, hid2, true).0;
    assert w'.records == w1.records[k := Created(t, w.next, entry, arg, sp, hid2)];
    FindsFirst(w'.records, t, k);
  }

  /** A fiber's first entry sees exactly the registers create saved and the seed from
      its guest context, whatever all threads do in between, if and only if the fiber
      was not created for the thread then current. By StartsAgreeIff the fiber starts
      as OSLoadContext would have started it. */
  lemma FirstEntryIff(w: World, t: Ptr, entry: int, arg: int, sp: int, hid2: int)
    requires FiberInv(w) && Create(w, t, entry, arg, sp, hid2, true).1
    ensures t != w.thread <==>
            forall ops, readable, seed :: AllLeaveAlone(ops, t) ==>
              EntersAs(Create(w, t, entry, arg, sp, hid2, true).0, ops, t, readable, seed,
                       Entered(t, w.next, entry, arg, sp, hid2, seed))
  {
    hide FiberInv, EntersAs, Create, Entered, AllLeaveAlone;
    if t != w.thread {
      forall ops, readable, seed | AllLeaveAlone(ops, t)
        ensures EntersAs(Create(w, t, entry, arg, sp, hid2, true).0, ops, t, readable, seed,
                         Entered(t, w.next, entry, arg, sp, hid2, seed))
      {
        FirstEntry(w, t, entry, arg, sp, hid2, ops, readable, seed);
      }
    } else {
      OwnRecordEntry(w, t, entry, arg, sp, hid2, true, Seed(0, 0, 0, 0));
    }
  }

  lemma WaitingSwitchable(w: World, t: Ptr, r: Record)
    requires FiberInv(w) && Waits(w, t, r)
    ensures Switchable(w, t)
  {
  }
}

/** Guest fibers: one shared CpuContext handed from host stack to host stack. A host
    stack that is switched away from is a suspended activation of switch_to, which
    remembers its locals. */
module Fibers {
  import opened Guest
  import opened Wrappers
  import opened Cpu

  const MAX_FIBERS := 64

  /** A host context; 0 is the null handle. Handles are never reused. */
  type Handle = nat

  datatype FiberState = Empty | Ready | Running | Waiting

  datatype Record = Record(
    thread: Ptr,
    host: Handle,
    entry: int,
    arg: int,
    saved: CpuContext,
    state: FiberState,
    schedulerHost: bool)

  function Blank(): Record {
    Record(0, 0, 0, 0, ZeroContext(), Empty, false)
  }

  /** What runs when a host stack is switched to: a first entry, or the rest of the
      switch_to call that left it, with the locals previous_thread, previous (an
      index, MAX_FIBERS for null) and caller_context. */
  datatype Stack =
    | Fresh(thread: Ptr)
    | Paused(thread: Ptr, slot: nat, caller: CpuContext)

  datatype World = World(
    records: seq<Record>,
    scheduler: Handle,
    current: Handle,
    thread: Ptr,                 // g_current_guest_thread
    cpu: CpuContext,
    stacks: map<Handle, Stack>,  // every live host stack but the current one
    next: Handle)

  // ---------------------------------------------------------------- the records

  predicate Holds(r: Record, t: Ptr) {
    r.state != Empty && r.thread == t
  }

  /** The first record of t, or |rs|. */
  function Find(rs: seq<Record>, t: Ptr): (k: nat)
    ensures k <= |rs|
    ensures k < |rs| ==> t != 0 && Holds(rs[k], t)
    ensures t != 0 ==> forall j :: 0 <= j < k ==> !Holds(rs[j], t)
  {
    if t == 0 || rs == [] then |rs|
    else if Holds(rs[0], t) then 0
    else 1 + Find(rs[1..], t)
  }

  function FirstEmpty(rs: seq<Record>): (k: nat)
    ensures k <= |rs|
    ensures k < |rs| ==> rs[k].state == Empty
    ensures forall j :: 0 <= j < k ==> rs[j].state != Empty
  {
    if rs == [] || rs[0].state == Empty then 0 else 1 + FirstEmpty(rs[1..])
  }

  /** The slot Allocate picks, or |rs|; a new slot is blanked first. */
  function Slot(rs: seq<Record>, t: Ptr): (k: nat)
    ensures k <= |rs|
  {
    if Find(rs, t) < |rs| then Find(rs, t) else FirstEmpty(rs)
  }

  // ---------------------------------------------------------------- the operations

  function Adopted(w: World): World {
    if w.scheduler == 0 then w.(scheduler := w.current) else w
  }

  function Available(w: World): bool {
    w.scheduler != 0 && w.current != 0
  }

  /** What create writes into its record when the host stack exists. */
  function Created(t: Ptr, host: Handle, entry: int, arg: int, top: int, hid2: int): Record {
    var z := ZeroContext();
    Record(t, host, entry, arg,
           z.(gpr := z.gpr[1 := top][3 := arg], pc := entry, srr0 := entry,
              hid2 := if hid2 != 0 then hid2 else 0x10000000),
           Waiting, false)
  }

  /** The stack of the record being overwritten is freed, unless it is the
      scheduler's or the one this code runs on. */
  function Freed(w: World, k: nat): map<Handle, Stack>
    requires k < |w.records|
  {
    var r := w.records[k];
    if r.state != Empty && !r.schedulerHost then w.stacks - {r.host} else w.stacks
  }

  /** create. `gotStack`: the host stack could be had. */
  function Create(w: World, t: Ptr, entry: int, arg: int, top: int, hid2: int, gotStack: bool): (World, bool) {
    var w1 := Adopted(w);
    if !Available(w1) || t == 0 || entry == 0 then (w1, false)
    else
      var k := Slot(w1.records, t);
      if k == |w1.records| then (w1, false)
      else
        var stacks := Freed(w1, k);
        if !gotStack then (w1.(records := w1.records[k := Blank()], stacks := stacks), false)
        else
          var h := w1.next;
          (w1.(records := w1.records[k := Created(t, h, entry, arg, top, hid2)],
               stacks := stacks[h := Fresh(t)],
               next := h + 1), true)
  }

  function Register(w: World, t: Ptr): (World, bool) {
    if !Available(w) || t == 0 || w.current != w.scheduler then (w, false)
    else
      var k := Slot(w.records, t);
      if k == |w.records| then (w, false)
      else
        var r := w.records[k];
        if r.state != Empty && r.host != w.scheduler then (w, false)
        else
          var r' := if r.state == Empty then Blank() else r;
          (w.(records := w.records[k := r'.(thread := t, host := w.scheduler, saved := w.cpu,
                                            state := Running, schedulerHost := true)],
              thread := t), true)
  }

  function SetState(w: World, t: Ptr, st: FiberState): World {
    var k := Find(w.records, t);
    if k == |w.records| then w else w.(records := w.records[k := w.records[k].(state := st)])
  }

  predicate Switchable(w: World, target: Ptr) {
    Available(w) && Find(w.records, target) < |w.records| && w.records[Find(w.records, target)].host != 0
  }

  /** switch_to up to the host switch. */
  function LeaveRecords(w: World, target: Ptr): seq<Record>
    requires Switchable(w, target)
  {
    var p := Find(w.records, w.thread);
    var rs := if p < |w.records| then w.records[p := w.records[p].(saved := w.cpu)] else w.records;
    var k := Find(w.records, target);
    rs[k := rs[k].(state := Running)]
  }

  /** The registers GuestFiberEntry takes from the guest context. */
  datatype Seed = Seed(r1: int, r2: int, r13: int, lr: int)

  function EntryContext(cpu: CpuContext, r: Record, seed: Seed): CpuContext {
    cpu.(gpr := cpu.gpr[1 := seed.r1][2 := seed.r2][13 := seed.r13][3 := r.arg],
         lr := seed.lr, pc := r.entry, srr0 := r.entry)
  }

  /** The stack switched to takes over. SelectThread has made `target` the running
      and the current context, so that is what the guest globals say (when they can
      be read at all). None: GuestFiberEntry found no record and stopped. */
  function Continue(w: World, stack: Stack, target: Ptr, readable: bool, seed: Seed): Option<World> {
    match stack
    case Fresh(t) =>
      var k := Find(w.records, t);
      if k == |w.records| then None else Some(w.(cpu := EntryContext(w.cpu, w.records[k], seed)))
    case Paused(t, slot, caller) =>
      if readable && slot < |w.records| && t != 0 && target == t then
        Some(w.(cpu := w.records[slot].saved,
                records := w.records[slot := w.records[slot].(state := Running)],
                thread := t))
      else Some(w.(cpu := caller, thread := 0))
  }

  datatype Switched = Failed | Stopped | Went(world: World)

  /** switch_to, from the call to the moment some host stack runs guest code again. */
  function SwitchTo(w: World, target: Ptr, readable: bool, seed: Seed): Switched {
    if !Switchable(w, target) then Failed
    else
      var k := Find(w.records, target);
      var rs := LeaveRecords(w, target);
      var w1 := w.(records := rs, thread := target, cpu := rs[k].saved);
      var h := rs[k].host;
      if h == w.current then Went(w1)
      else if h !in w.stacks then Stopped        // a freed stack
      else
        var left := Paused(w.thread, Find(w.records, w.thread), w.cpu);
        var w2 := w1.(current := h, stacks := (w.stacks - {h})[w.current := left]);
        match Continue(w2, w.stacks[h], target, readable, seed)
        case None => Stopped
        case Some(w3) => Went(w3)
  }

  // ---------------------------------------------------------------- the invariant

  predicate Live(r: Record) {
    r.state != Empty
  }

  ghost predicate RecordsOk(w: World) {
    && |w.records| == MAX_FIBERS
    && (forall k :: 0 <= k < |w.records| && Live(w.records[k]) ==>
          w.records[k].thread != 0 && 0 < w.records[k].host < w.next)
    && (forall j, k :: 0 <= j < k < |w.records| && Live(w.records[j]) && Live(w.records[k]) ==>
          w.records[j].thread != w.records[k].thread)
  }

  ghost predicate HostsOk(w: World) {
    && w.current != 0 && w.current < w.next && w.scheduler < w.next && w.current !in w.stacks
    && (forall h | h in w.stacks :: 0 < h < w.next)
    && (forall k :: 0 <= k < |w.records| && Live(w.records[k]) ==>
          w.scheduler != 0 && (w.records[k].schedulerHost <==> w.records[k].host == w.scheduler))
    && (forall j, k | 0 <= j < k < |w.records| && Live(w.records[j]) && Live(w.records[k]) ::
          w.records[j].host == w.records[k].host ==> w.records[j].schedulerHost)
  }

  /** No record names a freed stack. */
  ghost predicate HostsAlive(w: World) {
    && (w.scheduler == 0 || w.scheduler == w.current || w.scheduler in w.stacks)
    && (w.scheduler == 0 ==> w.stacks == map[])
    && (forall k :: 0 <= k < |w.records| && Live(w.records[k]) ==>
          w.records[k].host == w.current || w.records[k].host in w.stacks)
  }

  /** The current thread's record belongs to this stack, or was re-created since. */
  ghost predicate CurrentOk(w: World) {
    forall k | 0 <= k < |w.records| && Live(w.records[k]) && w.records[k].thread == w.thread ::
      w.records[k].host in w.stacks ==> w.stacks[w.records[k].host].Fresh?
  }

  predicate StackFits(r: Record, k: nat, s: Stack) {
    match s
    case Fresh(t) => r.thread == t && !r.schedulerHost
    case Paused(t, slot, caller) => r.thread == t ==> slot == k && r.saved == caller
  }

  /** A suspended activation's record, if still its own, holds the caller's context. */
  ghost predicate StacksFit(w: World) {
    forall k :: 0 <= k < |w.records| && Live(w.records[k]) && w.records[k].host in w.stacks ==>
      StackFits(w.records[k], k, w.stacks[w.records[k].host])
  }

  ghost predicate FiberInv(w: World) {
    RecordsOk(w) && HostsOk(w) && HostsAlive(w) && CurrentOk(w) && StacksFit(w)
  }

  lemma FindUsed(w: World, t: Ptr, k: nat)
    requires RecordsOk(w) && k < |w.records| && Live(w.records[k]) && w.records[k].thread == t
    ensures Find(w.records, t) == k
  {
  }

  /** A record is emptied and its stack freed: create without a stack. */
  lemma DropKeeps(w: World, k: nat)
    requires FiberInv(w) && k < |w.records| && w.scheduler != 0
    ensures FiberInv(w.(records := w.records[k := Blank()], stacks := Freed(w, k)))
    ensures forall j :: 0 <= j < |w.records| && j != k && Live(w.records[j]) ==>
              w.records[j].host == w.current || w.records[j].host in Freed(w, k)
  {
    assert forall j :: 0 <= j < |w.records| && j != k && Live(w.records[j]) && Live(w.records[k]) ==>
        w.records[j].host == w.records[k].host ==> w.records[j].schedulerHost;
  }

  /** An empty slot gets a thread without a record and a new stack. */
  lemma FillKeeps(w: World, k: nat, r: Record)
    requires FiberInv(w) && k < |w.records| && !Live(w.records[k]) && w.scheduler != 0
    requires Live(r) && r.thread != 0 && r.host == w.next && !r.schedulerHost
    requires forall j :: 0 <= j < |w.records| && Live(w.records[j]) ==> w.records[j].thread != r.thread
    ensures FiberInv(w.(records := w.records[k := r], stacks := w.stacks[w.next := Fresh(r.thread)],
                        next := w.next + 1))
  {
    hide StackFits;
    var w' := w.(records := w.records[k := r], stacks := w.stacks[w.next := Fresh(r.thread)], next := w.next + 1);
    forall j | 0 <= j < |w'.records| && Live(w'.records[j]) && w'.records[j].host in w'.stacks
      ensures StackFits(w'.records[j], j, w'.stacks[w'.records[j].host])
    {
      if j == k {
        FreshFits(r, k);
      } else {
        assert w.records[j].host in w.stacks;
      }
    }
  }

  lemma FreshFits(r: Record, k: nat)
    requires !r.schedulerHost
    ensures StackFits(r, k, Fresh(r.thread))
  {
  }

  lemma CreateKeeps(w: World, t: Ptr, entry: int, arg: int, top: int, hid2: int, gotStack: bool)
    requires FiberInv(w)
    ensures FiberInv(Create(w, t, entry, arg, top, hid2, gotStack).0)
  {
    var w1 := Adopted(w);
    assert FiberInv(w1);
    var k := Slot(w1.records, t);
    if Available(w1) && t != 0 && entry != 0 && k < |w1.records| {
      DropKeeps(w1, k);
      SlotIsOnly(w1, t);
      hide FiberInv;
      var w2 := w1.(records := w1.records[k := Blank()], stacks := Freed(w1, k));
      if gotStack {
        var r := Created(t, w1.next, entry, arg, top, hid2);
        FillKeeps(w2, k, r);
        assert w2.records[k := r] == w1.records[k := r];
      }
    }
  }

  /** Outside the slot Allocate picks no record is the thread's. */
  lemma SlotIsOnly(w: World, t: Ptr)
    requires RecordsOk(w) && t != 0 && Slot(w.records, t) < |w.records|
    ensures forall j :: 0 <= j < |w.records| && j != Slot(w.records, t) && Live(w.records[j]) ==>
              w.records[j].thread != t
  {
    var f := Find(w.records, t);
    forall j | 0 <= j < |w.records| && Live(w.records[j]) && w.records[j].thread == t ensures j == Slot(w.records, t) {
      assert Holds(w.records[j], t);
    }
  }

  lemma RegisterKeeps(w: World, t: Ptr)
    requires FiberInv(w)
    ensures FiberInv(Register(w, t).0)
  {
  }

  lemma SetStateKeeps(w: World, t: Ptr, st: FiberState)
    requires FiberInv(w) && st != Empty
    ensures FiberInv(SetState(w, t, st))
  {
  }

  // ---------------------------------------------------------------- switching

  function Target(w: World, target: Ptr): Record
    requires Switchable(w, target)
  {
    w.records[Find(w.records, target)]
  }

  /** switch_to finds its own stack under the target's record and returns at once. */
  predicate ReturnsAtOnce(w: World, target: Ptr) {
    Switchable(w, target) && Target(w, target).host == w.current
  }

  /** The records after the save and the state change differ in those two words only. */
  lemma LeaveChanges(w: World, target: Ptr)
    requires Switchable(w, target)
    ensures var rs, p := LeaveRecords(w, target), Find(w.records, w.thread);
            && |rs| == |w.records|
            && (forall j :: 0 <= j < |rs| ==>
                  && rs[j] == w.records[j].(saved := rs[j].saved, state := rs[j].state)
                  && (Live(rs[j]) <==> Live(w.records[j]))
                  && rs[j].saved == if j == p then w.cpu else w.records[j].saved)
  {
  }

  lemma ReturnAtOnceKeeps(w: World, target: Ptr)
    requires FiberInv(w) && ReturnsAtOnce(w, target)
    ensures var k, rs := Find(w.records, target), LeaveRecords(w, target);
            FiberInv(w.(records := rs, thread := target, cpu := rs[k].saved))
  {
    LeaveChanges(w, target);
    var k, rs := Find(w.records, target), LeaveRecords(w, target);
    hide LeaveRecords;
    var w' := w.(records := rs, thread := target, cpu := rs[k].saved);
    assert RecordsOk(w') && HostsOk(w') && HostsAlive(w');
    SaveFits(w, rs);
    forall j | 0 <= j < |rs| && Live(rs[j]) && rs[j].thread == target ensures j == k {
      FindUsed(w, target, j);
    }
  }

  /** Saving into the current thread's record disturbs no suspended activation. */
  lemma SaveFits(w: World, rs: seq<Record>)
    requires FiberInv(w) && |rs| == |w.records|
    requires forall j :: 0 <= j < |rs| ==>
               && rs[j] == w.records[j].(saved := rs[j].saved, state := rs[j].state)
               && (Live(rs[j]) <==> Live(w.records[j]))
               && rs[j].saved == if j == Find(w.records, w.thread) then w.cpu else w.records[j].saved
    ensures forall j :: 0 <= j < |rs| && Live(rs[j]) && rs[j].host in w.stacks ==>
              StackFits(rs[j], j, w.stacks[rs[j].host])
  {
    forall j | 0 <= j < |rs| && Live(rs[j]) && rs[j].host in w.stacks
      ensures StackFits(rs[j], j, w.stacks[rs[j].host])
    {
      assert StackFits(w.records[j], j, w.stacks[w.records[j].host]);
    }
  }

  /** The state in which the destination stack takes over. */
  function Handed(w: World, target: Ptr): World
    requires Switchable(w, target)
  {
    var k, rs := Find(w.records, target), LeaveRecords(w, target);
    var left := Paused(w.thread, Find(w.records, w.thread), w.cpu);
    w.(records := rs, thread := target, cpu := rs[k].saved, current := rs[k].host,
       stacks := (w.stacks - {rs[k].host})[w.current := left])
  }

  lemma HandedHosts(w: World, target: Ptr)
    requires FiberInv(w) && Switchable(w, target) && !ReturnsAtOnce(w, target)
    ensures var w' := Handed(w, target); RecordsOk(w') && HostsOk(w') && HostsAlive(w')
    ensures Target(w, target).host in w.stacks
    ensures Find(Handed(w, target).records, target) == Find(w.records, target)
  {
    LeaveChanges(w, target);
    hide LeaveRecords, StackFits;
    FindUsed(Handed(w, target), target, Find(w.records, target));
  }

  lemma HandedStacks(w: World, target: Ptr)
    requires FiberInv(w) && Switchable(w, target) && !ReturnsAtOnce(w, target)
    ensures StacksFit(Handed(w, target))
  {
    LeaveChanges(w, target);
    var rs, w' := LeaveRecords(w, target), Handed(w, target);
    hide LeaveRecords;
    SaveFits(w, rs);
    forall j | 0 <= j < |rs| && Live(rs[j]) && rs[j].host in w'.stacks
      ensures StackFits(rs[j], j, w'.stacks[rs[j].host])
    {
      if rs[j].host == w.current {
        if rs[j].thread == w.thread { FindUsed(w, w.thread, j); }
      }
    }
  }

  lemma HandedKeeps(w: World, target: Ptr)
    requires FiberInv(w) && Switchable(w, target) && !ReturnsAtOnce(w, target)
    ensures FiberInv(Handed(w, target)) && Target(w, target).host in w.stacks
    ensures Find(Handed(w, target).records, target) == Find(w.records, target)
  {
    HandedHosts(w, target);
    HandedStacks(w, target);
    LeaveChanges(w, target);
    var k, w' := Find(w.records, target), Handed(w, target);
    hide LeaveRecords, StacksFit, HostsOk, HostsAlive;
    forall j | 0 <= j < |w'.records| && Live(w'.records[j]) && w'.records[j].thread == target ensures j == k {
      FindUsed(w', target, j);
    }
  }

  lemma ResumedKeeps(w: World, slot: nat, t: Ptr)
    requires FiberInv(w) && slot < |w.records| && Live(w.records[slot]) && w.records[slot].thread == t == w.thread
    requires w.records[slot].host == w.current
    ensures FiberInv(w.(cpu := w.records[slot].saved,
                        records := w.records[slot := w.records[slot].(state := Running)], thread := t))
  {
  }

  /** switch_to keeps the invariant, never enters a freed stack, and never finds
      GuestFiberEntry without a record. It fails only before it changes anything. */
  lemma SwitchKeeps(w: World, target: Ptr, readable: bool, seed: Seed)
    requires FiberInv(w)
    ensures var r := SwitchTo(w, target, readable, seed);
            && (r.Failed? <==> !Switchable(w, target))
            && (Switchable(w, target) ==> r.Went? && FiberInv(r.world))
  {
    if Switchable(w, target) {
      if ReturnsAtOnce(w, target) {
        ReturnAtOnceKeeps(w, target);
        LeaveChanges(w, target);
      } else {
        HandedKeeps(w, target);
        LeaveChanges(w, target);
        TakeOver(w, target, readable, seed);
      }
    }
  }

  /** What the destination stack finds: an activation gets its caller's context
      through either branch, a first entry the registers of its record and seed. */
  lemma TakeOver(w: World, target: Ptr, readable: bool, seed: Seed)
    requires FiberInv(w) && Switchable(w, target) && !ReturnsAtOnce(w, target)
    ensures Target(w, target).host in w.stacks
    ensures var stack, w1 := w.stacks[Target(w, target).host], Handed(w, target);
            var r := Continue(w1, stack, target, readable, seed);
            && r.Some? && FiberInv(r.value)
            && r.value.current == w1.current && r.value.stacks == w1.stacks
            && (if stack.Paused?
                then r.value.cpu == stack.caller && (r.value.thread == stack.thread || r.value.thread == 0)
                else r.value.cpu == EntryContext(w1.cpu, Target(w, target), seed) && r.value.thread == target)
  {
    HandedKeeps(w, target);
    LeaveChanges(w, target);
    var k := Find(w.records, target);
    var stack, w1 := w.stacks[w.records[k].host], Handed(w, target);
    hide LeaveRecords;
    assert StackFits(w.records[k], k, stack);
    if stack.Paused? && readable && stack.slot < |w.records| && stack.thread != 0 && target == stack.thread {
      ResumedKeeps(w1, k, target);
    } else if stack.Paused? {
      ForgetKeeps(w1, stack.caller);
    } else {
      RecontextKeeps(w1, EntryContext(w1.cpu, w1.records[k], seed));
    }
  }

  lemma ForgetKeeps(w: World, cpu: CpuContext)
    requires FiberInv(w)
    ensures FiberInv(w.(cpu := cpu, thread := 0))
  {
  }

  /** Guest code may do to the shared registers what it likes. */
  lemma RecontextKeeps(w: World, cpu: CpuContext)
    requires FiberInv(w)
    ensures FiberInv(w.(cpu := cpu))
  {
  }

  // ---------------------------------------------------------------- whole runs

  datatype Op =
    | CreateOp(t: Ptr, entry: int, arg: int, top: int, hid2: int, gotStack: bool)
    | RegisterOp(t: Ptr)
    | SuspendOp(t: Ptr)
    | ResumeOp(t: Ptr)
    | SwitchOp(target: Ptr, readable: bool, seed: Seed)
    | Compute(cpu: CpuContext)      // guest code between two calls

  /** A failed switch_to is a boundary: nothing has changed. */
  function Step(w: World, op: Op): World {
    match op
    case CreateOp(t, entry, arg, top, hid2, gotStack) => Create(w, t, entry, arg, top, hid2, gotStack).0
    case RegisterOp(t) => Register(w, t).0
    case SuspendOp(t) => SetState(w, t, Waiting)
    case ResumeOp(t) => SetState(w, t, Ready)
    case SwitchOp(target, readable, seed) =>
      var r := SwitchTo(w, target, readable, seed);
      if r.Went? then r.world else w
    case Compute(cpu) => w.(cpu := cpu)
  }

  function Run(w: World, ops: seq<Op>): World
    decreases |ops|
  {
    if ops == [] then w else Run(Step(w, ops[0]), ops[1..])
  }

  lemma StepKeeps(w: World, op: Op)
    requires FiberInv(w)
    ensures FiberInv(Step(w, op))
  {
    hide FiberInv, SwitchTo;
    match op
    case CreateOp(t, entry, arg, top, hid2, gotStack) => CreateKeeps(w, t, entry, arg, top, hid2, gotStack);
    case RegisterOp(t) => RegisterKeeps(w, t);
    case SuspendOp(t) => SetStateKeeps(w, t, Waiting);
    case ResumeOp(t) => SetStateKeeps(w, t, Ready);
    case SwitchOp(target, readable, seed) => SwitchKeeps(w, target, readable, seed);
    case Compute(cpu) => RecontextKeeps(w, cpu);
  }

  lemma {:induction false} RunKeeps(w: World, ops: seq<Op>)
    requires FiberInv(w)
    ensures FiberInv(Run(w, ops))
    decreases |ops|
  {
    hide FiberInv, Step;
    if ops != [] {
      StepKeeps(w, ops[0]);
      RunKeeps(Step(w, ops[0]), ops[1..]);
    }
  }

  /** Host 1 is the stack runtime_bootstrap validated. */
  function Boot(cpu: CpuContext): World {
    World(seq(MAX_FIBERS, _ => Blank()), 0, 1, 0, cpu, map[], 2)
  }

  /** From boot on, every thread has at most one record, and every record's stack is
      still there. */
  lemma RunsFromBootAreSafe(cpu: CpuContext, ops: seq<Op>)
    ensures var w := Run(Boot(cpu), ops);
            && (forall j, k :: 0 <= j < k < |w.records| && Live(w.records[j]) && Live(w.records[k]) ==>
                  w.records[j].thread != w.records[k].thread)
            && (forall k :: 0 <= k < |w.records| && Live(w.records[k]) ==>
                  w.records[k].host == w.current || w.records[k].host in w.stacks)
  {
    assert FiberInv(Boot(cpu));
    hide Run;
    RunKeeps(Boot(cpu), ops);
  }

  /** The step hands over to host stack h. */
  predicate Resumes(w: World, op: Op, h: Handle) {
    op.SwitchOp? && Switchable(w, op.target) && !ReturnsAtOnce(w, op.target) && Target(w, op.target).host == h
  }

  predicate NeverResumed(w: World, ops: seq<Op>, h: Handle)
    decreases |ops|
  {
    ops == [] || (!Resumes(w, ops[0], h) && NeverResumed(Step(w, ops[0]), ops[1..], h))
  }

  /** h is suspended with these locals, or its stack was freed for good. */
  predicate SuspendedOrGone(w: World, h: Handle, s: Stack) {
    if h in w.stacks then w.stacks[h] == s else h != w.current && h < w.next
  }

  lemma CreateSuspended(w: World, t: Ptr, entry: int, arg: int, top: int, hid2: int, gotStack: bool,
                        h: Handle, s: Stack)
    requires FiberInv(w) && SuspendedOrGone(w, h, s)
    ensures SuspendedOrGone(Create(w, t, entry, arg, top, hid2, gotStack).0, h, s)
  {
  }

  lemma SwitchSuspended(w: World, target: Ptr, readable: bool, seed: Seed, h: Handle, s: Stack)
    requires FiberInv(w) && SuspendedOrGone(w, h, s) && h != w.current
    requires !Resumes(w, SwitchOp(target, readable, seed), h)
    ensures var w' := Step(w, SwitchOp(target, readable, seed)); SuspendedOrGone(w', h, s) && h != w'.current
  {
    if Switchable(w, target) {
      LeaveChanges(w, target);
      if !ReturnsAtOnce(w, target) { TakeOver(w, target, readable, seed); }
      hide FiberInv, LeaveRecords, Continue;
    }
  }

  lemma StepSuspended(w: World, op: Op, h: Handle, s: Stack)
    requires FiberInv(w) && SuspendedOrGone(w, h, s) && h != w.current && !Resumes(w, op, h)
    ensures var w' := Step(w, op); SuspendedOrGone(w', h, s) && h != w'.current
  {
    hide FiberInv;
    match op
    case CreateOp(t, entry, arg, top, hid2, gotStack) =>
      CreateSuspended(w, t, entry, arg, top, hid2, gotStack, h, s);
    case RegisterOp(t) =>
    case SuspendOp(t) =>
    case ResumeOp(t) =>
    case SwitchOp(target, readable, seed) => SwitchSuspended(w, target, readable, seed, h, s);
    case Compute(cpu) =>
  }

  lemma {:induction false} RunSuspended(w: World, ops: seq<Op>, h: Handle, s: Stack)
    requires FiberInv(w) && SuspendedOrGone(w, h, s) && h != w.current && NeverResumed(w, ops, h)
    ensures var w' := Run(w, ops); FiberInv(w') && SuspendedOrGone(w', h, s) && h != w'.current
    decreases |ops|
  {
    hide FiberInv, SuspendedOrGone, Step, Resumes;
    if ops != [] {
      StepKeeps(w, ops[0]);
      StepSuspended(w, ops[0], h, s);
      RunSuspended(Step(w, ops[0]), ops[1..], h, s);
    }
  }

  lemma ResumeGivesBack(w: World, op: Op, h: Handle, s: Stack)
    requires FiberInv(w) && SuspendedOrGone(w, h, s) && s.Paused? && Resumes(w, op, h)
    ensures var w' := Step(w, op);
            w'.cpu == s.caller && w'.current == h && (w'.thread == s.thread || w'.thread == 0)
  {
    TakeOver(w, op.target, op.readable, op.seed);
    LeaveChanges(w, op.target);
    hide FiberInv, LeaveRecords, Continue;
  }

  lemma LeavingSuspends(w: World, op: Op)
    requires FiberInv(w) && op.SwitchOp? && Switchable(w, op.target) && !ReturnsAtOnce(w, op.target)
    ensures var w' := Step(w, op);
            && SuspendedOrGone(w', w.current, Paused(w.thread, Find(w.records, w.thread), w.cpu))
            && w'.current != w.current
  {
    TakeOver(w, op.target, op.readable, op.seed);
    LeaveChanges(w, op.target);
    hide FiberInv, LeaveRecords, Continue;
  }

  /** Fibers isolate registers: a host stack that leaves in switch_to and is resumed
      after any run of creates, registrations, switches and guest computation gets
      back exactly the CpuContext it had at the call, through either branch. */
  lemma ContextComesBack(w: World, leave: Op, ops: seq<Op>, back: Op)
    requires FiberInv(w)
    requires leave.SwitchOp? && Switchable(w, leave.target) && !ReturnsAtOnce(w, leave.target)
    requires NeverResumed(Step(w, leave), ops, w.current)
    requires Resumes(Run(Step(w, leave), ops), back, w.current)
    ensures var w' := Step(Run(Step(w, leave), ops), back);
            w'.cpu == w.cpu && w'.current == w.current && (w'.thread == w.thread || w'.thread == 0)
  {
    hide FiberInv, Step, Run, Resumes, NeverResumed, SuspendedOrGone;
    var s := Paused(w.thread, Find(w.records, w.thread), w.cpu);
    StepKeeps(w, leave);
    LeavingSuspends(w, leave);
    RunSuspended(Step(w, leave), ops, w.current, s);
    ResumeGivesBack(Run(Step(w, leave), ops), back, w.current, s);
  }

  lemma FindsNone(rs: seq<Record>, t: Ptr)
    requires forall j :: 0 <= j < |rs| ==> !Holds(rs[j], t)
    ensures Find(rs, t) == |rs|
  {
  }

  lemma FindsFirst(rs: seq<Record>, t: Ptr, k: nat)
    requires k < |rs| && t != 0 && Holds(rs[k], t) && forall j :: 0 <= j < k ==> !Holds(rs[j], t)
    ensures Find(rs, t) == k
  {
  }

  lemma EmptyFirst(rs: seq<Record>, k: nat)
    requires k <= |rs| && (k < |rs| ==> !Live(rs[k])) && forall j :: 0 <= j < k ==> Live(rs[j])
    ensures FirstEmpty(rs) == k
  {
  }
}

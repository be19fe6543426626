/** The fiber layer as it runs: a fixed table of records, searched and overwritten in
    place, the shared CpuContext, and the host stacks under them. */
module FiberTable {
  import opened Guest
  import opened Wrappers
  import opened Cpu
  import opened Fibers

  class Table {
    const records: array<Record>
    var scheduler: Handle
    var current: Handle
    var thread: Ptr
    var cpu: CpuContext
    var stacks: map<Handle, Stack>
    var next: Handle

    ghost function Value(): World
      reads this, records
    {
      World(records[..], scheduler, current, thread, cpu, stacks, next)
    }

    constructor (cpu: CpuContext)
      ensures Value() == Boot(cpu) && fresh(records)
    {
      records := new Record[MAX_FIBERS](_ => Blank());
      scheduler, current, thread, next := 0, 1, 0, 2;
      this.cpu := cpu;
      stacks := map[];
      new;
      assert records[..] == Boot(cpu).records;
    }

    /** Find: the first record in use for t; records.Length stands for null. */
    method FindRecord(t: Ptr) returns (k: nat)
      ensures k == Find(records[..], t)
    {
      if t == 0 {
        return records.Length;
      }
      k := 0;
      while k < records.Length
        invariant k <= records.Length
        invariant forall j :: 0 <= j < k ==> !Holds(records[j], t)
      {
        if Holds(records[k], t) {
          FindsFirst(records[..], t, k);
          return;
        }
        k := k + 1;
      }
      FindsNone(records[..], t);
    }

    /** Allocate: t's record, or the first empty one, cleared. */
    method AllocateRecord(t: Ptr) returns (k: nat)
      modifies records
      ensures k == Slot(old(records[..]), t)
      ensures records[..] == if k == records.Length || Live(old(records[k])) then old(records[..])
                             else old(records[..])[k := Blank().(thread := t)]
    {
      k := FindRecord(t);
      if k < records.Length {
        return;
      }
      k := 0;
      while k < records.Length
        invariant k <= records.Length && records[..] == old(records[..])
        invariant forall j :: 0 <= j < k ==> Live(records[j])
      {
        if records[k].state == Empty {
          EmptyFirst(records[..], k);
          records[k] := Blank().(thread := t);
          return;
        }
        k := k + 1;
      }
      EmptyFirst(records[..], k);
    }

    /** HostContext::Destroy: the stack in use is left alone. */
    method Destroy(h: Handle)
      modifies this`stacks
      ensures stacks == if h == current then old(stacks) else old(stacks) - {h}
    {
      if h != current {
        stacks := stacks - {h};
      }
    }

    method CreateFiber(t: Ptr, entry: int, arg: int, top: int, hid2: int, gotStack: bool) returns (ok: bool)
      requires FiberInv(Value())
      modifies this, records
      ensures (Value(), ok) == Create(old(Value()), t, entry, arg, top, hid2, gotStack)
    {
      if scheduler == 0 {
        scheduler := current;
        if scheduler == 0 {
          return false;
        }
      }
      if current == 0 || t == 0 || entry == 0 {
        return false;
      }
      ghost var w1 := Value();
      var k := AllocateRecord(t);
      if k == records.Length {
        return false;
      }
      var r := records[k];
      if r.host != 0 && !r.schedulerHost {
        Destroy(r.host);
      }
      assert Live(w1.records[k]) ==> r == w1.records[k] && r.host != 0;
      assert !Live(w1.records[k]) ==> r.host == 0;
      assert stacks == Freed(w1, k);
      if !gotStack {
        records[k] := Blank();
        assert records[..] == w1.records[k := Blank()];
        return false;
      }
      stacks := stacks[next := Fresh(t)];
      records[k] := Created(t, next, entry, arg, top, hid2);
      assert records[..] == w1.records[k := Created(t, next, entry, arg, top, hid2)];
      next := next + 1;
      ok := true;
    }

    method RegisterCurrent(t: Ptr) returns (ok: bool)
      requires FiberInv(Value())
      modifies this`thread, records
      ensures (Value(), ok) == Register(old(Value()), t)
    {
      if scheduler == 0 || current == 0 || t == 0 || current != scheduler {
        return false;
      }
      var k := AllocateRecord(t);
      if k == records.Length {
        return false;
      }
      var r := records[k];
      if r.host != 0 && r.host != scheduler {
        return false;
      }
      records[k] := r.(thread := t, host := scheduler, saved := cpu, state := Running, schedulerHost := true);
      assert records[..] == old(Value()).records[k := records[k]];
      thread := t;
      ok := true;
    }

    /** suspend and resume. */
    method SetFiberState(t: Ptr, st: FiberState)
      modifies records
      ensures Value() == SetState(old(Value()), t, st)
    {
      var k := FindRecord(t);
      if k < records.Length {
        records[k] := records[k].(state := st);
      }
    }

    /** switch_to. What follows the host switch is the destination stack's code. */
    method SwitchFiber(target: Ptr, readable: bool, seed: Seed) returns (r: Switched)
      modifies this, records
      ensures r == SwitchTo(old(Value()), target, readable, seed)
      ensures r.Went? ==> Value() == r.world
      ensures r.Failed? ==> Value() == old(Value())
    {
      var k := FindRecord(target);
      if scheduler == 0 || current == 0 || k == records.Length || records[k].host == 0 {
        return Failed;
      }
      var p := FindRecord(thread);
      var caller, previous := cpu, thread;
      if p < records.Length {
        records[p] := records[p].(saved := cpu);
      }
      thread := target;
      records[k] := records[k].(state := Running);
      assert records[..] == LeaveRecords(old(Value()), target);
      cpu := records[k].saved;
      var h := records[k].host;
      if h == current {
        return Went(World(records[..], scheduler, current, thread, cpu, stacks, next));
      }
      if h !in stacks {
        return Stopped;
      }
      var stack := stacks[h];
      stacks := (stacks - {h})[current := Paused(previous, p, caller)];
      current := h;
      var entered := ResumeStack(stack, target, readable, seed);
      if !entered {
        return Stopped;
      }
      r := Went(World(records[..], scheduler, current, thread, cpu, stacks, next));
    }

    /** GuestFiberEntry up to the guest entry, or the code after the host switch. */
    method ResumeStack(stack: Stack, target: Ptr, readable: bool, seed: Seed) returns (entered: bool)
      modifies this`cpu, this`thread, records
      ensures var c := Continue(old(Value()), stack, target, readable, seed);
              entered == c.Some? && (c.Some? ==> Value() == c.value)
    {
      match stack {
        case Fresh(t) =>
          var k := FindRecord(t);
          if k == records.Length {
            return false;
          }
          cpu := EntryContext(cpu, records[k], seed);
        case Paused(t, slot, caller) =>
          if readable && slot < records.Length && t != 0 && target == t {
            cpu := records[slot].saved;
            records[slot] := records[slot].(state := Running);
            thread := t;
          } else {
            cpu := caller;
            thread := 0;
          }
      }
      entered := true;
    }
  }
}

/** When the fiber calls succeed, and what each does to the fibers' states and stacks, told
    without their specification. */
module FiberEffects {
  import opened Guest
  import opened Cpu
  import opened Fibers

  /** Some record in use is t's. */
  ghost predicate Known(w: World, t: Ptr) {
    exists k :: 0 <= k < |w.records| && Live(w.records[k]) && w.records[k].thread == t
  }

  ghost predicate Room(w: World) {
    exists k :: 0 <= k < |w.records| && !Live(w.records[k])
  }

  lemma FindKnown(w: World, t: Ptr)
    requires RecordsOk(w)
    ensures Find(w.records, t) < |w.records| <==> t != 0 && Known(w, t)
  {
    var k := Find(w.records, t);
    if t != 0 && Known(w, t) {
      var j :| 0 <= j < |w.records| && Live(w.records[j]) && w.records[j].thread == t;
      assert Holds(w.records[j], t);
    }
    if k < |w.records| { assert Live(w.records[k]); }
  }

  lemma FirstEmptyRoom(rs: seq<Record>)
    ensures FirstEmpty(rs) < |rs| <==> exists k :: 0 <= k < |rs| && !Live(rs[k])
  {
    if FirstEmpty(rs) < |rs| { assert !Live(rs[FirstEmpty(rs)]); }
  }

  lemma SlotFound(w: World, t: Ptr)
    requires RecordsOk(w) && t != 0
    ensures Slot(w.records, t) < |w.records| <==> Known(w, t) || Room(w)
  {
    FindKnown(w, t);
    FirstEmptyRoom(w.records);
  }

  /** create succeeds exactly for a thread and an entry that are not null, when a record
      can be had and a host stack too. */
  lemma CreateSucceedsIff(w: World, t: Ptr, entry: int, arg: int, top: int, hid2: int, gotStack: bool)
    requires FiberInv(w)
    ensures Create(w, t, entry, arg, top, hid2, gotStack).1
            <==> t != 0 && entry != 0 && gotStack && (Known(w, t) || Room(w))
  {
    if t != 0 { SlotFound(w, t); }
    hide FiberInv, Known, Room;
    assert Adopted(w).records == w.records && Available(Adopted(w)) by { BootAvailable(w); }
  }

  lemma BootAvailable(w: World)
    requires FiberInv(w)
    ensures Available(Adopted(w))
  {
  }

  /** register_current succeeds exactly on the scheduler's own stack, for a thread that is
      not null and has a record there already or finds an empty one. */
  lemma RegisterSucceedsIff(w: World, t: Ptr)
    requires FiberInv(w)
    ensures Register(w, t).1
            <==> t != 0 && w.scheduler != 0 && w.current == w.scheduler
                 && (if Known(w, t)
                     then exists k :: 0 <= k < |w.records| && Live(w.records[k]) && w.records[k].thread == t
                                      && w.records[k].host == w.scheduler
                     else Room(w))
  {
    if t != 0 {
      SlotFound(w, t);
      FindKnown(w, t);
      FirstEmptyRoom(w.records);
      var k := Find(w.records, t);
      if k < |w.records| {
        assert Live(w.records[k]) && w.records[k].thread == t;
      }
    }
  }

  /** switch_to goes through exactly for a thread with a record, once there is a scheduler. */
  lemma SwitchGoesIff(w: World, t: Ptr, readable: bool, seed: Seed)
    requires FiberInv(w)
    ensures SwitchTo(w, t, readable, seed).Went? <==> t != 0 && Known(w, t)
  {
    SwitchKeeps(w, t, readable, seed);
    FindKnown(w, t);
    var k := Find(w.records, t);
    if k < |w.records| { assert Live(w.records[k]); }
    hide SwitchTo;
  }

  // ---------------------------------------------------------------- states

  /** The state of t's fiber, Empty for none. */
  function StateOf(w: World, t: Ptr): FiberState {
    var k := Find(w.records, t);
    if k < |w.records| then w.records[k].state else Empty
  }

  /** Records that differ in other words than thread and state. */
  lemma SameFinds(rs: seq<Record>, rs': seq<Record>, t: Ptr)
    requires |rs'| == |rs|
    requires forall j :: 0 <= j < |rs| ==> rs'[j].thread == rs[j].thread && (Live(rs'[j]) <==> Live(rs[j]))
    ensures Find(rs', t) == Find(rs, t)
  {
    var k := Find(rs, t);
    forall j | 0 <= j < |rs| ensures Holds(rs'[j], t) == Holds(rs[j], t) {
    }
    if k < |rs| {
      FindsFirst(rs', t, k);
    } else if t != 0 {
      FindsNone(rs', t);
    }
  }

  /** suspend and resume set the state of one fiber, if there is one. */
  lemma SetStateEffect(w: World, u: Ptr, st: FiberState, t: Ptr)
    requires FiberInv(w) && st != Empty
    ensures StateOf(SetState(w, u, st), t) == if t == u && StateOf(w, u) != Empty then st else StateOf(w, t)
  {
    var w', k := SetState(w, u, st), Find(w.records, u);
    if k < |w.records| {
      SameFinds(w.records, w'.records, t);
      SameFinds(w.records, w'.records, u);
    }
  }

  lemma LeaveStates(w: World, u: Ptr)
    requires Switchable(w, u)
    ensures var rs, k := LeaveRecords(w, u), Find(w.records, u);
            |rs| == |w.records|
            && forall j :: 0 <= j < |rs| ==>
                 && rs[j].thread == w.records[j].thread
                 && rs[j].state == if j == k then Running else w.records[j].state
  {
  }

  lemma WentStates(w: World, u: Ptr, readable: bool, seed: Seed)
    requires FiberInv(w) && Switchable(w, u)
    ensures var r, k := SwitchTo(w, u, readable, seed), Find(w.records, u);
            && r.Went? && |r.world.records| == |w.records|
            && forall j :: 0 <= j < |w.records| ==>
                 && r.world.records[j].thread == w.records[j].thread
                 && r.world.records[j].state == if j == k then Running else w.records[j].state
  {
    SwitchKeeps(w, u, readable, seed);
    LeaveStates(w, u);
    LeaveChanges(w, u);
    var k := Find(w.records, u);
    if !ReturnsAtOnce(w, u) {
      TakeOver(w, u, readable, seed);
      assert StackFits(w.records[k], k, w.stacks[w.records[k].host]);
    }
    hide FiberInv, LeaveRecords;
  }

  /** The fiber switched to is Running; everyone else's state stays. */
  lemma SwitchEffect(w: World, u: Ptr, readable: bool, seed: Seed, t: Ptr)
    requires FiberInv(w) && Switchable(w, u)
    ensures var r := SwitchTo(w, u, readable, seed);
            r.Went? && StateOf(r.world, t) == if t == u then Running else StateOf(w, t)
  {
    WentStates(w, u, readable, seed);
    var w' := SwitchTo(w, u, readable, seed).world;
    hide SwitchTo, Switchable;
    SameFinds(w.records, w'.records, t);
    SameThread(w, t, u);
  }

  lemma SameThread(w: World, t: Ptr, u: Ptr)
    requires Find(w.records, u) < |w.records|
    ensures Find(w.records, t) == Find(w.records, u) <==> t == u
  {
  }

  // ---------------------------------------------------------------- stacks

  /** The host stacks without that of record k, if it is a suspended fiber's. */
  function OldStacks(w: World, k: nat): map<Handle, Stack> {
    if k < |w.records| && w.records[k].host != w.scheduler then w.stacks - {w.records[k].host} else w.stacks
  }

  /** A creation that gets its stack gives t a fresh one, Waiting, and frees the one t's old
      record had, unless that is the scheduler's or in use; no other stack is touched. */
  lemma CreateEffect(w: World, t: Ptr, entry: int, arg: int, top: int, hid2: int)
    requires FiberInv(w) && Create(w, t, entry, arg, top, hid2, true).1
    ensures var w', k := Create(w, t, entry, arg, top, hid2, true).0, Find(w.records, t);
            && StateOf(w', t) == Waiting && w.next !in w.stacks && w'.next == w.next + 1
            && w'.stacks == OldStacks(w, k)[w.next := Fresh(t)]
            && w'.thread == w.thread && w'.current == w.current && w'.cpu == w.cpu
  {
    var w1 := Adopted(w);
    var k := Slot(w1.records, t);
    SlotIsOnly(w1, t);
    var w' := Create(w, t, entry, arg, top, hid2, true).0;
    assert w'.records == w1.records[k := Created(t, w.next, entry, arg, top, hid2)];
    FindsFirst(w'.records, t, k);
  }

  /** Without a host stack t is left without a record, and its old stack is freed all the
      same; nothing else changes but the adoption of the scheduler's stack. */
  lemma FailedCreateEffect(w: World, t: Ptr, entry: int, arg: int, top: int, hid2: int)
    requires FiberInv(w) && t != 0 && entry != 0 && (Known(w, t) || Room(w))
    ensures var w', k := Create(w, t, entry, arg, top, hid2, false).0, Find(w.records, t);
            && !Known(w', t) && w'.stacks == OldStacks(w, k)
            && (forall u: Ptr :: u != 0 && u != t ==> StateOf(w', u) == StateOf(w, u))
            && w' == w.(records := w'.records, stacks := w'.stacks,
                        scheduler := if w.scheduler == 0 then w.current else w.scheduler)
  {
    var w1 := Adopted(w);
    var k := Slot(w1.records, t);
    SlotFound(w, t);
    BootAvailable(w);
    SlotIsOnly(w1, t);
    var w' := Create(w, t, entry, arg, top, hid2, false).0;
    assert w'.records == w.records[k := Blank()];
    forall u: Ptr | u != 0 && u != t ensures StateOf(w', u) == StateOf(w, u) {
      BlankedFinds(w.records, k, t, u);
    }
  }

  /** Emptying t's slot, or an empty one, hides no other thread's record. */
  lemma BlankedFinds(rs: seq<Record>, k: nat, t: Ptr, u: Ptr)
    requires k < |rs| && (Live(rs[k]) ==> rs[k].thread == t) && u != 0 && u != t
    ensures Find(rs[k := Blank()], u) == Find(rs, u)
    ensures Find(rs, u) < |rs| ==> Find(rs, u) != k
  {
    var rs', f := rs[k := Blank()], Find(rs, u);
    forall j | 0 <= j < |rs| ensures Holds(rs'[j], u) == Holds(rs[j], u) {
    }
    if f < |rs| {
      FindsFirst(rs', u, f);
    } else {
      FindsNone(rs', u);
    }
  }
}

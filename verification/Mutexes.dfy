/** OSLockMutex and OSUnlockMutex: owner, recursion count and the per-thread list of
    held mutexes, as values first and as guest words below. */
module Mutexes {
  import opened Guest
  import opened IntrusiveList
  import opened Interrupts

  const COUNT_LIMIT := 0x1_0000_0000

  /** `held` lists each thread's mutexes in the order they were acquired. */
  datatype Table = Table(owner: map<Ptr, Ptr>, count: map<Ptr, int>, held: map<Ptr, seq<Ptr>>)

  datatype Result = Done(table: Table) | Boundary

  function HeldBy(mx: Table, t: Ptr): seq<Ptr> {
    ListOf(mx.held, t)
  }

  function Lock(mx: Table, m: Ptr, thread: Ptr): Result {
    if m == 0 || thread == 0 then Done(mx)
    else if At(mx.owner, m) == 0 then
      Done(Table(mx.owner[m := thread],
                 mx.count[m := (At(mx.count, m) + 1) % COUNT_LIMIT],
                 mx.held[thread := HeldBy(mx, thread) + [m]]))
    else if At(mx.owner, m) == thread then
      Done(mx.(count := mx.count[m := (At(mx.count, m) + 1) % COUNT_LIMIT]))
    else Boundary
  }

  /** `waiters`: the mutex's wait queue is not empty; `boosted`: the thread runs at
      an inherited priority. Either stops a final unlock. */
  function Unlock(mx: Table, m: Ptr, thread: Ptr, waiters: bool, boosted: bool): Result {
    if m == 0 || thread == 0 || At(mx.owner, m) != thread then Done(mx)
    else if At(mx.count, m) == 0 then Boundary
    else if At(mx.count, m) == 1 && (waiters || boosted) then Boundary
    else if At(mx.count, m) == 1 then
      Done(Table(mx.owner[m := 0], mx.count[m := 0],
                 mx.held[thread := Without(HeldBy(mx, thread), m)]))
    else Done(mx.(count := mx.count[m := At(mx.count, m) - 1]))
  }

  // ---------------------------------------------------------------- the invariant

  predicate Counted(mx: Table, m: Ptr) {
    0 <= At(mx.count, m) < COUNT_LIMIT && (At(mx.owner, m) != 0 <==> At(mx.count, m) > 0)
  }

  predicate ListedIff(mx: Table, t: Ptr, m: Ptr) {
    m in HeldBy(mx, t) <==> t != 0 && At(mx.owner, m) == t
  }

  /** A mutex is on thread t's list iff t owns it, and owned iff its count is positive. */
  ghost predicate Consistent(mx: Table) {
    && (forall m: Ptr :: Counted(mx, m))
    && At(mx.owner, 0) == 0
    && (forall t, m: Ptr :: ListedIff(mx, t, m))
    && (forall t: Ptr :: Distinct(HeldBy(mx, t)))
  }

  lemma EmptyIsConsistent()
    ensures Consistent(Table(map[], map[], map[]))
  {
  }

  /** The one lock that breaks the bookkeeping: the recursion count wraps to 0. */
  predicate Wraps(mx: Table, m: Ptr, thread: Ptr) {
    m != 0 && thread != 0 && At(mx.owner, m) == thread && At(mx.count, m) == COUNT_LIMIT - 1
  }

  lemma LockKeepsIff(mx: Table, m: Ptr, thread: Ptr)
    requires Consistent(mx)
    ensures var r := Lock(mx, m, thread);
            r.Done? ==> (Consistent(r.table) <==> !Wraps(mx, m, thread))
  {
    assert Counted(mx, m);
    if Lock(mx, m, thread).Done? && m != 0 && thread != 0 {
      if At(mx.owner, m) == 0 {
        FirstLockKeeps(mx, m, thread);
      } else if At(mx.count, m) == COUNT_LIMIT - 1 {
        assert !Counted(Lock(mx, m, thread).table, m);
      } else {
        Recount(mx, m, At(mx.count, m) + 1);
      }
    }
  }

  lemma Recount(mx: Table, m: Ptr, n: int)
    requires Consistent(mx) && At(mx.owner, m) != 0 && 0 < n < COUNT_LIMIT
    ensures Consistent(mx.(count := mx.count[m := n]))
  {
    var mx' := mx.(count := mx.count[m := n]);
    forall x: Ptr ensures Counted(mx', x) { assert Counted(mx, x); }
    forall t, x: Ptr ensures ListedIff(mx', t, x) { assert ListedIff(mx, t, x); }
    forall t: Ptr ensures Distinct(HeldBy(mx', t)) { assert HeldBy(mx', t) == HeldBy(mx, t); }
  }

  lemma FirstLockKeeps(mx: Table, m: Ptr, thread: Ptr)
    requires Consistent(mx) && m != 0 && thread != 0 && At(mx.owner, m) == 0
    ensures Consistent(Lock(mx, m, thread).table)
  {
    var mx' := Lock(mx, m, thread).table;
    forall x: Ptr ensures Counted(mx', x) { assert Counted(mx, x) && Counted(mx, m); }
    forall t, x: Ptr ensures ListedIff(mx', t, x) { assert ListedIff(mx, t, x) && ListedIff(mx, t, m); }
    assert ListedIff(mx, thread, m);
    forall t: Ptr ensures Distinct(HeldBy(mx', t)) {
      assert t != thread ==> HeldBy(mx', t) == HeldBy(mx, t);
      assert Distinct(HeldBy(mx, t));
    }
  }

  lemma UnlockKeeps(mx: Table, m: Ptr, thread: Ptr, waiters: bool, boosted: bool)
    requires Consistent(mx)
    ensures var r := Unlock(mx, m, thread, waiters, boosted);
            r.Done? ==> Consistent(r.table)
    ensures At(mx.owner, m) == thread && m != 0 && thread != 0 ==> At(mx.count, m) > 0
  {
    var r := Unlock(mx, m, thread, waiters, boosted);
    assert Counted(mx, m);
    if r.Done? && m != 0 && thread != 0 && At(mx.owner, m) == thread {
      if At(mx.count, m) == 1 {
        LastUnlockKeeps(mx, m, thread);
      } else {
        Recount(mx, m, At(mx.count, m) - 1);
      }
    }
  }

  lemma LastUnlockKeeps(mx: Table, m: Ptr, thread: Ptr)
    requires Consistent(mx) && m != 0 && thread != 0 && At(mx.owner, m) == thread && At(mx.count, m) == 1
    ensures Consistent(Unlock(mx, m, thread, false, false).table)
  {
    var mx' := Unlock(mx, m, thread, false, false).table;
    assert ListedIff(mx, thread, m);
    var k := WithoutElement(HeldBy(mx, thread), m);
    forall x: Ptr ensures Counted(mx', x) { assert Counted(mx, x); }
    forall t, x: Ptr ensures ListedIff(mx', t, x) { assert ListedIff(mx, t, x); }
    forall t: Ptr ensures Distinct(HeldBy(mx', t)) {
      assert t != thread ==> HeldBy(mx', t) == HeldBy(mx, t);
      assert Distinct(HeldBy(mx, t));
    }
  }

  // ---------------------------------------------------------------- when a call stops

  /** A lock stops only on contention; a recursive or a first lock returns, and the
      thread is the owner. */
  lemma LockStopsIff(mx: Table, m: Ptr, thread: Ptr)
    ensures var r := Lock(mx, m, thread);
            && (r.Boundary? <==> m != 0 && thread != 0 && At(mx.owner, m) != 0 && At(mx.owner, m) != thread)
            && (r.Done? && m != 0 && thread != 0 ==>
                  At(r.table.owner, m) == thread
                  && At(r.table.count, m) == (At(mx.count, m) + 1) % COUNT_LIMIT)
            && (r.Done? && (m == 0 || thread == 0) ==> r.table == mx)
  {
  }

  /** An unlock stops only when it is the owner's last one and somebody waits or the
      owner runs at an inherited priority; the owner's others give one count back, and
      nobody else's does anything. */
  lemma UnlockStopsIff(mx: Table, m: Ptr, thread: Ptr, waiters: bool, boosted: bool)
    requires Consistent(mx)
    ensures var r := Unlock(mx, m, thread, waiters, boosted);
            var owns := m != 0 && thread != 0 && At(mx.owner, m) == thread;
            && (r.Boundary? <==> owns && At(mx.count, m) == 1 && (waiters || boosted))
            && (r.Done? ==>
                  if !owns then r.table == mx
                  else At(r.table.count, m) == At(mx.count, m) - 1
                       && At(r.table.owner, m) == if At(mx.count, m) == 1 then 0 else thread)
  {
    assert Counted(mx, m);
    hide Without;
  }

  /** OSCreateThread empties a record's held list without looking at it; the
      bookkeeping survives exactly when the list was empty already. */
  lemma ClearHeldKeepsIff(mx: Table, t: Ptr)
    requires Consistent(mx)
    ensures Consistent(mx.(held := mx.held[t := []])) <==> HeldBy(mx, t) == []
  {
    var mx' := mx.(held := mx.held[t := []]);
    if HeldBy(mx, t) == [] {
      forall x: Ptr ensures Counted(mx', x) { assert Counted(mx, x); }
      forall u: Ptr ensures HeldBy(mx', u) == HeldBy(mx, u) {
      }
      forall u, x: Ptr ensures ListedIff(mx', u, x) { assert ListedIff(mx, u, x); }
    } else {
      var m := HeldBy(mx, t)[0];
      assert ListedIff(mx, t, m);
      assert !ListedIff(mx', t, m);
    }
  }

  // ---------------------------------------------------------------- whole runs

  datatype Op =
    | LockOp(m: Ptr, thread: Ptr)
    | UnlockOp(m: Ptr, thread: Ptr, waiters: bool, boosted: bool)

  function Apply(mx: Table, op: Op): Result {
    match op
    case LockOp(m, t) => Lock(mx, m, t)
    case UnlockOp(m, t, waiters, boosted) => Unlock(mx, m, t, waiters, boosted)
  }

  predicate OpWraps(mx: Table, op: Op) {
    op.LockOp? && Wraps(mx, op.m, op.thread)
  }

  /** A table together with when each mutex was last acquired. */
  datatype Clocked = Clocked(table: Table, since: map<Ptr, int>, now: nat)

  predicate Acquires(mx: Table, op: Op) {
    op.LockOp? && op.m != 0 && op.thread != 0 && At(mx.owner, op.m) == 0
  }

  function Tick(c: Clocked, op: Op, mx: Table): Clocked {
    Clocked(mx, if Acquires(c.table, op) then c.since[op.m := c.now] else c.since, c.now + 1)
  }

  /** Locks minus unlocks that took effect on m. */
  function Effect(mx: Table, op: Op, m: Ptr): int {
    if op.m != m || m == 0 || op.thread == 0 then 0
    else if op.LockOp? then 1
    else if At(mx.owner, m) == op.thread then -1
    else 0
  }

  /** The run stops at the first boundary. */
  function Run(c: Clocked, ops: seq<Op>): (r: (Clocked, bool))
    decreases |ops|
  {
    if ops == [] then (c, true)
    else
      var r := Apply(c.table, ops[0]);
      if r.Boundary? then (c, false) else Run(Tick(c, ops[0], r.table), ops[1..])
  }

  ghost predicate NoWrap(c: Clocked, ops: seq<Op>)
    decreases |ops|
  {
    ops != [] ==>
      var r := Apply(c.table, ops[0]);
      !OpWraps(c.table, ops[0]) && (r.Boundary? || NoWrap(Tick(c, ops[0], r.table), ops[1..]))
  }

  function Net(c: Clocked, ops: seq<Op>, m: Ptr): int
    decreases |ops|
  {
    if ops == [] || Apply(c.table, ops[0]).Boundary? then 0
    else Effect(c.table, ops[0], m) + Net(Tick(c, ops[0], Apply(c.table, ops[0]).table), ops[1..], m)
  }

  predicate Earlier(c: Clocked, t: Ptr, i: nat, j: nat)
    requires i < |HeldBy(c.table, t)| && j < |HeldBy(c.table, t)|
  {
    At(c.since, HeldBy(c.table, t)[i]) < At(c.since, HeldBy(c.table, t)[j])
  }

  /** Every held list is in acquisition order. */
  ghost predicate InOrder(c: Clocked) {
    && (forall t: Ptr, i, j :: 0 <= i < j < |HeldBy(c.table, t)| ==> Earlier(c, t, i, j))
    && (forall t: Ptr, i :: 0 <= i < |HeldBy(c.table, t)| ==> At(c.since, HeldBy(c.table, t)[i]) < c.now)
  }

  lemma StepKeeps(c: Clocked, op: Op)
    requires Consistent(c.table) && !OpWraps(c.table, op)
    ensures var r := Apply(c.table, op);
            r.Done? ==>
              && Consistent(r.table)
              && forall m: Ptr :: At(r.table.count, m) == At(c.table.count, m) + Effect(c.table, op, m)
  {
    assert Counted(c.table, op.m);
    match op
    case LockOp(m, t) => LockKeepsIff(c.table, m, t);
    case UnlockOp(m, t, waiters, boosted) => UnlockKeeps(c.table, m, t, waiters, boosted);
  }

  lemma StepOrder(c: Clocked, op: Op)
    requires Consistent(c.table) && InOrder(c)
    ensures var r := Apply(c.table, op); r.Done? ==> InOrder(Tick(c, op, r.table))
  {
    var r := Apply(c.table, op);
    if r.Done? {
      var c' := Tick(c, op, r.table);
      forall t: Ptr, i, j | 0 <= i < j < |HeldBy(c'.table, t)| ensures Earlier(c', t, i, j) {
        OrderAfter(c, op, t, i, j);
      }
      forall t: Ptr, i | 0 <= i < |HeldBy(c'.table, t)|
        ensures At(c'.since, HeldBy(c'.table, t)[i]) < c'.now
      {
        var k := HeldBefore(c, op, t, i);
      }
    }
  }

  /** Where an entry of a held list stood before the call. */
  lemma HeldBefore(c: Clocked, op: Op, t: Ptr, i: nat) returns (k: nat)
    requires Consistent(c.table) && InOrder(c) && Apply(c.table, op).Done?
    requires i < |HeldBy(Apply(c.table, op).table, t)|
    ensures var c' := Tick(c, op, Apply(c.table, op).table);
            var x := HeldBy(c'.table, t)[i];
            At(c'.since, x) < c'.now &&
            (if Acquires(c.table, op) && x == op.m then k == |HeldBy(c.table, t)| == i && At(c'.since, x) == c.now
             else k < |HeldBy(c.table, t)| && HeldBy(c.table, t)[k] == x && At(c'.since, x) == At(c.since, x))
  {
    var mx, mx' := c.table, Apply(c.table, op).table;
    var x := HeldBy(mx', t)[i];
    assert ListedIff(mx, t, op.m);
    if op.UnlockOp? && HeldBy(mx', t) != HeldBy(mx, t) {
      var k0 := WithoutElement(HeldBy(mx, t), op.m);
      k := if i < k0 then i else i + 1;
    } else {
      k := i;
    }
  }

  lemma OrderAfter(c: Clocked, op: Op, t: Ptr, i: nat, j: nat)
    requires Consistent(c.table) && InOrder(c) && Apply(c.table, op).Done?
    requires i < j < |HeldBy(Apply(c.table, op).table, t)|
    ensures Earlier(Tick(c, op, Apply(c.table, op).table), t, i, j)
  {
    var mx, mx' := c.table, Apply(c.table, op).table;
    var k := HeldBefore(c, op, t, i);
    var l := HeldBefore(c, op, t, j);
    assert ListedIff(mx, t, op.m);
    if op.UnlockOp? && HeldBy(mx', t) != HeldBy(mx, t) {
      var k0 := WithoutElement(HeldBy(mx, t), op.m);
      assert Earlier(c, t, if i < k0 then i else i + 1, if j < k0 then j else j + 1);
    } else if j < |HeldBy(mx, t)| {
      assert Earlier(c, t, i, j);
    }
  }

  /** Over every run of locks and unlocks by any threads, up to where it stops: a
      mutex is held by t iff t owns it iff its count, which is locks minus unlocks,
      is positive; and every held list stays in acquisition order, whatever the
      order of the unlocks. */
  lemma {:induction false} RunKeepsHeldLists(c: Clocked, ops: seq<Op>)
    requires Consistent(c.table) && InOrder(c) && NoWrap(c, ops)
    ensures var c' := Run(c, ops).0;
            && Consistent(c'.table) && InOrder(c')
            && forall m: Ptr :: At(c'.table.count, m) == At(c.table.count, m) + Net(c, ops, m)
    decreases |ops|
  {
    if ops != [] {
      var r := Apply(c.table, ops[0]);
      hide Consistent, InOrder;
      StepKeeps(c, ops[0]);
      StepOrder(c, ops[0]);
      if r.Done? {
        RunKeepsHeldLists(Tick(c, ops[0], r.table), ops[1..]);
      }
    }
  }

  /** No count can wrap in fewer than 2^32 calls. */
  lemma {:induction false} ShortRunsNeverWrap(c: Clocked, ops: seq<Op>)
    requires Consistent(c.table)
    requires forall m: Ptr :: At(c.table.count, m) + |ops| < COUNT_LIMIT
    ensures NoWrap(c, ops)
    decreases |ops|
  {
    if ops != [] {
      var r := Apply(c.table, ops[0]);
      StepKeeps(c, ops[0]);
      if r.Done? {
        forall m: Ptr ensures At(r.table.count, m) + |ops[1..]| < COUNT_LIMIT {
          assert At(c.table.count, m) + |ops| < COUNT_LIMIT;
        }
        ShortRunsNeverWrap(Tick(c, ops[0], r.table), ops[1..]);
      }
    }
  }

  function Unlocked(): Clocked {
    Clocked(Table(map[], map[], map[]), map[], 0)
  }

  /** From zero-filled words on, for every run of fewer than 2^32 locks and unlocks by
      any threads, ending anywhere: t's list holds m iff t owns m iff m's count, its
      locks minus its unlocks, is positive; and lists are in acquisition order. */
  lemma ShortRunsFromBoot(ops: seq<Op>)
    requires |ops| < COUNT_LIMIT
    ensures var c := Run(Unlocked(), ops).0;
            && (forall t, m: Ptr :: ListedIff(c.table, t, m))
            && (forall m: Ptr :: At(c.table.owner, m) != 0 <==> At(c.table.count, m) > 0)
            && (forall m: Ptr :: At(c.table.count, m) == Net(Unlocked(), ops, m))
            && InOrder(c)
  {
    EmptyIsConsistent();
    assert InOrder(Unlocked()) && forall m: Ptr :: At(Unlocked().table.count, m) == 0;
    ShortRunsNeverWrap(Unlocked(), ops);
    hide InOrder, NoWrap;
    RunKeepsHeldLists(Unlocked(), ops);
    var c := Run(Unlocked(), ops).0;
    forall m: Ptr ensures At(c.table.owner, m) != 0 <==> At(c.table.count, m) > 0 {
      assert Counted(c.table, m);
    }
  }

  // ---------------------------------------------------------------- locking n times

  function Locks(m: Ptr, t: Ptr, n: nat): seq<Op> {
    seq(n, _ => LockOp(m, t))
  }

  function Unlocks(m: Ptr, t: Ptr, n: nat): seq<Op> {
    seq(n, _ => UnlockOp(m, t, false, false))
  }

  /** mx with m taken n times by t. */
  ghost predicate Taken(mx: Table, mx': Table, m: Ptr, t: Ptr, n: nat) {
    && (forall x: Ptr :: At(mx'.owner, x) == if x == m && n > 0 then t else At(mx.owner, x))
    && (forall x: Ptr :: At(mx'.count, x) == if x == m then n else At(mx.count, x))
    && (forall u: Ptr :: HeldBy(mx', u) == HeldBy(mx, u) + if u == t && n > 0 then [m] else [])
  }

  lemma LockTakes(mx: Table, mx': Table, m: Ptr, t: Ptr, n: nat)
    requires Taken(mx, mx', m, t, n) && m != 0 && t != 0 && At(mx.owner, m) == 0 && n + 1 < COUNT_LIMIT
    ensures var r := Lock(mx', m, t); r.Done? && Taken(mx, r.table, m, t, n + 1)
  {
  }

  lemma WithoutLast(xs: seq<Ptr>, m: Ptr)
    requires m !in xs
    ensures Without(xs + [m], m) == xs
  {
    var ys := xs + [m];
    assert ys[..|xs|] == xs;
    WithoutAt(ys, m, |xs|);
  }

  lemma UnlockGivesBack(mx: Table, mx': Table, m: Ptr, t: Ptr, n: nat)
    requires Taken(mx, mx', m, t, n) && n > 0 && m != 0 && t != 0 && At(mx.owner, m) == 0
    requires m !in HeldBy(mx, t)
    ensures var r := Unlock(mx', m, t, false, false); r.Done? && Taken(mx, r.table, m, t, n - 1)
  {
    WithoutLast(HeldBy(mx, t), m);
    hide Without;
  }

  lemma {:induction false} LocksAll(mx: Table, c: Clocked, m: Ptr, t: Ptr, k: nat, n: nat, ops: seq<Op>)
    returns (c': Clocked)
    requires Taken(mx, c.table, m, t, k) && m != 0 && t != 0 && At(mx.owner, m) == 0 && k + n < COUNT_LIMIT
    ensures Taken(mx, c'.table, m, t, k + n) && Run(c, Locks(m, t, n) + ops) == Run(c', ops)
    decreases n
  {
    hide Taken;
    if n == 0 {
      c' := c;
      assert Locks(m, t, 0) + ops == ops;
    } else {
      LockTakes(mx, c.table, m, t, k);
      var op := LockOp(m, t);
      assert (Locks(m, t, n) + ops)[1..] == Locks(m, t, n - 1) + ops;
      c' := LocksAll(mx, Tick(c, op, Apply(c.table, op).table), m, t, k + 1, n - 1, ops);
    }
  }

  lemma {:induction false} UnlocksAll(mx: Table, c: Clocked, m: Ptr, t: Ptr, n: nat)
    requires Taken(mx, c.table, m, t, n) && m != 0 && t != 0 && At(mx.owner, m) == 0 && m !in HeldBy(mx, t)
    ensures var r := Run(c, Unlocks(m, t, n)); r.1 && Taken(mx, r.0.table, m, t, 0)
    decreases n
  {
    hide Taken, Without;
    if n > 0 {
      UnlockGivesBack(mx, c.table, m, t, n);
      var op := UnlockOp(m, t, false, false);
      assert Unlocks(m, t, n)[1..] == Unlocks(m, t, n - 1);
      UnlocksAll(mx, Tick(c, op, Apply(c.table, op).table), m, t, n - 1);
    } else {
      assert Unlocks(m, t, 0) == [];
    }
  }

  /** n locks and then n unlocks of a free mutex by one unboosted thread, nobody waiting:
      no call stops, and every owner, count and held list is what it was. */
  lemma LocksUndone(c: Clocked, m: Ptr, t: Ptr, n: nat)
    requires Consistent(c.table) && m != 0 && t != 0 && At(c.table.owner, m) == 0 && n < COUNT_LIMIT
    ensures var mid, r := Run(c, Locks(m, t, n)), Run(c, Locks(m, t, n) + Unlocks(m, t, n));
            && mid.1 && At(mid.0.table.count, m) == n && (n > 0 ==> At(mid.0.table.owner, m) == t)
            && r.1
            && (forall x: Ptr :: At(r.0.table.owner, x) == At(c.table.owner, x))
            && (forall x: Ptr :: At(r.0.table.count, x) == At(c.table.count, x))
            && (forall u: Ptr :: HeldBy(r.0.table, u) == HeldBy(c.table, u))
  {
    assert Counted(c.table, m) && ListedIff(c.table, t, m);
    assert Taken(c.table, c.table, m, t, 0);
    hide Consistent;
    assert Locks(m, t, n) + [] == Locks(m, t, n);
    var c0 := LocksAll(c.table, c, m, t, 0, n, []);
    var c1 := LocksAll(c.table, c, m, t, 0, n, Unlocks(m, t, n));
    UnlocksAll(c.table, c1, m, t, n);
  }

  // ---------------------------------------------------------------- the guest words

  lemma OwnersAreUnique(mx: Table)
    requires Consistent(mx)
    ensures OnOneList(mx.held)
    ensures forall m: Ptr :: At(mx.owner, m) == 0 ==> Nowhere(mx.held, m)
  {
    forall t, u, m: Ptr | m in ListOf(mx.held, t) && m in ListOf(mx.held, u) ensures t == u {
      assert ListedIff(mx, t, m) && ListedIff(mx, u, m);
    }
    forall t, m: Ptr | At(mx.owner, m) == 0 ensures m !in ListOf(mx.held, t) {
      assert ListedIff(mx, t, m);
    }
  }

  /** The mutex words as the two bridges read and write them. */
  class MutexWords {
    var owner: map<Ptr, Ptr>
    var count: map<Ptr, int>
    var next: map<Ptr, Ptr>     // per mutex
    var prev: map<Ptr, Ptr>
    var first: map<Ptr, Ptr>    // per thread: its held list
    var last: map<Ptr, Ptr>
    ghost var held: map<Ptr, seq<Ptr>>

    ghost function Value(): Table
      reads this
    {
      Table(owner, count, held)
    }

    ghost predicate Valid()
      reads this
    {
      Consistent(Value()) && Lists(first, last, next, prev, held)
    }

    constructor ()
      ensures Valid() && Value() == Table(map[], map[], map[])
    {
      owner, count, next, prev, first, last := map[], map[], map[], map[], map[], map[];
      held := map[];
    }

    /** LinkMutexToThread: tail append. */
    method Link(thread: Ptr, mutex: Ptr)
      requires mutex != 0 && Nowhere(held, mutex)
      requires OnOneList(held) && Lists(first, last, next, prev, held)
      modifies this`next, this`prev, this`first, this`last, this`held
      ensures held == old(held)[thread := ListOf(old(held), thread) + [mutex]]
      ensures Lists(first, last, next, prev, held)
    {
      LinkLists(first, last, next, prev, held, thread, mutex);
      hide Lists, OnOneList;
      var tail := At(last, thread);
      if tail == 0 {
        first := first[thread := mutex];
      } else {
        next := next[tail := mutex];
      }
      prev := prev[mutex := tail];
      next := next[mutex := 0];
      last := last[thread := mutex];
      held := held[thread := ListOf(held, thread) + [mutex]];
    }

    /** UnlinkMutexFromThread: the mutex's own link words stay stale. */
    method Unlink(thread: Ptr, mutex: Ptr)
      requires mutex in ListOf(held, thread)
      requires OnOneList(held) && Lists(first, last, next, prev, held)
      modifies this`next, this`prev, this`first, this`last, this`held
      ensures held == old(held)[thread := Without(ListOf(old(held), thread), mutex)]
      ensures Lists(first, last, next, prev, held)
    {
      UnlinkLists(first, last, next, prev, held, thread, mutex);
      hide Lists, OnOneList, Without, ListOf;
      var n, p := At(next, mutex), At(prev, mutex);
      if n == 0 {
        last := last[thread := p];
      } else {
        prev := prev[n := p];
      }
      if p == 0 {
        first := first[thread := n];
      } else {
        next := next[p := n];
      }
      assert last == Rehead(old(last), thread, n, p) && prev == Write(old(prev), n, p);
      assert first == Rehead(old(first), thread, p, n) && next == Write(old(next), p, n);
      hide Rehead, Write;
      held := held[thread := Without(ListOf(held, thread), mutex)];
    }

    /** OSCreateThread zeroes a thread's held-list words, whatever it still held. */
    method ClearHeld(thread: Ptr)
      requires Lists(first, last, next, prev, held)
      modifies this`first, this`last, this`held
      ensures Lists(first, last, next, prev, held) && held == old(held)[thread := []]
    {
      ClearLists(first, last, next, prev, held, thread);
      first := first[thread := 0];
      last := last[thread := 0];
      held := held[thread := []];
    }

    /** The critical section of OSLockMutex. `stopped` is the contended boundary. */
    method Acquire(mutex: Ptr, running: Ptr) returns (stopped: bool)
      requires Valid() && mutex != 0
      modifies this
      ensures !Wraps(old(Value()), mutex, running) ==> Valid()
      ensures var r := Lock(old(Value()), mutex, running);
              stopped == r.Boundary? && Value() == if stopped then old(Value()) else r.table
    {
      hide Consistent, Lists, OnOneList, Nowhere, Wraps;
      LockKeepsIff(Value(), mutex, running);
      OwnersAreUnique(Value());
      stopped := false;
      if running == 0 {
        return;
      }
      var o := At(owner, mutex);
      if o == 0 {
        owner := owner[mutex := running];
        count := count[mutex := (At(count, mutex) + 1) % COUNT_LIMIT];
        Link(running, mutex);
      } else if o == running {
        count := count[mutex := (At(count, mutex) + 1) % COUNT_LIMIT];
      } else {
        stopped := true;
      }
    }

    /** OSLockMutex for the thread in OSRunningContext. The interrupt flag ends as it
        began, and the current context's mode bit agrees with it. */
    method LockMutex(mutex: Ptr, running: Ptr, current: Ptr, irq: InterruptState)
      returns (stopped: bool)
      requires Valid()
      modifies this, irq
      ensures !Wraps(old(Value()), mutex, running) ==> Valid()
      ensures var r := Lock(old(Value()), mutex, running);
              stopped == r.Boundary? && Value() == if stopped then old(Value()) else r.table
      ensures irq.enabled == old(irq.enabled)
      ensures mutex != 0 && current != 0 ==>
                irq.modeBit == old(irq.modeBit)[current := old(irq.enabled)]
    {
      stopped := false;
      if mutex == 0 {
        return;
      }
      hide Valid, Lock;
      var state := irq.Disable(current);
      stopped := Acquire(mutex, running);
      var _ := irq.Restore(current, state);
    }

    /** The critical section of OSUnlockMutex. */
    method Release(mutex: Ptr, running: Ptr, waitHead: Ptr, waitTail: Ptr, priority: int, base: int)
      returns (stopped: bool)
      requires Valid() && mutex != 0
      modifies this
      ensures Valid()
      ensures var r := Unlock(old(Value()), mutex, running, waitHead != 0 || waitTail != 0, priority < base);
              stopped == r.Boundary? && Value() == if stopped then old(Value()) else r.table
    {
      ghost var mx := Value();
      UnlockKeeps(mx, mutex, running, waitHead != 0 || waitTail != 0, priority < base);
      OwnersAreUnique(mx);
      assert ListedIff(mx, running, mutex);
      hide Consistent, Lists, OnOneList;
      stopped := false;
      if running == 0 || At(owner, mutex) != running {
        return;
      }
      var c := At(count, mutex);
      if c == 0 {
        return true;
      }
      if c == 1 && (waitHead != 0 || waitTail != 0 || priority < base) {
        return true;
      }
      count := count[mutex := c - 1];
      if c - 1 == 0 {
        Unlink(running, mutex);
        owner := owner[mutex := 0];
      }
    }

    /** OSUnlockMutex. `waitHead` and `waitTail` are the mutex's wait-queue words. */
    method UnlockMutex(mutex: Ptr, running: Ptr, current: Ptr, waitHead: Ptr, waitTail: Ptr,
                       priority: int, base: int, irq: InterruptState)
      returns (stopped: bool)
      requires Valid()
      modifies this, irq
      ensures Valid()
      ensures var r := Unlock(old(Value()), mutex, running, waitHead != 0 || waitTail != 0, priority < base);
              stopped == r.Boundary? && Value() == if stopped then old(Value()) else r.table
      ensures irq.enabled == old(irq.enabled)
      ensures mutex != 0 && current != 0 ==>
                irq.modeBit == old(irq.modeBit)[current := old(irq.enabled)]
    {
      stopped := false;
      if mutex == 0 {
        return;
      }
      hide Valid, Unlock;
      var state := irq.Disable(current);
      stopped := Release(mutex, running, waitHead, waitTail, priority, base);
      var _ := irq.Restore(current, state);
    }
  }
}

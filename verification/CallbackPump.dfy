/** Deferred guest callbacks: a queue that is pumped from the dispatch seam, by guest
    code that may queue more callbacks and re-enter the pump. */
module CallbackPump {
  import opened Cpu

  const BATCH := 64

  datatype Callback = Callback(ptr: int, result: int, block: int)

  /** What a running callback does that concerns the queue. */
  datatype Action = Queue(c: Callback) | Reenter

  /** Guest code: what the n-th delivery, of callback c, does. */
  type Guest = (Callback, nat) -> seq<Action>

  /** One invocation: the callback and the registers it was given. */
  datatype Delivery = Delivery(c: Callback, cpu: CpuContext)

  /** `queued` is everything ever accepted, in order. */
  datatype Log = Log(pending: seq<Callback>, delivered: seq<Delivery>, queued: seq<Callback>)

  function Accepted(actions: seq<Action>): seq<Callback>
    decreases |actions|
  {
    if actions == [] then []
    else
      (if actions[0].Queue? && actions[0].c.ptr != 0 then [actions[0].c] else []) + Accepted(actions[1..])
  }

  /** The callback's own copy of the caller's registers. */
  function Arguments(cpu: CpuContext, c: Callback): CpuContext {
    cpu.(gpr := cpu.gpr[3 := c.result % 0x1_0000_0000][4 := c.block])
  }

  /** The callback sees its result in r3, as an unsigned word, and its command block in r4,
      and for the rest the caller's registers. */
  ghost predicate Given(cpu: CpuContext, d: Delivery) {
    && (d.cpu.gpr[3] - d.c.result) % 0x1_0000_0000 == 0 && 0 <= d.cpu.gpr[3] < 0x1_0000_0000
    && d.cpu.gpr[4] == d.c.block
    && d.cpu == cpu.(gpr := d.cpu.gpr)
    && forall r :: 0 <= r < 32 && r != 3 && r != 4 ==> d.cpu.gpr[r] == cpu.gpr[r]
  }

  lemma ArgumentsGiven(cpu: CpuContext, c: Callback)
    ensures Given(cpu, Delivery(c, Arguments(cpu, c)))
  {
    var w := c.result / 0x1_0000_0000;
    assert c.result % 0x1_0000_0000 - c.result == 0x1_0000_0000 * -w;
  }

  function Accept(l: Log, cs: seq<Callback>): Log {
    l.(pending := l.pending + cs, queued := l.queued + cs)
  }

  function DeliverOne(l: Log, cpu: CpuContext, guest: Guest): Log
    requires l.pending != []
  {
    var c := l.pending[0];
    Accept(Log(l.pending[1..], l.delivered + [Delivery(c, Arguments(cpu, c))], l.queued),
           Accepted(guest(c, |l.delivered|)))
  }

  function Pump(l: Log, cpu: CpuContext, guest: Guest, budget: nat): Log
    decreases budget
  {
    if budget == 0 || l.pending == [] then l else Pump(DeliverOne(l, cpu, guest), cpu, guest, budget - 1)
  }

  // ---------------------------------------------------------------- delivery

  function CallbacksOf(ds: seq<Delivery>): (cs: seq<Callback>)
    ensures |cs| == |ds| && forall i :: 0 <= i < |ds| ==> cs[i] == ds[i].c
  {
    seq(|ds|, i requires 0 <= i < |ds| => ds[i].c)
  }

  /** First in, first out, exactly once: what was delivered and what is pending is what
      was queued, in order. */
  ghost predicate InOrder(l: Log) {
    CallbacksOf(l.delivered) + l.pending == l.queued
  }

  lemma AcceptKeepsOrder(l: Log, cs: seq<Callback>)
    requires InOrder(l)
    ensures InOrder(Accept(l, cs))
  {
    assert CallbacksOf(l.delivered) + (l.pending + cs) == CallbacksOf(l.delivered) + l.pending + cs;
  }

  lemma DeliverKeepsOrder(l: Log, cpu: CpuContext, guest: Guest)
    requires InOrder(l) && l.pending != []
    ensures InOrder(DeliverOne(l, cpu, guest))
  {
    var c := l.pending[0];
    var d := Delivery(c, Arguments(cpu, c));
    assert CallbacksOf(l.delivered + [d]) == CallbacksOf(l.delivered) + [c];
    assert CallbacksOf(l.delivered) + [c] + l.pending[1..] == CallbacksOf(l.delivered) + l.pending;
    AcceptKeepsOrder(Log(l.pending[1..], l.delivered + [d], l.queued), Accepted(guest(c, |l.delivered|)));
  }

  /** One pump delivers in order, at most its budget, and stops short only on an empty
      queue; every delivery saw the caller's registers but for its two arguments. */
  lemma {:induction false} PumpDelivers(l: Log, cpu: CpuContext, guest: Guest, budget: nat)
    requires InOrder(l)
    ensures var l' := Pump(l, cpu, guest, budget);
            && InOrder(l')
            && l.delivered <= l'.delivered && l.queued <= l'.queued
            && |l'.delivered| <= |l.delivered| + budget
            && (|l'.delivered| < |l.delivered| + budget ==> l'.pending == [])
            && forall i :: |l.delivered| <= i < |l'.delivered| ==>
                 l'.delivered[i].c == l'.queued[i] && Given(cpu, l'.delivered[i])
    decreases budget
  {
    if budget > 0 && l.pending != [] {
      DeliverKeepsOrder(l, cpu, guest);
      ArgumentsGiven(cpu, l.pending[0]);
      hide Given;
      var l1 := DeliverOne(l, cpu, guest);
      PumpDelivers(l1, cpu, guest, budget - 1);
      var l' := Pump(l, cpu, guest, budget);
      var i := |l.delivered|;
      assert l'.delivered[i] == l1.delivered[i];
      assert CallbacksOf(l'.delivered)[i] == l'.queued[i];
    }
  }

  /** Of what callbacks ask to queue exactly the non-null ones are accepted, in order. */
  lemma {:induction false} AcceptedIs(actions: seq<Action>)
    ensures forall c | c in Accepted(actions) :: c.ptr != 0
    ensures forall i | 0 <= i < |actions| && actions[i].Queue? && actions[i].c.ptr != 0 ::
              AcceptedAt(actions, i)
    decreases |actions|
  {
    if actions != [] {
      AcceptedIs(actions[1..]);
      AcceptedFirst(actions);
      forall i | 0 <= i < |actions| && actions[i].Queue? && actions[i].c.ptr != 0 ensures AcceptedAt(actions, i) {
        if i > 0 {
          assert AcceptedAt(actions[1..], i - 1);
          assert actions[..i][1..] == actions[1..][..i - 1];
          AcceptedFirst(actions[..i]);
          assert actions[..i][0] == actions[0];
        } else {
          assert actions[..0] == [];
        }
      }
    }
  }

  /** Action i's callback stands right behind what the actions before it queued. */
  predicate AcceptedAt(actions: seq<Action>, i: nat)
    requires i < |actions| && actions[i].Queue?
  {
    var k := |Accepted(actions[..i])|;
    k < |Accepted(actions)| && Accepted(actions)[k] == actions[i].c
  }

  // ---------------------------------------------------------------- whole runs

  datatype Call = QueueCall(c: Callback) | PumpCall(cpu: CpuContext)

  function Run(l: Log, guest: Guest, calls: seq<Call>): Log
    decreases |calls|
  {
    if calls == [] then l
    else
      var l1 := match calls[0]
                case QueueCall(c) => Accept(l, Accepted([Queue(c)]))
                case PumpCall(cpu) => Pump(l, cpu, guest, BATCH);
      Run(l1, guest, calls[1..])
  }

  /** Whatever the callbacks do, at the end of every run of queueing and pumping the
      delivered callbacks are the first ones queued, each exactly once. */
  lemma {:induction false} RunDelivers(l: Log, guest: Guest, calls: seq<Call>)
    requires InOrder(l)
    ensures InOrder(Run(l, guest, calls)) && l.delivered <= Run(l, guest, calls).delivered
    decreases |calls|
  {
    if calls != [] {
      match calls[0] {
        case QueueCall(c) =>
          AcceptKeepsOrder(l, Accepted([Queue(c)]));
          RunDelivers(Accept(l, Accepted([Queue(c)])), guest, calls[1..]);
        case PumpCall(cpu) =>
          PumpDelivers(l, cpu, guest, BATCH);
          RunDelivers(Pump(l, cpu, guest, BATCH), guest, calls[1..]);
      }
    }
  }

  function Pumps(cpu: CpuContext, k: nat): seq<Call> {
    seq(k, _ => PumpCall(cpu))
  }

  lemma {:induction false} QuietPump(l: Log, cpu: CpuContext, guest: Guest, budget: nat)
    requires forall c: Callback, n: nat :: Accepted(guest(c, n)) == []
    ensures Pump(l, cpu, guest, budget).pending == if budget <= |l.pending| then l.pending[budget..] else []
    decreases budget
  {
    if budget > 0 && l.pending != [] {
      var l1 := DeliverOne(l, cpu, guest);
      assert l1.pending == l.pending[1..];
      QuietPump(l1, cpu, guest, budget - 1);
    }
  }

  /** Nothing starves: when callbacks stop queueing, k pumps deliver the next 64 k. */
  lemma {:induction false} PumpsDrain(l: Log, cpu: CpuContext, guest: Guest, k: nat)
    requires forall c: Callback, n: nat :: Accepted(guest(c, n)) == []
    ensures Run(l, guest, Pumps(cpu, k)).pending == if 64 * k <= |l.pending| then l.pending[64 * k..] else []
    decreases k
  {
    if k > 0 {
      assert Pumps(cpu, k)[1..] == Pumps(cpu, k - 1);
      QuietPump(l, cpu, guest, BATCH);
      PumpsDrain(Pump(l, cpu, guest, BATCH), cpu, guest, k - 1);
    }
  }

  /** Queueing action by action is queueing them all. */
  lemma ActionByAction(l: Log, actions: seq<Action>)
    requires actions != []
    ensures var l1 := if actions[0].Queue? then Accept(l, Accepted([actions[0]])) else l;
            Accept(l1, Accepted(actions[1..])) == Accept(l, Accepted(actions))
  {
    AcceptedFirst(actions);
    var first, rest := Accepted([actions[0]]), Accepted(actions[1..]);
    hide Accepted;
    AppendTwice(l.pending, first, rest);
    AppendTwice(l.queued, first, rest);
  }

  lemma AppendTwice(xs: seq<Callback>, ys: seq<Callback>, zs: seq<Callback>)
    ensures xs + ys + zs == xs + (ys + zs)
    ensures ys == [] ==> xs + ys == xs
  {
  }

  lemma {:induction false} AcceptedFirst(actions: seq<Action>)
    requires actions != []
    ensures Accepted(actions) == Accepted([actions[0]]) + Accepted(actions[1..])
    ensures actions[0].Reenter? ==> Accepted([actions[0]]) == []
  {
    var a := actions[0];
    var first := if a.Queue? && a.c.ptr != 0 then [a.c] else [];
    assert [a][1..] == [];
    assert Accepted([a]) == first + [];
  }

  // ---------------------------------------------------------------- the queue as it runs

  class Queues {
    var pending: seq<Callback>
    var depth: nat                    // g_callbackDrainDepth
    var served: nat                   // the guest's own progress, which its code may depend on
    ghost var delivered: seq<Delivery>
    ghost var queued: seq<Callback>
    const guest: Guest

    ghost function Value(): Log
      reads this
    {
      Log(pending, delivered, queued)
    }

    ghost predicate Valid()
      reads this
    {
      served == |delivered|
    }

    constructor (guest: Guest)
      ensures Valid() && Value() == Log([], [], []) && depth == 0 && this.guest == guest
    {
      this.guest := guest;
      pending, depth, served, delivered, queued := [], 0, 0, [], [];
    }

    method QueueCallback(c: Callback)
      modifies this`pending, this`queued
      ensures Value() == Accept(old(Value()), Accepted([Queue(c)]))
    {
      if c.ptr == 0 {
        return;
      }
      pending := pending + [c];
      queued := queued + [c];
    }

    /** PumpCallbacks. Re-entered from a callback it does nothing. */
    method PumpCallbacks(cpu: CpuContext)
      requires Valid()
      modifies this
      ensures Valid() && depth == old(depth)
      ensures Value() == if old(depth) != 0 then old(Value()) else Pump(old(Value()), cpu, guest, BATCH)
      decreases if depth == 0 then 2 else 0, 0
    {
      if depth != 0 {
        return;
      }
      depth := depth + 1;
      ghost var goal := Pump(Value(), cpu, guest, BATCH);
      var processed := 0;
      while processed < BATCH
        invariant 0 <= processed <= BATCH && depth == 1 && Valid()
        invariant Pump(Value(), cpu, guest, BATCH - processed) == goal
      {
        if pending == [] {
          break;
        }
        ghost var before := Value();
        var c := pending[0];
        pending := pending[1..];
        delivered := delivered + [Delivery(c, Arguments(cpu, c))];
        served := served + 1;
        RunGuest(guest(c, served - 1), Arguments(cpu, c));
        assert Value() == DeliverOne(before, cpu, guest);
        processed := processed + 1;
      }
      depth := depth - 1;
    }

    /** A callback runs on its own copy of the registers, inside the pump. */
    method RunGuest(actions: seq<Action>, cpu: CpuContext)
      requires depth == 1 && Valid()
      modifies this
      ensures depth == 1 && Valid()
      ensures Value() == Accept(old(Value()), Accepted(actions))
      decreases 1, |actions|
    {
      if actions == [] {
        assert Accept(Value(), []) == Value();
        return;
      }
      ghost var l := Value();
      match actions[0] {
        case Queue(c) => QueueCallback(c);
        case Reenter => PumpCallbacks(cpu);
      }
      ActionByAction(l, actions);
      RunGuest(actions[1..], cpu);
    }
  }
}

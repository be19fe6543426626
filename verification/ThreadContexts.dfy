/** The register words of a guest thread's OSContext, written by OSCreateThread and read
    back by OSLoadContext, word by word. */
module ThreadContexts {
  import opened Wrappers
  import opened Cpu
  import opened Fibers
  import opened ThreadStart

  class OSContext {
    const gpr: array<int>
    const gqr: array<int>
    var cr: int
    var lr: int
    var ctr: int
    var xer: int
    var srr0: int
    var srr1: int
    var exceptionBit: bool

    ghost predicate Valid()
      reads this
    {
      gpr.Length == 32 && gqr.Length == 8 && gpr != gqr
    }

    ghost function Value(): GuestContext
      requires Valid()
      reads this, gpr, gqr
    {
      GuestContext(gpr[..], gqr[..], cr, lr, ctr, xer, srr0, srr1)
    }

    constructor ()
      ensures Valid() && fresh(gpr) && fresh(gqr)
    {
      gpr := new int[32](_ => 0);
      gqr := new int[8](_ => 0);
      cr, lr, ctr, xer, srr0, srr1, exceptionBit := 0, 0, 0, 0, 0, 0, false;
    }

    /** InitializeGuestContext. */
    method Initialize(c: CpuContext, entry: int, sp: int)
      requires Valid()
      modifies this, gpr, gqr
      ensures cr == 0 && xer == 0 && srr0 == entry && srr1 == INITIAL_SRR1 && ctr == old(ctr)
      ensures gpr[0] == old(gpr[0]) && gpr[1] == sp && gpr[2] == c.gpr[2] && gpr[13] == c.gpr[13]
      ensures forall r :: 3 <= r < 32 && r != 13 ==> gpr[r] == 0
      ensures forall q :: 0 <= q < 8 ==> gqr[q] == 0
    {
      srr0 := entry;
      gpr[1] := sp;
      srr1 := INITIAL_SRR1;
      cr := 0;
      xer := 0;
      gpr[2] := c.gpr[2];
      gpr[13] := c.gpr[13];
      var reg := 3;
      while reg <= 12
        invariant 3 <= reg <= 13
        invariant gpr[0] == old(gpr[0]) && gpr[1] == sp && gpr[2] == c.gpr[2] && gpr[13] == c.gpr[13]
        invariant forall r :: 3 <= r < reg ==> gpr[r] == 0
        modifies gpr
      {
        gpr[reg] := 0;
        reg := reg + 1;
      }
      reg := 14;
      while reg <= 31
        invariant 14 <= reg <= 32
        invariant gpr[0] == old(gpr[0]) && gpr[1] == sp && gpr[2] == c.gpr[2] && gpr[13] == c.gpr[13]
        invariant forall r :: 3 <= r < reg && r != 13 ==> gpr[r] == 0
        modifies gpr
      {
        gpr[reg] := 0;
        reg := reg + 1;
      }
      var q := 0;
      while q < 8
        invariant 0 <= q <= 8 && forall i :: 0 <= i < q ==> gqr[i] == 0
        modifies gqr
      {
        gqr[q] := 0;
        q := q + 1;
      }
      exceptionBit := false;
    }

    /** The context part of OSCreateThread. */
    method Create(c: CpuContext, entry: int, arg: int, sp: int, scheduler: bool)
      requires Valid()
      modifies this, gpr, gqr
      ensures Value() == CreatedContext(old(Value()), c, entry, arg, sp, scheduler)
    {
      Initialize(c, entry, sp);
      if IsThpEntry(entry) {
        gqr[2] := 0x40004;
        gqr[3] := 0x50005;
        gqr[4] := 0x60006;
        gqr[5] := 0x70007;
      }
      lr := EXIT_TRAMPOLINE;
      gpr[3] := arg;
      if scheduler {
        srr1 := 0x9932;
      }
      assert gpr[..] == CreatedContext(old(Value()), c, entry, arg, sp, scheduler).gpr;
      assert gqr[..] == CreatedContext(old(Value()), c, entry, arg, sp, scheduler).gqr;
    }

    /** OSLoadContext up to the dispatch; None for its stops. */
    method Load(cpu: CpuContext) returns (r: Option<CpuContext>)
      requires Valid()
      modifies this`exceptionBit
      ensures r == Loaded(cpu, Value())
      ensures r.Some? ==> !exceptionBit
    {
      if srr0 == 0 {
        return None;
      }
      var c := cpu;
      var i := 0;
      while i < 32
        invariant 0 <= i <= 32 && c == cpu.(gpr := c.gpr)
        invariant forall k :: 0 <= k < i ==> c.gpr[k] == gpr[k]
      {
        c := c.(gpr := c.gpr[i := gpr[i]]);
        i := i + 1;
      }
      assert c.gpr == gpr[..];
      c := c.(cr := cr, lr := lr, ctr := ctr, xer := xer);
      c := c.(gqr := c.gqr[0 := 0]);
      ghost var c0 := c;
      i := 1;
      while i < 8
        invariant 1 <= i <= 8 && c == c0.(gqr := c.gqr)
        invariant c.gqr[0] == 0 && forall k :: 1 <= k < i ==> c.gqr[k] == gqr[k]
      {
        c := c.(gqr := c.gqr[i := gqr[i]]);
        i := i + 1;
      }
      assert c.gqr == gqr[..][0 := 0];
      if exceptionBit {
        exceptionBit := false;
      }
      c := c.(srr0 := srr0, srr1 := srr1, pc := srr0);
      r := Some(c);
    }
  }
}

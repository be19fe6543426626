/** Dynamic dispatch: a two-level page index over one address-sorted record table, and
    the guards that keep a caller's nonvolatile registers over the call. */
module IndirectDispatch {
  import opened Cpu

  const PAGE_BYTES := 0x1000
  const SEGMENT_BYTES := 0x100_0000
  const FIRST_NONVOLATILE := 14

  type Address = x: int | 0 <= x < 0x1_0000_0000

  /** Bit r of a mask word is element r. */
  type Bits = b: seq<bool> | |b| == 32 witness seq(32, _ => false)

  /** RawDispatchRecord; `present` says that its entry pointer is not null. */
  datatype Entry = Entry(address: Address, present: bool, fprMask: Bits, preserveGprs: bool)

  datatype Page = Page(first: nat, count: nat)

  /** A null pages pointer is an empty list of pages. */
  datatype Segment = Segment(firstPage: nat, pages: seq<Page>)

  datatype Table = Table(segments: seq<Segment>, entries: seq<Entry>)

  function SegmentOf(a: Address): (s: nat)
    ensures s < 256
  {
    a / SEGMENT_BYTES
  }

  function PageOf(a: Address): (p: nat)
    ensures p < 0x1000
  {
    a % SEGMENT_BYTES / PAGE_BYTES
  }

  /** The index cuts an address into 256 segments of 4096 pages of 4096 bytes. */
  lemma IndexCuts(a: Address)
    ensures SegmentOf(a) == a / 0x100_0000
    ensures 0 <= a - (SegmentOf(a) * 4096 + PageOf(a)) * 4096 < 4096
  {
  }

  /** The page that would hold an address, if the index has one. */
  predicate HasPage(t: Table, a: Address) {
    && |t.segments| == 256
    && t.segments[SegmentOf(a)].firstPage <= PageOf(a)
    && PageOf(a) - t.segments[SegmentOf(a)].firstPage < |t.segments[SegmentOf(a)].pages|
  }

  function PageFor(t: Table, a: Address): Page
    requires HasPage(t, a)
  {
    var seg := t.segments[SegmentOf(a)];
    seg.pages[PageOf(a) - seg.firstPage]
  }

  predicate InTable(t: Table, p: Page) {
    p.first + p.count <= |t.entries|
  }

  predicate Ascending(es: seq<Entry>, first: nat, count: nat)
    requires first + count <= |es|
  {
    forall i, j :: first <= i < j < first + count ==> es[i].address < es[j].address
  }

  /** The generated table: every page's slice is in strictly ascending order, and every
      entry is in the slice of its own page. */
  ghost predicate WellFormed(t: Table) {
    && |t.segments| == 256
    && (forall a: Address :: HasPage(t, a) ==>
          InTable(t, PageFor(t, a)) && Ascending(t.entries, PageFor(t, a).first, PageFor(t, a).count))
    && (forall i :: 0 <= i < |t.entries| ==> Filed(t, i))
  }

  predicate Filed(t: Table, i: nat)
    requires i < |t.entries|
  {
    var a := t.entries[i].address;
    HasPage(t, a) && PageFor(t, a).first <= i < PageFor(t, a).first + PageFor(t, a).count
  }

  /** Linear search: the first entry with this address, or |es|. */
  function Linear(es: seq<Entry>, a: Address): (i: nat)
    ensures i <= |es|
    ensures i < |es| ==> es[i].address == a
    ensures forall j :: 0 <= j < i ==> es[j].address != a
  {
    if es == [] || es[0].address == a then 0 else 1 + Linear(es[1..], a)
  }

  lemma OnePerAddress(t: Table, i: nat, j: nat)
    requires WellFormed(t) && i < |t.entries| && j < |t.entries|
    requires t.entries[i].address == t.entries[j].address
    ensures i == j
  {
    assert Filed(t, i) && Filed(t, j);
  }

  lemma NoPageNoEntry(t: Table, a: Address)
    ensures WellFormed(t) && !(HasPage(t, a) && InTable(t, PageFor(t, a))) ==> Linear(t.entries, a) == |t.entries|
  {
    if WellFormed(t) && Linear(t.entries, a) < |t.entries| { assert Filed(t, Linear(t.entries, a)); }
  }

  /** FindStaticIndirectDispatchEntry; |entries| stands for null. A record found always
      has the address, whatever the table; on a generated table the lookup is linear
      search. */
  method Find(t: Table, a: Address) returns (k: nat)
    ensures k <= |t.entries|
    ensures k < |t.entries| ==> t.entries[k].address == a
    ensures WellFormed(t) ==> k == Linear(t.entries, a)
  {
    k := |t.entries|;
    NoPageNoEntry(t, a);
    if |t.entries| == 0 || |t.segments| != 256 {
      return;
    }
    var segment := t.segments[SegmentOf(a)];
    if |segment.pages| == 0 || PageOf(a) < segment.firstPage {
      return;
    }
    var relative := PageOf(a) - segment.firstPage;
    if relative >= |segment.pages| {
      return;
    }
    var page := segment.pages[relative];
    var first, count := page.first, page.count;
    if first > |t.entries| || count > |t.entries| - first {
      return;
    }
    assert WellFormed(t) ==> Ascending(t.entries, first, count);
    hide WellFormed, Linear, Filed;
    var lower, upper := first, first + count;
    while lower < upper
      invariant first <= lower <= upper <= first + count <= |t.entries|
      invariant WellFormed(t) ==> forall j :: first <= j < lower ==> t.entries[j].address < a
      invariant WellFormed(t) ==> forall j :: upper <= j < first + count ==> t.entries[j].address >= a
    {
      var middle := lower + (upper - lower) / 2;
      if t.entries[middle].address < a {
        lower := middle + 1;
      } else {
        upper := middle;
      }
    }
    if lower < first + count && t.entries[lower].address == a {
      k := lower;
    }
    FoundIsLinear(t, a, lower, k);
  }

  /** Where the binary search ends is where linear search ends. */
  lemma FoundIsLinear(t: Table, a: Address, lower: nat, k: nat)
    requires HasPage(t, a) && InTable(t, PageFor(t, a))
    requires var p := PageFor(t, a);
             && p.first <= lower <= p.first + p.count
             && k == (if lower < p.first + p.count && t.entries[lower].address == a then lower else |t.entries|)
             && (WellFormed(t) ==> forall j :: p.first <= j < lower ==> t.entries[j].address < a)
             && (WellFormed(t) ==> forall j :: lower <= j < p.first + p.count ==> t.entries[j].address >= a)
    ensures WellFormed(t) ==> k == Linear(t.entries, a)
  {
    if WellFormed(t) {
      var l := Linear(t.entries, a);
      if l < |t.entries| {
        assert Filed(t, l);
        assert lower <= l;
        if t.entries[lower].address == a { OnePerAddress(t, l, lower); }
      }
    }
  }

  // ---------------------------------------------------------------- the guarded call

  /** Over a dispatch from `was`, whose callee left `after`, exactly the masked f14-f31
      and, when flagged, r14-r31 are preserved; every other register is the callee's. */
  ghost predicate Preserves(e: Entry, was: CpuContext, after: CpuContext, now: CpuContext) {
    && now == after.(fpr := now.fpr, gpr := now.gpr)
    && (forall r :: 0 <= r < 32 ==>
          now.fpr[r] == if r >= FIRST_NONVOLATILE && e.fprMask[r] then was.fpr[r] else after.fpr[r])
    && (forall r :: 0 <= r < 32 ==>
          now.gpr[r] == if r >= FIRST_NONVOLATILE && e.preserveGprs then was.gpr[r] else after.gpr[r])
  }

  class Processor {
    var cpu: CpuContext

    constructor (cpu: CpuContext)
      ensures this.cpu == cpu
    {
      this.cpu := cpu;
    }

    /** Invoke a translated function; `after` is whatever it leaves in the registers. */
    method Invoke(after: CpuContext)
      modifies this
      ensures cpu == after
    {
      cpu := after;
    }

    /** NonvolatileFprGuard and NonvolatileGprGuard around the call. */
    method Call(e: Entry, after: CpuContext)
      modifies this
      ensures Preserves(e, old(cpu), after, cpu)
    {
      var savedGpr, savedFpr := new int[18](_ => 0), new int[18](_ => 0);
      var r := FIRST_NONVOLATILE;
      while r <= 31 && e.preserveGprs
        invariant 14 <= r <= 32 && cpu == old(cpu)
        invariant e.preserveGprs ==> forall k :: 14 <= k < r ==> savedGpr[k - 14] == cpu.gpr[k]
      {
        savedGpr[r - 14] := cpu.gpr[r];
        r := r + 1;
      }
      r := FIRST_NONVOLATILE;
      while r <= 31
        invariant 14 <= r <= 32 && cpu == old(cpu)
        invariant e.preserveGprs ==> forall k :: 14 <= k < 32 ==> savedGpr[k - 14] == cpu.gpr[k]
        invariant forall k :: 14 <= k < r && e.fprMask[k] ==> savedFpr[k - 14] == cpu.fpr[k]
      {
        if e.fprMask[r] {
          savedFpr[r - 14] := cpu.fpr[r];
        }
        r := r + 1;
      }
      Invoke(after);
      RestoreFprs(e, savedFpr);
      if e.preserveGprs {
        RestoreGprs(savedGpr);
      }
    }

    method RestoreFprs(e: Entry, saved: array<int>)
      requires saved.Length == 18
      modifies this
      ensures cpu == old(cpu).(fpr := cpu.fpr)
      ensures forall k :: 0 <= k < 32 ==>
                cpu.fpr[k] == if k >= 14 && e.fprMask[k] then saved[k - 14] else old(cpu).fpr[k]
    {
      var r := FIRST_NONVOLATILE;
      while r <= 31
        invariant 14 <= r <= 32 && cpu == old(cpu).(fpr := cpu.fpr)
        invariant forall k :: 0 <= k < 32 ==>
                    cpu.fpr[k] == if 14 <= k < r && e.fprMask[k] then saved[k - 14] else old(cpu).fpr[k]
      {
        if e.fprMask[r] {
          cpu := cpu.(fpr := cpu.fpr[r := saved[r - 14]]);
        }
        r := r + 1;
      }
    }

    method RestoreGprs(saved: array<int>)
      requires saved.Length == 18
      modifies this
      ensures cpu == old(cpu).(gpr := cpu.gpr)
      ensures forall k :: 0 <= k < 32 ==> cpu.gpr[k] == if k >= 14 then saved[k - 14] else old(cpu).gpr[k]
    {
      var r := FIRST_NONVOLATILE;
      while r <= 31
        invariant 14 <= r <= 32 && cpu == old(cpu).(gpr := cpu.gpr)
        invariant forall k :: 0 <= k < 32 ==> cpu.gpr[k] == if 14 <= k < r then saved[k - 14] else old(cpu).gpr[k]
      {
        cpu := cpu.(gpr := cpu.gpr[r := saved[r - 14]]);
        r := r + 1;
      }
    }

    /** mkw_switch_try_dispatch_indirect. */
    method TryDispatch(t: Table, target: Address, after: CpuContext) returns (ran: bool)
      modifies this
      ensures WellFormed(t) ==>
                (ran <==> exists k :: 0 <= k < |t.entries| && t.entries[k].address == target && t.entries[k].present)
      ensures ran ==> exists k :: 0 <= k < |t.entries| && t.entries[k].address == target && t.entries[k].present
                                  && Preserves(t.entries[k], old(cpu), after, cpu)
      ensures !ran ==> cpu == old(cpu)
    {
      var k := Find(t, target);
      if k == |t.entries| || !t.entries[k].present {
        if k < |t.entries| && WellFormed(t) {
          forall j | 0 <= j < |t.entries| && t.entries[j].address == target ensures j == k { OnePerAddress(t, j, k); }
        }
        return false;
      }
      Call(t.entries[k], after);
      ran := true;
    }
  }
}

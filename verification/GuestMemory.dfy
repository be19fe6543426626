/** Checked guest memory: addresses resolve through the bound regions to bytes of the
    folded allocations, and accesses of any width are big-endian. */
module GuestMemory {
  import opened Wrappers
  import opened GuestFlat

  const MEM1_SIZE := 0x0180_0000
  const MEM2_SIZE := 0x0800_0000

  datatype Region = Region(base: Address, size: nat)

  /** The backing of a region is decided by its first address alone. */
  function Classify(base: Address): Backing {
    if Covers(0, MEM1_SIZE, base) || Covers(0x8000_0000, MEM1_SIZE, base) || Covers(0xC000_0000, MEM1_SIZE, base)
    then Mem1
    else if Covers(0x1000_0000, MEM2_SIZE, base) || Covers(0x9000_0000, MEM2_SIZE, base)
            || Covers(0xD000_0000, MEM2_SIZE, base)
    then Mem2
    else Owned
  }

  function RequestOf(r: Region): Request {
    Request(r.base, r.size, Classify(r.base))
  }

  function Requests(config: seq<Region>): (rs: seq<Request>)
    ensures |rs| == |config| && forall i :: 0 <= i < |rs| ==> rs[i] == RequestOf(config[i])
  {
    seq(|config|, i requires 0 <= i < |config| => RequestOf(config[i]))
  }

  /** A configured region with the host view bound to its first byte. */
  datatype Bound = Bound(base: Address, size: nat, host: Loc)

  datatype Memory = Memory(layout: Layout, regions: seq<Bound>)

  function BindFrom(maps: seq<RegionMap>, config: seq<Region>): Option<seq<Bound>>
    decreases |config|
  {
    if config == [] then Some([])
    else
      var host := HostPointer(maps, config[0].base);
      if config[0].size != 0 && host.None? then None
      else
        match BindFrom(maps, config[1..])
        case None => None
        case Some(rest) =>
          Some([Bound(config[0].base, config[0].size,
                      if config[0].size != 0 then host.value else Loc(0, 0))] + rest)
  }

  /** Memory::Init. */
  function Init(config: seq<Region>): Option<Memory> {
    match Build(Requests(config))
    case None => None
    case Some(layout) =>
      match BindFrom(layout.regions, config)
      case None => None
      case Some(regions) => Some(Memory(layout, regions))
  }

  function PointerIn(regions: seq<Bound>, a: Address, n: nat): Option<Loc>
    decreases |regions|
  {
    if regions == [] then None
    else
      var r := regions[0];
      if a >= r.base && a + n <= r.base + r.size then Some(Loc(r.host.section, r.host.offset + (a - r.base)))
      else PointerIn(regions[1..], a, n)
  }

  /** Memory::GetPointer. */
  function Pointer(m: Memory, a: Address, n: nat): Option<Loc> {
    if n == 0 || a + n > SPACE then None else PointerIn(m.regions, a, n)
  }

  // ---------------------------------------------------------------- pointers

  predicate Meet(r: Region, s: Region, a: int) {
    Covers(r.base, r.size, a) && Covers(s.base, s.size, a)
  }

  /** No two regions share an address. */
  ghost predicate Disjoint(config: seq<Region>) {
    forall i, j, a :: 0 <= i < |config| && 0 <= j < |config| && Meet(config[i], config[j], a) ==> config[i] == config[j]
  }

  lemma {:induction false} HostPointerFinds(maps: seq<RegionMap>, m: RegionMap, a: int)
    requires m in maps && Covers(m.base, m.size, a)
    requires forall x | x in maps && Covers(x.base, x.size, a) :: x == m
    ensures HostPointer(maps, a) == Some(Loc(m.section, m.offset + (a - m.base)))
    decreases |maps|
  {
    if maps[0] != m { HostPointerFinds(maps[1..], m, a); }
  }

  /** Every region map that covers an address is the map of the one region that does. */
  lemma OnlyMap(config: seq<Region>, l: Layout, i: nat, a: int, x: RegionMap)
    requires Realises(l, Requests(config)) && Disjoint(config)
    requires i < |config| && Covers(config[i].base, config[i].size, a)
    requires x in l.regions && Covers(x.base, x.size, a)
    ensures Placed(l, RequestOf(config[i]), x)
  {
    hide Classify, SectionsOk;
    var rs := Requests(config);
    assert Requested(l, rs, x);
    var z :| z in rs && z.size > 0 && Placed(l, z, x);
    var j :| 0 <= j < |rs| && rs[j] == z;
    assert Meet(config[i], config[j], a);
  }

  /** host_pointer of an address in a configured region. */
  lemma RegionHost(config: seq<Region>, l: Layout, i: nat, a: int)
    requires Realises(l, Requests(config)) && Disjoint(config)
    requires i < |config| && Covers(config[i].base, config[i].size, a)
    ensures var r := RequestOf(config[i]);
            && Fits(r)
            && var m := MapOf(l.sections, r);
               && m.section < |l.sections| && m.offset + m.size <= l.sections[m.section].size
               && l.sections[m.section].key == KeyOf(r)
               && HostPointer(l.regions, a) == Some(Loc(m.section, m.offset + (a - m.base)))
  {
    var rs := Requests(config);
    var r := rs[i];
    assert r in rs && r == RequestOf(config[i]) && r.size > 0;
    assert Fits(r) && MapOf(l.sections, r) in l.regions;
    var m := MapOf(l.sections, r);
    MapIs(l.sections, r);
    hide Classify, SectionsOk, Requests, Realises, Disjoint, MapOf, Fits, RequestOf;
    forall x | x in l.regions && Covers(x.base, x.size, a) ensures x == m {
      OnlyMap(config, l, i, a, x);
    }
    OnlyMap(config, l, i, a, m);
    HostPointerFinds(l.regions, m, a);
    MapSection(l, r, m);
  }

  lemma MapSection(l: Layout, r: Request, m: RegionMap)
    requires Placed(l, r, m)
    ensures l.sections[m.section].key == KeyOf(r)
  {
  }

  lemma {:induction false} BindIs(maps: seq<RegionMap>, config: seq<Region>, i: nat)
    requires BindFrom(maps, config).Some? && i < |config|
    ensures var bs := BindFrom(maps, config).value;
            && |bs| == |config|
            && bs[i].base == config[i].base && bs[i].size == config[i].size
            && (config[i].size != 0 ==> HostPointer(maps, config[i].base) == Some(bs[i].host))
    decreases |config|
  {
    if |config| > 1 { BindIs(maps, config[1..], if i == 0 then 0 else i - 1); }
  }

  lemma {:induction false} BindSucceeds(maps: seq<RegionMap>, config: seq<Region>)
    requires forall i :: 0 <= i < |config| && config[i].size != 0 ==> HostPointer(maps, config[i].base).Some?
    ensures BindFrom(maps, config).Some?
    decreases |config|
  {
    if config != [] { BindSucceeds(maps, config[1..]); }
  }

  lemma {:induction false} PointerInPicks(regions: seq<Bound>, a: Address, n: nat) returns (k: nat)
    requires PointerIn(regions, a, n).Some?
    ensures k < |regions| && regions[k].base <= a && a + n <= regions[k].base + regions[k].size
    ensures PointerIn(regions, a, n)
            == Some(Loc(regions[k].host.section, regions[k].host.offset + (a - regions[k].base)))
    decreases |regions|
  {
    if a >= regions[0].base && a + n <= regions[0].base + regions[0].size {
      k := 0;
    } else {
      var j := PointerInPicks(regions[1..], a, n);
      k := j + 1;
    }
  }

  predicate Inside(r: Region, a: int, n: int) {
    r.base <= a && a + n <= r.base + r.size
  }

  lemma {:induction false} PointerInFinds(regions: seq<Bound>, a: Address, n: nat, k: nat)
    requires k < |regions| && Inside(Region(regions[k].base, regions[k].size), a, n)
    ensures PointerIn(regions, a, n).Some?
    decreases |regions|
  {
    if k > 0 { PointerInFinds(regions[1..], a, n, k - 1); }
  }

  lemma RegionsBound(config: seq<Region>, m: Memory)
    requires Init(config) == Some(m)
    ensures |m.regions| == |config|
    ensures forall k :: 0 <= k < |config| ==> m.regions[k].base == config[k].base && m.regions[k].size == config[k].size
  {
    hide Build, Requests;
    if config != [] { BindIs(m.layout.regions, config, 0); }
    forall k | 0 <= k < |config|
      ensures m.regions[k].base == config[k].base && m.regions[k].size == config[k].size
    {
      BindIs(m.layout.regions, config, k);
    }
  }

  lemma RegionFits(config: seq<Region>, k: nat)
    requires Init(config).Some? && k < |config| && config[k].size > 0
    ensures config[k].base + config[k].size <= SPACE
  {
    hide Init;
    InitExact(config);
  }

  /** Exactly the non-empty accesses that lie inside one configured region are accepted. */
  lemma PointerAccepts(config: seq<Region>, m: Memory, a: Address, n: nat)
    requires Init(config) == Some(m)
    ensures Pointer(m, a, n).Some? <==> n > 0 && exists k :: 0 <= k < |config| && Inside(config[k], a, n)
  {
    RegionsBound(config, m);
    hide Init;
    if n > 0 && exists k :: 0 <= k < |config| && Inside(config[k], a, n) {
      var k :| 0 <= k < |config| && Inside(config[k], a, n);
      RegionFits(config, k);
      PointerInFinds(m.regions, a, n, k);
    }
    if Pointer(m, a, n).Some? {
      var k := PointerInPicks(m.regions, a, n);
      assert Inside(config[k], a, n);
    }
  }

  /** Where an accepted access of region k lies. */
  lemma PointerIs(config: seq<Region>, m: Memory, a: Address, n: nat) returns (k: nat)
    requires Init(config) == Some(m) && Disjoint(config) && Pointer(m, a, n).Some?
    ensures k < |config| && config[k].base <= a && a + n <= config[k].base + config[k].size
    ensures Realises(m.layout, Requests(config)) && Fits(RequestOf(config[k]))
    ensures var t := MapOf(m.layout.sections, RequestOf(config[k]));
            && t.section < |m.layout.sections| && t.offset + t.size <= m.layout.sections[t.section].size
            && m.layout.sections[t.section].key == KeyOf(RequestOf(config[k]))
            && Pointer(m, a, n) == Some(Loc(t.section, t.offset + (a - t.base)))
  {
    BuildIsExact(Requests(config));
    k := PointerInPicks(m.regions, a, n);
    hide Realises, Disjoint, Requests, Classify, Build;
    if config != [] { BindIs(m.layout.regions, config, 0); }
    BindIs(m.layout.regions, config, k);
    RegionHost(config, m.layout, k, config[k].base);
  }

  /** Every access GetPointer accepts lies inside its section's allocation and agrees
      byte for byte with host_pointer. */
  lemma PointerAgrees(config: seq<Region>, m: Memory, a: Address, n: nat, i: nat)
    requires Init(config) == Some(m) && Disjoint(config) && Pointer(m, a, n).Some? && i < n
    ensures var p := Pointer(m, a, n).value;
            && p.section < |m.layout.sections| && p.offset + n <= m.layout.sections[p.section].size
            && HostPointer(m.layout.regions, a + i) == Some(Loc(p.section, p.offset + i))
  {
    hide Init, Realises, Pointer, Fits, MapOf, Disjoint;
    var k := PointerIs(config, m, a, n);
    RegionHost(config, m.layout, k, a + i);
    MapIs(m.layout.sections, RequestOf(config[k]));
  }

  lemma MapIs(sections: seq<Section>, r: Request)
    requires Fits(r)
    ensures MapOf(sections, r).base == r.base && MapOf(sections, r).size == r.size
  {
  }

  // ---------------------------------------------------------------- aliases

  /** MEM1 and MEM2 regions stay inside a 512 MiB window. */
  ghost predicate Windowed(config: seq<Region>) {
    forall k :: 0 <= k < |config| && config[k].size > 0 && RequestOf(config[k]).backing != Owned ==>
      WithinWindow(RequestOf(config[k]))
  }

  /** Any MEM1 or MEM2 access resolves to its folded physical offset. */
  lemma PointerFolds(config: seq<Region>, m: Memory, a: Address, n: nat) returns (k: nat)
    requires Init(config) == Some(m) && Disjoint(config) && Windowed(config) && Pointer(m, a, n).Some?
    ensures k < |config| && config[k].base <= a && a + n <= config[k].base + config[k].size
    ensures var b, p := Classify(config[k].base), Pointer(m, a, n).value;
            && p.section < |m.layout.sections|
            && m.layout.sections[p.section].key == KeyOf(RequestOf(config[k]))
            && (b != Owned ==> p.section == SectionIndex(m.layout.sections, Key(b, 0)) && p.offset == Fold(b, a))
  {
    assert n > 0;
    hide Init, Realises, Pointer, Disjoint, Classify;
    k := PointerIs(config, m, a, n);
    var r := RequestOf(config[k]);
    hide SectionIndex, Fits, BackingOffset, Fold, WithinWindow;
    if r.backing != Owned {
      MapFolds(m.layout.sections, r, a);
    }
  }

  lemma MapFolds(sections: seq<Section>, r: Request, a: int)
    requires r.backing != Owned && Fits(r) && WithinWindow(r) && Covers(r.base, r.size, a)
    ensures var t := MapOf(sections, r);
            t.section == SectionIndex(sections, Key(r.backing, 0)) && t.offset + (a - t.base) == Fold(r.backing, a)
  {
    FoldsIff(r);
    assert BackingOffset(r).value + (a - r.base) == Fold(r.backing, a);
  }

  /** Two MEM1 or MEM2 addresses are the same byte of memory exactly when they belong
      to the same backing and fold to the same physical offset. */
  lemma AliasIff(config: seq<Region>, m: Memory, a: Address, b: Address, j: nat, k: nat)
    requires Init(config) == Some(m) && Disjoint(config) && Windowed(config)
    requires Pointer(m, a, 1).Some? && Pointer(m, b, 1).Some?
    requires j < |config| && Covers(config[j].base, config[j].size, a) && Classify(config[j].base) != Owned
    requires k < |config| && Covers(config[k].base, config[k].size, b) && Classify(config[k].base) != Owned
    ensures Pointer(m, a, 1) == Pointer(m, b, 1)
            <==> Classify(config[j].base) == Classify(config[k].base) && a % WINDOW == b % WINDOW
  {
    hide Init, Realises, Pointer, Classify, Windowed, SectionIndex, Fits;
    var j' := PointerFolds(config, m, a, 1);
    var k' := PointerFolds(config, m, b, 1);
    assert Meet(config[j], config[j'], a) && Meet(config[k], config[k'], b);
  }

  /** Which allocation a region starting at this address shares: 24 MiB of MEM1 or 128 MiB of
      MEM2 in three windows each, and else its own. */
  lemma ClassifyIs(base: Address)
    ensures Classify(base) == Mem1 <==>
              || base < 0x0180_0000 || 0x8000_0000 <= base < 0x8180_0000 || 0xC000_0000 <= base < 0xC180_0000
    ensures Classify(base) == Mem2 <==>
              || 0x1000_0000 <= base < 0x1800_0000 || 0x9000_0000 <= base < 0x9800_0000
              || 0xD000_0000 <= base < 0xD800_0000
  {
  }

  /** An address of a region with an allocation of its own shares its byte with no other
      address. */
  lemma OwnedAlone(config: seq<Region>, m: Memory, a: Address, b: Address, j: nat)
    requires Init(config) == Some(m) && Disjoint(config)
    requires Pointer(m, a, 1).Some? && Pointer(m, b, 1).Some?
    requires j < |config| && Covers(config[j].base, config[j].size, a) && Classify(config[j].base) == Owned
    ensures Pointer(m, a, 1) == Pointer(m, b, 1) <==> a == b
  {
    hide Init, Realises, Pointer, Classify;
    var i := PointerIs(config, m, a, 1);
    var k := PointerIs(config, m, b, 1);
    assert Meet(config[i], config[j], a);
    var r, t := RequestOf(config[i]), RequestOf(config[k]);
    MapIs(m.layout.sections, r);
    MapIs(m.layout.sections, t);
    hide Fits, SectionIndex;
    if KeyOf(r) == KeyOf(t) {
      assert config[i].base == config[k].base;
      hide MapOf;
      SameBase(config, i, k);
    }
  }

  lemma SameBase(config: seq<Region>, i: nat, k: nat)
    requires Disjoint(config) && i < |config| && k < |config|
    requires config[i].base == config[k].base && config[i].size > 0 && config[k].size > 0
    ensures config[i] == config[k]
  {
    assert Meet(config[i], config[k], config[i].base);
  }

  /** Config::WiiDefaults: three windows onto MEM1, three onto MEM2, the locked cache. */
  function WiiDefaults(): seq<Region> {
    [Region(0, MEM1_SIZE), Region(0x8000_0000, MEM1_SIZE), Region(0xC000_0000, MEM1_SIZE),
     Region(0x1000_0000, MEM2_SIZE), Region(0x9000_0000, MEM2_SIZE), Region(0xD000_0000, MEM2_SIZE),
     Region(0xE000_0000, 0x0010_1000)]
  }

  lemma {:induction false} HostPointerCovers(maps: seq<RegionMap>, m: RegionMap, a: int)
    requires m in maps && Covers(m.base, m.size, a)
    ensures HostPointer(maps, a).Some?
    decreases |maps|
  {
    if maps[0] != m { HostPointerCovers(maps[1..], m, a); }
  }

  /** A region's own map covers its base, whatever other regions cover it too. */
  lemma BaseCovered(config: seq<Region>, l: Layout, k: nat)
    requires Realises(l, Requests(config)) && k < |config| && config[k].size != 0
    ensures HostPointer(l.regions, config[k].base).Some?
  {
    var r := Requests(config)[k];
    assert r in Requests(config) && Fits(r) && MapOf(l.sections, r) in l.regions;
    MapIs(l.sections, r);
    hide Classify, SectionsOk, Requests, Realises, MapOf, Fits;
    HostPointerCovers(l.regions, MapOf(l.sections, r), r.base);
  }

  lemma InitExact(config: seq<Region>)
    ensures Init(config).Some? <==>
            && |config| <= MAX_REGIONS
            && forall k :: 0 <= k < |config| ==> config[k].size == 0 || Fits(RequestOf(config[k]))
  {
    var rs := Requests(config);
    BuildIsExact(rs);
    assert forall k :: 0 <= k < |config| ==> rs[k] in rs;
    if Build(rs).Some? {
      var l := Build(rs).value;
      forall k | 0 <= k < |config| && config[k].size != 0 ensures HostPointer(l.regions, config[k].base).Some? {
        BaseCovered(config, l, k);
      }
      BindSucceeds(l.regions, config);
    }
  }

  lemma WiiDefaultsDisjoint()
    ensures Disjoint(WiiDefaults())
  {
    var c := WiiDefaults();
    forall i, j, a | 0 <= i < 7 && 0 <= j < 7 && Meet(c[i], c[j], a) ensures i == j {
      assert c[i].base <= a < c[i].base + c[i].size && c[j].base <= a < c[j].base + c[j].size;
    }
  }

  lemma WiiDefaultsClassified(k: nat)
    requires k < 7
    ensures var r := RequestOf(WiiDefaults()[k]);
            r.backing == (if k < 3 then Mem1 else if k < 6 then Mem2 else Owned)
            && Fits(r) && (k < 6 ==> WithinWindow(r))
  {
  }

  lemma WiiDefaultsReady()
    ensures Init(WiiDefaults()).Some? && Disjoint(WiiDefaults()) && Windowed(WiiDefaults())
  {
    hide Init, Disjoint, Fits, WithinWindow, RequestOf;
    WiiDefaultsDisjoint();
    InitExact(WiiDefaults());
    forall k | 0 <= k < |WiiDefaults()|
      ensures Fits(RequestOf(WiiDefaults()[k]))
      ensures RequestOf(WiiDefaults()[k]).backing != Owned ==> WithinWindow(RequestOf(WiiDefaults()[k]))
    {
      WiiDefaultsClassified(k);
    }
  }

  /** An address of one of the six RAM windows of the console's map. */
  predicate IsRam(a: int) {
    || 0 <= a < MEM1_SIZE || 0x8000_0000 <= a < 0x8000_0000 + MEM1_SIZE || 0xC000_0000 <= a < 0xC000_0000 + MEM1_SIZE
    || 0x1000_0000 <= a < 0x1000_0000 + MEM2_SIZE || 0x9000_0000 <= a < 0x9000_0000 + MEM2_SIZE
    || 0xD000_0000 <= a < 0xD000_0000 + MEM2_SIZE
  }

  lemma RamRegion(a: int)
    requires 0 <= a < 0xE000_0000
    ensures (exists k :: 0 <= k < |WiiDefaults()| && Inside(WiiDefaults()[k], a, 1)) <==> IsRam(a)
  {
    var c := WiiDefaults();
    if IsRam(a) {
      assert Inside(c[0], a, 1) || Inside(c[1], a, 1) || Inside(c[2], a, 1)
             || Inside(c[3], a, 1) || Inside(c[4], a, 1) || Inside(c[5], a, 1);
    }
  }

  /** On the console's own map a byte below the locked cache is accepted exactly in the six
      RAM windows, and two of them alias exactly when their low 29 bits agree. */
  lemma WiiAliases(a: Address, b: Address)
    requires a < 0xE000_0000 && b < 0xE000_0000
    ensures Init(WiiDefaults()).Some?
    ensures var m := Init(WiiDefaults()).value;
            && (Pointer(m, a, 1).Some? <==> IsRam(a))
            && (IsRam(a) && IsRam(b) ==> (Pointer(m, a, 1) == Pointer(m, b, 1) <==> a % WINDOW == b % WINDOW))
  {
    hide Init, Disjoint, Windowed, Pointer, Classify, IsRam;
    WiiDefaultsReady();
    var m := Init(WiiDefaults()).value;
    RamRegion(a);
    RamRegion(b);
    PointerAccepts(WiiDefaults(), m, a, 1);
    PointerAccepts(WiiDefaults(), m, b, 1);
    if IsRam(a) && IsRam(b) {
      var j := PointerFolds(WiiDefaults(), m, a, 1);
      var k := PointerFolds(WiiDefaults(), m, b, 1);
      WiiBacking(j, a);
      WiiBacking(k, b);
      AliasIff(WiiDefaults(), m, a, b, j, k);
    }
  }

  /** On that map the folded address tells the backing. */
  lemma WiiBacking(k: nat, a: Address)
    requires k < 7 && Covers(WiiDefaults()[k].base, WiiDefaults()[k].size, a) && a < 0xE000_0000
    ensures k < 6
    ensures Classify(WiiDefaults()[k].base) == if a % WINDOW < MEM2_FOLD then Mem1 else Mem2
  {
  }
}

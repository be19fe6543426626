/** The guest-flat layer: memory regions requested by guest address are folded onto
    one heap allocation per physical backing. */
module GuestFlat {
  import opened Wrappers

  const SPACE := 0x1_0000_0000
  const WINDOW := 0x2000_0000       // base & 0x1FFFFFFF keeps the offset inside a window
  const MEM2_FOLD := 0x1000_0000
  const PAGE := 0x1000
  const MAX_REGIONS := 32
  const MAX_SECTIONS := 32

  datatype Backing = Owned | Mem1 | Mem2

  type Address = x: int | 0 <= x < SPACE

  datatype Request = Request(base: Address, size: nat, backing: Backing)

  /** What decides which allocation a request shares. */
  datatype Key = Key(backing: Backing, ownedBase: int)

  datatype Section = Section(key: Key, size: nat)

  datatype RegionMap = RegionMap(base: Address, size: nat, offset: nat, section: nat)

  datatype Layout = Layout(sections: seq<Section>, regions: seq<RegionMap>)

  function KeyOf(r: Request): Key {
    Key(r.backing, if r.backing == Owned then r.base else 0)
  }

  function BackingOffset(r: Request): Option<nat> {
    match r.backing
    case Owned => Some(0)
    case Mem1 => Some(r.base % WINDOW)
    case Mem2 => if r.base % WINDOW < MEM2_FOLD then None else Some(r.base % WINDOW - MEM2_FOLD)
  }

  function RoundUpPage(n: nat): (m: nat)
    ensures m % PAGE == 0 && n <= m < n + PAGE
  {
    (n + PAGE - 1) / PAGE * PAGE
  }

  /** The section with this key, or |sections|. */
  function SectionIndex(sections: seq<Section>, k: Key): (i: nat)
    ensures i <= |sections|
    ensures i < |sections| ==> sections[i].key == k
    ensures forall j :: 0 <= j < i ==> sections[j].key != k
  {
    if sections == [] || sections[0].key == k then 0 else 1 + SectionIndex(sections[1..], k)
  }

  /** One turn of initialize's request loop. */
  function AddRegion(l: Layout, r: Request): Option<Layout> {
    if r.size == 0 then Some(l)
    else if r.base + r.size > SPACE then None
    else
      var offset := BackingOffset(r);
      if offset.None? || offset.value + r.size > SPACE then None
      else
        var i := SectionIndex(l.sections, KeyOf(r));
        if i == |l.sections| && |l.sections| >= MAX_SECTIONS then None
        else
          var sections := if i == |l.sections| then l.sections + [Section(KeyOf(r), 0)] else l.sections;
          var needed := RoundUpPage(offset.value + r.size);
          if needed == 0 || needed > SPACE then None
          else if |l.regions| >= MAX_REGIONS then None
          else
            Some(Layout(if needed > sections[i].size then sections[i := sections[i].(size := needed)] else sections,
                        l.regions + [RegionMap(r.base, r.size, offset.value, i)]))
  }

  function BuildFrom(l: Layout, rs: seq<Request>): Option<Layout>
    decreases |rs|
  {
    if rs == [] then Some(l)
    else
      match AddRegion(l, rs[0])
      case None => None
      case Some(l1) => BuildFrom(l1, rs[1..])
  }

  /** initialize, with the address window and the heap granted. */
  function Build(rs: seq<Request>): Option<Layout> {
    if |rs| > MAX_REGIONS then None else BuildFrom(Layout([], []), rs)
  }

  /** A byte of a section's allocation. */
  datatype Loc = Loc(section: nat, offset: nat)

  predicate Covers(base: int, size: nat, a: int) {
    base <= a < base + size
  }

  /** host_pointer: the first region map that covers the address. */
  function HostPointer(regions: seq<RegionMap>, a: int): Option<Loc>
    decreases |regions|
  {
    if regions == [] then None
    else if Covers(regions[0].base, regions[0].size, a) then
      Some(Loc(regions[0].section, regions[0].offset + (a - regions[0].base)))
    else HostPointer(regions[1..], a)
  }

  // ---------------------------------------------------------------- the layout

  predicate Fits(r: Request) {
    r.base + r.size <= SPACE && (r.backing == Mem2 ==> r.base % WINDOW >= MEM2_FOLD)
  }

  function MapOf(sections: seq<Section>, r: Request): RegionMap
    requires Fits(r)
  {
    RegionMap(r.base, r.size, BackingOffset(r).value, SectionIndex(sections, KeyOf(r)))
  }

  /** m is the map of request r, and lies inside its section. */
  predicate Placed(l: Layout, r: Request, m: RegionMap) {
    && Fits(r) && m == MapOf(l.sections, r)
    && m.section < |l.sections| && m.offset + m.size <= l.sections[m.section].size
  }

  ghost predicate SectionsOk(sections: seq<Section>) {
    && (forall i, j :: 0 <= i < j < |sections| ==> sections[i].key != sections[j].key)
    && (forall i :: 0 <= i < |sections| ==> sections[i].size % PAGE == 0 && sections[i].size <= SPACE)
  }

  ghost predicate Requested(l: Layout, rs: seq<Request>, m: RegionMap) {
    exists r | r in rs && r.size > 0 :: Placed(l, r, m)
  }

  /** The layout realises exactly the requests of rs. */
  ghost predicate Realises(l: Layout, rs: seq<Request>) {
    && SectionsOk(l.sections) && |l.sections| <= |l.regions| <= |rs|
    && (forall r | r in rs && r.size > 0 :: Fits(r) && MapOf(l.sections, r) in l.regions)
    && (forall m | m in l.regions :: Requested(l, rs, m))
  }

  /** Adding a region keeps the keys of the sections, and only enlarges them. */
  lemma AddRegionSections(l: Layout, r: Request)
    requires r.size > 0 && AddRegion(l, r).Some?
    ensures var ss, i := AddRegion(l, r).value.sections, SectionIndex(l.sections, KeyOf(r));
            && |l.sections| <= |ss| <= |l.sections| + 1 && i < |ss| && ss[i].key == KeyOf(r)
            && (forall j :: 0 <= j < |l.sections| ==>
                  ss[j].key == l.sections[j].key && ss[j].size >= l.sections[j].size)
            && (forall k: Key :: k != KeyOf(r) && SectionIndex(l.sections, k) < |l.sections| ==>
                  SectionIndex(ss, k) == SectionIndex(l.sections, k))
            && SectionIndex(ss, KeyOf(r)) == i
            && BackingOffset(r).value + r.size <= ss[i].size
            && (SectionsOk(l.sections) ==> SectionsOk(ss))
  {
  }

  lemma StillPlaced(l: Layout, r: Request, x: Request, m: RegionMap)
    requires r.size > 0 && AddRegion(l, r).Some? && Placed(l, x, m)
    ensures Placed(AddRegion(l, r).value, x, m)
  {
    AddRegionSections(l, r);
    hide AddRegion;
  }

  lemma NewlyPlaced(l: Layout, r: Request)
    requires r.size > 0 && AddRegion(l, r).Some?
    ensures var l' := AddRegion(l, r).value;
            && Fits(r) && Placed(l', r, MapOf(l'.sections, r))
            && l'.regions == l.regions + [MapOf(l'.sections, r)]
  {
    AddRegionSections(l, r);
  }

  lemma AddRegionRealises(l: Layout, rs: seq<Request>, r: Request)
    requires Realises(l, rs) && AddRegion(l, r).Some?
    ensures Realises(AddRegion(l, r).value, rs + [r])
  {
    if r.size == 0 {
      SkipRealises(l, rs, r);
    } else {
      var l', rs' := AddRegion(l, r).value, rs + [r];
      AddRegionSections(l, r);
      NewlyPlaced(l, r);
      hide AddRegion, Placed, Fits, MapOf, SectionsOk, Requested;
      forall m | m in l'.regions ensures Requested(l', rs', m) {
        RequestedAfter(l, rs, r, m);
      }
      forall x | x in rs' && x.size > 0 ensures Fits(x) && MapOf(l'.sections, x) in l'.regions {
        if x in rs {
          RequestStillMapped(l, rs, r, x);
        }
      }
    }
  }

  lemma RequestedAfter(l: Layout, rs: seq<Request>, r: Request, m: RegionMap)
    requires r.size > 0 && AddRegion(l, r).Some? && m in AddRegion(l, r).value.regions
    requires m in l.regions ==> Requested(l, rs, m)
    ensures Requested(AddRegion(l, r).value, rs + [r], m)
  {
    NewlyPlaced(l, r);
    hide AddRegion, Placed, MapOf, Fits;
    if m in l.regions {
      var x :| x in rs && x.size > 0 && Placed(l, x, m);
      StillPlaced(l, r, x, m);
      assert x in rs + [r];
    } else {
      assert r in rs + [r];
    }
  }

  lemma RequestStillMapped(l: Layout, rs: seq<Request>, r: Request, x: Request)
    requires Realises(l, rs) && r.size > 0 && AddRegion(l, r).Some? && x in rs && x.size > 0
    ensures Fits(x) && MapOf(AddRegion(l, r).value.sections, x) in AddRegion(l, r).value.regions
  {
    var m := MapOf(l.sections, x);
    var y :| y in rs && y.size > 0 && Placed(l, y, m);
    AddRegionSections(l, r);
    NewlyPlaced(l, r);
    hide AddRegion, SectionsOk;
    assert MapOf(AddRegion(l, r).value.sections, x) == m;
  }

  lemma StillRequested(l: Layout, rs: seq<Request>, r: Request, m: RegionMap)
    requires Requested(l, rs, m)
    ensures Requested(l, rs + [r], m)
  {
    hide Placed;
    var x :| x in rs && x.size > 0 && Placed(l, x, m);
    assert x in rs + [r];
  }

  lemma SkipRealises(l: Layout, rs: seq<Request>, r: Request)
    requires Realises(l, rs) && r.size == 0
    ensures Realises(l, rs + [r])
  {
    hide Requested, Placed, Fits, MapOf, SectionsOk;
    forall m | m in l.regions ensures Requested(l, rs + [r], m) {
      StillRequested(l, rs, r, m);
    }
  }

  lemma {:induction false} BuildRealises(l: Layout, done: seq<Request>, rs: seq<Request>)
    requires Realises(l, done) && |done| + |rs| <= MAX_REGIONS
    ensures BuildFrom(l, rs).Some? <==> forall r | r in rs :: r.size == 0 || Fits(r)
    ensures BuildFrom(l, rs).Some? ==> Realises(BuildFrom(l, rs).value, done + rs)
    decreases |rs|
  {
    if rs == [] {
      assert done + rs == done;
    } else {
      AddRegionFits(l, rs[0]);
      assert rs == [rs[0]] + rs[1..];
      if AddRegion(l, rs[0]).Some? {
        AddRegionRealises(l, done, rs[0]);
        assert done + [rs[0]] + rs[1..] == done + rs;
        hide Realises, Fits, AddRegion;
        BuildRealises(AddRegion(l, rs[0]).value, done + [rs[0]], rs[1..]);
      }
    }
  }

  lemma AddRegionFits(l: Layout, r: Request)
    requires |l.sections| <= |l.regions| < MAX_REGIONS
    ensures AddRegion(l, r).Some? <==> r.size == 0 || Fits(r)
  {
  }

  /** initialize succeeds exactly on at most 32 requests that stay inside the guest
      space and, for MEM2, start in the upper half of a window; the section limit is
      never what stops it. The layout then realises the requests. */
  lemma BuildIsExact(rs: seq<Request>)
    ensures Build(rs).Some? <==> |rs| <= MAX_REGIONS && forall r | r in rs :: r.size == 0 || Fits(r)
    ensures Build(rs).Some? ==> Realises(Build(rs).value, rs)
  {
    if |rs| <= MAX_REGIONS {
      assert [] + rs == rs;
      BuildRealises(Layout([], []), [], rs);
    }
  }

  // ---------------------------------------------------------------- folding

  /** The physical offset an address of a backing stands for. */
  function Fold(b: Backing, a: int): int {
    if b == Mem2 then a % WINDOW - MEM2_FOLD else a % WINDOW
  }

  predicate WithinWindow(r: Request) {
    r.base % WINDOW + r.size <= WINDOW
  }

  /** All of a MEM1 or MEM2 region is found at its folded physical offset exactly when
      the region does not run over a 512 MiB boundary of the guest space. */
  lemma FoldsIff(r: Request)
    requires r.backing != Owned && r.size > 0 && Fits(r)
    ensures (forall a :: Covers(r.base, r.size, a) ==> BackingOffset(r).value + (a - r.base) == Fold(r.backing, a))
            <==> WithinWindow(r)
  {
    if !WithinWindow(r) {
      var a := r.base - r.base % WINDOW + WINDOW;
      assert Covers(r.base, r.size, a) && a % WINDOW == 0;
    }
  }
}

/** The memory layer as it runs: section and region tables filled by loops, and byte
    buffers read and written through checked pointers. */
module GuestRam {
  import opened Wrappers
  import opened GuestFlat
  import opened GuestMemory
  import opened BigEndian

  // ---------------------------------------------------------------- accesses as values

  /** The bytes of every section's allocation. */
  type Contents = seq<seq<Byte>>

  predicate InBytes(c: Contents, p: Loc, n: nat) {
    p.section < |c| && p.offset + n <= |c[p.section]|
  }

  function BytesAt(c: Contents, p: Loc, n: nat): (bs: seq<Byte>)
    requires InBytes(c, p, n)
    ensures |bs| == n
  {
    c[p.section][p.offset..p.offset + n]
  }

  function WithBytes(c: Contents, p: Loc, bs: seq<Byte>): Contents
    requires InBytes(c, p, |bs|)
  {
    c[p.section := c[p.section][..p.offset] + bs + c[p.section][p.offset + |bs|..]]
  }

  /** Buffers of the sizes the layout asks for. */
  ghost predicate Sized(m: Memory, c: Contents) {
    |c| == |m.layout.sections| && forall i :: 0 <= i < |c| ==> |c[i]| == m.layout.sections[i].size
  }

  lemma PointerInBytes(config: seq<Region>, m: Memory, c: Contents, a: Address, n: nat)
    requires Init(config) == Some(m) && Disjoint(config) && Sized(m, c) && Pointer(m, a, n).Some?
    ensures InBytes(c, Pointer(m, a, n).value, n)
  {
    hide Init, Disjoint, Pointer;
    NonZeroAccess(m, a, n);
    PointerAgrees(config, m, a, n, 0);
  }

  lemma NonZeroAccess(m: Memory, a: Address, n: nat)
    requires Pointer(m, a, n).Some?
    ensures n > 0
  {
  }

  /** Byte i of an access at q, after bs was written at p. */
  function Overlaid(c: Contents, p: Loc, bs: seq<Byte>, q: Loc, i: nat): Byte
    requires InBytes(c, q, i + 1)
  {
    if p.section == q.section && p.offset <= q.offset + i < p.offset + |bs|
    then bs[q.offset + i - p.offset]
    else c[q.section][q.offset + i]
  }

  /** What a write of n bytes through one address means for a read of k bytes through
      another: each byte is the written big-endian one where the accesses overlap and
      the old one elsewhere; reading the written bytes back gives the value. */
  lemma ReadAfterWrite(config: seq<Region>, m: Memory, c: Contents, a: Address, b: Address, n: nat, k: nat, v: nat)
    requires Init(config) == Some(m) && Disjoint(config) && Sized(m, c) && v < Pow256(n)
    requires Pointer(m, a, n).Some? && Pointer(m, b, k).Some?
    ensures var p, q := Pointer(m, a, n).value, Pointer(m, b, k).value;
            && InBytes(c, p, n) && InBytes(c, q, k)
            && var c' := WithBytes(c, p, Big(v, n));
               && InBytes(c', q, k) && Sized(m, c')
               && (forall i :: 0 <= i < k ==> BytesAt(c', q, k)[i] == Overlaid(c, p, Big(v, n), q, i))
               && (p == q && n == k ==> FromBig(BytesAt(c', q, k)) == v)
               && (p.section != q.section || p.offset + n <= q.offset || q.offset + k <= p.offset ==>
                     FromBig(BytesAt(c', q, k)) == FromBig(BytesAt(c, q, k)))
  {
    PointerInBytes(config, m, c, a, n);
    PointerInBytes(config, m, c, b, k);
    var p, q := Pointer(m, a, n).value, Pointer(m, b, k).value;
    hide Init, Disjoint, Pointer;
    BigRoundTrip(v, n);
    hide Big, FromBig;
    WrittenBytes(c, p, q, Big(v, n), k);
  }

  lemma WrittenBytes(c: Contents, p: Loc, q: Loc, bs: seq<Byte>, k: nat)
    requires InBytes(c, p, |bs|) && InBytes(c, q, k)
    ensures var n, c' := |bs|, WithBytes(c, p, bs);
            && |c'| == |c| && (forall i :: 0 <= i < |c| ==> |c'[i]| == |c[i]|)
            && InBytes(c', q, k)
            && (forall i :: 0 <= i < k ==> BytesAt(c', q, k)[i] == Overlaid(c, p, bs, q, i))
            && (p == q && n == k ==> BytesAt(c', q, k) == bs)
            && (p.section != q.section || p.offset + n <= q.offset || q.offset + k <= p.offset ==>
                  BytesAt(c', q, k) == BytesAt(c, q, k))
  {
    var c' := WithBytes(c, p, bs);
    forall i | 0 <= i < k ensures BytesAt(c', q, k)[i] == Overlaid(c, p, bs, q, i) {
      assert BytesAt(c', q, k)[i] == c'[q.section][q.offset + i];
    }
    assert p == q && |bs| == k ==> BytesAt(c', q, k) == bs;
  }

  /** Refinement of one flat physical memory: in windowed regions an access of any width
      through any alias is the big-endian access at the folded physical offset. */
  lemma AccessIsPhysical(config: seq<Region>, m: Memory, c: Contents, a: Address, n: nat, k: nat)
    requires Init(config) == Some(m) && Disjoint(config) && Windowed(config) && Sized(m, c)
    requires Pointer(m, a, n).Some?
    requires k < |config| && Covers(config[k].base, config[k].size, a) && Classify(config[k].base) != Owned
    ensures var b := Classify(config[k].base);
            var s := SectionIndex(m.layout.sections, Key(b, 0));
            && 0 <= Fold(b, a) && InBytes(c, Loc(s, Fold(b, a)), n)
            && Pointer(m, a, n) == Some(Loc(s, Fold(b, a)))
  {
    PointerInBytes(config, m, c, a, n);
    NonZeroAccess(m, a, n);
    hide Init, Pointer, Classify, Windowed, SectionIndex;
    var j := PointerFolds(config, m, a, n);
    assert Meet(config[j], config[k], a);
  }

  // ---------------------------------------------------------------- the tables and buffers

  /** The rest of a binding run, put behind what is bound already. */
  function Onto(done: seq<Bound>, rest: Option<seq<Bound>>): Option<seq<Bound>> {
    if rest.None? then None else Some(done + rest.value)
  }

  lemma OntoNext(maps: seq<RegionMap>, config: seq<Region>, done: seq<Bound>, host: Loc)
    requires config != []
    requires if config[0].size != 0 then HostPointer(maps, config[0].base) == Some(host) else host == Loc(0, 0)
    ensures Onto(done, BindFrom(maps, config))
            == Onto(done + [Bound(config[0].base, config[0].size, host)], BindFrom(maps, config[1..]))
  {
    var b, rest := Bound(config[0].base, config[0].size, host), BindFrom(maps, config[1..]);
    if rest.Some? { assert done + ([b] + rest.value) == done + [b] + rest.value; }
  }

  lemma OntoNothing(rest: Option<seq<Bound>>)
    ensures Onto([], rest) == rest
  {
    if rest.Some? { assert [] + rest.value == rest.value; }
  }

  class Ram {
    var sections: seq<Section>
    var maps: seq<RegionMap>
    var bound: seq<Bound>
    var views: seq<array<Byte>>

    ghost function Layout(): Layout
      reads this
    {
      GuestFlat.Layout(sections, maps)
    }

    ghost function Memory(): Memory
      reads this
    {
      GuestMemory.Memory(Layout(), bound)
    }

    ghost function Bytes(): Contents
      reads this, views
    {
      seq(|views|, i requires 0 <= i < |views| reads this, views => views[i][..])
    }

    ghost predicate Separate()
      reads this
    {
      forall i, j :: 0 <= i < j < |views| ==> views[i] != views[j]
    }

    constructor ()
      ensures Layout() == GuestFlat.Layout([], []) && bound == [] && views == []
    {
      sections, maps, bound, views := [], [], [], [];
    }

    /** find_or_create_section. |sections| afterwards tells whether it was created;
        ok is false when the table is full. */
    method FindOrCreateSection(r: Request) returns (index: nat, ok: bool)
      modifies this`sections
      ensures var i := SectionIndex(old(sections), KeyOf(r));
              && ok == !(i == |old(sections)| && |old(sections)| >= MAX_SECTIONS)
              && (ok ==> index == i)
              && sections == if ok && i == |old(sections)|
                             then old(sections) + [Section(KeyOf(r), 0)]
                             else old(sections)
    {
      index := 0;
      while index < |sections|
        invariant index <= |sections| && sections == old(sections)
        invariant forall j :: 0 <= j < index ==> sections[j].key != KeyOf(r)
      {
        if sections[index].key == KeyOf(r) {
          return index, true;
        }
        index := index + 1;
      }
      if |sections| >= MAX_SECTIONS {
        return 0, false;
      }
      sections := sections + [Section(KeyOf(r), 0)];
      ok := true;
    }

    /** One turn of initialize's request loop. */
    method AddRequest(r: Request) returns (ok: bool)
      modifies this`sections, this`maps
      ensures ok == AddRegion(old(Layout()), r).Some?
      ensures ok ==> Layout() == AddRegion(old(Layout()), r).value
    {
      if r.size == 0 {
        return true;
      }
      if r.base + r.size > SPACE {
        return false;
      }
      var offset := BackingOffset(r);
      if offset.None? || offset.value + r.size > SPACE {
        return false;
      }
      var index, found := FindOrCreateSection(r);
      if !found {
        return false;
      }
      var needed := RoundUpPage(offset.value + r.size);
      if needed == 0 || needed > SPACE {
        return false;
      }
      if needed > sections[index].size {
        sections := sections[index := sections[index].(size := needed)];
      }
      if |maps| >= MAX_REGIONS {
        return false;
      }
      maps := maps + [RegionMap(r.base, r.size, offset.value, index)];
      ok := true;
    }

    /** initialize. */
    method Initialize(rs: seq<Request>) returns (ok: bool)
      requires Layout() == GuestFlat.Layout([], [])
      modifies this`sections, this`maps
      ensures ok == Build(rs).Some?
      ensures ok ==> Layout() == Build(rs).value
    {
      if |rs| > MAX_REGIONS {
        return false;
      }
      var i := 0;
      while i < |rs|
        invariant i <= |rs| && BuildFrom(Layout(), rs[i..]) == Build(rs)
      {
        assert rs[i..][1..] == rs[i + 1..];
        ok := AddRequest(rs[i]);
        if !ok {
          return;
        }
        i := i + 1;
      }
      ok := true;
    }

    /** host_pointer. */
    method FindHost(a: Address) returns (p: Option<Loc>)
      ensures p == HostPointer(maps, a)
    {
      var i := 0;
      while i < |maps|
        invariant i <= |maps| && HostPointer(maps[i..], a) == HostPointer(maps, a)
      {
        assert maps[i..][1..] == maps[i + 1..];
        if Covers(maps[i].base, maps[i].size, a) {
          return Some(Loc(maps[i].section, maps[i].offset + (a - maps[i].base)));
        }
        i := i + 1;
      }
      p := None;
    }

    /** The calloc loop: one zeroed buffer per section. */
    method AllocateViews()
      requires views == []
      modifies this`views
      ensures |views| == |sections| && Separate() && fresh(views)
      ensures forall i :: 0 <= i < |views| ==> views[i][..] == seq(sections[i].size, _ => 0)
    {
      var i := 0;
      while i < |sections|
        invariant i <= |sections| && |views| == i && Separate() && fresh(views)
        invariant forall j :: 0 <= j < i ==> views[j][..] == seq(sections[j].size, _ => 0)
      {
        var view := new Byte[sections[i].size](_ => 0);
        assert view[..] == seq(sections[i].size, _ => 0);
        views := views + [view];
        i := i + 1;
      }
    }

    /** The binding loop of Memory::Init. */
    method Bind(config: seq<Region>) returns (ok: bool)
      requires bound == []
      modifies this`bound
      ensures ok == BindFrom(maps, config).Some?
      ensures ok ==> bound == BindFrom(maps, config).value
    {
      var i := 0;
      OntoNothing(BindFrom(maps, config));
      assert config[0..] == config;
      while i < |config|
        invariant i <= |config| && |bound| == i
        invariant Onto(bound, BindFrom(maps, config[i..])) == BindFrom(maps, config)
      {
        assert config[i..][1..] == config[i + 1..];
        var r := config[i];
        var host := Loc(0, 0);
        if r.size != 0 {
          var p := FindHost(r.base);
          if p.None? {
            return false;
          }
          host := p.value;
        }
        OntoNext(maps, config[i..], bound, host);
        bound := bound + [Bound(r.base, r.size, host)];
        i := i + 1;
      }
      assert config[i..] == [] && bound + [] == bound;
      ok := true;
    }

    /** Memory::Init on a reset memory; false stands for its fatal stop. */
    method InitMemory(config: seq<Region>) returns (ok: bool)
      requires Layout() == GuestFlat.Layout([], []) && bound == [] && views == []
      modifies this
      ensures ok == Init(config).Some?
      ensures ok ==> Memory() == Init(config).value && Separate() && fresh(views) && Sized(Memory(), Bytes())
      ensures ok ==> forall p, n :: InBytes(Bytes(), p, n) ==> forall b | b in BytesAt(Bytes(), p, n) :: b == 0
    {
      ok := Initialize(Requests(config));
      if !ok {
        return;
      }
      AllocateViews();
      ok := Bind(config);
      if ok {
        assert forall i :: 0 <= i < |views| ==> Bytes()[i] == views[i][..];
      }
    }

    /** GetPointer. */
    method GetPointer(a: Address, n: nat) returns (p: Option<Loc>)
      ensures p == Pointer(Memory(), a, n)
    {
      if n == 0 || a + n > SPACE {
        return None;
      }
      var i := 0;
      while i < |bound|
        invariant i <= |bound| && PointerIn(bound[i..], a, n) == PointerIn(bound, a, n)
      {
        assert bound[i..][1..] == bound[i + 1..];
        var r := bound[i];
        if a >= r.base && a + n <= r.base + r.size {
          return Some(Loc(r.host.section, r.host.offset + (a - r.base)));
        }
        i := i + 1;
      }
      p := None;
    }

    /** ReadN for n bytes: copy out, assemble, swap. None is the fatal invalid access. */
    method Read(a: Address, n: nat) returns (v: Option<nat>)
      requires Pointer(Memory(), a, n).Some? ==> InBytes(Bytes(), Pointer(Memory(), a, n).value, n)
      ensures v == match Pointer(Memory(), a, n)
                   case None => None
                   case Some(p) => Some(FromBig(BytesAt(Bytes(), p, n)))
    {
      var p := GetPointer(a, n);
      if p.None? {
        return None;
      }
      var view := views[p.value.section];
      assert Bytes()[p.value.section] == view[..];
      var lo := p.value.offset;
      var raw: nat, i := 0, n;
      while i > 0
        invariant 0 <= i <= n && raw == FromLittle(view[lo + i..lo + n])
      {
        i := i - 1;
        assert view[lo + i..lo + n][1..] == view[lo + i + 1..lo + n];
        raw := view[lo + i] + 256 * raw;
      }
      LoadedSwapped(view[lo..lo + n]);
      v := Some(Swap(raw, n));
    }

    /** WriteN for n bytes: swap, then copy in. */
    method Write(a: Address, n: nat, v: nat) returns (ok: bool)
      requires Separate()
      requires Pointer(Memory(), a, n).Some? ==> InBytes(Bytes(), Pointer(Memory(), a, n).value, n)
      modifies views
      ensures ok == Pointer(Memory(), a, n).Some?
      ensures Bytes() == if ok then WithBytes(old(Bytes()), Pointer(Memory(), a, n).value, Big(v, n)) else old(Bytes())
    {
      var p := GetPointer(a, n);
      if p.None? {
        return false;
      }
      var s, lo := p.value.section, p.value.offset;
      var view := views[s];
      assert Bytes()[s] == view[..];
      StoredSwapped(v, n);
      var raw := Swap(v, n);
      CopyIn(view, lo, n, raw);
      ghost var c := old(Bytes());
      forall j | 0 <= j < |views| ensures Bytes()[j] == WithBytes(c, p.value, Big(v, n))[j] {
        assert c[j] == old(views[j][..]);
        assert j != s ==> views[j] != view;
      }
      ok := true;
    }

    /** memcpy of a host integer of n bytes. */
    method CopyIn(view: array<Byte>, lo: nat, n: nat, value: nat)
      requires lo + n <= view.Length
      modifies view
      ensures view[..] == old(view[..lo]) + Little(value, n) + old(view[lo + n..])
    {
      var raw, i := value, 0;
      while i < n
        invariant i <= n
        invariant view[..lo] == old(view[..lo]) && view[lo + i..] == old(view[lo + i..])
        invariant view[lo..lo + i] + Little(raw, n - i) == Little(value, n)
      {
        ghost var done := view[lo..lo + i];
        view[lo + i] := raw % 256;
        assert view[lo..lo + i + 1] == done + [raw % 256];
        raw := raw / 256;
        i := i + 1;
      }
    }
  }
}

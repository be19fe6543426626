/** The video interface: configuration is pending until a flush arms it and a retrace
    commits it; retraces are paced by deadlines. */
module Vi {
  const PAL := 1
  const PAL_NS := 20_000_000
  const NTSC_NS := 16_666_000
  const COUNT_LIMIT := 0x1_0000_0000

  /** The fields of a GXRenderModeObj that VIConfigure reads. */
  datatype Mode = Mode(tvMode: nat, fbWidth: nat, efbHeight: nat, xfbHeight: nat, viWidth: nat, viHeight: nat)

  datatype Geometry = Geometry(format: nat, renderWidth: nat, renderHeight: nat, xfbWidth: nat, xfbHeight: nat)

  datatype State = State(
    initialized: bool,
    pending: Geometry,
    pendingBlack: bool,
    pendingFb: int,
    armed: bool,
    format: nat,            // active
    black: bool,
    fb: int,
    count: nat,
    fieldOdd: bool,
    last: int,              // the deadline of the latest retrace, in nanoseconds
    guest: Geometry,        // the guest-visible globals
    guestCount: nat,
    guestFb: int,
    guestFbHw: int)

  function Power(): State {
    var g := Geometry(0, 640, 480, 640, 480);
    State(false, g, false, 0, false, 0, false, 0, 0, false, 0, Geometry(0, 0, 0, 0, 0), 0, 0, 0)
  }

  function Interval(format: nat): int {
    if format == PAL then PAL_NS else NTSC_NS
  }

  function Decoded(m: Mode): Geometry {
    Geometry(m.tvMode / 4 % 8,
             if m.viWidth != 0 then m.viWidth else m.fbWidth,
             if m.viHeight != 0 then m.viHeight else m.xfbHeight,
             m.fbWidth,
             if m.xfbHeight != 0 then m.xfbHeight else m.efbHeight)
  }

  /** The format is bits 2 to 4 of the mode word; a zero width or height falls back to the
      frame buffer's. */
  lemma DecodedIs(m: Mode, high: nat, format: nat, low: nat)
    requires m.tvMode == 32 * high + 4 * format + low && format < 8 && low < 4
    ensures var g := Decoded(m);
            && g.format == format && g.xfbWidth == m.fbWidth
            && g.renderWidth == (if m.viWidth == 0 then m.fbWidth else m.viWidth)
            && g.renderHeight == (if m.viHeight == 0 then m.xfbHeight else m.viHeight)
            && g.xfbHeight == (if m.xfbHeight == 0 then m.efbHeight else m.xfbHeight)
  {
    assert m.tvMode / 4 == 8 * high + format;
  }

  // ---------------------------------------------------------------- the calls

  /** `ready`: guest memory is initialized. The first call that finds it so seeds the
      defaults and starts the clock. */
  function Init(s: State, ready: bool, now: int): State {
    if !ready || s.initialized then s
    else s.(initialized := true, guest := Geometry(0, 640, 480, 640, 480), guestCount := 0,
            guestFb := 0, guestFbHw := 0, format := 0, count := 0, fieldOdd := false, last := now)
  }

  function Configure(s: State, m: Mode, ready: bool, now: int): State {
    if !ready then s else Init(s, ready, now).(pending := Decoded(m))
  }

  function SetBlack(s: State, on: bool, ready: bool, now: int): State {
    Init(s, ready, now).(pendingBlack := on)
  }

  /** A zero pending framebuffer is recovered from the guest globals. */
  function Flush(s: State, ready: bool, now: int): State {
    var s1 := Init(s, ready, now);
    s1.(pendingFb := if ready && s1.pendingFb == 0 then (if s1.guestFb != 0 then s1.guestFb else s1.guestFbHw)
                     else s1.pendingFb,
        armed := true)
  }

  function Commit(s: State, ready: bool): State {
    s.(format := s.pending.format, black := s.pendingBlack, fb := s.pendingFb,
       guest := if ready then s.pending else s.guest, armed := false)
  }

  /** One retrace: an armed flush is committed, the count published. */
  function Advance(s: State, ready: bool): State {
    var target := s.last + Interval(s.format);
    var s1 := if s.armed then Commit(s, ready) else s;
    var n := (s1.count + 1) % COUNT_LIMIT;
    s1.(count := n, fieldOdd := !s1.fieldOdd, last := target,
        guestCount := if ready then n else s1.guestCount,
        guestFb := if ready then s1.pendingFb else s1.guestFb,
        guestFbHw := if ready then s1.pendingFb else s1.guestFbHw)
  }

  function Wait(s: State, ready: bool, now: int): State {
    Advance(Init(s, ready, now), ready)
  }

  datatype Call =
    | InitCall
    | ConfigureCall(mode: Mode)
    | BlackCall(on: bool)
    | FlushCall
    | WaitCall
    | GuestWrites(fb: int, fbHw: int)   // the game sets the SDK's framebuffer globals

  /** A call, with what it finds: is guest memory up, what does the clock say. */
  datatype Event = Event(call: Call, ready: bool, now: int)

  function Step(s: State, e: Event): State {
    match e.call
    case InitCall => Init(s, e.ready, e.now)
    case ConfigureCall(m) => Configure(s, m, e.ready, e.now)
    case BlackCall(on) => SetBlack(s, on, e.ready, e.now)
    case FlushCall => Flush(s, e.ready, e.now)
    case WaitCall => Wait(s, e.ready, e.now)
    case GuestWrites(fb, fbHw) => s.(guestFb := fb, guestFbHw := fbHw)
  }

  function Run(es: seq<Event>): State
    decreases |es|
  {
    if es == [] then Power() else Step(Run(Front(es)), Last(es))
  }

  // ---------------------------------------------------------------- what the trace says

  /** The call that seeds the defaults and starts the clock is the first of this kind. */
  predicate Begins(e: Event) {
    e.ready && !e.call.GuestWrites?
  }

  function Front(es: seq<Event>): seq<Event>
    requires es != []
  {
    es[..|es| - 1]
  }

  function Last(es: seq<Event>): Event
    requires es != []
  {
    es[|es| - 1]
  }

  predicate Started(es: seq<Event>)
    decreases |es|
  {
    es != [] && (Begins(Last(es)) || Started(Front(es)))
  }

  /** The clock at the call that started the interface. */
  function StartTime(es: seq<Event>): int
    decreases |es|
  {
    if es == [] then 0
    else if Started(Front(es)) then StartTime(Front(es))
    else if Begins(Last(es)) then Last(es).now
    else 0
  }

  function Waits(es: seq<Event>): nat
    decreases |es|
  {
    if es == [] then 0 else Waits(Front(es)) + if Last(es).call.WaitCall? then 1 else 0
  }

  /** Retraces that came before the start. */
  function EarlyWaits(es: seq<Event>): nat
    decreases |es|
  {
    if es == [] then 0
    else EarlyWaits(Front(es)) + if Last(es).call.WaitCall? && !Started(es) then 1 else 0
  }

  /** A flush was called since the last retrace. */
  predicate FlushedSince(es: seq<Event>)
    decreases |es|
  {
    es != [] && (Last(es).call.FlushCall? || (!Last(es).call.WaitCall? && FlushedSince(Front(es))))
  }

  /** How many calls came before the last retrace that found the flush armed; -1 for none. */
  function LastCommit(es: seq<Event>): (k: int)
    ensures -1 <= k < |es| || k == -1
    decreases |es|
  {
    if es == [] then -1
    else if Last(es).call.WaitCall? && FlushedSince(Front(es)) then |es| - 1
    else LastCommit(Front(es))
  }

  /** The geometry of the last VIConfigure that found guest memory up. */
  function LastGeometry(es: seq<Event>): Geometry
    decreases |es|
  {
    if es == [] then Geometry(0, 640, 480, 640, 480)
    else if Last(es).call.ConfigureCall? && Last(es).ready then Decoded(Last(es).call.mode)
    else LastGeometry(Front(es))
  }

  predicate LastBlack(es: seq<Event>)
    decreases |es|
  {
    es != [] && if Last(es).call.BlackCall? then Last(es).call.on else LastBlack(Front(es))
  }

  datatype Pair = Pair(fb: int, fbHw: int)

  /** The call that starts the interface. */
  predicate Starts(es: seq<Event>) {
    es != [] && Begins(Last(es)) && !Started(Front(es))
  }

  /** A retrace that finds guest memory up. */
  predicate Publishes(e: Event) {
    e.call.WaitCall? && e.ready
  }

  /** What the guest's two framebuffer globals hold: the game's last writes, or what the
      last retrace published, cleared by the start. */
  function Globals(es: seq<Event>): Pair
    decreases |es|
  {
    if es == [] then Pair(0, 0)
    else if Last(es).call.GuestWrites? then Pair(Last(es).call.fb, Last(es).call.fbHw)
    else if Publishes(Last(es)) then Pair(Recovered(Front(es)), Recovered(Front(es)))
    else if Starts(es) then Pair(0, 0)
    else Globals(Front(es))
  }

  function Recovery(g: Pair): int {
    if g.fb != 0 then g.fb else g.fbHw
  }

  /** The framebuffer of the first VIFlush that found guest memory up, the interface
      started and a global that is not zero; 0 for none. */
  function Recovered(es: seq<Event>): int
    decreases |es|
  {
    if es == [] then 0
    else if Recovered(Front(es)) != 0 then Recovered(Front(es))
    else if Last(es).call.FlushCall? && Last(es).ready && Started(Front(es)) then Recovery(Globals(Front(es)))
    else 0
  }

  /** The geometry in the guest's globals: the default from the start on, then that of the
      last VIConfigure before the last retrace that committed with memory up. */
  function PublishedGeometry(es: seq<Event>): Geometry
    decreases |es|
  {
    if es == [] then Geometry(0, 0, 0, 0, 0)
    else if Publishes(Last(es)) && FlushedSince(Front(es)) then LastGeometry(Front(es))
    else if Starts(es) then Geometry(0, 640, 480, 640, 480)
    else PublishedGeometry(Front(es))
  }

  /** Retraces at the PAL format, which take 20 ms; all others take 16.666 ms. */
  function PalWaits(es: seq<Event>): nat
    decreases |es|
  {
    if es == [] then 0
    else PalWaits(Front(es)) + if Last(es).call.WaitCall? && ActiveFormat(Front(es)) == 1 then 1 else 0
  }

  function ActiveFormat(es: seq<Event>): nat {
    if LastCommit(es) == -1 then 0 else LastGeometry(es[..LastCommit(es)]).format
  }

  /** The intervals of the formats that were active at each retrace, added up. */
  function Elapsed(es: seq<Event>): int
    decreases |es|
  {
    if es == [] then 0
    else Elapsed(Front(es)) + if Last(es).call.WaitCall? then Interval(ActiveFormat(Front(es))) else 0
  }

  // ---------------------------------------------------------------- over every run

  lemma PendingStep(s: State, e: Event)
    ensures var s', c := Step(s, e), e.call;
            && s'.initialized == (s.initialized || Begins(e))
            && s'.armed == (c.FlushCall? || (!c.WaitCall? && s.armed))
            && s'.pending == (if c.ConfigureCall? && e.ready then Decoded(c.mode) else s.pending)
            && s'.pendingBlack == (if c.BlackCall? then c.on else s.pendingBlack)
  {
    match e.call
    case InitCall =>
    case ConfigureCall(m) =>
    case BlackCall(on) =>
    case FlushCall =>
    case WaitCall =>
    case GuestWrites(fb, fbHw) =>
  }

  lemma {:induction false} PendingTellsTrace(es: seq<Event>)
    ensures var s := Run(es);
            && s.initialized == Started(es) && s.armed == FlushedSince(es)
            && s.pending == LastGeometry(es) && s.pendingBlack == LastBlack(es)
    decreases |es|
  {
    if es != [] {
      PendingTellsTrace(Front(es));
      PendingStep(Run(Front(es)), Last(es));
      hide Step;
    }
  }

  lemma GuestStep(s: State, e: Event)
    ensures var s' := Step(s, e);
            var starts := !s.initialized && Begins(e);
            var g := if starts then Pair(0, 0) else Pair(s.guestFb, s.guestFbHw);
            && s'.pendingFb == (if e.call.FlushCall? && e.ready && s.pendingFb == 0 then Recovery(g) else s.pendingFb)
            && Pair(s'.guestFb, s'.guestFbHw) ==
               (if e.call.GuestWrites? then Pair(e.call.fb, e.call.fbHw)
                else if Publishes(e) then Pair(s.pendingFb, s.pendingFb)
                else g)
            && s'.guest ==
               (if Publishes(e) && s.armed then s.pending
                else if starts then Geometry(0, 640, 480, 640, 480)
                else s.guest)
            && s'.guestCount == (if Publishes(e) then s'.count else if starts then 0 else s.guestCount)
  {
    match e.call
    case InitCall =>
    case ConfigureCall(m) =>
    case BlackCall(on) =>
    case FlushCall =>
    case WaitCall =>
    case GuestWrites(fb, fbHw) =>
  }

  /** Over every run the pending framebuffer is the one recovered first, and the guest's
      globals hold the framebuffers and the geometry the calls say. */
  lemma {:induction false} FramebufferTellsTrace(es: seq<Event>)
    ensures var s := Run(es);
            && s.pendingFb == Recovered(es) && Pair(s.guestFb, s.guestFbHw) == Globals(es)
            && s.guest == PublishedGeometry(es)
    decreases |es|
  {
    if es != [] {
      FramebufferTellsTrace(Front(es));
      PendingTellsTrace(Front(es));
      GuestStep(Run(Front(es)), Last(es));
      hide Step, FlushedSince, LastGeometry, LastBlack;
    }
  }

  /** Before the start no VIConfigure was heard, so every retrace ran at format 0. */
  lemma {:induction false} BeforeStart(es: seq<Event>)
    requires !Started(es)
    ensures ActiveFormat(es) == 0
    ensures EarlyWaits(es) == Waits(es) && Elapsed(es) == Waits(es) * NTSC_NS
    decreases |es|
  {
    if es != [] {
      BeforeStart(Front(es));
      EarlyCommit(es);
    }
  }

  lemma {:induction false} EarlyCommit(es: seq<Event>)
    requires !Started(es)
    ensures ActiveFormat(es) == 0
    decreases |es|
  {
    if es != [] {
      EarlyCommit(Front(es));
      if LastCommit(es) == |es| - 1 {
        EarlyGeometry(Front(es));
        assert es[..LastCommit(es)] == Front(es);
      } else if LastCommit(es) != -1 {
        CommitPrefix(es);
      }
    }
  }

  lemma {:induction false} EarlyGeometry(es: seq<Event>)
    requires !Started(es)
    ensures LastGeometry(es).format == 0
    decreases |es|
  {
    if es != [] { EarlyGeometry(Front(es)); }
  }

  lemma CommitPrefix(es: seq<Event>)
    requires es != [] && LastCommit(Front(es)) != -1
    ensures Front(es)[..LastCommit(Front(es))] == es[..LastCommit(Front(es))]
  {
  }

  /** What one call does to the committed values. */
  lemma CommitStep(s: State, e: Event)
    ensures var s' := Step(s, e);
            if e.call.WaitCall? && s.armed
            then s'.format == s.pending.format && s'.black == s.pendingBlack && s'.fb == s.pendingFb
            else s'.format == (if !s.initialized && Begins(e) then 0 else s.format)
                 && s'.black == s.black && s'.fb == s.fb
  {
    match e.call
    case InitCall =>
    case ConfigureCall(m) =>
    case BlackCall(on) =>
    case FlushCall =>
    case WaitCall =>
    case GuestWrites(fb, fbHw) =>
  }

  /** Over every run the active format, blanking and framebuffer are the pending ones
      at the last retrace that found the flush armed. */
  lemma {:induction false} CommitTellsTrace(es: seq<Event>)
    ensures var s, k := Run(es), LastCommit(es);
            && s.format == ActiveFormat(es)
            && s.black == (k != -1 && LastBlack(es[..k]))
            && s.fb == (if k == -1 then 0 else Recovered(es[..k]))
    decreases |es|
  {
    if es != [] {
      var before := Front(es);
      CommitTellsTrace(before);
      PendingTellsTrace(before);
      FramebufferTellsTrace(before);
      CommitStep(Run(before), Last(es));
      if LastCommit(before) != -1 { CommitPrefix(es); }
      if !Started(before) { EarlyCommit(before); }
      assert es[..|es| - 1] == before;
      hide Step, Recovered, LastBlack, LastGeometry, FlushedSince;
    }
  }

  lemma CountStep(s: State, e: Event)
    ensures var s' := Step(s, e);
            var starts := !s.initialized && s'.initialized;
            var from, odd := if starts then 0 else s.count, !starts && s.fieldOdd;
            && s'.initialized == (s.initialized || Begins(e))
            && s'.count == (if e.call.WaitCall? then (from + 1) % COUNT_LIMIT else from)
            && s'.fieldOdd == (if e.call.WaitCall? then !odd else odd)
  {
    match e.call
    case InitCall =>
    case ConfigureCall(m) =>
    case BlackCall(on) =>
    case FlushCall =>
    case WaitCall =>
    case GuestWrites(fb, fbHw) =>
  }

  /** The waits the count still knows of: the start forgets the earlier ones. */
  function Counted(es: seq<Event>): int {
    Waits(es) - if Started(es) then EarlyWaits(es) else 0
  }

  lemma CountedNext(es: seq<Event>)
    requires es != []
    ensures var starts := !Started(Front(es)) && Started(es);
            Counted(es) == (if starts then 0 else Counted(Front(es))) + if Last(es).call.WaitCall? then 1 else 0
  {
    if !Started(Front(es)) {
      BeforeStart(Front(es));
    }
  }

  /** Over every run the retrace count is the number of waits since the start, or of all
      waits before it, modulo 2^32, and the field flag its parity. */
  lemma {:induction false} CountTellsTrace(es: seq<Event>)
    ensures Counted(es) >= 0
    ensures Run(es).count == Counted(es) % COUNT_LIMIT && Run(es).fieldOdd == (Counted(es) % 2 == 1)
    decreases |es|
  {
    if es != [] {
      CountTellsTrace(Front(es));
      PendingTellsTrace(Front(es));
      PendingTellsTrace(es);
      CountStep(Run(Front(es)), Last(es));
      CountedNext(es);
      hide Step, Counted, FlushedSince, LastGeometry, LastBlack;
      NextRemainder(Counted(Front(es)));
    }
  }

  /** The retrace count the guest sees. */
  function PublishedCount(es: seq<Event>): int
    decreases |es|
  {
    if es == [] then 0
    else if Publishes(Last(es)) then Counted(es) % COUNT_LIMIT
    else if Starts(es) then 0
    else PublishedCount(Front(es))
  }

  /** Over every run the guest sees the count of the last retrace that found memory up. */
  lemma {:induction false} GuestCountTellsTrace(es: seq<Event>)
    ensures Run(es).guestCount == PublishedCount(es)
    decreases |es|
  {
    if es != [] {
      GuestCountTellsTrace(Front(es));
      CountTellsTrace(es);
      PendingTellsTrace(Front(es));
      GuestStep(Run(Front(es)), Last(es));
      hide Step, Counted, FlushedSince, LastGeometry, LastBlack;
    }
  }

  lemma NextRemainder(w: int)
    ensures (w % COUNT_LIMIT + 1) % COUNT_LIMIT == (w + 1) % COUNT_LIMIT
    ensures w % 2 == 1 <==> (w + 1) % 2 == 0
  {
    NextParity(w);
    RemainderNext(w, w / COUNT_LIMIT, w % COUNT_LIMIT);
  }

  lemma NextParity(w: int)
    ensures w % 2 == 1 <==> (w + 1) % 2 == 0
  {
  }

  lemma RemainderNext(w: int, q: int, r: nat)
    requires r < COUNT_LIMIT && w == COUNT_LIMIT * q + r
    ensures (r + 1) % COUNT_LIMIT == (w + 1) % COUNT_LIMIT
  {
    if r + 1 < COUNT_LIMIT {
      RemainderIs(w + 1, q, r + 1);
      RemainderIs(r + 1, 0, r + 1);
    } else {
      RemainderIs(w + 1, q + 1, 0);
      RemainderIs(r + 1, 1, 0);
    }
  }

  lemma RemainderIs(x: int, q: int, r: nat)
    requires r < COUNT_LIMIT && x == COUNT_LIMIT * q + r
    ensures x % COUNT_LIMIT == r
  {
  }

  lemma ClockStep(s: State, e: Event)
    ensures var s' := Step(s, e);
            var starts := !s.initialized && Begins(e);
            s'.last == (if starts then e.now else s.last)
                       + (if e.call.WaitCall? then Interval(if starts then 0 else s.format) else 0)
  {
    match e.call
    case InitCall =>
    case ConfigureCall(m) =>
    case BlackCall(on) =>
    case FlushCall =>
    case WaitCall =>
    case GuestWrites(fb, fbHw) =>
  }

  lemma {:induction false} ElapsedIs(es: seq<Event>)
    ensures PalWaits(es) <= Waits(es)
    ensures Elapsed(es) == PalWaits(es) * 20_000_000 + (Waits(es) - PalWaits(es)) * 16_666_000
    decreases |es|
  {
    if es != [] {
      ElapsedIs(Front(es));
      hide ActiveFormat;
    }
  }

  /** Over every run the latest deadline is the start plus the intervals of the formats
      active at each retrace since: how late the waits were called leaves no trace. */
  lemma {:induction false} DeadlineTellsTrace(es: seq<Event>)
    ensures Run(es).last == Elapsed(es) + if Started(es) then StartTime(es) - EarlyWaits(es) * NTSC_NS else 0
    ensures Elapsed(es) == PalWaits(es) * 20_000_000 + (Waits(es) - PalWaits(es)) * 16_666_000
    decreases |es|
  {
    ElapsedIs(es);
    if es != [] {
      var before, e := Front(es), Last(es);
      DeadlineTellsTrace(before);
      PendingTellsTrace(before);
      CommitTellsTrace(before);
      ClockStep(Run(before), e);
      if !Started(before) { BeforeStart(before); }
      hide Step, FlushedSince, LastGeometry, LastBlack, LastCommit, ActiveFormat;
    }
  }

  /** Once a framebuffer is pending it stays for good. */
  lemma FramebufferSticks(s: State, e: Event)
    requires s.pendingFb != 0
    ensures Step(s, e).pendingFb == s.pendingFb
  {
    match e.call
    case InitCall =>
    case ConfigureCall(m) =>
    case BlackCall(on) =>
    case FlushCall =>
    case WaitCall =>
    case GuestWrites(fb, fbHw) =>
  }

  // ---------------------------------------------------------------- before memory is up

  lemma {:induction false} EarlyAreWaits(es: seq<Event>)
    ensures EarlyWaits(es) <= Waits(es)
    decreases |es|
  {
    if es != [] { EarlyAreWaits(Front(es)); }
  }

  lemma SameRemainderIff(w: nat, n: nat)
    requires n <= w
    ensures (w - n) % COUNT_LIMIT == w % COUNT_LIMIT <==> n % COUNT_LIMIT == 0
  {
  }

  /** The start resets count and clock: the count is the number of all waits exactly when
      nothing started yet or no early wait was lost (2^32 of them wrap to none), and the
      deadline is start plus all intervals exactly when there was no early wait. */
  lemma CountsAllWaitsIff(es: seq<Event>)
    ensures var s := Run(es);
            s.count == Waits(es) % COUNT_LIMIT <==> !Started(es) || EarlyWaits(es) % COUNT_LIMIT == 0
    ensures Started(es) ==> (Run(es).last == StartTime(es) + Elapsed(es) <==> EarlyWaits(es) == 0)
  {
    hide Run, Waits, Started, EarlyWaits, StartTime, Elapsed;
    CountTellsTrace(es);
    EarlyAreWaits(es);
    SameRemainderIff(Waits(es), EarlyWaits(es));
    DeadlineTellsTrace(es);
  }
}

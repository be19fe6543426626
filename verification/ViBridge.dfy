/** The video-interface bridges as they run, on the host's variables and the guest's
    globals. */
module ViBridge {
  import opened Vi

  class Registers {
    var initialized: bool
    var pending: Geometry
    var pendingBlack: bool
    var pendingFb: int
    var armed: bool
    var format: nat
    var black: bool
    var fb: int
    var count: nat
    var fieldOdd: bool
    var last: int
    var guest: Geometry
    var guestCount: nat
    var guestFb: int
    var guestFbHw: int

    function Value(): State
      reads this
    {
      State(initialized, pending, pendingBlack, pendingFb, armed, format, black, fb, count, fieldOdd, last,
            guest, guestCount, guestFb, guestFbHw)
    }

    constructor ()
      ensures Value() == Power()
    {
      initialized, pendingBlack, pendingFb, armed := false, false, 0, false;
      pending, guest := Geometry(0, 640, 480, 640, 480), Geometry(0, 0, 0, 0, 0);
      format, black, fb, count, fieldOdd, last := 0, false, 0, 0, false, 0;
      guestCount, guestFb, guestFbHw := 0, 0, 0;
    }

    /** The defaults among the guest's globals. */
    method SeedGuest()
      modifies this`guest, this`guestCount, this`guestFb, this`guestFbHw
      ensures guest == Geometry(0, 640, 480, 640, 480) && guestCount == guestFb == guestFbHw == 0
    {
      guest := Geometry(0, 640, 480, 640, 480);
      guestCount := 0;
      guestFb := 0;
      guestFbHw := 0;
    }

    method ViInit(ready: bool, now: int)
      modifies this
      ensures Value() == Init(old(Value()), ready, now)
    {
      if !ready {
        return;
      }
      if initialized {
        return;
      }
      initialized := true;
      SeedGuest();
      format := 0;
      count := 0;
      fieldOdd := false;
      last := now;
    }

    /** VIConfigure on a readable mode object. */
    method ViConfigure(m: Mode, ready: bool, now: int)
      modifies this
      ensures Value() == Configure(old(Value()), m, ready, now)
    {
      if !ready {
        return;
      }
      ViInit(ready, now);
      pending := pending.(format := m.tvMode / 4 % 8);
      pending := pending.(renderWidth := if m.viWidth != 0 then m.viWidth else m.fbWidth);
      pending := pending.(renderHeight := if m.viHeight != 0 then m.viHeight else m.xfbHeight);
      pending := pending.(xfbWidth := m.fbWidth);
      pending := pending.(xfbHeight := if m.xfbHeight != 0 then m.xfbHeight else m.efbHeight);
    }

    method ViSetBlack(on: bool, ready: bool, now: int)
      modifies this
      ensures Value() == SetBlack(old(Value()), on, ready, now)
    {
      ViInit(ready, now);
      pendingBlack := on;
    }

    method ViFlush(ready: bool, now: int)
      modifies this
      ensures Value() == Flush(old(Value()), ready, now)
    {
      ViInit(ready, now);
      if ready && pendingFb == 0 {
        var found := guestFb;
        if found == 0 {
          found := guestFbHw;
        }
        if found != 0 {
          pendingFb := found;
        }
      }
      armed := true;
    }

    /** mkw_switch_hle_vi_commit_pending_config. */
    method CommitPendingConfig(ready: bool) returns (committed: nat)
      modifies this`guest
      ensures committed == pending.format
      ensures guest == if ready then pending else old(guest)
    {
      if ready {
        guest := pending;
      }
      committed := pending.format;
    }

    /** The commit of AdvanceRetrace: only what a flush armed. */
    method CommitArmed(ready: bool)
      modifies this`armed, this`guest, this`format, this`black, this`fb
      ensures Value() == if old(armed) then Commit(old(Value()), ready) else old(Value())
    {
      if armed {
        armed := false;
        var committed := CommitPendingConfig(ready);
        format := committed;
        black := pendingBlack;
        fb := pendingFb;
      }
    }

    /** AdvanceRetrace at the deadline computed for it. */
    method AdvanceRetrace(ready: bool, target: int)
      requires target == last + Interval(format)
      modifies this
      ensures Value() == Advance(old(Value()), ready) && last == target
    {
      hide Commit, Interval;
      CommitArmed(ready);
      count := (count + 1) % COUNT_LIMIT;
      fieldOdd := !fieldOdd;
      last := target;
      if ready {
        guestCount := count;
        guestFb := pendingFb;
        guestFbHw := pendingFb;
      }
    }

    /** VIWaitForRetrace: sleeps up to the next deadline and advances one retrace. It
        never comes back before the deadline. `later` is its second look at the clock. */
    method ViWaitForRetrace(ready: bool, now: int, later: int) returns (slept: nat)
      modifies this
      ensures Value() == Wait(old(Value()), ready, now)
      ensures later + slept >= last && (slept > 0 ==> later + slept == last)
    {
      ViInit(ready, now);
      var target := last + Interval(format);
      slept := 0;
      if later < target {
        slept := target - later;
      }
      hide Advance, Init;
      AdvanceRetrace(ready, target);
    }
  }
}

/** The guest interrupt state that every OS bridge brackets itself with. */
module Interrupts {
  import opened Guest

  /** The host-side flag and bit 1 of each OSContext's mode flags. */
  class InterruptState {
    var enabled: bool
    var modeBit: map<Ptr, bool>

    constructor ()
      ensures enabled && modeBit == map[]
    {
      enabled := true;
      modeBit := map[];
    }

    /** UpdateCurrentContextInterruptFlag: mirrors the flag into the current context. */
    method Mirror(current: Ptr, on: bool)
      modifies this`modeBit
      ensures modeBit == if current == 0 then old(modeBit) else old(modeBit)[current := on]
    {
      if current != 0 {
        modeBit := modeBit[current := on];
      }
    }

    method Disable(current: Ptr) returns (previous: bool)
      modifies this
      ensures previous == old(enabled) && !enabled
      ensures modeBit == if current == 0 then old(modeBit) else old(modeBit)[current := false]
    {
      previous := enabled;
      enabled := false;
      Mirror(current, false);
    }

    method Restore(current: Ptr, on: bool) returns (previous: bool)
      modifies this
      ensures previous == old(enabled) && enabled == on
      ensures modeBit == if current == 0 then old(modeBit) else old(modeBit)[current := on]
    {
      previous := enabled;
      enabled := on;
      Mirror(current, on);
    }
  }
}
